/**
  The scanner reads tokens: every line it scans is the sequence of tokens that the line can be
  read as, and the state it reaches is what writing down those tokens gives, whether comments
  are kept or removed.
 */
module Lexing {
  import opened Shared
  import opened Scanner
  import opened Tokens

  function Simple(kind: Kind, source: seq<char>, server: bool): Token {
    Token(kind, source, [], server)
  }

  /** The token a short command makes; when the client quits, nothing behind it is read. */
  function CommandAt(env: Env, s: seq<char>, i: nat, st: Scan): Token
    requires i + 1 < |s|
  {
    var st1 := SendShort(env, s, i, st);
    var j := if env.reply(st1.sent).quit then i + 2
             else AfterShortCommand(env, s, i, st.inServerComment, st1.mode.delimiter);
    Token(Command, s[i..j], s[i..], st.inServerComment)
  }

  function EscapeAt(env: Env, s: seq<char>, i: nat, st: Scan): Token
    requires i < |s|
  {
    var c := At(s, i + 1);
    if c == NUL then Simple(LoneBackslash, s[i..], st.inServerComment)
    else if st.quote != NUL || c == 'N' then Simple(Pair, ['\\', c], st.inServerComment)
    else if env.isShortCommand(c) then CommandAt(env, s, i, st)
    else
      var kind := if env.reply(st.sent + [UnknownCommand(c)]).quit then Refusal else UnknownPair;
      Simple(kind, ['\\', c], st.inServerComment)
  }

  function SeparatorAt(env: Env, s: seq<char>, i: nat, d: seq<char>, server: bool): Token
    requires PrefixAt(s, i, d)
  {
    var k := StatementEnd(env, s, i, d);
    Token(Separator, s[i..k], s[i + |d|..k], server)
  }

  function TokenAt(env: Env, s: seq<char>, i: nat, st: Scan): Token
    requires i < |s|
  {
    var server := st.inServerComment;
    match RuleAt(env, s, i, st)
    case LeadingSpace => Simple(White, [s[i]], server)
    case Escape => EscapeAt(env, s, i, st)
    case Delimiter => SeparatorAt(env, s, i, st.mode.delimiter, server)
    case ToLineEnd => Simple(RestOfLine, s[i..], server)
    case Open => Simple(OpenMark, ['/', '*'], server)
    case Close => Simple(CloseMark, ['*', '/'], server)
    case Plain => Simple(if st.inComment then Inside else Take, [s[i]], NextServerComment(st, s, i))
  }

  /** The page shows the scanner's state. */
  predicate Shown(env: Env, p: Page, st: Scan) {
    && p.text == st.text && p.quote == st.quote && p.inComment == st.inComment && p.due == st.needSpace
    && p.mode == st.mode && p.sent == st.sent && !p.over && p.mark == st.mark && p.server == st.inServerComment
    && st.mark <= |st.text| && (st.inComment && !env.preserveComments ==> st.mark == |st.text|)
    && Exclusive(st.quote, st.inComment)
  }

  /** A step of the scanner is a token. */
  predicate StepShown(env: Env, s: seq<char>, i: nat, e: Ending, r: Step, p: Page, t: Token) {
    && CanRead(env, p, t, s, i, e)
    && match r
       case Next(st1, j) => j == i + |t.source| && Shown(env, Write(env, p, t), st1)
       case Stop(st1) => |s| == i + |t.source| && Shown(env, Write(env, p, t), st1)
       case Quit(st1) => Write(env, p, t).over && Write(env, p, t).sent == st1.sent
  }

  lemma LoneShown(env: Env, s: seq<char>, i: nat, e: Ending, st: Scan, p: Page)
    requires i < |s| && Shown(env, p, st) && RuleAt(env, s, i, st) == Escape && At(s, i + 1) == NUL
    ensures StepShown(env, s, i, e, EscapeStep(env, s, i, st), p, EscapeAt(env, s, i, st))
  {
  }

  lemma PairShown(env: Env, s: seq<char>, i: nat, e: Ending, st: Scan, p: Page)
    requires i + 1 < |s| && Shown(env, p, st) && RuleAt(env, s, i, st) == Escape && s[i + 1] != NUL
    requires st.quote != NUL || s[i + 1] == 'N'
    ensures StepShown(env, s, i, e, EscapeStep(env, s, i, st), p, EscapeAt(env, s, i, st))
  {
    assert s[i..i + 2] == ['\\', s[i + 1]];
  }

  lemma UnknownShown(env: Env, s: seq<char>, i: nat, e: Ending, st: Scan, p: Page)
    requires i + 1 < |s| && Shown(env, p, st) && RuleAt(env, s, i, st) == Escape && s[i + 1] != NUL
    requires st.quote == NUL && s[i + 1] != 'N' && !env.isShortCommand(s[i + 1])
    ensures StepShown(env, s, i, e, EscapeStep(env, s, i, st), p, EscapeAt(env, s, i, st))
  {
    assert s[i..i + 2] == ['\\', s[i + 1]];
  }

  lemma EscapeShown(env: Env, s: seq<char>, i: nat, e: Ending, st: Scan, p: Page)
    requires i < |s| && Shown(env, p, st) && RuleAt(env, s, i, st) == Escape
    ensures StepShown(env, s, i, e, EscapeStep(env, s, i, st), p, EscapeAt(env, s, i, st))
  {
    hide StepShown, ShortCommandStep, CommandAt;
    var c := At(s, i + 1);
    if c == NUL {
      LoneShown(env, s, i, e, st, p);
    } else if st.quote != NUL || c == 'N' {
      PairShown(env, s, i, e, st, p);
    } else if env.isShortCommand(c) {
      CommandShown(env, s, i, e, st, p);
    } else {
      UnknownShown(env, s, i, e, st, p);
    }
  }

  lemma CommandReads(env: Env, s: seq<char>, i: nat, e: Ending, st: Scan, p: Page)
    requires i + 1 < |s| && Shown(env, p, st) && !st.inComment && st.quote == NUL
    requires RuleAt(env, s, i, st) == Escape && s[i + 1] != NUL && s[i + 1] != 'N' && env.isShortCommand(s[i + 1])
    ensures CanRead(env, p, CommandAt(env, s, i, st), s, i, e)
    ensures At(CommandAt(env, s, i, st).source, 1) == s[i + 1]
  {
    assert CommandAt(env, s, i, st).source[1] == s[i + 1];
  }

  lemma CommandShown(env: Env, s: seq<char>, i: nat, e: Ending, st: Scan, p: Page)
    requires i + 1 < |s| && Shown(env, p, st) && !st.inComment && st.quote == NUL
    requires RuleAt(env, s, i, st) == Escape && s[i + 1] != NUL && s[i + 1] != 'N' && env.isShortCommand(s[i + 1])
    ensures StepShown(env, s, i, e, ShortCommandStep(env, s, i, st), p, CommandAt(env, s, i, st))
  {
    hide CanRead, AfterShortCommand, RuleAt, At;
    CommandReads(env, s, i, e, st, p);
  }

  lemma DelimiterStands(env: Env, s: seq<char>, i: nat, st: Scan)
    requires i < |s| && RuleAt(env, s, i, st) == Delimiter
    ensures PrefixAt(s, i, st.mode.delimiter)
  {
  }

  lemma SeparatorStands(env: Env, s: seq<char>, i: nat, d: seq<char>, server: bool)
    requires i < |s| && PrefixAt(s, i, d) && d != []
    ensures var t, k := SeparatorAt(env, s, i, d, server), StatementEnd(env, s, i, d);
      && t.kind == Separator && Shaped(t) && PrefixAt(s, i, t.source) && i + |t.source| == k
      && |t.source| == |d| + |t.args| && t.args == s[i + |d|..k] && t.server == server
  {
    var t := SeparatorAt(env, s, i, d, server);
    assert t.source[|t.source| - |t.args|..] == t.args;
  }

  lemma SeparatorReads(env: Env, s: seq<char>, i: nat, e: Ending, st: Scan, p: Page)
    requires i < |s| && Shown(env, p, st) && RuleAt(env, s, i, st) == Delimiter
    ensures CanRead(env, p, SeparatorAt(env, s, i, st.mode.delimiter, st.inServerComment), s, i, e)
  {
    hide SeparatorAt, StatementEnd, Shaped;
    SeparatorStands(env, s, i, st.mode.delimiter, st.inServerComment);
  }

  lemma SeparatorWrites(env: Env, p: Page, t: Token)
    requires t.kind == Separator
    ensures var q, sent := Write(env, p, t), p.sent + [Statement(p.text + t.args)];
      && q.text == [] && q.sent == sent && q.mode == env.reply(sent).mode && q.over == env.reply(sent).quit
      && q.quote == p.quote && q.inComment == p.inComment && q.due == p.due && q.mark == 0 && q.server == t.server
  {
  }

  lemma DelimiterSteps(env: Env, s: seq<char>, i: nat, st: Scan)
    requires i < |s| && PrefixAt(s, i, st.mode.delimiter)
    ensures var k := StatementEnd(env, s, i, st.mode.delimiter);
      var sent := st.sent + [Statement(st.text + s[i + |st.mode.delimiter|..k])];
      var r, step := env.reply(sent), DelimiterStep(env, s, i, st);
      if r.quit then step.Quit? && step.final.sent == sent
      else step == Next(st.(sent := sent, text := [], mark := 0, mode := r.mode), k)
  {
  }

  lemma DelimiterShown(env: Env, s: seq<char>, i: nat, e: Ending, st: Scan, p: Page)
    requires i < |s| && Shown(env, p, st) && RuleAt(env, s, i, st) == Delimiter
    ensures StepShown(env, s, i, e, DelimiterStep(env, s, i, st), p,
                      SeparatorAt(env, s, i, st.mode.delimiter, st.inServerComment))
  {
    hide SeparatorAt, StatementEnd, CanRead, Write, RuleAt, PrefixAt, DelimiterStep;
    DelimiterStands(env, s, i, st);
    DelimiterSteps(env, s, i, st);
    SeparatorStands(env, s, i, st.mode.delimiter, st.inServerComment);
    SeparatorReads(env, s, i, e, st, p);
    SeparatorWrites(env, p, SeparatorAt(env, s, i, st.mode.delimiter, st.inServerComment));
  }

  lemma MarkReads(env: Env, s: seq<char>, i: nat, e: Ending, st: Scan, p: Page)
    requires i < |s| && Shown(env, p, st)
    ensures RuleAt(env, s, i, st) == Open ==> CanRead(env, p, Simple(OpenMark, ['/', '*'], st.inServerComment), s, i, e)
    ensures RuleAt(env, s, i, st) == Close ==>
        CanRead(env, p, Simple(CloseMark, ['*', '/'], st.inServerComment), s, i, e)
  {
    if i + 1 < |s| {
      assert s[i..i + 2] == [s[i], s[i + 1]];
    }
  }

  lemma OpenShown(env: Env, s: seq<char>, i: nat, e: Ending, st: Scan, p: Page)
    requires i < |s| && Shown(env, p, st) && RuleAt(env, s, i, st) == Open
    ensures StepShown(env, s, i, e, OpenStep(env, i, st), p, Simple(OpenMark, ['/', '*'], st.inServerComment))
  {
    MarkReads(env, s, i, e, st, p);
    assert st.quote == NUL;
    hide CanRead, RuleAt;
  }

  lemma CloseShown(env: Env, s: seq<char>, i: nat, e: Ending, st: Scan, p: Page)
    requires i < |s| && Shown(env, p, st) && RuleAt(env, s, i, st) == Close
    ensures StepShown(env, s, i, e, CloseStep(env, i, st), p, Simple(CloseMark, ['*', '/'], st.inServerComment))
  {
    hide CanRead, RuleAt;
    MarkReads(env, s, i, e, st, p);
  }

  lemma RestReads(env: Env, s: seq<char>, i: nat, e: Ending, st: Scan, p: Page)
    requires i < |s| && Shown(env, p, st) && RuleAt(env, s, i, st) == ToLineEnd
    ensures !st.inComment && CanRead(env, p, Simple(RestOfLine, s[i..], st.inServerComment), s, i, e)
  {
  }

  lemma RestShown(env: Env, s: seq<char>, i: nat, e: Ending, st: Scan, p: Page)
    requires i < |s| && Shown(env, p, st) && RuleAt(env, s, i, st) == ToLineEnd
    ensures StepShown(env, s, i, e, LineCommentStep(env, s, i, st), p, Simple(RestOfLine, s[i..], st.inServerComment))
  {
    hide CanRead, RuleAt;
    RestReads(env, s, i, e, st, p);
  }

  lemma CharReads(env: Env, s: seq<char>, i: nat, e: Ending, st: Scan, p: Page)
    requires i < |s| && Shown(env, p, st) && RuleAt(env, s, i, st) == Plain
    ensures CanRead(env, p, Simple(if st.inComment then Inside else Take, [s[i]], NextServerComment(st, s, i)), s, i, e)
  {
    assert s[i..i + 1] == [s[i]];
  }

  lemma CharShown(env: Env, s: seq<char>, i: nat, e: Ending, st: Scan, p: Page)
    requires i < |s| && Shown(env, p, st) && RuleAt(env, s, i, st) == Plain
    ensures var t := Simple(if st.inComment then Inside else Take, [s[i]], NextServerComment(st, s, i));
      StepShown(env, s, i, e, CharStep(env, s, i, st), p, t)
  {
    hide CanRead, RuleAt, NextServerComment;
    CharReads(env, s, i, e, st, p);
    Associate(st.text, [' '], [s[i]]);
    assert [] + [s[i]] == [s[i]];
  }

  lemma WhiteShown(env: Env, s: seq<char>, i: nat, e: Ending, st: Scan, p: Page)
    requires i < |s| && Shown(env, p, st) && RuleAt(env, s, i, st) == LeadingSpace
    ensures StepShown(env, s, i, e, Next(st, i + 1), p, Simple(White, [s[i]], st.inServerComment))
  {
    assert s[i..i + 1] == [s[i]];
  }

  /** Every step of the scanner reads one token. */
  lemma StepIsToken(env: Env, s: seq<char>, i: nat, e: Ending, st: Scan, p: Page)
    requires i < |s| && Shown(env, p, st)
    ensures StepShown(env, s, i, e, StepAt(env, s, i, st), p, TokenAt(env, s, i, st))
  {
    hide StepShown, EscapeStep, DelimiterStep, LineCommentStep, OpenStep, CloseStep, CharStep, RuleAt, SeparatorAt,
         EscapeAt;
    match RuleAt(env, s, i, st) {
      case LeadingSpace => WhiteShown(env, s, i, e, st, p);
      case Escape => EscapeShown(env, s, i, e, st, p);
      case Delimiter =>
        DelimiterStands(env, s, i, st);
        DelimiterShown(env, s, i, e, st, p);
      case ToLineEnd => RestShown(env, s, i, e, st, p);
      case Open => OpenShown(env, s, i, e, st, p);
      case Close => CloseShown(env, s, i, e, st, p);
      case Plain => CharShown(env, s, i, e, st, p);
    }
  }

  // ---------------------------------------------------------------- a line

  /** What is kept of a whole line. */
  predicate ScanKeepsNewline(env: Env, st: Scan) {
    && st.text != [] && (st.inComment ==> env.preserveComments)
    && !(!st.inComment && st.quote == NUL && st.mark <= |st.text| && IsDelimiterCommand(env, st.text[st.mark..]))
  }

  function EndToken(env: Env, st: Scan, e: Ending): Token {
    match e
    case Cut => Simple(CutEnd, [], false)
    case Whole(chars) => Simple(if ScanKeepsNewline(env, st) then Newline else LineEnd, chars, false)
  }

  /** The tokens of a line from i on, with its ending. */
  function ScanTokens(env: Env, s: seq<char>, i: nat, st: Scan, e: Ending): seq<Token>
    decreases |s| - i
  {
    if i >= |s| then [EndToken(env, st, e)]
    else
      [TokenAt(env, s, i, st)]
      + match StepAt(env, s, i, st)
        case Next(st1, j) => ScanTokens(env, s, j, st1, e)
        case Stop(st1) => [EndToken(env, st1, e)]
        case Quit(_) => []
  }

  /** The page shows what is left of the line. */
  predicate Ended(env: Env, r: Outcome, e: Ending, q: Page) {
    match r
    case Done(st) =>
      && st.mark <= |st.text| && q.text == EndOfLine(env, st, e.Cut?) && q.quote == st.quote
      && q.inComment == st.inComment && q.mode == st.mode && q.sent == st.sent
      && !q.due && !q.over && !q.server && q.mark == |q.text| && Exclusive(q.quote, q.inComment)
    case Quitting(st) => q.over && q.sent == st.sent
  }

  lemma EndRead(env: Env, st: Scan, e: Ending, p: Page, s: seq<char>)
    requires Shown(env, p, st) && WellEnded(e)
    ensures CanRead(env, p, EndToken(env, st, e), s, |s|, e)
  {
  }

  lemma EndWritten(env: Env, st: Scan, e: Ending, p: Page)
    requires Shown(env, p, st)
    ensures Ended(env, Done(st), e, Write(env, p, EndToken(env, st, e)))
  {
    hide IsDelimiterCommand;
    assert st.mark == |st.text| ==> st.text[..st.mark] == st.text;
    assert st.text + [] == st.text;
  }

  lemma ReadsEnd(env: Env, p: Page, t: Token, s: seq<char>, e: Ending)
    requires CanRead(env, p, t, s, |s|, e)
    ensures Reads(env, p, [t], s, |s|, e) && WriteAll(env, p, [t]) == Write(env, p, t)
  {
    hide CanRead, Write;
    assert [t][1..] == [];
  }

  lemma ReadsOne(env: Env, p: Page, t: Token, more: seq<Token>, s: seq<char>, i: nat, e: Ending, q: Page)
    requires CanRead(env, p, t, s, i, e) && q == Write(env, p, t) && i < |s|
    requires Reads(env, q, more, s, i + |t.source|, e)
    ensures Reads(env, p, [t] + more, s, i, e)
    ensures WriteAll(env, p, [t] + more) == WriteAll(env, q, more)
  {
    hide Write, CanRead;
    assert ([t] + more)[1..] == more;
  }

  lemma TokenFits(env: Env, p: Page, t: Token, s: seq<char>, i: nat, e: Ending)
    requires CanRead(env, p, t, s, i, e) && i < |s|
    ensures i + |t.source| <= |s|
  {
  }

  /** The scan of a line is its reading. */
  lemma {:induction false} ScanReads(env: Env, s: seq<char>, i: nat, st: Scan, e: Ending, p: Page)
    requires i <= |s| && Shown(env, p, st) && WellEnded(e)
    ensures Reads(env, p, ScanTokens(env, s, i, st, e), s, i, e)
    ensures Ended(env, ScanFrom(env, s, i, st), e, WriteAll(env, p, ScanTokens(env, s, i, st, e)))
    decreases |s| - i
  {
    hide CanRead, Write, Shown, StepAt, TokenAt, EndToken, Ended;
    if i == |s| {
      EndOfScan(env, s, st, e, p);
    } else {
      var r, t := StepAt(env, s, i, st), TokenAt(env, s, i, st);
      var q := Write(env, p, t);
      StepIsToken(env, s, i, e, st, p);
      TokenFits(env, p, t, s, i, e);
      ScanStep(env, s, i, st, r);
      var more := ScanTokens(env, s, i, st, e)[1..];
      if r.Next? {
        ScanReads(env, s, r.at, r.st, e, q);
      } else if r.Stop? {
        EndOfScan(env, s, r.last, e, q);
      } else {
        OverEnds(env, r.final, e, q, s, i + |t.source|);
      }
      ReadsOne(env, p, t, more, s, i, e, q);
      assert ScanTokens(env, s, i, st, e) == [t] + more;
    }
  }

  lemma EndOfScan(env: Env, s: seq<char>, st: Scan, e: Ending, p: Page)
    requires Shown(env, p, st) && WellEnded(e)
    ensures Reads(env, p, [EndToken(env, st, e)], s, |s|, e)
    ensures Ended(env, Done(st), e, WriteAll(env, p, [EndToken(env, st, e)]))
  {
    hide CanRead, Write, EndToken, Ended;
    EndRead(env, st, e, p, s);
    EndWritten(env, st, e, p);
    ReadsEnd(env, p, EndToken(env, st, e), s, e);
  }

  lemma OverEnds(env: Env, st: Scan, e: Ending, q: Page, s: seq<char>, i: nat)
    requires q.over && q.sent == st.sent
    ensures Reads(env, q, [], s, i, e) && Ended(env, Quitting(st), e, WriteAll(env, q, []))
  {
  }

  /** The tokens of a whole line or piece. */
  function LineTokens(env: Env, c: Carry, s: seq<char>, e: Ending): seq<Token> {
    ScanTokens(env, s, 0, Start(c), e)
  }

  /** The page shows what the client keeps between lines. */
  predicate Between(p: Page, c: Carry) {
    && p.sent == c.sent && p.over == c.quit
    && (!c.quit ==> p.text == c.text && p.quote == c.quote && p.inComment == c.inComment && p.mode == c.mode
                    && !p.due && p.mark == |p.text| && !p.server && Exclusive(c.quote, c.inComment))
  }

  /** One line or piece of a line is read as tokens. */
  lemma LineIsTokens(env: Env, c: Carry, s: seq<char>, e: Ending, p: Page)
    requires Between(p, c) && !c.quit && WellEnded(e)
    ensures Reads(env, p, LineTokens(env, c, s, e), s, 0, e)
    ensures Between(WriteAll(env, p, LineTokens(env, c, s, e)), ScanLine(env, c, s, e.Cut?))
  {
    hide Reads, WriteAll, ScanTokens, StepAt;
    var r := ScanFrom(env, s, 0, Start(c));
    ScanReads(env, s, 0, Start(c), e, p);
    if s == [] && c.text == [] {
      assert r == Done(Start(c));
    } else {
      ScanLineResult(env, c, s, e.Cut?, r);
    }
  }

  // ---------------------------------------------------------------- when nothing is joined

  /**
    No client command is taken inside a statement, no pair is kept while a space is due, a
    comment kept behind a delimiter comes after white space, and no line ends in what could
    be a DELIMITER command.
   */
  predicate Gentle(env: Env, p: Page, t: Token) {
    && t.kind != Command && (t.kind == CommandLine ==> p.text == [])
    && (IsPair(t) ==> !p.due)
    && (t.kind == Separator && t.args != [] ==> env.isSpace(t.args[0]))
    && (t.kind == LineEnd ==> !InDelimiterCommand(env, p))
  }

  predicate AllGentle(env: Env, p: Page, ts: seq<Token>)
    decreases |ts|
  {
    ts == [] || (Gentle(env, p, ts[0]) && AllGentle(env, Write(env, p, ts[0]), ts[1..]))
  }

  predicate Quiet(env: Env, p: Page) {
    Exposed(env, p) ==> !env.preserveComments && (p.inComment || p.due)
  }

  /** Between lines only a removed comment can have left something out. */
  predicate Settled(env: Env, p: Page) {
    Exposed(env, p) ==> !env.preserveComments && p.inComment
  }

  lemma QuietNeverTrips(env: Env, p: Page, t: Token, s: seq<char>, i: nat, e: Ending)
    requires Quiet(env, p) && Gentle(env, p, t) && CanRead(env, p, t, s, i, e) && i < |s|
    ensures !Trips(env, p, t)
  {
  }

  /** Quiet stays quiet, as far as the line goes on. */
  lemma StaysQuiet(env: Env, p: Page, t: Token, s: seq<char>, i: nat, e: Ending)
    requires Quiet(env, p) && Gentle(env, p, t) && CanRead(env, p, t, s, i, e) && i < |s|
    ensures var q := Write(env, p, t); q.over || i + |t.source| == |s| || Quiet(env, q)
  {
    match t.kind {
      case Take =>
      case Pair =>
      case UnknownPair =>
      case Separator =>
      case Refusal =>
      case White =>
      case OpenMark =>
      case Inside =>
      case CloseMark =>
      case _ =>
    }
  }

  /** A line that is not cut leaves nothing to be joined to the next one, except in a comment. */
  lemma EndSettles(env: Env, p: Page, t: Token, e: Ending)
    requires ValidEnv(env) && Gentle(env, p, t) && LegalEnd(env, p, t, e) && e.Whole?
    ensures Settled(env, Write(env, p, t)) && !Trips(env, p, t)
  {
  }

  /** Gentle tokens of a line that is not cut join nothing. */
  lemma {:induction false} ReadsQuiet(
      env: Env, p: Page, ts: seq<Token>, s: seq<char>, i: nat, e: Ending, last: Page)
    requires ValidEnv(env) && Reads(env, p, ts, s, i, e) && AllGentle(env, p, ts) && e.Whole?
    requires last == WriteAll(env, p, ts) && (p.over || i == |s| || Quiet(env, p))
    ensures !Tripped(env, p, ts) && (last.over || Settled(env, last))
    decreases |ts|
  {
    hide Write, Trips, Gentle, Quiet, Settled, Legal, LegalEnd, Noted;
    if ts != [] {
      var q := Write(env, p, ts[0]);
      if i == |s| {
        EndSettles(env, p, ts[0], e);
      } else {
        QuietNeverTrips(env, p, ts[0], s, i, e);
        StaysQuiet(env, p, ts[0], s, i, e);
        ReadsQuiet(env, q, ts[1..], s, i + |ts[0].source|, e, last);
      }
    }
  }

  // ---------------------------------------------------------------- plain lines

  predicate NameAt(env: Env, s: seq<char>, k: nat) {
    k + DELIMITER_NAME_LEN <= |s| && env.isDelimiterName(s[k..k + DELIMITER_NAME_LEN])
  }

  /** The word DELIMITER starts at no place of the line. */
  ghost predicate DelimiterFree(env: Env, s: seq<char>) {
    forall k: nat :: !NameAt(env, s, k)
  }

  /** It does not start with a space. */
  ghost predicate ProperName(env: Env) {
    forall t :: env.isDelimiterName(t) ==> t != [] && t[0] != ' '
  }

  /** Characters of a line up to i, with a space before them where a comment was. */
  predicate Chunk(c: seq<char>, s: seq<char>, i: nat) {
    && i <= |s|
    && (|| (|c| <= i && c == s[i - |c|..i])
        || (c != [] && c[0] == ' ' && |c| <= i + 1 && c[1..] == s[i + 1 - |c|..i]))
  }

  /** Such is what the page has of this line. */
  predicate ChunkOf(p: Page, s: seq<char>, i: nat) {
    p.mark <= |p.text| && (p.due || p.inComment ==> p.mark == |p.text|) && Chunk(p.text[p.mark..], s, i)
  }

  lemma NoDelimiterName(env: Env, c: seq<char>, s: seq<char>, i: nat)
    requires Chunk(c, s, i) && DelimiterFree(env, s) && ProperName(env)
    ensures !IsDelimiterCommand(env, c)
  {
    if |c| >= DELIMITER_NAME_LEN && |c| <= i && c == s[i - |c|..i] {
      var k := i - |c|;
      assert c[..DELIMITER_NAME_LEN] == s[k..k + DELIMITER_NAME_LEN];
      assert !NameAt(env, s, k);
    }
  }

  lemma NoDelimiterCommand(env: Env, p: Page, s: seq<char>, i: nat)
    requires ChunkOf(p, s, i) && DelimiterFree(env, s) && ProperName(env)
    ensures !InDelimiterCommand(env, p)
  {
    NoDelimiterName(env, p.text[p.mark..], s, i);
  }

  lemma ChunkMore(c: seq<char>, s: seq<char>, i: nat)
    requires Chunk(c, s, i) && i < |s|
    ensures Chunk(c + [s[i]], s, i + 1)
  {
    var c' := c + [s[i]];
    if |c| <= i && c == s[i - |c|..i] {
      assert c' == s[i + 1 - |c'|..i + 1];
    } else {
      assert c'[1..] == c[1..] + [s[i]];
      assert c'[1..] == s[i + 1 - |c|..i + 1];
    }
  }

  lemma ChunkSpaced(s: seq<char>, i: nat)
    requires i < |s|
    ensures Chunk([' '] + [s[i]], s, i + 1)
  {
    assert ([' '] + [s[i]])[1..] == s[i..i + 1];
  }

  lemma TakeWrites(env: Env, p: Page, t: Token)
    requires t.kind == Take && |t.source| == 1
    ensures var q := Write(env, p, t);
      && q.mark == p.mark && q.inComment == p.inComment && !q.due
      && q.text == p.text + (if p.due && !env.isSpace(t.source[0]) then [' '] + t.source else t.source)
  {
    Associate(p.text, [' '], t.source);
  }

  lemma ChunkOfText(text: seq<char>, mark: nat, more: seq<char>)
    requires mark <= |text|
    ensures (text + more)[mark..] == text[mark..] + more
  {
  }

  lemma TakeChunk(env: Env, p: Page, t: Token, s: seq<char>, i: nat)
    requires ChunkOf(p, s, i) && i < |s| && t.kind == Take && t.source == [s[i]] && !p.inComment
    ensures ChunkOf(Write(env, p, t), s, i + 1)
  {
    hide Write, Chunk;
    var more := if p.due && !env.isSpace(s[i]) then [' '] + t.source else t.source;
    TakeWrites(env, p, t);
    ChunkOfText(p.text, p.mark, more);
    ChunkMore(p.text[p.mark..], s, i);
    ChunkSpaced(s, i);
    if p.due {
      assert p.text[p.mark..] == [];
      assert [] + more == more;
    }
  }

  lemma EmptyChunk(p: Page, s: seq<char>, i: nat)
    requires p.mark == |p.text| && i <= |s|
    ensures ChunkOf(p, s, i)
  {
  }

  lemma PlainFlushes(env: Env, p: Page, t: Token, s: seq<char>, i: nat, e: Ending)
    requires ChunkOf(p, s, i) && CanRead(env, p, t, s, i, e) && i < |s| && s[i] != '\\' && !env.preserveComments
    ensures var q := Write(env, p, t);
      t.kind != Take ==> q.mark == |q.text|
  {
  }

  /** Lines without backslashes and without that word have gentle tokens, when comments are removed. */
  lemma {:induction false} PlainIsGentle(env: Env, p: Page, ts: seq<Token>, s: seq<char>, i: nat, e: Ending)
    requires !env.preserveComments && Reads(env, p, ts, s, i, e) && '\\' !in s
    requires DelimiterFree(env, s) && ProperName(env) && ChunkOf(p, s, i)
    ensures AllGentle(env, p, ts)
    decreases |ts|
  {
    hide Write, Legal, LegalEnd, Noted, Gentle, ChunkOf, DelimiterFree, ProperName;
    if ts != [] {
      NoDelimiterCommand(env, p, s, i);
      PlainGentle(env, p, ts[0], s, i, e);
      if i != |s| {
        assert s[i] in s;
        TokenFits(env, p, ts[0], s, i, e);
        PlainChunk(env, p, ts[0], s, i, e);
        PlainIsGentle(env, Write(env, p, ts[0]), ts[1..], s, i + |ts[0].source|, e);
      }
    }
  }

  lemma PlainChunk(env: Env, p: Page, t: Token, s: seq<char>, i: nat, e: Ending)
    requires ChunkOf(p, s, i) && CanRead(env, p, t, s, i, e) && i < |s| && s[i] != '\\' && !env.preserveComments
    ensures ChunkOf(Write(env, p, t), s, i + |t.source|)
  {
    hide Write, ChunkOf;
    PlainFlushes(env, p, t, s, i, e);
    if t.kind == Take {
      assert t.source == s[i..i + 1] == [s[i]];
      TakeChunk(env, p, t, s, i);
    } else {
      EmptyChunk(Write(env, p, t), s, i + |t.source|);
    }
  }

  lemma PlainGentle(env: Env, p: Page, t: Token, s: seq<char>, i: nat, e: Ending)
    requires CanRead(env, p, t, s, i, e) && '\\' !in s && !env.preserveComments && !InDelimiterCommand(env, p)
    ensures Gentle(env, p, t)
  {
    hide InDelimiterCommand, OpensComment, ClosesComment, IsLineComment;
    assert i < |s| ==> s[i] in s;
  }
}
