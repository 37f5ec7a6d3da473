/**
  A reference reading of the splitter's input: every line is one sequence of tokens and no
  other, and what is sent follows from writing down the tokens one by one. Beside the text
  each character's origin is recorded, so that nothing can be lost, doubled or moved
  unnoticed.
 */
module Tokens {
  import opened Shared
  import opened Scanner

  datatype Kind =
    | Take             // a character of a statement
    | Pair             // a backslash and a character, kept
    | UnknownPair      // the same, reported as an unknown command
    | Refusal          // an unknown command at which the client quits
    | White            // white space before a statement
    | OpenMark         // a block comment
    | Inside
    | CloseMark
    | RestOfLine       // a comment to the end of the line
    | LoneBackslash    // a backslash that nothing follows
    | Separator        // the delimiter, with what is kept behind it
    | Command          // a one-character command with its parameters
    | CommandLine      // a client command that takes up a whole line
    | ByteOrderMark
    | Newline          // the end of a line that is kept as a newline
    | LineEnd          // the end of a line that is left out
    | CutEnd           // the end of a piece that is not the end of a line

  /**
    A stretch of the input. args is the rest of the line for a command, and what is kept
    behind a delimiter; server tells whether the token leads into or is in a server-side
    comment.
   */
  datatype Token = Token(kind: Kind, source: seq<char>, args: seq<char>, server: bool)

  /** How a line ends: cut by the size limit, or with these characters, none at the end of a file. */
  datatype Ending = Cut | Whole(chars: seq<char>)

  function EndChars(e: Ending): seq<char> {
    match e
    case Cut => []
    case Whole(chars) => chars
  }

  predicate WellEnded(e: Ending) {
    e.Whole? && e.chars != [] ==> e.chars[|e.chars| - 1] == '\n'
  }

  predicate IsPair(t: Token) {
    t.kind == Pair || t.kind == UnknownPair
  }

  predicate IsComment(t: Token) {
    t.kind == OpenMark || t.kind == Inside || t.kind == CloseMark || t.kind == RestOfLine
  }

  /** All of the token becomes part of a statement. */
  predicate IsKept(env: Env, t: Token) {
    t.kind == Take || IsPair(t) || (env.preserveComments && IsComment(t))
  }

  /** A space that is due is put before the token. */
  predicate IsSingle(t: Token) {
    t.kind == Take || t.kind == Inside
  }

  predicate Shaped(t: Token) {
    && (IsSingle(t) ==> |t.source| == 1)
    && (IsPair(t) || t.kind == OpenMark || t.kind == CloseMark ==> |t.source| == 2)
    && (t.kind == RestOfLine ==> t.source != [])
    && (t.kind == Newline && t.source != [] ==> t.source[|t.source| - 1] == '\n')
    && (t.kind == Separator ==> |t.args| < |t.source| && t.source[|t.source| - |t.args|..] == t.args)
  }

  /** Where a character comes from: the input, the splitter, or a client command that changed the text. */
  datatype Origin = Input(at: nat) | Added | Given

  datatype Page = Page(
    read: nat,                   // how much of the input has been read
    text: seq<char>,
    origin: seq<Origin>,         // of each character of the text
    mark: nat,                   // text[mark..] came from this line after the last flush
    quote: char,
    inComment: bool,
    server: bool,                // inside a server-side comment
    due: bool,                   // a space is due before the next character
    torn: bool,                  // something was left out since the last character
    mode: Mode,
    sent: seq<Event>,
    taken: seq<seq<Origin>>,     // what left with each event
    over: bool)                  // the client has quit

  function Put(p: Page, chars: seq<char>, from: seq<Origin>): Page {
    p.(text := p.text + chars, origin := p.origin + from)
  }

  /** An event that does not touch the text. */
  function Report(p: Page, event: Event): Page {
    p.(sent := p.sent + [event], taken := p.taken + [[]])
  }

  /** The text is complete and leaves. */
  function Hand(env: Env, p: Page, event: Event): Page {
    var sent := p.sent + [event];
    var r := env.reply(sent);
    p.(sent := sent, taken := p.taken + [p.origin], text := [], origin := [], mark := 0, mode := r.mode, over := r.quit)
  }

  /** A client command, which may leave the text alone or replace it. */
  function Run(env: Env, p: Page, event: Event): Page {
    var sent := p.sent + [event];
    var r := env.reply(sent);
    var q := p.(sent := sent, mark := |r.buffer|, mode := r.mode, over := r.quit);
    if r.buffer == p.text then q.(taken := p.taken + [[]])
    else q.(taken := p.taken + [p.origin], text := r.buffer, origin := seq(|r.buffer|, _ => Given))
  }

  function QuoteAfter(quote: char, c: char): char {
    if c == quote then NUL else if quote == NUL && (c == '\'' || c == '"' || c == '`') then c else quote
  }

  /** The origins of n characters from a position on. */
  function InputRange(at: nat, n: nat): (r: seq<Origin>)
    ensures |r| == n && forall k :: 0 <= k < n ==> r[k] == Input(at + k)
  {
    if n == 0 then [] else InputRange(at, n - 1) + [Input(at + (n - 1))]
  }

  function PutInput(p: Page, chars: seq<char>, at: nat): Page {
    Put(p, chars, InputRange(at, |chars|))
  }

  function PutSpace(env: Env, p: Page, c: char): Page {
    if p.due && !env.isSpace(c) then Put(p, [' '], [Added]) else p
  }

  /** A kept character, with the space that is due before it. */
  function PutSingle(env: Env, p: Page, source: seq<char>): Page {
    PutInput(PutSpace(env, p, At(source, 0)), source, p.read).(due := false)
  }

  function PutPair(p: Page, source: seq<char>, unknown: bool): Page {
    PutInput(if unknown then Report(p, UnknownCommand(At(source, 1))) else p, source, p.read)
  }

  /** A mark of a comment that is kept or not. */
  function PutMark(env: Env, p: Page, source: seq<char>): Page {
    if env.preserveComments then PutInput(p, source, p.read) else p
  }

  /** A comment to the end of the line, if it is kept; one that stands alone is sent at once. */
  function PutRest(env: Env, p: Page, source: seq<char>): Page {
    var q := PutMark(env, p, source);
    if env.preserveComments && p.text == [] then Hand(env, q, LoneComment(q.text)) else q
  }

  /** Where the part kept behind a delimiter starts. */
  function Behind(t: Token, at: nat): nat {
    if |t.args| <= |t.source| then at + (|t.source| - |t.args|) else at
  }

  function Separate(env: Env, p: Page, t: Token): Page {
    var q := PutInput(p, t.args, Behind(t, p.read));
    Hand(env, q, Statement(q.text))
  }

  function Refuse(p: Page, c: char): Page {
    Report(p, UnknownCommand(c)).(over := true)
  }

  /** The newline of a line is its last character, or is added to a line without one. */
  function NewlineOrigin(p: Page, source: seq<char>): Origin {
    if source == [] then Added else Input(p.read + (|source| - 1))
  }

  function PutNewline(p: Page, source: seq<char>): Page {
    Put(p, ['\n'], [NewlineOrigin(p, source)])
  }

  function FlushPage(p: Page): Page {
    p.(mark := |p.text|)
  }

  /** What is forgotten between lines. */
  function EndPiece(p: Page): Page {
    FlushPage(p.(due := false))
  }

  function Act(env: Env, p: Page, t: Token): Page {
    match t.kind
    case Take => PutSingle(env, p, t.source).(quote := QuoteAfter(p.quote, At(t.source, 0)))
    case Pair => PutPair(p, t.source, false)
    case UnknownPair => PutPair(p, t.source, true)
    case Refusal => Refuse(p, At(t.source, 1))
    case OpenMark => FlushPage(PutMark(env, p, t.source).(inComment := true))
    case Inside => if env.preserveComments then PutSingle(env, p, t.source) else p
    case CloseMark => FlushPage(PutMark(env, p, t.source).(inComment := false, due := true))
    case RestOfLine => FlushPage(PutRest(env, p, t.source))
    case Separator => Separate(env, p, t)
    case Command => Run(env, p, ShortCommand(At(t.source, 1), t.args, p.text))
    case CommandLine => Run(env, p, LineCommand(t.source, p.text))
    case Newline => EndPiece(PutNewline(p, t.source))
    case LineEnd => EndPiece(p)
    case CutEnd => EndPiece(p)
    case _ => p
  }

  /** The last character of the token becomes part of a statement. */
  predicate EndsKept(env: Env, t: Token) {
    IsKept(env, t) || (t.kind == Newline && t.source != [])
  }

  /** Writing down one token. */
  function Write(env: Env, p: Page, t: Token): Page {
    Act(env, p, t).(read := p.read + |t.source|, server := t.server,
                    torn := !EndsKept(env, t) && (p.torn || t.source != []))
  }

  function WriteAll(env: Env, p: Page, ts: seq<Token>): Page
    decreases |ts|
  {
    if ts == [] then p else WriteAll(env, Write(env, p, ts[0]), ts[1..])
  }

  // ---------------------------------------------------------------- where a token stands

  predicate Outside(p: Page) {
    !p.inComment && p.quote == NUL
  }

  /** A backslash is not an ordinary character. */
  predicate Escapes(p: Page, c: char) {
    && !p.inComment && c == '\\' && p.quote != '`'
    && !(p.quote == '"' && p.mode.ansiQuotes)
    && !(p.quote != NUL && p.mode.noBackslashEscapes)
  }

  /** Where a one-character command ends: behind its parameters, unless the client quits. */
  function CommandEnd(env: Env, p: Page, s: seq<char>, i: nat): nat
    requires i + 1 < |s|
  {
    var r := env.reply(p.sent + [ShortCommand(s[i + 1], s[i..], p.text)]);
    if r.quit then i + 2 else AfterShortCommand(env, s, i, p.server, r.mode.delimiter)
  }

  /** The token at a backslash. */
  predicate LegalEscape(env: Env, p: Page, t: Token, s: seq<char>, i: nat)
    requires i < |s|
  {
    var c := At(s, i + 1);
    if c == NUL then t.kind == LoneBackslash && t.source == s[i..]
    else if p.quote != NUL || c == 'N' then t.kind == Pair
    else if env.isShortCommand(c) then t.kind == Command && i + |t.source| == CommandEnd(env, p, s, i)
    else t.kind == (if env.reply(p.sent + [UnknownCommand(c)]).quit then Refusal else UnknownPair) && |t.source| == 2
  }

  /** A character opens or closes a server-side comment. */
  predicate ServerAfter(p: Page, s: seq<char>, i: nat) {
    if p.quote == NUL && At(s, i) == '/' && At(s, i + 1) == '*' && At(s, i + 2) == '!' then true
    else p.server && !(p.quote == NUL && ClosesComment(s, i))
  }

  /** The token stands at position i of the line s: the first of the cases that applies. */
  predicate Legal(env: Env, p: Page, t: Token, s: seq<char>, i: nat)
    requires i < |s|
  {
    if !env.preserveComments && env.isSpace(s[i]) && p.text == [] then t.kind == White && |t.source| == 1
    else if Escapes(p, s[i]) then LegalEscape(env, p, t, s, i)
    else if Outside(p) && PrefixAt(s, i, p.mode.delimiter) then
      && t.kind == Separator && |t.source| == |p.mode.delimiter| + |t.args|
      && i + |t.source| == StatementEnd(env, s, i, p.mode.delimiter)
    else if Outside(p) && IsLineComment(env, p.text, s, i) then t.kind == RestOfLine && t.source == s[i..]
    else if p.quote == NUL && OpensComment(s, i) then t.kind == OpenMark
    else if p.inComment && !p.server && ClosesComment(s, i) then t.kind == CloseMark
    else t.kind == if p.inComment then Inside else Take
  }

  /** The text of this line would be read as a DELIMITER command. */
  predicate InDelimiterCommand(env: Env, p: Page) {
    Outside(p) && p.mark <= |p.text| && IsDelimiterCommand(env, p.text[p.mark..])
  }

  /** A whole line is kept as a newline. */
  predicate KeepsNewline(env: Env, p: Page) {
    p.text != [] && (p.inComment ==> env.preserveComments) && !InDelimiterCommand(env, p)
  }

  /** The token ends the line. */
  predicate LegalEnd(env: Env, p: Page, t: Token, e: Ending) {
    match e
    case Cut => t.kind == CutEnd && t.source == []
    case Whole(chars) => t.kind == (if KeepsNewline(env, p) then Newline else LineEnd) && t.source == chars
  }

  /** What else a token says. */
  predicate Noted(p: Page, t: Token, s: seq<char>, i: nat)
    requires i <= |s|
  {
    && (t.kind == Command ==> t.args == s[i..])
    && (t.kind != Command && t.kind != Separator ==> t.args == [])
    && t.server == (if i == |s| then false else if IsSingle(t) then ServerAfter(p, s, i) else p.server)
  }

  /** The line s, with its ending, goes on at i with this token. */
  predicate CanRead(env: Env, p: Page, t: Token, s: seq<char>, i: nat, e: Ending) {
    && !p.over && Shaped(t) && i <= |s| && Noted(p, t, s, i)
    && if i < |s| then PrefixAt(s, i, t.source) && Legal(env, p, t, s, i) else LegalEnd(env, p, t, e)
  }

  /** The tokens read the line s from i on and its ending; all of it, unless the client quits. */
  predicate Reads(env: Env, p: Page, ts: seq<Token>, s: seq<char>, i: nat, e: Ending)
    decreases |ts|
  {
    if ts == [] then p.over
    else if !CanRead(env, p, ts[0], s, i, e) then false
    else if i == |s| then ts[1..] == []
    else Reads(env, Write(env, p, ts[0]), ts[1..], s, i + |ts[0].source|, e)
  }

  lemma {:induction false} OneToken(env: Env, p: Page, t: Token, t': Token, s: seq<char>, i: nat, e: Ending)
    requires CanRead(env, p, t, s, i, e) && CanRead(env, p, t', s, i, e)
    ensures t == t'
  {
    hide Legal;
    if i < |s| {
      SameKind(env, p, t, t', s, i);
      assert t.source == s[i..i + |t.source|] && t'.source == s[i..i + |t'.source|];
    }
  }

  lemma SameKind(env: Env, p: Page, t: Token, t': Token, s: seq<char>, i: nat)
    requires i < |s| && Shaped(t) && Shaped(t') && Legal(env, p, t, s, i) && Legal(env, p, t', s, i)
    requires PrefixAt(s, i, t.source) && PrefixAt(s, i, t'.source)
    ensures t.kind == t'.kind && |t.source| == |t'.source| && (t.kind == Separator ==> |t.args| == |t'.args|)
  {
  }

  /** A line has one reading only. */
  lemma {:induction false} OneReading(
      env: Env, p: Page, ts: seq<Token>, ts': seq<Token>, s: seq<char>, i: nat, e: Ending)
    requires Reads(env, p, ts, s, i, e) && Reads(env, p, ts', s, i, e)
    ensures ts == ts'
    decreases |ts|
  {
    hide CanRead, Write;
    if ts == [] || ts' == [] {
      OverReadsNothing(env, p, ts, s, i, e);
      OverReadsNothing(env, p, ts', s, i, e);
    } else {
      OneToken(env, p, ts[0], ts'[0], s, i, e);
      if i != |s| {
        OneReading(env, Write(env, p, ts[0]), ts[1..], ts'[1..], s, i + |ts[0].source|, e);
      }
      assert ts == [ts[0]] + ts[1..] && ts' == [ts'[0]] + ts'[1..];
    }
  }

  lemma OverReadsNothing(env: Env, p: Page, ts: seq<Token>, s: seq<char>, i: nat, e: Ending)
    requires Reads(env, p, ts, s, i, e)
    ensures p.over <==> ts == []
  {
  }

  /** The tokens spell the text x from i on, one behind the other. */
  predicate Spells(env: Env, p: Page, ts: seq<Token>, x: seq<char>, i: nat)
    decreases |ts|
  {
    if ts == [] then p.over || i == |x|
    else if !(Shaped(ts[0]) && PrefixAt(x, i, ts[0].source)) then false
    else Spells(env, Write(env, p, ts[0]), ts[1..], x, i + |ts[0].source|)
  }

  lemma PrefixOfLonger(s: seq<char>, more: seq<char>, i: nat, d: seq<char>)
    requires PrefixAt(s, i, d)
    ensures PrefixAt(s + more, i, d)
  {
    assert (s + more)[i..i + |d|] == s[i..i + |d|];
  }

  lemma EndSpells(env: Env, p: Page, t: Token, s: seq<char>, e: Ending)
    requires CanRead(env, p, t, s, |s|, e)
    ensures Spells(env, p, [t], s + EndChars(e), |s|)
  {
    var x := s + EndChars(e);
    assert [t][1..] == [] && x[|s|..|x|] == EndChars(e);
    assert t.source == EndChars(e);
  }

  /** What tokens read, they spell. */
  lemma {:induction false} ReadsSpell(env: Env, p: Page, ts: seq<Token>, s: seq<char>, i: nat, e: Ending)
    requires Reads(env, p, ts, s, i, e)
    ensures Spells(env, p, ts, s + EndChars(e), i)
    decreases |ts|
  {
    hide Write, Legal, LegalEnd, Noted;
    if ts != [] {
      if i == |s| {
        EndSpells(env, p, ts[0], s, e);
        assert ts == [ts[0]];
      } else {
        PrefixOfLonger(s, EndChars(e), i, ts[0].source);
        ReadsSpell(env, Write(env, p, ts[0]), ts[1..], s, i + |ts[0].source|, e);
      }
    }
  }

  /** The scanner is not inside a string and inside a block comment. */
  predicate Exclusive(quote: char, inComment: bool) {
    quote == NUL || !inComment
  }

  // ---------------------------------------------------------------- origins are right

  predicate TracedAt(env: Env, input: seq<char>, g: nat, c: char, o: Origin) {
    match o
    case Input(a) => a < g <= |input| && input[a] == c
    case Added => env.isSpace(c)
    case Given => true
  }

  /** Each character is the input character at its origin, or white space the splitter added. */
  predicate Traced(env: Env, input: seq<char>, g: nat, text: seq<char>, origin: seq<Origin>) {
    |origin| == |text| && forall k :: 0 <= k < |text| ==> TracedAt(env, input, g, text[k], origin[k])
  }

  function EventText(e: Event): seq<char> {
    match e
    case Statement(text) => text
    case LoneComment(text) => text
    case ShortCommand(_, _, text) => text
    case UnknownCommand(_) => []
    case LineCommand(_, text) => text
  }

  /** A statement takes its whole text along; a command only what it replaces. */
  predicate TakenRight(env: Env, input: seq<char>, g: nat, e: Event, o: seq<Origin>) {
    Traced(env, input, g, EventText(e), o) || (o == [] && !e.Statement? && !e.LoneComment?)
  }

  predicate SentTraced(env: Env, input: seq<char>, g: nat, sent: seq<Event>, taken: seq<seq<Origin>>) {
    |taken| == |sent| && forall k :: 0 <= k < |sent| ==> TakenRight(env, input, g, sent[k], taken[k])
  }

  predicate PageTraced(env: Env, input: seq<char>, p: Page) {
    && p.read <= |input|
    && Traced(env, input, p.read, p.text, p.origin)
    && SentTraced(env, input, p.read, p.sent, p.taken)
  }

  lemma TracedLater(env: Env, input: seq<char>, g: nat, h: nat, text: seq<char>, origin: seq<Origin>)
    requires Traced(env, input, g, text, origin) && g <= h <= |input|
    ensures Traced(env, input, h, text, origin)
  {
    forall k | 0 <= k < |text|
      ensures TracedAt(env, input, h, text[k], origin[k])
    {
      assert TracedAt(env, input, g, text[k], origin[k]);
    }
  }

  lemma SentTracedLater(env: Env, input: seq<char>, g: nat, h: nat, sent: seq<Event>, taken: seq<seq<Origin>>)
    requires SentTraced(env, input, g, sent, taken) && g <= h <= |input|
    ensures SentTraced(env, input, h, sent, taken)
  {
    forall k | 0 <= k < |sent|
      ensures TakenRight(env, input, h, sent[k], taken[k])
    {
      assert TakenRight(env, input, g, sent[k], taken[k]);
      if Traced(env, input, g, EventText(sent[k]), taken[k]) {
        TracedLater(env, input, g, h, EventText(sent[k]), taken[k]);
      }
    }
  }

  lemma TracedPut(env: Env, input: seq<char>, g: nat, text: seq<char>, origin: seq<Origin>, c: char, o: Origin)
    requires Traced(env, input, g, text, origin) && TracedAt(env, input, g, c, o)
    ensures Traced(env, input, g, text + [c], origin + [o])
  {
  }

  lemma SentTracedPut(env: Env, input: seq<char>, g: nat, sent: seq<Event>, taken: seq<seq<Origin>>, e: Event,
      o: seq<Origin>)
    requires SentTraced(env, input, g, sent, taken) && TakenRight(env, input, g, e, o)
    ensures SentTraced(env, input, g, sent + [e], taken + [o])
  {
  }

  /** The input goes on with these characters. */
  predicate GoesOn(input: seq<char>, at: nat, chars: seq<char>) {
    at + |chars| <= |input| && forall k :: 0 <= k < |chars| ==> chars[k] == input[at + k]
  }

  predicate BothTraced(env: Env, input: seq<char>, g: nat, p: Page) {
    Traced(env, input, g, p.text, p.origin) && SentTraced(env, input, g, p.sent, p.taken)
  }

  lemma InputTraced(env: Env, input: seq<char>, g: nat, p: Page, chars: seq<char>, at: nat)
    requires BothTraced(env, input, g, p) && GoesOn(input, at, chars) && at + |chars| <= g <= |input|
    ensures BothTraced(env, input, g, PutInput(p, chars, at))
  {
    var text, origin := p.text + chars, p.origin + InputRange(at, |chars|);
    forall k | 0 <= k < |text|
      ensures TracedAt(env, input, g, text[k], origin[k])
    {
      if k < |p.text| {
        assert TracedAt(env, input, g, p.text[k], p.origin[k]);
      } else {
        assert chars[k - |p.text|] == input[at + (k - |p.text|)];
      }
    }
  }

  lemma SingleTraced(env: Env, input: seq<char>, g: nat, p: Page, source: seq<char>)
    requires ValidEnv(env) && BothTraced(env, input, g, p)
    requires GoesOn(input, p.read, source) && p.read + |source| <= g <= |input|
    ensures BothTraced(env, input, g, PutSingle(env, p, source))
  {
    TracedPut(env, input, g, p.text, p.origin, ' ', Added);
    InputTraced(env, input, g, PutSpace(env, p, At(source, 0)), source, p.read);
  }

  lemma PairTraced(env: Env, input: seq<char>, g: nat, p: Page, source: seq<char>, unknown: bool)
    requires BothTraced(env, input, g, p) && GoesOn(input, p.read, source) && p.read + |source| <= g <= |input|
    ensures BothTraced(env, input, g, PutPair(p, source, unknown))
  {
    var e := UnknownCommand(At(source, 1));
    SentTracedPut(env, input, g, p.sent, p.taken, e, []);
    InputTraced(env, input, g, if unknown then Report(p, e) else p, source, p.read);
  }

  lemma HandTraced(env: Env, input: seq<char>, g: nat, p: Page, e: Event)
    requires BothTraced(env, input, g, p) && EventText(e) == p.text
    ensures BothTraced(env, input, g, Hand(env, p, e))
  {
    SentTracedPut(env, input, g, p.sent, p.taken, e, p.origin);
  }

  lemma RestTraced(env: Env, input: seq<char>, g: nat, p: Page, source: seq<char>)
    requires BothTraced(env, input, g, p) && GoesOn(input, p.read, source) && p.read + |source| <= g <= |input|
    ensures BothTraced(env, input, g, PutMark(env, p, source))
    ensures BothTraced(env, input, g, PutRest(env, p, source))
  {
    InputTraced(env, input, g, p, source, p.read);
    var q := PutMark(env, p, source);
    HandTraced(env, input, g, q, LoneComment(q.text));
  }

  lemma TailGoesOn(input: seq<char>, at: nat, chars: seq<char>, n: nat)
    requires GoesOn(input, at, chars) && n <= |chars|
    ensures GoesOn(input, at + n, chars[n..])
  {
    forall k | 0 <= k < |chars| - n
      ensures chars[n..][k] == input[at + n + k]
    {
      assert chars[n + k] == input[at + (n + k)];
    }
  }

  lemma SeparatorTraced(env: Env, input: seq<char>, g: nat, p: Page, t: Token)
    requires BothTraced(env, input, g, p) && GoesOn(input, p.read, t.source) && p.read + |t.source| <= g <= |input|
    requires |t.args| < |t.source| && t.source[|t.source| - |t.args|..] == t.args
    ensures BothTraced(env, input, g, Separate(env, p, t))
  {
    hide Traced, SentTraced, GoesOn;
    var n := |t.source| - |t.args|;
    InputBounds(input, p.read, t.source);
    TailGoesOn(input, p.read, t.source, n);
    InputTraced(env, input, g, p, t.args, p.read + n);
    var q := PutInput(p, t.args, p.read + n);
    HandTraced(env, input, g, q, Statement(q.text));
  }

  lemma RunTraced(env: Env, input: seq<char>, g: nat, p: Page, e: Event)
    requires BothTraced(env, input, g, p) && EventText(e) == p.text && !e.Statement? && !e.LoneComment?
    ensures BothTraced(env, input, g, Run(env, p, e))
  {
    SentTracedPut(env, input, g, p.sent, p.taken, e, p.origin);
    SentTracedPut(env, input, g, p.sent, p.taken, e, []);
  }

  lemma NewlineTraced(env: Env, input: seq<char>, g: nat, p: Page, source: seq<char>)
    requires ValidEnv(env) && BothTraced(env, input, g, p)
    requires GoesOn(input, p.read, source) && p.read + |source| <= g <= |input|
    requires source != [] ==> source[|source| - 1] == '\n'
    ensures BothTraced(env, input, g, PutNewline(p, source))
  {
    if source != [] {
      assert source[|source| - 1] == input[p.read + (|source| - 1)];
    }
    TracedPut(env, input, g, p.text, p.origin, '\n', NewlineOrigin(p, source));
  }

  /** What a token adds to the text is traced. */
  lemma ActTraced(env: Env, input: seq<char>, p: Page, t: Token, g: nat)
    requires ValidEnv(env) && Shaped(t) && GoesOn(input, p.read, t.source) && g == p.read + |t.source|
    requires BothTraced(env, input, g, p)
    ensures BothTraced(env, input, g, Act(env, p, t))
  {
    hide Traced, SentTraced, GoesOn, PutSingle, PutPair, PutMark, PutRest, Separate, Run, PutNewline;
    var c := At(t.source, 1);
    InputBounds(input, p.read, t.source);
    match t.kind {
      case Take => SingleTraced(env, input, g, p, t.source);
      case Pair => PairTraced(env, input, g, p, t.source, false);
      case UnknownPair => PairTraced(env, input, g, p, t.source, true);
      case Refusal => SentTracedPut(env, input, g, p.sent, p.taken, UnknownCommand(c), []);
      case OpenMark => RestTraced(env, input, g, p, t.source);
      case Inside => SingleTraced(env, input, g, p, t.source);
      case CloseMark => RestTraced(env, input, g, p, t.source);
      case RestOfLine => RestTraced(env, input, g, p, t.source);
      case Separator => SeparatorTraced(env, input, g, p, t);
      case Command => RunTraced(env, input, g, p, ShortCommand(c, t.args, p.text));
      case CommandLine => RunTraced(env, input, g, p, LineCommand(t.source, p.text));
      case Newline => NewlineTraced(env, input, g, p, t.source);
      case _ =>
    }
  }

  lemma InputBounds(input: seq<char>, at: nat, chars: seq<char>)
    requires GoesOn(input, at, chars)
    ensures at + |chars| <= |input|
  {
  }

  lemma WriteTraced(env: Env, input: seq<char>, p: Page, t: Token)
    requires ValidEnv(env) && Shaped(t) && PageTraced(env, input, p) && GoesOn(input, p.read, t.source)
    ensures PageTraced(env, input, Write(env, p, t))
  {
    var h := p.read + |t.source|;
    TracedLater(env, input, p.read, h, p.text, p.origin);
    SentTracedLater(env, input, p.read, h, p.sent, p.taken);
    ActTraced(env, input, p, t, h);
  }

  lemma StandsInInput(input: seq<char>, at: nat, s: seq<char>, i: nat, chars: seq<char>)
    requires GoesOn(input, at, s) && PrefixAt(s, i, chars)
    ensures GoesOn(input, at + i, chars)
  {
    forall k | 0 <= k < |chars|
      ensures chars[k] == input[at + i + k]
    {
      assert s[i..i + |chars|][k] == s[i + k] == input[at + (i + k)];
    }
  }

  /** Writing down the tokens of a line keeps every character traced. */
  lemma {:induction false} WriteAllTraced(
      env: Env, input: seq<char>, p: Page, ts: seq<Token>, s: seq<char>, i: nat, at: nat, last: Page)
    requires ValidEnv(env) && PageTraced(env, input, p) && Spells(env, p, ts, s, i) && last == WriteAll(env, p, ts)
    requires GoesOn(input, at, s) && p.read == at + i && i <= |s|
    ensures PageTraced(env, input, last) && last.read <= at + |s| && (!last.over ==> last.read == at + |s|)
    decreases |ts|
  {
    hide Act;
    if ts != [] {
      var q := Write(env, p, ts[0]);
      StandsInInput(input, at, s, i, ts[0].source);
      WriteTraced(env, input, p, ts[0]);
      WriteAllTraced(env, input, q, ts[1..], s, i + |ts[0].source|, at, last);
    }
  }

  // ---------------------------------------------------------------- conservation

  function Inputs(os: seq<Origin>): seq<nat> {
    if os == [] then []
    else Inputs(os[..|os| - 1]) + (if os[|os| - 1].Input? then [os[|os| - 1].at] else [])
  }

  lemma {:induction false} InputsAppend(a: seq<Origin>, b: seq<Origin>)
    ensures Inputs(a + b) == Inputs(a) + Inputs(b)
    decreases |b|
  {
    if b == [] {
      assert a + b == a;
    } else {
      InputsAppend(a, b[..|b| - 1]);
      assert (a + b)[..|a + b| - 1] == a + b[..|b| - 1];
    }
  }

  function Flat(parts: seq<seq<Origin>>): seq<Origin> {
    if parts == [] then [] else Flat(parts[..|parts| - 1]) + parts[|parts| - 1]
  }

  lemma FlatPut(parts: seq<seq<Origin>>, part: seq<Origin>)
    ensures Flat(parts + [part]) == Flat(parts) + part
  {
    assert (parts + [part])[..|parts|] == parts;
  }

  /** The origins of all the text written so far, in order. */
  function AllOrigins(p: Page): seq<Origin> {
    Flat(p.taken) + p.origin
  }

  /** Consecutive positions. */
  function Positions(at: nat, n: nat): (r: seq<nat>)
    ensures |r| == n && forall k :: 0 <= k < n ==> r[k] == at + k
  {
    if n == 0 then [] else Positions(at, n - 1) + [at + (n - 1)]
  }

  lemma {:induction false} RangeInputs(at: nat, n: nat)
    ensures Inputs(InputRange(at, n)) == Positions(at, n)
  {
    if n > 0 {
      RangeInputs(at, n - 1);
      assert InputRange(at, n)[..n - 1] == InputRange(at, n - 1);
    }
  }

  /** The input positions a token keeps. */
  function KeptOf(env: Env, t: Token, at: nat): seq<nat> {
    if IsKept(env, t) then Positions(at, |t.source|)
    else if t.kind == Separator then Positions(Behind(t, at), |t.args|)
    else if t.kind == Newline && t.source != [] then [at + (|t.source| - 1)]
    else []
  }

  /** The input positions of what is kept of the tokens. */
  function KeptAt(env: Env, ts: seq<Token>, at: nat): seq<nat> {
    if ts == [] then [] else KeptOf(env, ts[0], at) + KeptAt(env, ts[1..], at + |ts[0].source|)
  }

  lemma {:induction false} GivenIsNoInput(n: nat)
    ensures Inputs(seq(n, _ => Given)) == []
  {
    var os := seq(n, _ => Given);
    if n > 0 {
      GivenIsNoInput(n - 1);
      assert os[..n - 1] == seq(n - 1, _ => Given);
    }
  }

  lemma PutConserves(taken: seq<seq<Origin>>, origin: seq<Origin>, from: seq<Origin>)
    ensures Inputs(Flat(taken) + (origin + from)) == Inputs(Flat(taken) + origin) + Inputs(from)
  {
    InputsAppend(Flat(taken) + origin, from);
    assert Flat(taken) + (origin + from) == (Flat(taken) + origin) + from;
  }

  lemma HandConserves(taken: seq<seq<Origin>>, origin: seq<Origin>)
    ensures Flat(taken + [origin]) + [] == Flat(taken) + origin
    ensures Flat(taken + [[]]) + origin == Flat(taken) + origin
  {
    FlatPut(taken, origin);
    FlatPut(taken, []);
  }

  lemma RunConserves(env: Env, p: Page, e: Event)
    ensures Inputs(AllOrigins(Run(env, p, e))) == Inputs(AllOrigins(p))
  {
    var q := Run(env, p, e);
    HandConserves(p.taken, p.origin);
    if env.reply(p.sent + [e]).buffer != p.text {
      GivenIsNoInput(|q.origin|);
      PutConserves(q.taken, [], q.origin);
      assert [] + q.origin == q.origin;
    }
  }

  lemma InputConserves(p: Page, chars: seq<char>, at: nat)
    ensures Inputs(AllOrigins(PutInput(p, chars, at))) == Inputs(AllOrigins(p)) + Positions(at, |chars|)
  {
    PutConserves(p.taken, p.origin, InputRange(at, |chars|));
    RangeInputs(at, |chars|);
  }

  lemma SpaceConserves(env: Env, p: Page, c: char)
    ensures Inputs(AllOrigins(PutSpace(env, p, c))) == Inputs(AllOrigins(p))
  {
    PutConserves(p.taken, p.origin, [Added]);
    assert Inputs([Added]) == [];
  }

  lemma SingleConserves(env: Env, p: Page, source: seq<char>)
    ensures Inputs(AllOrigins(PutSingle(env, p, source))) == Inputs(AllOrigins(p)) + Positions(p.read, |source|)
  {
    SpaceConserves(env, p, At(source, 0));
    InputConserves(PutSpace(env, p, At(source, 0)), source, p.read);
  }

  lemma PairConserves(p: Page, source: seq<char>, unknown: bool)
    ensures Inputs(AllOrigins(PutPair(p, source, unknown))) == Inputs(AllOrigins(p)) + Positions(p.read, |source|)
  {
    HandConserves(p.taken, p.origin);
    InputConserves(if unknown then Report(p, UnknownCommand(At(source, 1))) else p, source, p.read);
  }

  lemma MarkConserves(env: Env, p: Page, source: seq<char>)
    ensures Inputs(AllOrigins(PutMark(env, p, source)))
            == Inputs(AllOrigins(p)) + (if env.preserveComments then Positions(p.read, |source|) else [])
  {
    InputConserves(p, source, p.read);
  }

  lemma RestConserves(env: Env, p: Page, source: seq<char>)
    ensures Inputs(AllOrigins(PutRest(env, p, source)))
            == Inputs(AllOrigins(p)) + (if env.preserveComments then Positions(p.read, |source|) else [])
  {
    var q := PutMark(env, p, source);
    MarkConserves(env, p, source);
    SeparatorConserves(env, q, LoneComment(q.text));
  }

  lemma SeparateConserves(env: Env, p: Page, t: Token)
    ensures Inputs(AllOrigins(Separate(env, p, t)))
            == Inputs(AllOrigins(p)) + Positions(Behind(t, p.read), |t.args|)
  {
    var q := PutInput(p, t.args, Behind(t, p.read));
    InputConserves(p, t.args, Behind(t, p.read));
    SeparatorConserves(env, q, Statement(q.text));
  }

  lemma RefusalConserves(p: Page, c: char)
    ensures AllOrigins(Refuse(p, c)) == AllOrigins(p)
  {
    HandConserves(p.taken, p.origin);
  }

  lemma SeparatorConserves(env: Env, p: Page, e: Event)
    ensures AllOrigins(Hand(env, p, e)) == AllOrigins(p)
  {
    HandConserves(p.taken, p.origin);
  }

  lemma NewlineConserves(p: Page, source: seq<char>)
    ensures Inputs(AllOrigins(PutNewline(p, source)))
            == Inputs(AllOrigins(p)) + (if source == [] then [] else [p.read + (|source| - 1)])
  {
    PutConserves(p.taken, p.origin, [NewlineOrigin(p, source)]);
    assert Inputs([NewlineOrigin(p, source)]) == if source == [] then [] else [p.read + (|source| - 1)];
  }

  lemma ActConserves(env: Env, p: Page, t: Token)
    ensures Inputs(AllOrigins(Act(env, p, t))) == Inputs(AllOrigins(p)) + KeptOf(env, t, p.read)
  {
    hide Inputs, Flat, Positions, PutSingle, PutPair, PutMark, PutRest, Separate, Run, PutNewline, Refuse;
    var c := At(t.source, 1);
    match t.kind {
      case Take => SingleConserves(env, p, t.source);
      case Pair => PairConserves(p, t.source, false);
      case UnknownPair => PairConserves(p, t.source, true);
      case Refusal => RefusalConserves(p, c);
      case OpenMark => MarkConserves(env, p, t.source);
      case Inside => SingleConserves(env, p, t.source);
      case CloseMark => MarkConserves(env, p, t.source);
      case RestOfLine => RestConserves(env, p, t.source);
      case Separator => SeparateConserves(env, p, t);
      case Command => RunConserves(env, p, ShortCommand(c, t.args, p.text));
      case CommandLine => RunConserves(env, p, LineCommand(t.source, p.text));
      case Newline => NewlineConserves(p, t.source);
      case _ =>
    }
  }

  /** One token adds its own positions, and nothing that was there is lost or doubled. */
  lemma WriteConserves(env: Env, p: Page, t: Token)
    ensures Inputs(AllOrigins(Write(env, p, t))) == Inputs(AllOrigins(p)) + KeptOf(env, t, p.read)
    ensures Write(env, p, t).read == p.read + |t.source|
  {
    ActConserves(env, p, t);
  }

  /** The texts written hold exactly the kept input positions, in input order. */
  lemma {:induction false} WriteAllConserves(env: Env, p: Page, ts: seq<Token>, last: Page)
    requires last == WriteAll(env, p, ts)
    ensures Inputs(AllOrigins(last)) == Inputs(AllOrigins(p)) + KeptAt(env, ts, p.read)
    decreases |ts|
  {
    hide Write, KeptOf, Inputs, AllOrigins;
    if ts != [] {
      var q := Write(env, p, ts[0]);
      WriteConserves(env, p, ts[0]);
      WriteAllConserves(env, q, ts[1..], last);
      Associate(Inputs(AllOrigins(p)), KeptOf(env, ts[0], p.read), KeptAt(env, ts[1..], q.read));
    }
  }

  lemma KeptHere(env: Env, t: Token, at: nat, k: nat)
    requires Shaped(t) && k < |KeptOf(env, t, at)|
    ensures at <= KeptOf(env, t, at)[k] < at + |t.source|
    ensures k > 0 ==> KeptOf(env, t, at)[k - 1] < KeptOf(env, t, at)[k]
  {
  }

  /** The kept positions increase: no input character is kept twice, or out of order. */
  lemma {:induction false} KeptIncrease(env: Env, p: Page, ts: seq<Token>, s: seq<char>, i: nat, at: nat, k: nat)
    requires Spells(env, p, ts, s, i) && i <= |s| && k < |KeptAt(env, ts, at)|
    ensures at <= KeptAt(env, ts, at)[k] < at + (|s| - i)
    ensures k > 0 ==> KeptAt(env, ts, at)[k - 1] < KeptAt(env, ts, at)[k]
    decreases |ts|
  {
    hide Write, KeptOf, Shaped;
    var here, n := KeptOf(env, ts[0], at), |ts[0].source|;
    if k < |here| {
      KeptHere(env, ts[0], at, k);
    } else {
      if here != [] { KeptHere(env, ts[0], at, |here| - 1); }
      KeptIncrease(env, Write(env, p, ts[0]), ts[1..], s, i + n, at + n, k - |here|);
    }
  }

  // ---------------------------------------------------------------- what is joined

  /** Two characters that are not white space are neighbours in the text, but were not in the input. */
  predicate JoinedAt(env: Env, text: seq<char>, origin: seq<Origin>, k: nat) {
    && 0 < k < |text| == |origin| && !env.isSpace(text[k - 1]) && !env.isSpace(text[k])
    && origin[k - 1].Input? && origin[k].Input? && origin[k].at != origin[k - 1].at + 1
  }

  ghost predicate Joined(env: Env, text: seq<char>, origin: seq<Origin>) {
    exists k :: JoinedAt(env, text, origin, k)
  }

  ghost predicate SentJoined(env: Env, sent: seq<Event>, taken: seq<seq<Origin>>) {
    exists i :: 0 <= i < |sent| && i < |taken| && Joined(env, EventText(sent[i]), taken[i])
  }

  ghost predicate PageJoined(env: Env, p: Page) {
    Joined(env, p.text, p.origin) || SentJoined(env, p.sent, p.taken)
  }

  /** The text ends with an input character that is not white space. */
  predicate Ends(env: Env, p: Page) {
    && p.text != [] && |p.origin| == |p.text|
    && !env.isSpace(p.text[|p.text| - 1]) && p.origin[|p.origin| - 1].Input?
  }

  /** Something was left out since. */
  predicate Exposed(env: Env, p: Page) {
    p.torn && Ends(env, p)
  }

  /**
    A token that is put directly behind such a text; a space that is due is put only before
    a single character. What is kept behind a delimiter comes behind something left out.
   */
  predicate Trips(env: Env, p: Page, t: Token) {
    if IsKept(env, t) then Exposed(env, p) && !env.isSpace(At(t.source, 0)) && !(IsSingle(t) && p.due)
    else t.kind == Separator && Ends(env, p) && t.args != [] && !env.isSpace(At(t.args, 0))
  }

  predicate Tripped(env: Env, p: Page, ts: seq<Token>)
    decreases |ts|
  {
    ts != [] && (Trips(env, p, ts[0]) || Tripped(env, Write(env, p, ts[0]), ts[1..]))
  }

  /** Nothing was left out since the last character exactly when it is the last one read. */
  predicate Gapped(p: Page) {
    && |p.origin| == |p.text| && |p.taken| == |p.sent|
    && (p.origin != [] && p.origin[|p.origin| - 1].Input? ==>
          var a := p.origin[|p.origin| - 1].at;
          if p.torn then a + 1 < p.read else a + 1 == p.read)
  }

  lemma RunGapped(env: Env, p: Page, e: Event, read: nat, server: bool)
    requires Gapped(p) && read >= p.read
    ensures Gapped(Run(env, p, e).(read := read, torn := p.torn || read > p.read, server := server))
  {
  }

  lemma InputGapped(p: Page, chars: seq<char>, at: nat, q: Page)
    requires |p.origin| == |p.text| && |p.taken| == |p.sent| && chars != []
    requires q.text == p.text + chars && q.origin == p.origin + InputRange(at, |chars|)
    requires q.taken == p.taken && q.sent == p.sent && q.read == at + |chars| && !q.torn
    ensures Gapped(q)
  {
  }

  lemma SingleGapped(env: Env, p: Page, t: Token, q: Page)
    requires Gapped(p) && t.source != [] &&
        q == PutSingle(env, p, t.source).(read := q.read, torn := false, quote := q.quote, server := q.server)
    requires q.read == p.read + |t.source|
    ensures Gapped(q)
  {
    InputGapped(PutSpace(env, p, At(t.source, 0)), t.source, p.read, q);
  }

  lemma PairGapped(p: Page, t: Token, unknown: bool, q: Page)
    requires Gapped(p) && t.source != [] &&
        q == PutPair(p, t.source, unknown).(read := q.read, torn := false, server := q.server)
    requires q.read == p.read + |t.source|
    ensures Gapped(q)
  {
    InputGapped(if unknown then Report(p, UnknownCommand(At(t.source, 1))) else p, t.source, p.read, q);
  }

  lemma RestGapped(env: Env, p: Page, t: Token, q: Page)
    requires Gapped(p) && t.source != [] &&
        q == PutRest(env, p, t.source).(read := q.read, torn := false, mark := q.mark, server := q.server)
    requires q.read == p.read + |t.source| && env.preserveComments
    ensures Gapped(q)
  {
    if p.text != [] {
      InputGapped(p, t.source, p.read, q);
    }
  }

  lemma KeptGapped(env: Env, p: Page, t: Token)
    requires Gapped(p) && Shaped(t) && IsKept(env, t)
    ensures Gapped(Write(env, p, t))
  {
    hide PutSingle, PutPair, PutRest, PutInput, Run, Separate, Refuse, PutNewline, Gapped;
    var q := Write(env, p, t);
    match t.kind {
      case Take => SingleGapped(env, p, t, q);
      case Inside => SingleGapped(env, p, t, q);
      case Pair => PairGapped(p, t, false, q);
      case UnknownPair => PairGapped(p, t, true, q);
      case RestOfLine => RestGapped(env, p, t, q);
      case OpenMark => MarkGapped(p, t, q);
      case CloseMark => MarkGapped(p, t, q);
    }
  }

  lemma MarkGapped(p: Page, t: Token, q: Page)
    requires Gapped(p) && t.source != [] && q.read == p.read + |t.source| && !q.torn
    requires q == PutInput(p, t.source, p.read).(read := q.read, torn := false, inComment := q.inComment, due := q.due,
                                                   mark := q.mark, server := q.server)
    ensures Gapped(q)
  {
    InputGapped(p, t.source, p.read, q);
  }

  lemma SeparatorGapped(env: Env, p: Page, t: Token, q: Page)
    requires |p.taken| == |p.sent| && q == Separate(env, p, t).(read := q.read, torn := q.torn, server := q.server)
    ensures Gapped(q)
  {
  }

  lemma StayGapped(p: Page, q: Page)
    requires Gapped(p) && q.text == p.text && q.origin == p.origin && |q.taken| == |q.sent|
    requires q.read >= p.read && (q.torn <==> p.torn || q.read > p.read)
    ensures Gapped(q)
  {
  }

  lemma NewlineGapped(p: Page, source: seq<char>, q: Page)
    requires Gapped(p) && q == EndPiece(PutNewline(p, source)).(read := q.read, torn := q.torn, server := q.server)
    requires q.read == p.read + |source| && (source != [] ==> !q.torn)
    ensures Gapped(q)
  {
  }

  /** A token that is left out and changes no text. */
  lemma LeftOut(env: Env, p: Page, t: Token)
    requires !EndsKept(env, t) && |p.taken| == |p.sent|
    requires t.kind != Separator && t.kind != Command && t.kind != CommandLine && t.kind != Newline
    ensures var q := Write(env, p, t);
      && q.text == p.text && q.origin == p.origin && |q.taken| == |q.sent|
      && q.read == p.read + |t.source| && (q.torn <==> p.torn || t.source != [])
  {
    hide PutSingle, PutPair, Run, Separate, PutNewline;
  }

  lemma CommandGapped(env: Env, p: Page, t: Token)
    requires Gapped(p) && (t.kind == Command || t.kind == CommandLine)
    ensures Gapped(Write(env, p, t))
  {
    hide PutSingle, PutPair, PutRest, Run, Separate, PutNewline, Gapped;
    if t.kind == Command {
      RunGapped(env, p, ShortCommand(At(t.source, 1), t.args, p.text), p.read + |t.source|, t.server);
    } else {
      RunGapped(env, p, LineCommand(t.source, p.text), p.read + |t.source|, t.server);
    }
  }

  lemma WriteGapped(env: Env, p: Page, t: Token)
    requires Gapped(p) && Shaped(t)
    ensures Gapped(Write(env, p, t))
  {
    hide PutSingle, PutPair, PutRest, Run, Separate, PutNewline, Gapped;
    var q := Write(env, p, t);
    GappedLengths(p);
    if IsKept(env, t) {
      KeptGapped(env, p, t);
    } else if t.kind == Separator {
      SeparatorGapped(env, p, t, q);
    } else if t.kind == Newline {
      NewlineGapped(p, t.source, q);
    } else if t.kind == Command || t.kind == CommandLine {
      CommandGapped(env, p, t);
    } else {
      LeftOut(env, p, t);
      StayGapped(p, q);
    }
  }

  lemma GappedLengths(p: Page)
    requires Gapped(p)
    ensures |p.origin| == |p.text| && |p.taken| == |p.sent|
  {
  }

  lemma JoinedPut(env: Env, text: seq<char>, origin: seq<Origin>, c: char, o: Origin)
    requires |origin| == |text|
    ensures Joined(env, text + [c], origin + [o])
            <==> Joined(env, text, origin) || JoinedAt(env, text + [c], origin + [o], |text|)
  {
    var text', origin' := text + [c], origin + [o];
    assert forall k: nat :: k < |text| ==> (JoinedAt(env, text', origin', k) <==> JoinedAt(env, text, origin, k));
    assert forall k: nat :: JoinedAt(env, text', origin', k) ==> k <= |text|;
  }

  lemma SentJoinedPut(env: Env, sent: seq<Event>, taken: seq<seq<Origin>>, e: Event, o: seq<Origin>)
    requires |taken| == |sent|
    ensures SentJoined(env, sent + [e], taken + [o])
            <==> SentJoined(env, sent, taken) || Joined(env, EventText(e), o)
  {
    var sent', taken' := sent + [e], taken + [o];
    if Joined(env, EventText(e), o) {
      assert sent'[|sent|] == e && taken'[|sent|] == o;
    }
    if SentJoined(env, sent, taken) {
      var i :| 0 <= i < |sent| && i < |taken| && Joined(env, EventText(sent[i]), taken[i]);
      assert sent'[i] == sent[i] && taken'[i] == taken[i];
    }
  }

  lemma {:induction false} JoinedInput(env: Env, text: seq<char>, origin: seq<Origin>, chars: seq<char>, at: nat)
    requires |origin| == |text| && chars != []
    ensures var text', origin' := text + chars, origin + InputRange(at, |chars|);
      Joined(env, text', origin') <==> Joined(env, text, origin) || JoinedAt(env, text', origin', |text|)
  {
    var text', origin' := text + chars, origin + InputRange(at, |chars|);
    assert forall k: nat :: k < |text| ==> (JoinedAt(env, text', origin', k) <==> JoinedAt(env, text, origin, k));
    assert forall k: nat :: k > |text| ==> !JoinedAt(env, text', origin', k);
    assert forall k: nat :: JoinedAt(env, text, origin, k) ==> k < |text|;
  }

  /** Where characters of the input are put behind the text. */
  lemma InputJoins(env: Env, p: Page, chars: seq<char>, at: nat)
    requires Gapped(p) && chars != [] && at >= p.read
    ensures PageJoined(env, PutInput(p, chars, at))
            <==> || PageJoined(env, p)
                 || (Ends(env, p) && !env.isSpace(chars[0]) && (p.torn || at > p.read))
  {
    JoinedInput(env, p.text, p.origin, chars, at);
  }

  lemma SpaceJoins(env: Env, p: Page, c: char)
    requires ValidEnv(env) && Gapped(p)
    ensures var q := PutSpace(env, p, c);
      && (PageJoined(env, q) <==> PageJoined(env, p)) && Gapped(q) && q.read == p.read && q.torn == p.torn
      && (Ends(env, q) <==> Ends(env, p) && !(p.due && !env.isSpace(c)))
  {
    JoinedPut(env, p.text, p.origin, ' ', Added);
  }

  lemma SingleJoins(env: Env, p: Page, source: seq<char>)
    requires ValidEnv(env) && Gapped(p) && source != []
    ensures PageJoined(env, PutSingle(env, p, source))
            <==> PageJoined(env, p) || (Exposed(env, p) && !env.isSpace(source[0]) && !p.due)
  {
    var q := PutSpace(env, p, source[0]);
    SpaceJoins(env, p, source[0]);
    InputJoins(env, q, source, p.read);
    SameJoined(env, PutInput(q, source, p.read), PutSingle(env, p, source));
  }

  lemma PairJoins(env: Env, p: Page, source: seq<char>, unknown: bool)
    requires Gapped(p) && source != []
    ensures PageJoined(env, PutPair(p, source, unknown))
            <==> PageJoined(env, p) || (Exposed(env, p) && !env.isSpace(source[0]))
  {
    var e := UnknownCommand(At(source, 1));
    SentJoinedPut(env, p.sent, p.taken, e, []);
    InputJoins(env, if unknown then Report(p, e) else p, source, p.read);
  }

  lemma MarkJoins(env: Env, p: Page, source: seq<char>)
    requires Gapped(p) && source != []
    ensures PageJoined(env, PutMark(env, p, source))
            <==> PageJoined(env, p) || (env.preserveComments && Exposed(env, p) && !env.isSpace(source[0]))
  {
    InputJoins(env, p, source, p.read);
  }

  lemma HandJoins(env: Env, p: Page, e: Event)
    requires |p.taken| == |p.sent| && EventText(e) == p.text
    ensures PageJoined(env, Hand(env, p, e)) <==> PageJoined(env, p)
  {
    SentJoinedPut(env, p.sent, p.taken, e, p.origin);
  }

  lemma RestJoins(env: Env, p: Page, source: seq<char>)
    requires Gapped(p) && source != []
    ensures PageJoined(env, PutRest(env, p, source))
            <==> PageJoined(env, p) || (env.preserveComments && Exposed(env, p) && !env.isSpace(source[0]))
  {
    var q := PutMark(env, p, source);
    MarkJoins(env, p, source);
    HandJoins(env, q, LoneComment(q.text));
  }

  lemma SeparatorJoins(env: Env, p: Page, t: Token)
    requires Gapped(p) && |t.args| < |t.source|
    ensures PageJoined(env, Separate(env, p, t))
            <==> PageJoined(env, p) || (Ends(env, p) && t.args != [] && !env.isSpace(t.args[0]))
  {
    var q := PutInput(p, t.args, Behind(t, p.read));
    if t.args == [] {
      assert q.text == p.text && q.origin == p.origin;
    } else {
      InputJoins(env, p, t.args, Behind(t, p.read));
    }
    HandJoins(env, q, Statement(q.text));
  }

  lemma RefusalJoins(env: Env, p: Page, c: char)
    requires Gapped(p)
    ensures PageJoined(env, Refuse(p, c)) <==> PageJoined(env, p)
  {
    SentJoinedPut(env, p.sent, p.taken, UnknownCommand(c), []);
  }

  lemma RunJoins(env: Env, p: Page, e: Event)
    requires Gapped(p) && EventText(e) == p.text
    ensures PageJoined(env, Run(env, p, e)) <==> PageJoined(env, p)
  {
    SentJoinedPut(env, p.sent, p.taken, e, []);
    SentJoinedPut(env, p.sent, p.taken, e, p.origin);
  }

  lemma NewlineJoins(env: Env, p: Page, source: seq<char>)
    requires ValidEnv(env) && Gapped(p)
    ensures PageJoined(env, PutNewline(p, source)) <==> PageJoined(env, p)
  {
    JoinedPut(env, p.text, p.origin, '\n', NewlineOrigin(p, source));
  }

  lemma SameJoined(env: Env, p: Page, q: Page)
    requires q.text == p.text && q.origin == p.origin && q.sent == p.sent && q.taken == p.taken
    ensures PageJoined(env, q) <==> PageJoined(env, p)
  {
  }

  /** A token joins something exactly when it trips. */
  lemma WriteJoins(env: Env, p: Page, t: Token)
    requires ValidEnv(env) && Gapped(p) && Shaped(t)
    ensures PageJoined(env, Act(env, p, t)) <==> PageJoined(env, p) || Trips(env, p, t)
  {
    hide PageJoined, PutSingle, PutPair, PutMark, PutRest, Separate, Run, PutNewline, Refuse, Ends;
    var c, q := At(t.source, 1), Act(env, p, t);
    match t.kind {
      case Take =>
        SingleJoins(env, p, t.source);
        SameJoined(env, PutSingle(env, p, t.source), q);
      case Pair => PairJoins(env, p, t.source, false);
      case UnknownPair => PairJoins(env, p, t.source, true);
      case Refusal => RefusalJoins(env, p, c);
      case OpenMark =>
        MarkJoins(env, p, t.source);
        SameJoined(env, PutMark(env, p, t.source), q);
      case Inside => SingleJoins(env, p, t.source);
      case CloseMark =>
        MarkJoins(env, p, t.source);
        SameJoined(env, PutMark(env, p, t.source), q);
      case RestOfLine =>
        RestJoins(env, p, t.source);
        SameJoined(env, PutRest(env, p, t.source), q);
      case Separator => SeparatorJoins(env, p, t);
      case Command => RunJoins(env, p, ShortCommand(c, t.args, p.text));
      case CommandLine => RunJoins(env, p, LineCommand(t.source, p.text));
      case Newline =>
        NewlineJoins(env, p, t.source);
        SameJoined(env, PutNewline(p, t.source), q);
      case LineEnd => SameJoined(env, p, q);
      case CutEnd => SameJoined(env, p, q);
      case _ =>
    }
  }

  /** Characters are joined exactly where a token trips. */
  lemma {:induction false} WriteAllJoins(env: Env, p: Page, ts: seq<Token>, s: seq<char>, i: nat, last: Page)
    requires ValidEnv(env) && Gapped(p) && Spells(env, p, ts, s, i) && last == WriteAll(env, p, ts)
    ensures Gapped(last)
    ensures PageJoined(env, last) <==> PageJoined(env, p) || Tripped(env, p, ts)
    decreases |ts|
  {
    hide Act;
    if ts != [] {
      var q := Write(env, p, ts[0]);
      WriteGapped(env, p, ts[0]);
      WriteJoins(env, p, ts[0]);
      SameJoined(env, Act(env, p, ts[0]), q);
      WriteAllJoins(env, q, ts[1..], s, i + |ts[0].source|, last);
    }
  }
}
