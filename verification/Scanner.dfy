/**
  The statement splitter of the mysql client as a left-to-right scanner over immutable
  lines. There is one accepted text; where the client has put it (its statement buffer or
  the front of the line) is remembered only as a mark.

  What the client does with a statement or a client command is outside the model: a reply
  function, which may depend on everything sent so far, says what came of it.
 */
module Scanner {
  import opened Shared


  /** What a statement or command may change for the lines that follow. */
  datatype Mode0 = Mode(delimiter: seq<char>, ansiQuotes: bool, noBackslashEscapes: bool)

  type Mode = m: Mode0 | m.delimiter != [] && NUL !in m.delimiter witness Mode(";", false, false)

  datatype Event =
    | Statement(text: seq<char>)                       // ended by the delimiter
    | LoneComment(text: seq<char>)                     // a single-line comment sent by itself
    | ShortCommand(cmd: char, args: seq<char>, text: seq<char>)
    | UnknownCommand(cmd: char)
    | LineCommand(line: seq<char>, text: seq<char>)    // a whole line that is a client command

  datatype Reply = Reply(quit: bool, buffer: seq<char>, mode: Mode)

  datatype Env = Env(
    preserveComments: bool,
    isSpace: char -> bool,
    isDelimiterName: seq<char> -> bool,                // compares nine characters with "delimiter"
    isShortCommand: char -> bool,
    takesParams: char -> bool,
    reply: seq<Event> -> Reply)

  /** The character classes a C locale guarantees. */
  predicate ValidEnv(env: Env) {
    env.isSpace(' ') && env.isSpace('\n') && !env.isSpace(NUL)
  }

  /** What the client keeps from line to line. */
  datatype Carry = Carry(
    text: seq<char>,       // glob_buffer
    quote: char,           // in_string, NUL outside strings
    inComment: bool,       // ml_comment
    mode: Mode,
    sent: seq<Event>,
    quit: bool)

  /** The scanner's state inside a line. */
  datatype Scan = Scan(
    text: seq<char>,       // everything accepted for the current statement
    mark: nat,             // text[mark..] came from this line after the last flush
    quote: char,
    inComment: bool,
    inServerComment: bool, // ss_comment
    needSpace: bool,
    mode: Mode,
    sent: seq<Event>)

  datatype Step = Next(st: Scan, at: nat) | Stop(last: Scan) | Quit(final: Scan)

  /** Reading a line with its terminator. */
  function At(s: seq<char>, i: nat): char {
    if i < |s| then s[i] else NUL
  }

  predicate PrefixAt(s: seq<char>, i: nat, d: seq<char>) {
    i + |d| <= |s| && s[i..i + |d|] == d
  }

  function Accept(st: Scan, more: seq<char>): Scan {
    st.(text := st.text + more)
  }

  function Flush(st: Scan): Scan {
    st.(mark := |st.text|)
  }

  predicate IsEscape(st: Scan, c: char) {
    && !st.inComment && c == '\\' && st.quote != '`'
    && !(st.quote == '"' && st.mode.ansiQuotes)
    && !(st.quote != NUL && st.mode.noBackslashEscapes)
  }

  predicate IsLineComment(env: Env, text: seq<char>, s: seq<char>, i: nat) {
    || At(s, i) == '#'
    || (At(s, i) == '-' && At(s, i + 1) == '-'
        && (env.isSpace(At(s, i + 2)) || At(s, i + 2) == NUL || text == []))
  }

  predicate OpensComment(s: seq<char>, i: nat) {
    && At(s, i) == '/' && At(s, i + 1) == '*'
    && !(At(s, i + 2) == '!' || (At(s, i + 2) == 'M' && At(s, i + 3) == '!'))
  }

  predicate ClosesComment(s: seq<char>, i: nat) {
    At(s, i) == '*' && At(s, i + 1) == '/'
  }

  /** The first place from i on where the delimiter starts, or the end of the line. */
  function FindDelimiter(s: seq<char>, i: nat, d: seq<char>): (k: nat)
    requires i <= |s|
    ensures i <= k <= |s|
    ensures k < |s| ==> PrefixAt(s, k, d)
    decreases |s| - i
  {
    if i == |s| || PrefixAt(s, i, d) then i else FindDelimiter(s, i + 1, d)
  }

  /** The first place from i on where a comment is closed, or the end of the line. */
  function FindClose(s: seq<char>, i: nat): (k: nat)
    requires i <= |s|
    ensures i <= k <= |s|
    decreases |s| - i
  {
    if i == |s| || ClosesComment(s, i) then i else FindClose(s, i + 1)
  }

  /** Where scanning goes on after a short command and, if it has any, its parameters. */
  function AfterShortCommand(env: Env, s: seq<char>, i: nat, inServerComment: bool, d: seq<char>): (k: nat)
    requires i + 1 < |s| && d != []
    ensures i < k <= |s|
  {
    if !env.takesParams(s[i + 1]) then i + 2
    else if inServerComment then FindClose(s, i + 2)
    else
      var k := FindDelimiter(s, i + 2, d);
      if k == |s| then k else k + |d|
  }

  /** The state once a one-character command has run on the text so far. */
  function SendShort(env: Env, s: seq<char>, i: nat, st: Scan): Scan
    requires i + 1 < |s|
  {
    var sent := st.sent + [ShortCommand(s[i + 1], s[i..], st.text)];
    var r := env.reply(sent);
    st.(sent := sent, text := r.buffer, mark := |r.buffer|, mode := r.mode)
  }

  /** A one-character command: run it, and go on after its parameters. */
  function ShortCommandStep(env: Env, s: seq<char>, i: nat, st: Scan): Step
    requires i + 1 < |s|
  {
    var st1 := SendShort(env, s, i, st);
    if env.reply(st1.sent).quit then Quit(st1)
    else Next(st1, AfterShortCommand(env, s, i, st.inServerComment, st1.mode.delimiter))
  }

  /** A backslash outside comments: an escape inside a string, or a one-character command. */
  function EscapeStep(env: Env, s: seq<char>, i: nat, st: Scan): Step
    requires i < |s|
  {
    var c := At(s, i + 1);
    if c == NUL then Stop(st)
    else if st.quote != NUL || c == 'N' then Next(Accept(st, ['\\', c]), i + 2)
    else if env.isShortCommand(c) then ShortCommandStep(env, s, i, st)
    else
      var sent := st.sent + [UnknownCommand(c)];
      var st1 := st.(sent := sent);
      if env.reply(sent).quit then Quit(st1) else Next(Accept(st1, ['\\', c]), i + 2)
  }

  /** When comments are kept, a comment behind the delimiter still belongs to the statement. */
  predicate TrailingComment(env: Env, s: seq<char>, k: nat) {
    && env.preserveComments
    && (At(s, k) == '#' || (At(s, k) == '-' && At(s, k + 1) == '-' && env.isSpace(At(s, k + 2))))
  }

  /** Where the statement that ends with the delimiter at i stops being collected. */
  function StatementEnd(env: Env, s: seq<char>, i: nat, d: seq<char>): (k: nat)
    requires PrefixAt(s, i, d)
    ensures i + |d| <= k <= |s|
  {
    var j := i + |d|;
    var k := if env.preserveComments then SkipSpaces(env.isSpace, s, j) else j;
    if TrailingComment(env, s, k) then |s| else k
  }

  /** The state once a complete text was handed on and the client goes on without it. */
  function SendComplete(env: Env, st: Scan, event: Event): Handing {
    var sent := st.sent + [event];
    var r := env.reply(sent);
    if r.quit then Gone(Flush(st.(sent := sent)))
    else Left(st.(sent := sent, text := [], mark := 0, mode := r.mode))
  }

  datatype Handing = Gone(st: Scan) | Left(st: Scan)

  /** The delimiter outside strings and comments: the statement is complete. */
  function DelimiterStep(env: Env, s: seq<char>, i: nat, st: Scan): Step
    requires i < |s| && PrefixAt(s, i, st.mode.delimiter)
  {
    var k := StatementEnd(env, s, i, st.mode.delimiter);
    var st1 := Accept(st, s[i + |st.mode.delimiter|..k]);
    match SendComplete(env, st1, Statement(st1.text))
    case Gone(st2) => Quit(st2)
    case Left(st2) => Next(st2, k)
  }

  /** A comment to the end of the line. */
  function LineCommentStep(env: Env, s: seq<char>, i: nat, st: Scan): Step
    requires i < |s|
  {
    if !env.preserveComments then Stop(Flush(st))
    else
      var st1 := Accept(st, s[i..]);
      if st.text != [] then Stop(Flush(st1))
      else
        match SendComplete(env, st1, LoneComment(st1.text))
        case Gone(st2) => Quit(st2)
        case Left(st2) => Stop(st2)
  }

  function OpenStep(env: Env, i: nat, st: Scan): Step {
    var st1 := if env.preserveComments then Accept(st, ['/', '*']) else st;
    Next(Flush(st1.(inComment := true)), i + 2)
  }

  function CloseStep(env: Env, i: nat, st: Scan): Step {
    var st1 := if env.preserveComments then Accept(st, ['*', '/']) else st;
    Next(Flush(st1.(inComment := false, needSpace := true)), i + 2)
  }

  function NextQuote(st: Scan, c: char): char {
    if c == st.quote then NUL
    else if !st.inComment && st.quote == NUL && (c == '\'' || c == '"' || c == '`') then c
    else st.quote
  }

  function NextServerComment(st: Scan, s: seq<char>, i: nat): bool {
    if st.quote == NUL && At(s, i) == '/' && At(s, i + 1) == '*' && At(s, i + 2) == '!' then true
    else if st.quote == NUL && st.inServerComment && ClosesComment(s, i) then false
    else st.inServerComment
  }

  /** Any other character: accepted, unless a comment is being removed. */
  function CharStep(env: Env, s: seq<char>, i: nat, st: Scan): Step
    requires i < |s|
  {
    var c := s[i];
    var st1 := st.(inServerComment := NextServerComment(st, s, i), quote := NextQuote(st, c));
    if st.inComment && !env.preserveComments then Next(st1, i + 1)
    else
      var space := if st.needSpace && !env.isSpace(c) then [' '] else [];
      Next(Accept(st1.(needSpace := false), space + [c]), i + 1)
  }

  predicate SkipsLeadingSpace(env: Env, st: Scan, c: char) {
    !env.preserveComments && env.isSpace(c) && st.text == []
  }

  predicate AtDelimiter(s: seq<char>, i: nat, st: Scan) {
    !st.inComment && st.quote == NUL && PrefixAt(s, i, st.mode.delimiter)
  }

  datatype Rule = LeadingSpace | Escape | Delimiter | ToLineEnd | Open | Close | Plain

  /** The first rule that applies. */
  function RuleAt(env: Env, s: seq<char>, i: nat, st: Scan): Rule
    requires i < |s|
  {
    if SkipsLeadingSpace(env, st, s[i]) then LeadingSpace
    else if IsEscape(st, s[i]) then Escape
    else if AtDelimiter(s, i, st) then Delimiter
    else if !st.inComment && st.quote == NUL && IsLineComment(env, st.text, s, i) then ToLineEnd
    else if st.quote == NUL && OpensComment(s, i) then Open
    else if st.inComment && !st.inServerComment && ClosesComment(s, i) then Close
    else Plain
  }

  /** One turn of the scanner. */
  function StepAt(env: Env, s: seq<char>, i: nat, st: Scan): (r: Step)
    requires i < |s|
    ensures r.Next? ==> r.at > i
  {
    match RuleAt(env, s, i, st)
    case LeadingSpace => Next(st, i + 1)
    case Escape => EscapeStep(env, s, i, st)
    case Delimiter => DelimiterStep(env, s, i, st)
    case ToLineEnd => LineCommentStep(env, s, i, st)
    case Open => OpenStep(env, i, st)
    case Close => CloseStep(env, i, st)
    case Plain => CharStep(env, s, i, st)
  }

  datatype Outcome = Done(st: Scan) | Quitting(st: Scan)

  /** Scanning the rest of a line. */
  function ScanFrom(env: Env, s: seq<char>, i: nat, st: Scan): Outcome
    decreases |s| - i
  {
    if i >= |s| then Done(st)
    else
      match StepAt(env, s, i, st)
      case Next(st1, j) => ScanFrom(env, s, j, st1)
      case Stop(st1) => Done(st1)
      case Quit(st1) => Quitting(st1)
  }

  lemma ScanStep(env: Env, s: seq<char>, i: nat, st: Scan, r: Step)
    requires i < |s| && r == StepAt(env, s, i, st)
    ensures ScanFrom(env, s, i, st)
            == match r
               case Next(st1, j) => ScanFrom(env, s, j, st1)
               case Stop(st1) => Done(st1)
               case Quit(st1) => Quitting(st1)
  {
  }

  const DELIMITER_NAME_LEN: nat := 9

  /** The chunk of this line would be read as a DELIMITER command. */
  predicate IsDelimiterCommand(env: Env, chunk: seq<char>) {
    |chunk| >= DELIMITER_NAME_LEN && env.isDelimiterName(chunk[..DELIMITER_NAME_LEN])
  }

  /** What is kept of a line: its newline, unless it was cut or is a DELIMITER command. */
  function EndOfLine(env: Env, st: Scan, truncated: bool): seq<char>
    requires st.mark <= |st.text|
  {
    if st.text == [] then []
    else
      var chunk := st.text[st.mark..];
      var newline := if !truncated && (!IsDelimiterCommand(env, chunk) || st.quote != NUL || st.inComment)
                     then ['\n'] else [];
      if !st.inComment || env.preserveComments then st.text + newline else st.text[..st.mark]
  }

  function Start(c: Carry): Scan {
    Scan(c.text, |c.text|, c.quote, c.inComment, false, false, c.mode, c.sent)
  }

  lemma {:induction false} ScanKeepsMark(env: Env, s: seq<char>, i: nat, st: Scan)
    requires st.mark <= |st.text|
    ensures ScanFrom(env, s, i, st).st.mark <= |ScanFrom(env, s, i, st).st.text|
    decreases |s| - i
  {
    if i < |s| {
      var r := StepAt(env, s, i, st);
      if r.Next? {
        ScanKeepsMark(env, s, r.at, r.st);
      }
    }
  }

  /** One line, from and to the state between lines. */
  function ScanLine(env: Env, c: Carry, s: seq<char>, truncated: bool): Carry {
    if s == [] && c.text == [] then c
    else
      var r := ScanFrom(env, s, 0, Start(c));
      ScanKeepsMark(env, s, 0, Start(c));
      var text := if r.Quitting? then r.st.text[..r.st.mark] else EndOfLine(env, r.st, truncated);
      Carry(text, r.st.quote, r.st.inComment, r.st.mode, r.st.sent, r.Quitting?)
  }

  lemma ScanLineResult(env: Env, c: Carry, s: seq<char>, truncated: bool, r: Outcome)
    requires !(s == [] && c.text == []) && r == ScanFrom(env, s, 0, Start(c))
    ensures r.st.mark <= |r.st.text|
    ensures ScanLine(env, c, s, truncated)
            == Carry(if r.Quitting? then r.st.text[..r.st.mark] else EndOfLine(env, r.st, truncated),
                     r.st.quote, r.st.inComment, r.st.mode, r.st.sent, r.Quitting?)
  {
    ScanKeepsMark(env, s, 0, Start(c));
  }
}
