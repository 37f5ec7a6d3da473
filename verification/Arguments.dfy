/**
  get_arg: the first argument of a client command. In GET mode it resolves escapes by
  deleting characters from the line in place; in CHECK mode, which find_command uses to
  decide whether the text is that command, it leaves the line alone.
  The line is an array that holds the text and a terminator; isSpace is the character set's.
 */
module Arguments {
  import opened Shared
  import opened Wrappers

  /** Where the argument starts, and by which rules it is read. */
  datatype Place = Place(start: nat, short: bool, quote: Option<char>)

  /** An argument with its escapes resolved, and whether its quote, if any, was closed. */
  datatype Parsed = Parsed(text: string, closed: bool)

  function SkipWord(isSpace: char -> bool, s: string, i: nat): (k: nat)
    requires i <= |s|
    ensures i <= k <= |s|
    decreases |s| - i
  {
    if i < |s| && !isSpace(s[i]) then SkipWord(isSpace, s, i + 1) else i
  }

  /** A backslash that starts the command is followed by the command character. */
  predicate HasCommand(isSpace: char -> bool, s: string) {
    var i := SkipSpaces(isSpace, s, 0);
    i < |s| && s[i] == '\\' ==> i + 1 < |s|
  }

  predicate IsQuote(c: char) { c == '\'' || c == '"' || c == '`' }

  /** What follows the command, or nothing if the line ends with the command. */
  function Locate(isSpace: char -> bool, s: string): (p: Option<Place>)
    requires HasCommand(isSpace, s)
    ensures p.Some? ==> p.value.start <= |s| && (p.value.quote.Some? ==> IsQuote(p.value.quote.value))
  {
    var i := SkipSpaces(isSpace, s, 0);
    var short := i < |s| && s[i] == '\\';
    var end := if short then i + 2 else SkipWord(isSpace, s, i);
    if end == |s| then None
    else
      var k := SkipSpaces(isSpace, s, end);
      if k < |s| && IsQuote(s[k]) then Some(Place(k + 1, short, Some(s[k]))) else Some(Place(k, short, None))
  }

  /** The next two characters stand for the second of them. */
  predicate IsEscape(s: string, short: bool, quote: Option<char>) {
    |s| >= 2 &&
    if short then s[0] == '\\'
    else (s[0] == '\\' && quote != Some('`')) || (quote == Some(s[0]) && s[1] == s[0])
  }

  function Closing(quote: Option<char>): char {
    if quote.Some? then quote.value else ' '
  }

  function Parse(s: string, short: bool, quote: Option<char>): Parsed
    decreases |s|
  {
    if s == [] then Parsed([], quote == None)
    else if IsEscape(s, short, quote) then
      var rest := Parse(s[2..], short, quote);
      Parsed([s[1]] + rest.text, rest.closed)
    else if s[0] == Closing(quote) then Parsed([], true)
    else
      var rest := Parse(s[1..], short, quote);
      Parsed([s[0]] + rest.text, rest.closed)
  }

  /** The argument that get_arg finds. */
  function Argument(isSpace: char -> bool, s: string): (a: Option<string>)
    requires HasCommand(isSpace, s)
  {
    match Locate(isSpace, s)
    case None => None
    case Some(p) =>
      var r := Parse(s[p.start..], p.short, p.quote);
      if r.text != [] && r.closed then Some(r.text) else None
  }

  // --- the program

  /** The array holds the text s at position p, and a terminator. */
  ghost predicate Holds(line: array<char>, p: nat, s: string)
    reads line
  {
    && p + |s| < line.Length && line[p + |s|] == NUL
    && (forall k :: p <= k < p + |s| ==> line[k] == s[k - p])
  }

  ghost predicate NoNul(s: string) {
    forall i :: 0 <= i < |s| ==> s[i] != NUL
  }

  method SkipSpacesIn(isSpace: char -> bool, line: array<char>, p: nat, ghost s: string) returns (q: nat)
    requires Holds(line, 0, s) && NoNul(s) && !isSpace(NUL) && p <= |s|
    ensures q == SkipSpaces(isSpace, s, p)
  {
    q := p;
    while isSpace(line[q])
      invariant p <= q <= |s| && SkipSpaces(isSpace, s, p) == SkipSpaces(isSpace, s, q)
      decreases |s| - q
    {
      q := q + 1;
    }
  }

  method SkipWordIn(isSpace: char -> bool, line: array<char>, p: nat, ghost s: string) returns (q: nat)
    requires Holds(line, 0, s) && NoNul(s) && p <= |s|
    ensures q == SkipWord(isSpace, s, p)
  {
    q := p;
    while line[q] != NUL && !isSpace(line[q])
      invariant p <= q <= |s| && SkipWord(isSpace, s, p) == SkipWord(isSpace, s, q)
      decreases |s| - q
    {
        q := q + 1;
    }
  }

  /** strmov_overlapp: delete the character at p. */
  method Remove(line: array<char>, p: nat, ghost s: string)
    requires Holds(line, p, s) && NoNul(s) && |s| >= 1
    modifies line
    ensures Holds(line, p, s[1..]) && line[..p] == old(line[..p])
  {
    var e := p;
    while line[e] != NUL
      invariant p <= e <= p + |s|
      invariant forall k :: 0 <= k < p ==> line[k] == old(line[k])
      invariant forall k :: p <= k < e ==> line[k] == old(line[k + 1])
      invariant forall k :: e <= k < line.Length ==> line[k] == old(line[k])
      decreases p + |s| - e
    {
      line[e] := line[e + 1];
      e := e + 1;
    }
  }

  /** What the loop has read: the text done so far, and the text still to be read at ptr. */
  ghost predicate Reading(line: array<char>, start: nat, ptr: nat, done: string, rest: string, check: bool)
    reads line
  {
    && Holds(line, ptr, rest) && NoNul(rest) && start <= ptr && (ptr == start <==> done == [])
    && (!check ==> ptr == start + |done| && forall k :: start <= k < ptr ==> line[k] == done[k - start])
  }

  /** An escape: delete the first of its two characters, or step over it. */
  method StepEscape(line: array<char>, start: nat, ptr: nat, check: bool, ghost done: string, ghost rest: string)
    returns (ptr': nat)
    requires Reading(line, start, ptr, done, rest, check) && |rest| >= 2
    modifies line
    ensures Reading(line, start, ptr', done + [rest[1]], rest[2..], check)
    ensures check ==> line[..] == old(line[..])
  {
    if check {
      ptr' := ptr + 2;
    } else {
      Remove(line, ptr, rest);
      ptr' := ptr + 1;
    }
  }

  lemma ParseOne(done: string, s: string, short: bool, quote: Option<char>)
    requires s != []
    ensures IsEscape(s, short, quote) ==>
      done + Parse(s, short, quote).text == (done + [s[1]]) + Parse(s[2..], short, quote).text
    ensures !IsEscape(s, short, quote) && s[0] != Closing(quote) ==>
      done + Parse(s, short, quote).text == (done + [s[0]]) + Parse(s[1..], short, quote).text
  {
  }

  /** The test for an escape, which looks one character ahead. */
  method AtEscape(line: array<char>, ptr: nat, short: bool, quote: Option<char>, ghost rest: string)
      returns (escape: bool)
    requires Holds(line, ptr, rest) && NoNul(rest) && rest != [] && quote != Some(NUL)
    ensures escape == IsEscape(rest, short, quote)
  {
    if short {
      escape := line[ptr] == '\\' && line[ptr + 1] != NUL;
    } else {
      escape := (line[ptr] == '\\' && line[ptr + 1] != NUL && quote != Some('`'))
                || (quote.Some? && line[ptr] == quote.value && line[ptr + 1] == quote.value);
    }
  }

  /** One turn of the loop: an escape, the closing character, or any other character. */
  method ReadOne(line: array<char>, start: nat, ptr: nat, short: bool, quote: Option<char>, check: bool,
      ghost done: string, ghost rest: string)
    returns (ptr': nat, closed: bool, ghost done': string, ghost rest': string)
    requires Reading(line, start, ptr, done, rest, check) && rest != [] && quote != Some(NUL)
    modifies line
    ensures check ==> line[..] == old(line[..])
    ensures Reading(line, start, ptr', done', rest', check)
    ensures done' + Parse(rest', short, quote).text == done + Parse(rest, short, quote).text
    ensures Parse(rest', short, quote).closed == Parse(rest, short, quote).closed
    ensures if closed then rest' == rest && Parse(rest', short, quote) == Parsed([], true) else |rest'| < |rest|
  {
    ParseOne(done, rest, short, quote);
    var escape := AtEscape(line, ptr, short, quote, rest);
    closed := false;
    if escape {
      ptr' := StepEscape(line, start, ptr, check, done, rest);
      done', rest' := done + [rest[1]], rest[2..];
    } else if line[ptr] == Closing(quote) {
      ptr', closed, done', rest' := ptr, true, done, rest;
    } else {
      ptr' := ptr + 1;
      done', rest' := done + [rest[0]], rest[1..];
    }
  }

  /** The loop that reads the argument and, unless it only checks, edits the line. */
  method ReadArgument(line: array<char>, start: nat, short: bool, quote: Option<char>, check: bool, ghost s: string)
    returns (ptr: nat, closed: bool)
    requires Holds(line, start, s) && NoNul(s) && quote != Some(NUL)
    modifies line
    ensures check ==> line[..] == old(line[..])
    ensures var r := Parse(s, short, quote);
      && closed == r.closed && (ptr == start <==> r.text == []) && (!check ==> Holds(line, start, r.text))
  {
    ghost var done, rest := [], s;
    ptr, closed := start, false;
    while line[ptr] != NUL && !closed
      invariant Reading(line, start, ptr, done, rest, check)
      invariant check ==> line[..] == old(line[..])
      invariant Parse(s, short, quote).text == done + Parse(rest, short, quote).text
      invariant Parse(s, short, quote).closed == Parse(rest, short, quote).closed
      invariant closed ==> Parse(rest, short, quote) == Parsed([], true)
      decreases |rest|, !closed
    {
      ptr, closed, done, rest := ReadOne(line, start, ptr, short, quote, check, done, rest);
    }
    assert done + [] == done;
    if !closed {
      closed := quote == None;
    } else if !check {
      line[ptr] := NUL;
    }
  }

  /** Find where the argument starts. */
  method LocateIn(isSpace: char -> bool, line: array<char>, ghost s: string) returns (place: Option<Place>)
    requires Holds(line, 0, s) && NoNul(s) && !isSpace(NUL) && HasCommand(isSpace, s)
    ensures place == Locate(isSpace, s)
  {
    var ptr := SkipSpacesIn(isSpace, line, 0, s);
    var short := line[ptr] == '\\';
    if short {
      ptr := ptr + 2;
    } else {
      ptr := SkipWordIn(isSpace, line, ptr, s);
    }
    if line[ptr] == NUL { return None; }
    ptr := SkipSpacesIn(isSpace, line, ptr, s);
    if IsQuote(line[ptr]) {
      place := Some(Place(ptr + 1, short, Some(line[ptr])));
    } else {
      place := Some(Place(ptr, short, None));
    }
  }

  /** get_arg in its two modes, GET and CHECK. */
  method GetArg(isSpace: char -> bool, line: array<char>, check: bool, ghost s: string) returns (arg: Option<nat>)
    requires Holds(line, 0, s) && NoNul(s) && !isSpace(NUL) && HasCommand(isSpace, s)
    modifies line
    ensures arg.Some? <==> Argument(isSpace, s).Some?
    ensures arg.Some? ==> arg.value == Locate(isSpace, s).value.start
    ensures check ==> line[..] == old(line[..])
    ensures !check && arg.Some? ==> Holds(line, arg.value, Argument(isSpace, s).value)
  {
    var place := LocateIn(isSpace, line, s);
    if place == None { return None; }
    var start := place.value.start;
    var end, closed := ReadArgument(line, start, place.value.short, place.value.quote, check, s[start..]);
    arg := if end != start && closed then Some(start) else None;
  }

  // --- what it means

  /** An argument written so that it can be read back: quotes and backslashes doubled. */
  function Quoted(text: string, quote: char): string {
    if text == [] then []
    else (if text[0] == quote || (text[0] == '\\' && quote != '`') then [text[0], text[0]] else [text[0]])
         + Quoted(text[1..], quote)
  }

  lemma QuotedHead(text: string, quote: char, rest: string)
    requires text != []
    ensures var doubled := text[0] == quote || (text[0] == '\\' && quote != '`');
      Quoted(text, quote) + [quote] + rest
      == (if doubled then [text[0], text[0]] else [text[0]]) + (Quoted(text[1..], quote) + [quote] + rest)
  {
  }

  /** Reading a quoted argument gives back its text, whatever follows that is not the quote. */
  lemma {:induction false} ParseQuoted(text: string, quote: char, rest: string)
    requires IsQuote(quote) && (rest != [] ==> rest[0] != quote)
    ensures Parse(Quoted(text, quote) + [quote] + rest, false, Some(quote)) == Parsed(text, true)
  {
    var s := Quoted(text, quote) + [quote] + rest;
    if text != [] {
      ParseQuoted(text[1..], quote, rest);
      QuotedHead(text, quote, rest);
      var tail := Quoted(text[1..], quote) + [quote] + rest;
      hide Quoted;
      if text[0] == quote || (text[0] == '\\' && quote != '`') {
        assert s[2..] == tail;
      } else {
        assert s[1..] == tail;
      }
    }
  }

  lemma {:induction false} SkipWordTo(isSpace: char -> bool, s: string, i: nat, k: nat)
    requires i <= k <= |s| && (k < |s| ==> isSpace(s[k])) && forall j :: i <= j < k ==> !isSpace(s[j])
    ensures SkipWord(isSpace, s, i) == k
    decreases k - i
  {
    if i < k { SkipWordTo(isSpace, s, i + 1, k); }
  }

  /** A command with a quoted argument is a command with that argument. */
  lemma QuotedArgument(isSpace: char -> bool, command: string, text: string, quote: char)
    requires command != [] && command[0] != '\\' && forall i :: 0 <= i < |command| ==> !isSpace(command[i])
    requires isSpace(' ') && IsQuote(quote) && !isSpace(quote) && text != []
    ensures var s := command + [' ', quote] + (Quoted(text, quote) + [quote]);
      HasCommand(isSpace, s) && Argument(isSpace, s) == Some(text)
  {
    var s := command + [' ', quote] + (Quoted(text, quote) + [quote]);
    var k := |command|;
    assert s[k] == ' ' && s[k + 1] == quote;
    SkipWordTo(isSpace, s, 0, k);
    assert SkipSpaces(isSpace, s, k + 1) == k + 1;
    assert SkipSpaces(isSpace, s, k) == k + 1;
    assert Locate(isSpace, s) == Some(Place(k + 2, false, Some(quote)));
    assert s[k + 2..] == Quoted(text, quote) + [quote] + [];
    ParseQuoted(text, quote, []);
  }

  // --- every line, in its parts

  /** What an argument is written with: a character for itself, or a pair for its second character. */
  datatype Unit = Plain(c: char) | Pair(mark: char, c: char)

  function Spelling(u: Unit): string {
    match u case Plain(c) => [c] case Pair(mark, c) => [mark, c]
  }

  function Spelled(units: seq<Unit>): string {
    if units == [] then []
    else Spelling(units[0]) + Spelled(units[1..])
  }

  function Meant(units: seq<Unit>): string {
    if units == [] then [] else [units[0].c] + Meant(units[1..])
  }

  /** A backslash escapes the next character, except that in backticks only a short command's does. */
  predicate Escapes(short: bool, quote: Option<char>) { short || quote != Some('`') }

  /** A pair is an escape or, for a long command, the quote twice; anything else but the end stands for itself. */
  predicate UnitOf(u: Unit, short: bool, quote: Option<char>) {
    match u
    case Plain(c) => c != (if quote.Some? then quote.value else ' ') && (c == '\\' ==> !Escapes(short, quote))
    case Pair(mark, c) =>
      (mark == '\\' && Escapes(short, quote)) || (!short && quote == Some(mark) && c == mark)
  }

  predicate UnitsOf(units: seq<Unit>, short: bool, quote: Option<char>) {
    forall i :: 0 <= i < |units| ==> UnitOf(units[i], short, quote)
  }

  /** The closing quote, which a long command must not follow by another one, or the space after a bare argument. */
  predicate Ends(rest: string, short: bool, quote: Option<char>) {
    && rest != [] && rest[0] == (if quote.Some? then quote.value else ' ')
    && (quote.Some? && !short && |rest| >= 2 ==> rest[1] != rest[0])
  }

  /** A backslash that ends the line has nothing to escape. */
  predicate Dangles(rest: string, short: bool, quote: Option<char>) {
    rest == ['\\'] && Escapes(short, quote)
  }

  predicate AllSpaces(isSpace: char -> bool, t: string) {
    forall i :: 0 <= i < |t| ==> isSpace(t[i])
  }

  predicate NoSpaces(isSpace: char -> bool, t: string) {
    forall i :: 0 <= i < |t| ==> !isSpace(t[i])
  }

  /**
    A line in its parts: white space, the command, white space, an opening quote, the argument,
    and the rest, which starts with what ends the argument.
   */
  datatype Call = Call(lead: string, command: string, gap: string, quote: Option<char>, units: seq<Unit>, rest: string)
  {
    predicate IsShort() { command != [] && command[0] == '\\' }

    function Opening(): string { if quote.Some? then [quote.value] else [] }

    function Body(): string { Opening() + (Spelled(units) + rest) }

    function Head(): string { lead + command + gap }

    function Line(): string { Head() + Body() }

    /** The argument, with its escapes resolved. */
    function Meaning(): string {
      Meant(units) + if Dangles(rest, IsShort(), quote) then rest else []
    }

    predicate Closed() { quote == None || Ends(rest, IsShort(), quote) }

    /** A short command is a backslash and any character; a long one extends to white space. */
    predicate Valid(isSpace: char -> bool) {
      && AllSpaces(isSpace, lead) && AllSpaces(isSpace, gap)
      && (if IsShort() then |command| == 2 && !isSpace('\\')
          else NoSpaces(isSpace, command) && (gap == [] ==> Body() == []) && (command == [] ==> gap == []))
      && (Body() != [] ==> !isSpace(Body()[0]) && (IsQuote(Body()[0]) <==> quote.Some?))
      && UnitsOf(units, IsShort(), quote)
      && (rest == [] || Ends(rest, IsShort(), quote) || Dangles(rest, IsShort(), quote))
    }
  }

  lemma ParseUnit(u: Unit, more: string, short: bool, quote: Option<char>)
    requires UnitOf(u, short, quote)
    ensures var r := Parse(more, short, quote);
      Parse(Spelling(u) + more, short, quote) == Parsed([u.c] + r.text, r.closed)
  {
    var s := Spelling(u) + more;
    match u
    case Plain(c) => assert s[1..] == more;
    case Pair(mark, c) => assert s[2..] == more;
  }

  lemma ParseEnd(rest: string, short: bool, quote: Option<char>)
    requires rest == [] || Ends(rest, short, quote) || Dangles(rest, short, quote)
    requires quote.Some? ==> IsQuote(quote.value)
    ensures Parse(rest, short, quote) ==
      Parsed(if Dangles(rest, short, quote) then rest else [], quote == None || Ends(rest, short, quote))
  {
  }

  /** The parts of the rest of a line are what the loop reads. */
  lemma {:induction false} ParseUnits(units: seq<Unit>, rest: string, short: bool, quote: Option<char>)
    requires UnitsOf(units, short, quote) && (quote.Some? ==> IsQuote(quote.value))
    requires rest == [] || Ends(rest, short, quote) || Dangles(rest, short, quote)
    ensures Parse(Spelled(units) + rest, short, quote) ==
      Parsed(Meant(units) + (if Dangles(rest, short, quote) then rest else []),
             quote == None || Ends(rest, short, quote))
  {
    hide Ends, Dangles, Parse, UnitOf, Spelling;
    if units == [] {
      assert Spelled(units) + rest == rest;
      ParseEnd(rest, short, quote);
    } else {
      var more := Spelled(units[1..]) + rest;
      ParseUnits(units[1..], rest, short, quote);
      ParseUnit(units[0], more, short, quote);
      Associate(Spelling(units[0]), Spelled(units[1..]), rest);
      Associate([units[0].c], Meant(units[1..]), if Dangles(rest, short, quote) then rest else []);
    }
  }

  lemma FirstUnit(s: string, u: Unit, short: bool, quote: Option<char>)
    requires s != [] && !Ends(s, short, quote) && !Dangles(s, short, quote)
    requires u == if |s| >= 2 && UnitOf(Pair(s[0], s[1]), short, quote) then Pair(s[0], s[1]) else Plain(s[0])
    ensures UnitOf(u, short, quote) && 0 < |Spelling(u)| <= |s| && s == Spelling(u) + s[|Spelling(u)|..]
  {
  }

  /** Every text has such parts. */
  lemma {:induction false} UnitsOfText(s: string, short: bool, quote: Option<char>)
      returns (units: seq<Unit>, rest: string)
    ensures s == Spelled(units) + rest && UnitsOf(units, short, quote)
    ensures rest == [] || Ends(rest, short, quote) || Dangles(rest, short, quote)
    decreases |s|
  {
    units, rest := [], s;
    if s != [] && !Ends(s, short, quote) && !Dangles(s, short, quote) {
      var u := if |s| >= 2 && UnitOf(Pair(s[0], s[1]), short, quote) then Pair(s[0], s[1]) else Plain(s[0]);
      FirstUnit(s, u, short, quote);
      hide Ends, Dangles, UnitOf, Spelling;
      units, rest := UnitsOfText(s[|Spelling(u)|..], short, quote);
      hide Spelled;
      SpelledMore(u, units);
      Associate(Spelling(u), Spelled(units), rest);
      units := [u] + units;
    }
  }

  lemma SpelledMore(u: Unit, units: seq<Unit>)
    ensures Spelled([u] + units) == Spelling(u) + Spelled(units)
  {
    assert ([u] + units)[1..] == units;
  }

  lemma {:induction false} SkipSpacesTo(isSpace: char -> bool, s: string, i: nat, k: nat)
    requires i <= k <= |s| && (k < |s| ==> !isSpace(s[k])) && forall j :: i <= j < k ==> isSpace(s[j])
    ensures SkipSpaces(isSpace, s, i) == k
    decreases k - i
  {
    if i < k { SkipSpacesTo(isSpace, s, i + 1, k); }
  }

  /** The characters of a line. */
  lemma LineAt(call: Call)
    ensures var s, i, end, k := call.Line(), |call.lead|, |call.lead + call.command|, |call.Head()|;
      && i <= end <= k <= |s| && |s| == k + |call.Body()| && k == end + |call.gap|
      && (forall j :: 0 <= j < i ==> s[j] == call.lead[j])
      && (forall j :: i <= j < end ==> s[j] == call.command[j - i])
      && (forall j :: end <= j < k ==> s[j] == call.gap[j - end])
      && (call.Body() != [] ==> s[k] == call.Body()[0])
  {
    hide Call.Body;
  }

  /** The command of a line is where get_arg finds it. */
  lemma LocateCall(isSpace: char -> bool, call: Call)
    requires call.Valid(isSpace)
    ensures HasCommand(isSpace, call.Line())
    ensures Locate(isSpace, call.Line()) ==
      if call.gap == [] && call.Body() == [] then None
      else Some(Place(|call.Head()| + |call.Opening()|, call.IsShort(), call.quote))
  {
    var s, i, end, k := call.Line(), |call.lead|, |call.lead + call.command|, |call.Head()|;
    LineAt(call);
    assert call.quote.Some? ==> call.Body() != [] && call.Body()[0] == call.quote.value;
    hide Call.Body, Call.Head, Call.Line, UnitsOf, Ends, Dangles;
    SkipSpacesTo(isSpace, s, 0, i);
    SkipSpacesTo(isSpace, s, end, k);
    if !call.IsShort() { SkipWordTo(isSpace, s, i, end); }
  }

  /** What get_arg makes of any line: the meaning of its argument, if that is not empty and its quote is closed. */
  lemma ArgumentOfCall(isSpace: char -> bool, call: Call)
    requires call.Valid(isSpace)
    ensures HasCommand(isSpace, call.Line())
    ensures Argument(isSpace, call.Line()) ==
      if call.Meaning() != [] && call.Closed() then Some(call.Meaning()) else None
    ensures Argument(isSpace, call.Line()).Some? ==>
      Locate(isSpace, call.Line()).value.start == |call.Head()| + |call.Opening()|
  {
    LocateCall(isSpace, call);
    assert call.quote.Some? ==> call.Body()[0] == call.quote.value;
    ParseUnits(call.units, call.rest, call.IsShort(), call.quote);
    BodyStarts(call);
    hide Parse, Spelled, Meant, Locate, HasCommand, UnitsOf, Ends, Dangles, AllSpaces, NoSpaces;
    hide Call.Body, Call.Head, Call.Line, Call.IsShort, Call.Opening;
  }

  lemma BodyStarts(call: Call)
    ensures var start := |call.Head()| + |call.Opening()|;
      start <= |call.Line()| && call.Line()[start..] == Spelled(call.units) + call.rest
  {
  }

  lemma {:induction false} SkippedSpaces(isSpace: char -> bool, s: string, i: nat)
    requires i <= |s|
    ensures var k := SkipSpaces(isSpace, s, i);
      (forall j :: i <= j < k ==> isSpace(s[j])) && (k < |s| ==> !isSpace(s[k]))
    decreases |s| - i
  {
    if i < |s| && isSpace(s[i]) { SkippedSpaces(isSpace, s, i + 1); }
  }

  lemma {:induction false} SkippedWord(isSpace: char -> bool, s: string, i: nat)
    requires i <= |s|
    ensures var k := SkipWord(isSpace, s, i);
      (forall j :: i <= j < k ==> !isSpace(s[j])) && (k < |s| ==> isSpace(s[k]))
    decreases |s| - i
  {
    if i < |s| && !isSpace(s[i]) { SkippedWord(isSpace, s, i + 1); }
  }

  /** Where the command starts and ends and the argument starts. */
  lemma HeadOfLine(isSpace: char -> bool, s: string) returns (i: nat, end: nat, k: nat)
    requires HasCommand(isSpace, s)
    ensures i <= end <= k <= |s| && AllSpaces(isSpace, s[..i]) && AllSpaces(isSpace, s[end..k])
    ensures if i < |s| && s[i] == '\\' then end == i + 2 && !isSpace('\\')
            else NoSpaces(isSpace, s[i..end]) && (end == k ==> k == |s|) && (i == end ==> end == k)
    ensures k < |s| ==> !isSpace(s[k])
  {
    i := SkipSpaces(isSpace, s, 0);
    SkippedSpaces(isSpace, s, 0);
    if i < |s| && s[i] == '\\' {
      end := i + 2;
    } else {
      end := SkipWord(isSpace, s, i);
      SkippedWord(isSpace, s, i);
    }
    k := SkipSpaces(isSpace, s, end);
    SkippedSpaces(isSpace, s, end);
  }

  /** Every line has such parts. */
  lemma EveryLineIsACall(isSpace: char -> bool, s: string) returns (call: Call)
    requires HasCommand(isSpace, s)
    ensures call.Valid(isSpace) && call.Line() == s
  {
    hide UnitOf, UnitsOf, Ends, Dangles, Spelled, HasCommand, AllSpaces, NoSpaces;
    var i, end, k := HeadOfLine(isSpace, s);
    var short := i < |s| && s[i] == '\\';
    var quote := if k < |s| && IsQuote(s[k]) then Some(s[k]) else None;
    var start := if quote.Some? then k + 1 else k;
    var units, rest := UnitsOfText(s[start..], short, quote);
    call := Call(s[..i], s[i..end], s[end..k], quote, units, rest);
    assert call.IsShort() == short;
    Halves(s, i, end, k, start);
    assert call.Body() == s[k..] && call.Head() == s[..k];
    hide Call.Body, Call.Head, Call.IsShort, IsQuote;
  }

  lemma Halves(s: string, i: nat, end: nat, k: nat, start: nat)
    requires i <= end <= k <= start <= |s|
    ensures s[..i] + s[i..end] + s[end..k] == s[..k] && s[k..start] + s[start..] == s[k..] && s[..k] + s[k..] == s
  {
  }

  /** A bare argument without white space and backslashes is its own text, for a long and for a short command. */
  lemma BareArgument(isSpace: char -> bool, command: string, text: string, more: string)
    requires isSpace(' ') && !isSpace('\\') && command != []
    requires if command[0] == '\\' then |command| == 2 else forall i :: 0 <= i < |command| ==> !isSpace(command[i])
    requires text != [] && !IsQuote(text[0]) && !isSpace(text[0]) && ' ' !in text && '\\' !in text
    requires more != [] ==> more[0] == ' '
    ensures var s := command + " " + (text + more); HasCommand(isSpace, s) && Argument(isSpace, s) == Some(text)
  {
    var units := Bare(text);
    BareUnits(text);
    var call := Call([], command, " ", None, units, more);
    assert call.Head() == command + " ";
    assert call.Body() == text + more;
    hide Spelled, Meant, Bare, Argument, HasCommand;
    assert call.Meaning() == text;
    ArgumentOfCall(isSpace, call);
  }

  function Bare(text: string): seq<Unit> {
    if text == [] then [] else [Plain(text[0])] + Bare(text[1..])
  }

  lemma {:induction false} BareUnits(text: string)
    ensures Spelled(Bare(text)) == text && Meant(Bare(text)) == text && |Bare(text)| == |text|
    ensures forall i :: 0 <= i < |text| ==> Bare(text)[i] == Plain(text[i])
  {
    if text != [] {
      BareUnits(text[1..]);
      SpelledMore(Plain(text[0]), Bare(text[1..]));
    }
  }
}
