/**
  The string literals that mysqldump and mysqlimport print, and the server's readers that must
  understand them: string literals and LIKE patterns.
 */
module SqlText {
  import opened Shared
  import opened Wrappers

  const QUOTE: char := '\''
  const BACKSLASH: char := '\\'

  // --- the server's string literals

  /** How long a literal is that starts after its opening quote: where its closing quote is. */
  function LiteralLength(s: string): Option<nat> {
    if s == [] then None
    else if s[0] == BACKSLASH then (if |s| == 1 then None else Further(2, LiteralLength(s[2..])))
    else if s[0] == QUOTE then (if |s| >= 2 && s[1] == QUOTE then Further(2, LiteralLength(s[2..])) else Some(0))
    else Further(1, LiteralLength(s[1..]))
  }

  function Further(k: nat, n: Option<nat>): Option<nat> {
    if n.Some? then Some(k + n.value) else None
  }

  /** What a backslash and a character stand for. */
  function UnescapeChar(c: char): string {
    match c
    case 'n' => "\n"
    case 't' => "\t"
    case 'r' => "\r"
    case 'b' => [8 as char]
    case '0' => [NUL]
    case 'Z' => [26 as char]
    case '_' => [BACKSLASH, '_']
    case '%' => [BACKSLASH, '%']
    case _ => [c]
  }

  /** The value of the text of a literal. */
  function Unescape(s: string): string {
    if s == [] then []
    else if s[0] == BACKSLASH && |s| >= 2 then UnescapeChar(s[1]) + Unescape(s[2..])
    else if s[0] == QUOTE then [s[0]] + (if |s| >= 2 then Unescape(s[2..]) else [])
    else [s[0]] + Unescape(s[1..])
  }

  /** After the literal comes nothing, or something other than a quote. */
  predicate Ends(rest: string) { rest != [] ==> rest[0] != QUOTE }

  lemma ReadPair(c: char, tail: string)
    ensures LiteralLength([BACKSLASH, c] + tail) == Further(2, LiteralLength(tail))
    ensures Unescape([BACKSLASH, c] + tail) == UnescapeChar(c) + Unescape(tail)
  {
    assert ([BACKSLASH, c] + tail)[2..] == tail;
  }

  lemma ReadQuotes(tail: string)
    ensures LiteralLength([QUOTE, QUOTE] + tail) == Further(2, LiteralLength(tail))
    ensures Unescape([QUOTE, QUOTE] + tail) == [QUOTE] + Unescape(tail)
  {
    assert ([QUOTE, QUOTE] + tail)[2..] == tail;
  }

  lemma ReadPlain(c: char, tail: string)
    requires c != BACKSLASH && c != QUOTE
    ensures LiteralLength([c] + tail) == Further(1, LiteralLength(tail))
    ensures Unescape([c] + tail) == [c] + Unescape(tail)
  {
    assert ([c] + tail)[1..] == tail;
  }

  // --- LIKE patterns

  predicate Like(pattern: string, t: string)
    decreases |pattern|
  {
    if pattern == [] then t == []
    else if pattern[0] == '%' then exists k | 0 <= k <= |t| :: Like(pattern[1..], t[k..])
    else if pattern[0] == '_' then t != [] && Like(pattern[1..], t[1..])
    else if pattern[0] == BACKSLASH && |pattern| >= 2 then t != [] && t[0] == pattern[1] && Like(pattern[2..], t[1..])
    else t != [] && t[0] == pattern[0] && Like(pattern[1..], t[1..])
  }

  function LikeChar(c: char): string {
    if c == BACKSLASH then [BACKSLASH, BACKSLASH] + [BACKSLASH, BACKSLASH]
    else if c == QUOTE || c == '_' || c == '%' then [BACKSLASH, c]
    else [c]
  }

  function LikeBody(name: string): string {
    if name == [] then [] else LikeChar(name[0]) + LikeBody(name[1..])
  }

  lemma {:induction false} LikeBodyMore(name: string, c: char)
    ensures LikeBody(name + [c]) == LikeBody(name) + LikeChar(c)
  {
    if name == [] {
      assert LikeBody([c]) == LikeChar(c) + LikeBody([]);
    } else {
      assert (name + [c])[1..] == name[1..] + [c];
      LikeBodyMore(name[1..], c);
    }
  }

  /** One character with the backslashes it needs. */
  method PutLike(buff: string, c: char) returns (more: string)
    ensures more == buff + LikeChar(c)
  {
    more := buff;
    if c == BACKSLASH {
      more := more + [BACKSLASH, BACKSLASH, BACKSLASH];
    } else if c == QUOTE || c == '_' || c == '%' {
      more := more + [BACKSLASH];
    }
    more := more + [c];
  }

  /** quote_for_like */
  method QuoteForLike(name: string) returns (buff: string)
    ensures buff == [QUOTE] + (LikeBody(name) + [QUOTE])
  {
    buff := [QUOTE];
    var i := 0;
    while i < |name|
      invariant 0 <= i <= |name|
      invariant buff == [QUOTE] + LikeBody(name[..i])
    {
      LikeBodyMore(name[..i], name[i]);
      assert name[..i + 1] == name[..i] + [name[i]];
      Associate([QUOTE], LikeBody(name[..i]), LikeChar(name[i]));
      buff := PutLike(buff, name[i]);
      i := i + 1;
    }
    assert name[..i] == name;
    Associate([QUOTE], LikeBody(name), [QUOTE]);
    buff := buff + [QUOTE];
  }

  lemma ReadTwoPairs(tail: string)
    ensures var two := [BACKSLASH, BACKSLASH] + [BACKSLASH, BACKSLASH];
      && LiteralLength(two + tail) == Further(4, LiteralLength(tail))
      && Unescape(two + tail) == [BACKSLASH, BACKSLASH] + Unescape(tail)
  {
    var pair := [BACKSLASH, BACKSLASH];
    assert (pair + pair) + tail == pair + (pair + tail);
    ReadPair(BACKSLASH, tail);
    ReadPair(BACKSLASH, pair + tail);
    assert [BACKSLASH] + ([BACKSLASH] + Unescape(tail)) == pair + Unescape(tail);
  }

  /** One character of the name, read as part of a literal. */
  lemma ReadLikeChar(c: char, tail: string)
    ensures LiteralLength(LikeChar(c) + tail) == Further(|LikeChar(c)|, LiteralLength(tail))
    ensures Unescape(LikeChar(c) + tail) == PatternChar(c) + Unescape(tail)
  {
    if c == BACKSLASH {
      ReadTwoPairs(tail);
    } else if c == QUOTE || c == '_' || c == '%' {
      assert UnescapeChar(c) == PatternChar(c) && LikeChar(c) == [BACKSLASH, c];
      ReadPair(c, tail);
    } else {
      assert LikeChar(c) == [c] == PatternChar(c);
      ReadPlain(c, tail);
    }
  }

  lemma {:induction false} ReadLikeBody(name: string, tail: string)
    ensures LiteralLength(LikeBody(name) + tail) == Further(|LikeBody(name)|, LiteralLength(tail))
  {
    if name == [] {
      assert [] + tail == tail;
    } else {
      var c, body := LikeChar(name[0]), LikeBody(name[1..]);
      assert (c + body) + tail == c + (body + tail);
      ReadLikeChar(name[0], body + tail);
      ReadLikeBody(name[1..], tail);
    }
  }

  /** The pattern that the server reads. */
  function PatternChar(c: char): string {
    if c == BACKSLASH || c == '_' || c == '%' then [BACKSLASH, c] else [c]
  }

  function LikePattern(name: string): string {
    if name == [] then [] else PatternChar(name[0]) + LikePattern(name[1..])
  }

  lemma {:induction false} LikeUnescapes(name: string)
    ensures Unescape(LikeBody(name)) == LikePattern(name)
  {
    if name != [] {
      LikeUnescapes(name[1..]);
      ReadLikeChar(name[0], LikeBody(name[1..]));
    }
  }

  lemma {:induction false} PatternMatchesName(name: string, t: string)
    ensures Like(LikePattern(name), t) <==> t == name
  {
    if name != [] {
      var p := LikePattern(name);
      if t != [] {
        PatternMatchesName(name[1..], t[1..]);
        assert t == name <==> t[0] == name[0] && t[1..] == name[1..] by {
          if t[0] == name[0] && t[1..] == name[1..] { assert t == [t[0]] + t[1..] && name == [name[0]] + name[1..]; }
        }
      }
      if name[0] == BACKSLASH || name[0] == '_' || name[0] == '%' {
        assert p[2..] == LikePattern(name[1..]);
      } else {
        assert p[1..] == LikePattern(name[1..]);
      }
    }
  }

  /** Read by the server as a literal and then as a pattern, the quoted name matches that name only. */
  lemma QuotedNameMatchesItself(name: string, rest: string, t: string)
    requires Ends(rest)
    ensures var literal := LikeBody(name) + [QUOTE] + rest;
      && LiteralLength(literal) == Some(|LikeBody(name)|)
      && (Like(Unescape(literal[..|LikeBody(name)|]), t) <==> t == name)
  {
    var literal := LikeBody(name) + [QUOTE] + rest;
    ReadLikeBody(name, [QUOTE] + rest);
    assert literal == LikeBody(name) + ([QUOTE] + rest);
    LikeUnescapes(name);
    assert literal[..|LikeBody(name)|] == LikeBody(name);
    PatternMatchesName(name, t);
  }

  // --- field_escape

  /** odd: an odd number of backslashes has just been copied. */
  function EscapeBody(from: string, odd: bool): string {
    if from == [] then (if odd then [BACKSLASH] else [])
    else if from[0] == BACKSLASH then [BACKSLASH] + EscapeBody(from[1..], !odd)
    else if from[0] == QUOTE && !odd then [QUOTE, QUOTE] + EscapeBody(from[1..], false)
    else [from[0]] + EscapeBody(from[1..], false)
  }

  /** field_escape of mysqldump */
  method FieldEscape(from: string) returns (out: string)
    ensures out == [QUOTE] + EscapeBody(from, false) + [QUOTE]
  {
    out := [QUOTE];
    var endBackslashes := false;
    var i := 0;
    while i < |from|
      invariant 0 <= i <= |from|
      invariant out + EscapeBody(from[i..], endBackslashes) == [QUOTE] + EscapeBody(from, false)
    {
      assert from[i..][0] == from[i] && from[i..][1..] == from[i + 1..];
      ghost var before, odd := out, endBackslashes;
      out := out + [from[i]];
      if from[i] == BACKSLASH {
        endBackslashes := !endBackslashes;
      } else {
        if from[i] == QUOTE && !endBackslashes {
          out := out + [QUOTE];
          assert out == before + [QUOTE, QUOTE];
        }
        endBackslashes := false;
      }
      EscapeStep(before, from[i..], odd);
      i := i + 1;
    }
    if endBackslashes {
      out := out + [BACKSLASH];
    }
    out := out + [QUOTE];
  }

  lemma EscapeStep(before: string, from: string, odd: bool)
    requires from != []
    ensures before + EscapeBody(from, odd)
      == if from[0] == BACKSLASH then (before + [BACKSLASH]) + EscapeBody(from[1..], !odd)
         else if from[0] == QUOTE && !odd then (before + [QUOTE, QUOTE]) + EscapeBody(from[1..], false)
         else (before + [from[0]]) + EscapeBody(from[1..], false)
  {
  }

  /** The buffer holds text from position to on. */
  ghost predicate Holds(buffer: array<char>, to: nat, text: string)
    reads buffer
  {
    to + |text| <= buffer.Length && forall k :: to <= k < to + |text| ==> buffer[k] == text[k - to]
  }

  /** The buffer is as before outside the text. */
  twostate predicate OnlyText(buffer: array<char>, to: nat, text: string)
    reads buffer
  {
    forall k :: 0 <= k < buffer.Length && !(to <= k < to + |text|) ==> buffer[k] == old(buffer[k])
  }

  /** Copy one character, and a quote twice unless an odd number of backslashes is before it. */
  method PutEscaped(buffer: array<char>, to: nat, end: nat, c: char, odd: bool, ghost done: string)
    returns (end': nat, odd': bool, ghost done': string)
    requires Holds(buffer, to, done) && end == to + |done| && end + 2 <= buffer.Length
    modifies buffer
    ensures Holds(buffer, to, done') && end' == to + |done'| && end < end' <= end + 2 && OnlyText(buffer, to, done')
    ensures done' == done + if c == QUOTE && !odd then [QUOTE, QUOTE] else [c]
    ensures odd' == (c == BACKSLASH && !odd)
  {
    buffer[end] := c;
    end', done' := end + 1, done + [c];
    if c == BACKSLASH {
      odd' := !odd;
    } else {
      if c == QUOTE && !odd {
        buffer[end'] := c;
        end', done' := end' + 1, done + [QUOTE, QUOTE];
      }
      odd' := false;
    }
  }

  /** field_escape of mysqlimport, which writes into a buffer at position to. */
  method FieldEscapeInto(buffer: array<char>, to: nat, from: string) returns (end: nat)
    requires to + 2 * |from| + 1 <= buffer.Length
    modifies buffer
    ensures Holds(buffer, to, EscapeBody(from, false)) && end == to + |EscapeBody(from, false)|
    ensures OnlyText(buffer, to, EscapeBody(from, false))
  {
    ghost var done := [];
    end := to;
    var odd := false;
    var i := 0;
    while i < |from|
      invariant 0 <= i <= |from| && end == to + |done| && |done| <= 2 * i
      invariant Holds(buffer, to, done) && OnlyText(buffer, to, done)
      invariant done + EscapeBody(from[i..], odd) == EscapeBody(from, false)
    {
      assert from[i..][0] == from[i] && from[i..][1..] == from[i + 1..];
      EscapeStep(done, from[i..], odd);
      end, odd, done := PutEscaped(buffer, to, end, from[i], odd, done);
      i := i + 1;
    }
    if odd {
      buffer[end] := BACKSLASH;
      end := end + 1;
    }
  }

  /** The user's string, in which a lone backslash at the end stands for itself. */
  function UserText(from: string): string {
    if from == [] then []
    else if from[0] == BACKSLASH then
      if |from| == 1 then [BACKSLASH] else UnescapeChar(from[1]) + UserText(from[2..])
    else [from[0]] + UserText(from[1..])
  }

  /** A backslash and the character after it stay together. */
  lemma EscapePair(from: string)
    requires |from| >= 2 && from[0] == BACKSLASH
    ensures EscapeBody(from, false) == [BACKSLASH, from[1]] + EscapeBody(from[2..], false)
  {
    var c, rest := from[1], EscapeBody(from[2..], false);
    assert from[1..][0] == c && from[1..][1..] == from[2..];
    assert EscapeBody(from[1..], true) == [c] + rest;
    Pair(BACKSLASH, c, rest);
  }

  lemma Pair(a: char, b: char, rest: string)
    ensures [a] + ([b] + rest) == [a, b] + rest
  {
  }

  lemma {:induction false} ReadEscapeBody(from: string, tail: string)
    ensures LiteralLength(EscapeBody(from, false) + tail) == Further(|EscapeBody(from, false)|, LiteralLength(tail))
    decreases |from|
  {
    if from == [] {
      assert [] + tail == tail;
    } else if from[0] == BACKSLASH && |from| == 1 {
      assert EscapeBody(from, false) == [BACKSLASH, BACKSLASH];
      ReadPair(BACKSLASH, tail);
    } else if from[0] == BACKSLASH {
      var body := EscapeBody(from[2..], false);
      EscapePair(from);
      assert ([BACKSLASH, from[1]] + body) + tail == [BACKSLASH, from[1]] + (body + tail);
      ReadPair(from[1], body + tail);
      ReadEscapeBody(from[2..], tail);
    } else if from[0] == QUOTE {
      var body := EscapeBody(from[1..], false);
      assert ([QUOTE, QUOTE] + body) + tail == [QUOTE, QUOTE] + (body + tail);
      ReadQuotes(body + tail);
      ReadEscapeBody(from[1..], tail);
    } else {
      var body := EscapeBody(from[1..], false);
      assert ([from[0]] + body) + tail == [from[0]] + (body + tail);
      ReadPlain(from[0], body + tail);
      ReadEscapeBody(from[1..], tail);
    }
  }

  lemma {:induction false} UnescapeEscapeBody(from: string)
    ensures Unescape(EscapeBody(from, false)) == UserText(from)
    decreases |from|
  {
    if from == [] {
    } else if from[0] == BACKSLASH && |from| == 1 {
      assert EscapeBody(from, false) == [BACKSLASH, BACKSLASH] + [];
      ReadPair(BACKSLASH, []);
    } else if from[0] == BACKSLASH {
      EscapePair(from);
      ReadPair(from[1], EscapeBody(from[2..], false));
      UnescapeEscapeBody(from[2..]);
    } else if from[0] == QUOTE {
      ReadQuotes(EscapeBody(from[1..], false));
      UnescapeEscapeBody(from[1..]);
    } else {
      ReadPlain(from[0], EscapeBody(from[1..], false));
      UnescapeEscapeBody(from[1..]);
    }
  }

  /** The server closes the literal at its last quote and reads the user's string. */
  lemma EscapedFieldReads(from: string, rest: string)
    requires Ends(rest)
    ensures var body := EscapeBody(from, false); var literal := body + [QUOTE] + rest;
      LiteralLength(literal) == Some(|body|) && Unescape(literal[..|body|]) == UserText(from)
  {
    var body := EscapeBody(from, false);
    var literal := body + [QUOTE] + rest;
    ReadEscapeBody(from, [QUOTE] + rest);
    assert literal == body + ([QUOTE] + rest);
    assert literal[..|body|] == body;
    UnescapeEscapeBody(from);
  }
}
