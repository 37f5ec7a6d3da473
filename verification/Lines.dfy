/**
  What batch_readline promises, said about whole streams: a stream is a sequence of
  lines, and the reader delivers it piece by piece.
 */
module Lines {
  const LF: char := '\n'
  const CR: char := '\r'

  /** A line without its newline; only the last line of a stream can be unterminated. */
  datatype Line = Line(content: seq<char>, terminated: bool)

  /** What one call of the reader hands out. */
  datatype Piece = Piece(text: seq<char>, truncated: bool)

  /** The length of the text before the first newline. */
  function LineLength(s: seq<char>): (n: nat)
    ensures n <= |s|
  {
    if s == [] || s[0] == LF then 0 else 1 + LineLength(s[1..])
  }

  lemma {:induction false} LineLengthFinds(s: seq<char>)
    ensures LF !in s[..LineLength(s)]
    ensures LineLength(s) < |s| ==> s[LineLength(s)] == LF
  {
    var n := LineLength(s);
    if n > 0 {
      LineLengthFinds(s[1..]);
      assert s[..n] == [s[0]] + s[1..][..n - 1];
    }
  }

  function FirstLine(s: seq<char>): Line {
    Line(s[..LineLength(s)], LineLength(s) < |s|)
  }

  function AfterFirstLine(s: seq<char>): (rest: seq<char>)
    ensures s != [] ==> |rest| < |s|
  {
    if LineLength(s) < |s| then s[LineLength(s) + 1..] else []
  }

  /** Splitting a whole stream at its newlines. */
  function SplitLines(s: seq<char>): seq<Line>
    decreases |s|
  {
    if s == [] then [] else [FirstLine(s)] + SplitLines(AfterFirstLine(s))
  }

  function JoinLines(lines: seq<Line>): seq<char> {
    if lines == [] then []
    else lines[0].content + (if lines[0].terminated then [LF] else []) + JoinLines(lines[1..])
  }

  /** The text handed out for a line: in text mode a CR before a real newline is dropped. */
  function LineText(line: Line, binary: bool): seq<char> {
    var n := |line.content|;
    if line.terminated && !binary && n > 0 && line.content[n - 1] == CR
    then line.content[..n - 1] else line.content
  }

  function LineTexts(lines: seq<Line>, binary: bool): seq<seq<char>> {
    if lines == [] then [] else [LineText(lines[0], binary)] + LineTexts(lines[1..], binary)
  }

  lemma FirstLineRestores(s: seq<char>)
    ensures s == FirstLine(s).content + (if FirstLine(s).terminated then [LF] else []) + AfterFirstLine(s)
  {
    LineLengthFinds(s);
    var n := LineLength(s);
    if n < |s| {
      assert s == s[..n] + [s[n]] + s[n + 1..];
    }
  }

  /** Splitting loses nothing. */
  lemma {:induction false} JoinOfSplit(s: seq<char>)
    ensures JoinLines(SplitLines(s)) == s
    decreases |s|
  {
    if s != [] {
      JoinOfSplit(AfterFirstLine(s));
      assert SplitLines(s)[1..] == SplitLines(AfterFirstLine(s));
      FirstLineRestores(s);
    }
  }

  /** A line is found the same way when text without a newline is put in front of it. */
  lemma {:induction false} FirstLineAfterText(t: seq<char>, s: seq<char>)
    requires LF !in t
    ensures LineLength(t + s) == |t| + LineLength(s)
    ensures FirstLine(t + s) == Line(t + FirstLine(s).content, FirstLine(s).terminated)
    ensures AfterFirstLine(t + s) == AfterFirstLine(s)
  {
    if t == [] {
      assert t + s == s;
    } else {
      FirstLineAfterText(t[1..], s);
      assert (t + s)[1..] == t[1..] + s;
      assert t[0] in t;
    }
    var n := LineLength(s);
    assert (t + s)[..|t| + n] == t + s[..n];
    if n < |s| {
      assert (t + s)[|t| + n + 1..] == s[n + 1..];
    }
  }

  /** No newline before position n and one (or the end) at n: that is the first line. */
  lemma {:induction false} LineLengthIs(s: seq<char>, n: nat)
    requires n <= |s| && LF !in s[..n] && (n < |s| ==> s[n] == LF)
    ensures LineLength(s) == n
  {
    LineLengthFinds(s);
  }

  // ---------------------------------------------------------------- delivery in pieces

  /**
    A way of delivering a stream up to some rest. A piece flagged truncated is longer than
    the safe limit, fits the capacity and stops before a newline. Any other piece is the
    rest of a line that fits the capacity with its newline, or that has none and is within
    the safe limit.
   */
  ghost predicate DeliversUpTo(
      s: seq<char>, pieces: seq<Piece>, rest: seq<char>, safe: nat, capacity: nat, binary: bool)
    decreases |pieces|
  {
    if pieces == [] then s == rest
    else DeliversNext(s, pieces[0], safe, capacity, binary)
         && DeliversUpTo(AfterPiece(s, pieces[0]), pieces[1..], rest, safe, capacity, binary)
  }

  predicate DeliversNext(s: seq<char>, p: Piece, safe: nat, capacity: nat, binary: bool) {
    && s != []
    && if p.truncated
       then safe < |p.text| <= capacity && |p.text| <= |s| && p.text == s[..|p.text|] && LF !in p.text
       else FitsWhole(s, safe, capacity) && p.text == LineText(FirstLine(s), binary)
  }

  /** The first line can be handed out whole. */
  predicate FitsWhole(s: seq<char>, safe: nat, capacity: nat) {
    if LineLength(s) < |s| then LineLength(s) < capacity else |s| <= safe
  }

  function AfterPiece(s: seq<char>, p: Piece): seq<char> {
    if !p.truncated then AfterFirstLine(s) else if |p.text| <= |s| then s[|p.text|..] else []
  }

  /** A way of delivering a whole stream. */
  ghost predicate Delivers(s: seq<char>, pieces: seq<Piece>, safe: nat, capacity: nat, binary: bool) {
    DeliversUpTo(s, pieces, [], safe, capacity, binary)
  }

  lemma DeliveredAll(s: seq<char>, pieces: seq<Piece>, rest: seq<char>, safe: nat, capacity: nat, binary: bool)
    requires DeliversUpTo(s, pieces, rest, safe, capacity, binary) && rest == []
    ensures Delivers(s, pieces, safe, capacity, binary)
  {
  }

  /** Delivery can go on from its rest. */
  lemma {:induction false} DeliverOneMore(
      s: seq<char>, pieces: seq<Piece>, rest: seq<char>, p: Piece, safe: nat, capacity: nat, binary: bool)
    requires DeliversUpTo(s, pieces, rest, safe, capacity, binary)
    requires DeliversNext(rest, p, safe, capacity, binary)
    ensures DeliversUpTo(s, pieces + [p], AfterPiece(rest, p), safe, capacity, binary)
    decreases |pieces|
  {
    if pieces == [] {
      assert DeliversUpTo(AfterPiece(rest, p), [], AfterPiece(rest, p), safe, capacity, binary);
      assert ([p])[1..] == [];
      assert pieces + [p] == [p];
    } else {
      DeliverOneMore(AfterPiece(s, pieces[0]), pieces[1..], rest, p, safe, capacity, binary);
      assert (pieces + [p])[1..] == pieces[1..] + [p];
    }
  }

  ghost predicate AllLinesWithin(s: seq<char>, safe: nat) {
    forall line :: line in SplitLines(s) ==> |line.content| <= safe
  }

  /** No line is longer than its stream. */
  lemma {:induction false} LinesWithinStream(s: seq<char>, safe: nat)
    requires safe >= |s|
    ensures AllLinesWithin(s, safe)
    decreases |s|
  {
    if s != [] {
      LinesWithinStream(AfterFirstLine(s), safe);
      assert SplitLines(s)[1..] == SplitLines(AfterFirstLine(s));
    }
  }

  /** The delivery of a stream whose lines all arrive whole. */
  function WholeLines(s: seq<char>, binary: bool): seq<Piece>
    decreases |s|
  {
    if s == [] then []
    else [Piece(LineText(FirstLine(s), binary), false)] + WholeLines(AfterFirstLine(s), binary)
  }

  /** While no line is longer than the safe limit, there is only one way to deliver a stream. */
  lemma {:induction false} ShortLinesDeliverOneWay(
      s: seq<char>, pieces: seq<Piece>, rest: seq<char>, safe: nat, capacity: nat, binary: bool)
    requires DeliversUpTo(s, pieces, rest, safe, capacity, binary) && AllLinesWithin(s, safe)
    ensures pieces + WholeLines(rest, binary) == WholeLines(s, binary)
    decreases |pieces|
  {
    if pieces == [] {
      assert pieces + WholeLines(rest, binary) == WholeLines(rest, binary);
    } else {
      ShortFirstLine(s, pieces[0], safe, capacity, binary);
      ShortLinesDeliverOneWay(AfterFirstLine(s), pieces[1..], rest, safe, capacity, binary);
      HeadFirst(pieces, WholeLines(rest, binary));
    }
  }

  lemma ShortFirstLine(s: seq<char>, p: Piece, safe: nat, capacity: nat, binary: bool)
    requires DeliversNext(s, p, safe, capacity, binary) && AllLinesWithin(s, safe)
    ensures p == Piece(LineText(FirstLine(s), binary), false)
    ensures AllLinesWithin(AfterFirstLine(s), safe)
  {
    assert FirstLine(s) == SplitLines(s)[0];
    LineLengthFinds(s);
    assert SplitLines(s)[1..] == SplitLines(AfterFirstLine(s));
  }

  lemma HeadFirst<T>(a: seq<T>, b: seq<T>)
    requires a != []
    ensures a + b == [a[0]] + (a[1..] + b)
  {
  }

  lemma {:induction false} WholeLinesAreLines(s: seq<char>, binary: bool, i: nat)
    requires i < |SplitLines(s)|
    ensures |WholeLines(s, binary)| == |SplitLines(s)|
    ensures WholeLines(s, binary)[i] == Piece(LineText(SplitLines(s)[i], binary), false)
    decreases |s|
  {
    var next := AfterFirstLine(s);
    if SplitLines(next) == [] {
      assert next == [];
    } else {
      WholeLinesAreLines(next, binary, if i == 0 then 0 else i - 1);
    }
  }

  /** Joining each run of truncated pieces with the piece that completes the line. */
  function Glue(pieces: seq<Piece>, carried: seq<char>): seq<seq<char>> {
    if pieces == [] then (if carried == [] then [] else [carried])
    else if pieces[0].truncated then Glue(pieces[1..], carried + pieces[0].text)
    else [carried + pieces[0].text] + Glue(pieces[1..], [])
  }

  /** Some piece ends exactly between a CR and its LF. */
  ghost predicate CutsCrLf(s: seq<char>, pieces: seq<Piece>)
    decreases |pieces|
  {
    if pieces == [] then false
    else if pieces[0].truncated then
      var t := pieces[0].text;
      || (0 < |t| < |s| && t[|t| - 1] == CR && s[|t|] == LF)
      || (|t| <= |s| && CutsCrLf(s[|t|..], pieces[1..]))
    else
      CutsCrLf(AfterFirstLine(s), pieces[1..])
  }

  /** The line texts of a stream whose first line continues text already carried. */
  function CarriedTexts(carried: seq<char>, s: seq<char>, binary: bool): seq<seq<char>> {
    LineTexts(SplitLines(carried + s), binary)
  }

  lemma {:induction false} CarriedStep(carried: seq<char>, s: seq<char>, binary: bool)
    requires LF !in carried && s != []
    ensures CarriedTexts(carried, s, binary)
            == [LineText(Line(carried + FirstLine(s).content, FirstLine(s).terminated), binary)]
               + LineTexts(SplitLines(AfterFirstLine(s)), binary)
  {
    FirstLineAfterText(carried, s);
    var lines := SplitLines(carried + s);
    assert lines[1..] == SplitLines(AfterFirstLine(s));
  }

  /** A CR at the end of a line is dropped unless the line's last piece starts after it. */
  lemma LineTextOfParts(carried: seq<char>, line: Line, binary: bool)
    ensures LineText(Line(carried + line.content, line.terminated), binary) == carried + LineText(line, binary)
            <==> !(line.terminated && !binary && line.content == [] && carried != [] && carried[|carried| - 1] == CR)
  {
    var whole := carried + line.content;
    if line.content == [] {
      assert whole == carried;
    } else {
      assert whole[|whole| - 1] == line.content[|line.content| - 1];
      assert whole[..|whole| - 1] == carried + line.content[..|line.content| - 1];
    }
  }

  /** The text carried so far and the stream meet between a CR and its LF. */
  predicate MeetInCrLf(carried: seq<char>, s: seq<char>) {
    carried != [] && carried[|carried| - 1] == CR && s != [] && s[0] == LF
  }

  lemma UnterminatedText(t: seq<char>, binary: bool)
    requires t != [] && LF !in t
    ensures LineTexts(SplitLines(t), binary) == [t]
  {
    assert t[..|t|] == t;
    LineLengthIs(t, |t|);
    assert SplitLines(t) == [Line(t, false)];
  }

  lemma ConsEqual<T>(x: T, a: seq<T>, y: T, b: seq<T>)
    ensures [x] + a == [y] + b <==> x == y && a == b
  {
    assert ([x] + a)[0] == x && ([x] + a)[1..] == a;
    assert ([y] + b)[0] == y && ([y] + b)[1..] == b;
  }

  /** A truncated piece only moves text from the stream to what is carried. */
  lemma GluePartOfLine(carried: seq<char>, s: seq<char>, pieces: seq<Piece>, binary: bool)
    requires pieces != [] && pieces[0].truncated
    requires var t := pieces[0].text; 0 < |t| <= |s| && t == s[..|t|] && LF !in t
    ensures var t := pieces[0].text;
      && Glue(pieces, carried) == Glue(pieces[1..], carried + t)
      && CarriedTexts(carried, s, binary) == CarriedTexts(carried + t, s[|t|..], binary)
      && (MeetInCrLf(carried, s) || CutsCrLf(s, pieces)
          <==> MeetInCrLf(carried + t, s[|t|..]) || CutsCrLf(s[|t|..], pieces[1..]))
  {
    var t := pieces[0].text;
    assert (carried + t) + s[|t|..] == carried + s;
    assert s[0] == t[0] && t[0] in t;
  }

  /** An unflagged piece completes a line: compare that line, then the lines after it. */
  lemma GlueWholeLine(carried: seq<char>, s: seq<char>, pieces: seq<Piece>, binary: bool)
    requires s != [] && LF !in carried
    requires pieces != [] && pieces[0] == Piece(LineText(FirstLine(s), binary), false)
    ensures Glue(pieces, carried) == CarriedTexts(carried, s, binary)
            <==> && (binary || !MeetInCrLf(carried, s))
                 && Glue(pieces[1..], []) == LineTexts(SplitLines(AfterFirstLine(s)), binary)
  {
    var line := FirstLine(s);
    CarriedStep(carried, s, binary);
    LineTextOfParts(carried, line, binary);
    ConsEqual(carried + pieces[0].text, Glue(pieces[1..], []),
              LineText(Line(carried + line.content, line.terminated), binary),
              LineTexts(SplitLines(AfterFirstLine(s)), binary));
  }

  /**
    Whatever the size limit did, gluing truncated pieces to the next unflagged piece gives
    back the lines. In binary mode always; in text mode exactly when no piece was cut
    between a CR and its LF, because then that CR is kept.
   */
  lemma {:induction false} GlueRestoresLines(
      carried: seq<char>, s: seq<char>, pieces: seq<Piece>, safe: nat, capacity: nat, binary: bool)
    requires Delivers(s, pieces, safe, capacity, binary) && LF !in carried
    ensures Glue(pieces, carried) == CarriedTexts(carried, s, binary)
            <==> binary || !(MeetInCrLf(carried, s) || CutsCrLf(s, pieces))
    decreases |pieces|
  {
    if pieces == [] {
      if carried != [] {
        UnterminatedText(carried, binary);
        assert carried + s == carried;
      }
    } else if pieces[0].truncated {
      var t := pieces[0].text;
      GlueRestoresLines(carried + t, s[|t|..], pieces[1..], safe, capacity, binary);
      GluePartOfLine(carried, s, pieces, binary);
    } else {
      var rest := AfterFirstLine(s);
      GlueRestoresLines([], rest, pieces[1..], safe, capacity, binary);
      assert [] + rest == rest;
      GlueWholeLine(carried, s, pieces, binary);
    }
  }

  // ---------------------------------------------------------------- when gluing is exact

  /** A text of length n can be cut into m pieces. */
  predicate CutInto(n: nat, m: nat, safe: nat, capacity: nat) {
    m >= 1 && m * (safe + 1) <= n <= m * capacity
  }

  /** A line that the size limit can cut between its CR and its LF. */
  ghost predicate CuttableCrLf(line: Line, safe: nat, capacity: nat) {
    var n := |line.content|;
    line.terminated && n > 0 && line.content[n - 1] == CR && exists m :: CutInto(n, m, safe, capacity)
  }

  lemma CutMore(n: nat, m: nat, k: nat, safe: nat, capacity: nat)
    requires safe < k <= capacity && (CutInto(n, m, safe, capacity) || (n == 0 && m == 0))
    ensures CutInto(n + k, m + 1, safe, capacity)
  {
    assert (m + 1) * (safe + 1) == m * (safe + 1) + (safe + 1) && (m + 1) * capacity == m * capacity + capacity;
  }

  /** The first of several pieces, such that the others have room for the rest. */
  lemma FirstCut(n: nat, m: nat, safe: nat, capacity: nat) returns (k: nat)
    requires CutInto(n, m, safe, capacity) && safe < capacity
    ensures safe < k <= capacity && k <= n
    ensures if m == 1 then k == n else CutInto(n - k, m - 1, safe, capacity)
  {
    if m == 1 {
      k := n;
    } else {
      var least, most := (m - 1) * (safe + 1), (m - 1) * capacity;
      assert m * (safe + 1) == least + (safe + 1) && m * capacity == most + capacity;
      SameFactor(m - 1, safe + 1, capacity);
      k := if n - least <= capacity then n - least else capacity;
    }
  }

  lemma {:induction false} SameFactor(m: nat, a: nat, b: nat)
    requires a <= b
    ensures m * a <= m * b
  {
  }

  /** A piece that ends between a CR and its LF is the end of a line that can be cut there. */
  lemma CutEndsLine(carried: seq<char>, m: nat, s: seq<char>, t: seq<char>, safe: nat, capacity: nat)
      returns (line: Line)
    requires safe < |t| <= capacity && LF !in carried && LF !in t
    requires |t| < |s| && t == s[..|t|] && t[|t| - 1] == CR && s[|t|] == LF
    requires CutInto(|carried|, m, safe, capacity) || (carried == [] && m == 0)
    ensures line in SplitLines(carried + s) && CuttableCrLf(line, safe, capacity)
  {
    CutMore(|carried|, m, |t|, safe, capacity);
    var content := carried + t;
    assert (carried + s)[..|content|] == content && (carried + s)[|content|] == LF;
    LineLengthIs(carried + s, |content|);
    line := Line(content, true);
    assert line == SplitLines(carried + s)[0];
  }

  lemma MoveFront(carried: seq<char>, s: seq<char>, k: nat)
    requires k <= |s|
    ensures (carried + s[..k]) + s[k..] == carried + s
  {
  }

  /** A delivery that cuts between a CR and its LF does so in a line that can be cut there. */
  lemma {:induction false} CutMeansCuttable(whole: seq<char>,
      carried: seq<char>, m: nat, s: seq<char>, pieces: seq<Piece>, safe: nat, capacity: nat, binary: bool)
      returns (line: Line)
    requires Delivers(s, pieces, safe, capacity, binary) && LF !in carried && CutsCrLf(s, pieces)
    requires CutInto(|carried|, m, safe, capacity) || (carried == [] && m == 0)
    requires whole == carried + s
    ensures line in SplitLines(whole) && CuttableCrLf(line, safe, capacity)
    decreases |pieces|
  {
    if pieces[0].truncated {
      var t := pieces[0].text;
      if |t| < |s| && t[|t| - 1] == CR && s[|t|] == LF {
        line := CutEndsLine(carried, m, s, t, safe, capacity);
      } else {
        CutMore(|carried|, m, |t|, safe, capacity);
        MoveFront(carried, s, |t|);
        line := CutMeansCuttable(whole, carried + t, m + 1, s[|t|..], pieces[1..], safe, capacity, binary);
      }
    } else {
      var rest := AfterFirstLine(s);
      line := CutMeansCuttable(rest, [], 0, rest, pieces[1..], safe, capacity, binary);
      SplitAfterText(carried, s);
    }
  }

  lemma SplitAfterText(carried: seq<char>, s: seq<char>)
    requires LF !in carried && s != []
    ensures SplitLines(carried + s) != [] && SplitLines(carried + s)[1..] == SplitLines(AfterFirstLine(s))
  {
    FirstLineAfterText(carried, s);
  }

  lemma DeliverFront(s: seq<char>, p: Piece, more: seq<Piece>, q: seq<char>, safe: nat, capacity: nat, binary: bool)
    requires DeliversNext(s, p, safe, capacity, binary)
    requires DeliversUpTo(AfterPiece(s, p), more, q, safe, capacity, binary)
    ensures DeliversUpTo(s, [p] + more, q, safe, capacity, binary)
  {
    assert ([p] + more)[1..] == more;
  }

  lemma {:induction false} DeliverAppend(s: seq<char>, a: seq<Piece>, r: seq<char>, b: seq<Piece>, q: seq<char>,
      safe: nat, capacity: nat, binary: bool)
    requires DeliversUpTo(s, a, r, safe, capacity, binary) && DeliversUpTo(r, b, q, safe, capacity, binary)
    ensures DeliversUpTo(s, a + b, q, safe, capacity, binary)
    decreases |a|
  {
    if a == [] {
      assert a + b == b;
    } else {
      DeliverAppend(AfterPiece(s, a[0]), a[1..], r, b, q, safe, capacity, binary);
      HeadFirst(a, b);
      DeliverFront(s, a[0], a[1..] + b, q, safe, capacity, binary);
    }
  }

  lemma {:induction false} CutsAppend(s: seq<char>, a: seq<Piece>, r: seq<char>, b: seq<Piece>,
      safe: nat, capacity: nat, binary: bool)
    requires DeliversUpTo(s, a, r, safe, capacity, binary)
    ensures CutsCrLf(s, a) || CutsCrLf(r, b) ==> CutsCrLf(s, a + b)
    decreases |a|
  {
    if a == [] {
      assert a + b == b;
    } else {
      CutsAppend(AfterPiece(s, a[0]), a[1..], r, b, safe, capacity, binary);
      assert (a + b)[1..] == a[1..] + b && (a + b)[0] == a[0];
    }
  }

  lemma DeliverOne(s: seq<char>, p: Piece, safe: nat, capacity: nat, binary: bool)
    requires DeliversNext(s, p, safe, capacity, binary)
    ensures DeliversUpTo(s, [p], AfterPiece(s, p), safe, capacity, binary)
  {
    assert [p][1..] == [];
  }

  /** Cutting k characters off the front of the first line leaves the rest of that line. */
  lemma CutFront(s: seq<char>, k: nat)
    requires k <= LineLength(s)
    ensures LF !in s[..k] && LineLength(s[k..]) == LineLength(s) - k
    ensures FirstLine(s[k..]) == Line(FirstLine(s).content[k..], FirstLine(s).terminated)
    ensures AfterFirstLine(s[k..]) == AfterFirstLine(s)
  {
    LineLengthFinds(s);
    var n := LineLength(s);
    assert s[..k] == s[..n][..k];
    FirstLineAfterText(s[..k], s[k..]);
    assert s[..k] + s[k..] == s;
    assert s[k..][..n - k] == s[..n][k..];
  }

  /** The first line of any stream can be delivered. */
  lemma {:induction false} DeliverFirst(s: seq<char>, safe: nat, capacity: nat, binary: bool)
      returns (pieces: seq<Piece>)
    requires s != [] && safe < capacity
    ensures DeliversUpTo(s, pieces, AfterFirstLine(s), safe, capacity, binary)
    decreases |s|
  {
    if FitsWhole(s, safe, capacity) {
      var p := Piece(LineText(FirstLine(s), binary), false);
      DeliverOne(s, p, safe, capacity, binary);
      pieces := [p];
    } else {
      var k := if LineLength(s) < capacity then LineLength(s) else capacity;
      CutFront(s, k);
      var p := Piece(s[..k], true);
      DeliverOne(s, p, safe, capacity, binary);
      if k == |s| {
        pieces := [p];
      } else {
        var more := DeliverFirst(s[k..], safe, capacity, binary);
        DeliverAppend(s, [p], s[k..], more, AfterFirstLine(s), safe, capacity, binary);
        pieces := [p] + more;
      }
    }
  }

  /** Any stream can be delivered. */
  lemma {:induction false} DeliverySome(s: seq<char>, safe: nat, capacity: nat, binary: bool)
      returns (pieces: seq<Piece>)
    requires safe < capacity
    ensures Delivers(s, pieces, safe, capacity, binary)
    decreases |s|
  {
    pieces := [];
    if s != [] {
      var first := DeliverFirst(s, safe, capacity, binary);
      var rest := DeliverySome(AfterFirstLine(s), safe, capacity, binary);
      DeliverAppend(s, first, AfterFirstLine(s), rest, [], safe, capacity, binary);
      pieces := first + rest;
    }
  }

  /** A first line that can be cut between its CR and its LF can be delivered like that. */
  lemma {:induction false} CutFirst(s: seq<char>, m: nat, safe: nat, capacity: nat, binary: bool)
      returns (pieces: seq<Piece>)
    requires safe < capacity && LineLength(s) < |s| && CutInto(LineLength(s), m, safe, capacity)
    requires var n := LineLength(s); n > 0 && s[n - 1] == CR
    ensures DeliversUpTo(s, pieces, AfterFirstLine(s), safe, capacity, binary) && CutsCrLf(s, pieces)
    decreases m
  {
    var k := FirstCut(LineLength(s), m, safe, capacity);
    CutFront(s, k);
    LineLengthFinds(s);
    var p, rest := Piece(s[..k], true), s[k..];
    DeliverOne(s, p, safe, capacity, binary);
    var more;
    if m == 1 {
      var q := Piece(LineText(FirstLine(rest), binary), false);
      DeliverOne(rest, q, safe, capacity, binary);
      more := [q];
    } else {
      more := CutFirst(rest, m - 1, safe, capacity, binary);
    }
    DeliverAppend(s, [p], rest, more, AfterFirstLine(s), safe, capacity, binary);
    CutsAppend(s, [p], rest, more, safe, capacity, binary);
    pieces := [p] + more;
  }

  /** A stream with such a line can be delivered with that cut. */
  lemma {:induction false} CutSomewhere(s: seq<char>, line: Line, safe: nat, capacity: nat, binary: bool)
      returns (pieces: seq<Piece>)
    requires safe < capacity && line in SplitLines(s) && CuttableCrLf(line, safe, capacity)
    ensures Delivers(s, pieces, safe, capacity, binary) && CutsCrLf(s, pieces)
    decreases |s|
  {
    var rest := AfterFirstLine(s);
    var first, more;
    if line == FirstLine(s) {
      var m :| CutInto(|line.content|, m, safe, capacity);
      first := CutFirst(s, m, safe, capacity, binary);
      more := DeliverySome(rest, safe, capacity, binary);
    } else {
      first := DeliverFirst(s, safe, capacity, binary);
      assert line in SplitLines(rest);
      more := CutSomewhere(rest, line, safe, capacity, binary);
    }
    DeliverAppend(s, first, rest, more, [], safe, capacity, binary);
    CutsAppend(s, first, rest, more, safe, capacity, binary);
    pieces := first + more;
  }

  /**
    Every delivery of a stream glues back to its lines, exactly when CRs are kept anyway or
    the stream has no line that the size limit can cut between its CR and its LF.
   */
  lemma GlueIsExact(s: seq<char>, safe: nat, capacity: nat, binary: bool)
    requires safe < capacity
    ensures (forall pieces :: Delivers(s, pieces, safe, capacity, binary) ==>
               Glue(pieces, []) == LineTexts(SplitLines(s), binary))
            <==> binary || forall line :: line in SplitLines(s) ==> !CuttableCrLf(line, safe, capacity)
  {
    assert [] + s == s;
    if binary || forall line :: line in SplitLines(s) ==> !CuttableCrLf(line, safe, capacity) {
      forall pieces | Delivers(s, pieces, safe, capacity, binary)
        ensures Glue(pieces, []) == LineTexts(SplitLines(s), binary)
      {
        GlueRestoresLines([], s, pieces, safe, capacity, binary);
        if !binary && CutsCrLf(s, pieces) {
          var line := CutMeansCuttable(s, [], 0, s, pieces, safe, capacity, binary);
        }
      }
    } else {
      var line :| line in SplitLines(s) && CuttableCrLf(line, safe, capacity);
      var pieces := CutSomewhere(s, line, safe, capacity, binary);
      GlueRestoresLines([], s, pieces, safe, capacity, binary);
    }
  }
}
