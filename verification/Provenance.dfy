/**
  Where the text that is sent comes from, for whole streams of bytes, line ends included: the
  stream is read as tokens in the only way there is; the kept characters are sent once and in
  order; and what is sent next to each other was next to each other, except exactly where
  something kept follows something left out without a space.
 */
module Provenance {
  import opened Shared
  import S = Scanner
  import opened Lines
  import opened Tokens
  import opened Lexing
  import opened Batch

  // ---------------------------------------------------------------- strings and comments

  /** The scanner's state inside a line, after at most n steps. */
  function After(env: S.Env, s: seq<char>, i: nat, st: S.Scan, n: nat): S.Scan
    decreases n
  {
    if n == 0 || i >= |s| then st
    else
      match S.StepAt(env, s, i, st)
      case Next(st1, j) => After(env, s, j, st1, n - 1)
      case Stop(st1) => st1
      case Quit(st1) => st1
  }

  lemma {:induction false} StepsKeepExclusive(env: S.Env, s: seq<char>, i: nat, st: S.Scan, n: nat)
    requires Exclusive(st.quote, st.inComment)
    ensures var st1 := After(env, s, i, st, n); Exclusive(st1.quote, st1.inComment)
    decreases n
  {
    if n > 0 && i < |s| {
      var r := S.StepAt(env, s, i, st);
      if r.Next? {
        StepsKeepExclusive(env, s, r.at, r.st, n - 1);
      }
    }
  }

  /** Enough steps lead to the end of the scan. */
  lemma {:induction false} ScanIsSteps(env: S.Env, s: seq<char>, i: nat, st: S.Scan, n: nat)
    requires n + i >= |s|
    ensures After(env, s, i, st, n) == S.ScanFrom(env, s, i, st).st
    decreases n
  {
    if i < |s| {
      var r := S.StepAt(env, s, i, st);
      S.ScanStep(env, s, i, st, r);
      if r.Next? {
        ScanIsSteps(env, s, r.at, r.st, n - 1);
      }
    }
  }

  lemma LineKeepsExclusive(env: S.Env, c: S.Carry, s: seq<char>, truncated: bool)
    requires Exclusive(c.quote, c.inComment)
    ensures var c1 := S.ScanLine(env, c, s, truncated); Exclusive(c1.quote, c1.inComment)
  {
    if !(s == [] && c.text == []) {
      StepsKeepExclusive(env, s, 0, S.Start(c), |s|);
      ScanIsSteps(env, s, 0, S.Start(c), |s|);
      S.ScanLineResult(env, c, s, truncated, S.ScanFrom(env, s, 0, S.Start(c)));
    }
  }

  /**
    After any pieces of input, cut or whole, and after any number of steps into any further
    line, the scanner is not inside a string and inside a block comment.
   */
  lemma {:induction false} NeverInStringAndComment(ses: Session, m: S.Mode, pieces: seq<Piece>, s: seq<char>, n: nat)
    ensures var c := TakePieces(ses, FirstState(m), pieces).carry;
      && Exclusive(c.quote, c.inComment)
      && var st := After(ses.env, s, 0, S.Start(c), n); Exclusive(st.quote, st.inComment)
  {
    if pieces != [] {
      var front, p := pieces[..|pieces| - 1], pieces[|pieces| - 1];
      NeverInStringAndComment(ses, m, front, [], 0);
      var st := TakePieces(ses, FirstState(m), front);
      LineKeepsExclusive(ses.env, st.carry, SkipBom(p.text, st.firstLine), p.truncated);
    }
    StepsKeepExclusive(ses.env, s, 0, S.Start(TakePieces(ses, FirstState(m), pieces).carry), n);
  }

  // ---------------------------------------------------------------- pieces of a stream

  /** What is left of a stream after some pieces. */
  function Remaining(s: seq<char>, pieces: seq<Piece>): seq<char> {
    if pieces == [] then s else AfterPiece(Remaining(s, pieces[..|pieces| - 1]), pieces[|pieces| - 1])
  }

  /** How the line of a piece ends in the stream. */
  function EndingOf(rest: seq<char>, p: Piece): Ending {
    var n := LineLength(rest);
    if p.truncated then Cut else if |p.text| <= n < |rest| then Whole(rest[|p.text|..n + 1]) else Whole([])
  }

  lemma PieceOfStream(rest: seq<char>, p: Piece, safe: nat, capacity: nat, keepCr: bool)
    requires DeliversNext(rest, p, safe, capacity, keepCr)
    ensures rest == (p.text + EndChars(EndingOf(rest, p))) + AfterPiece(rest, p)
    ensures WellEnded(EndingOf(rest, p)) && (EndingOf(rest, p).Cut? <==> p.truncated)
  {
    LineLengthFinds(rest);
    var n := LineLength(rest);
    if !p.truncated {
      assert |p.text| <= n && p.text == rest[..|p.text|];
    }
  }

  /** The last piece of a delivery. */
  lemma {:induction false} DeliverLast(
      s: seq<char>, pieces: seq<Piece>, rest: seq<char>, safe: nat, capacity: nat, keepCr: bool)
      returns (mid: seq<char>)
    requires DeliversUpTo(s, pieces, rest, safe, capacity, keepCr) && pieces != []
    ensures DeliversUpTo(s, pieces[..|pieces| - 1], mid, safe, capacity, keepCr)
    ensures DeliversNext(mid, pieces[|pieces| - 1], safe, capacity, keepCr)
    ensures rest == AfterPiece(mid, pieces[|pieces| - 1])
    decreases |pieces|
  {
    hide DeliversNext, AfterPiece;
    var front := pieces[..|pieces| - 1];
    if |pieces| == 1 {
      mid := s;
      assert pieces[1..] == [] && front == [];
    } else {
      mid := DeliverLast(AfterPiece(s, pieces[0]), pieces[1..], rest, safe, capacity, keepCr);
      assert pieces[1..][..|pieces| - 2] == front[1..] && front[0] == pieces[0];
    }
  }

  lemma {:induction false} RemainingIs(
      s: seq<char>, pieces: seq<Piece>, rest: seq<char>, safe: nat, capacity: nat, keepCr: bool)
    requires DeliversUpTo(s, pieces, rest, safe, capacity, keepCr)
    ensures Remaining(s, pieces) == rest
    decreases |pieces|
  {
    if pieces != [] {
      var mid := DeliverLast(s, pieces, rest, safe, capacity, keepCr);
      RemainingIs(s, pieces[..|pieces| - 1], mid, safe, capacity, keepCr);
    }
  }

  // ---------------------------------------------------------------- files as tokens

  /** A piece of input, whether it is a byte order mark, how it ends, and the tokens it is read as. */
  datatype Segment = Segment(bom: bool, text: seq<char>, ending: Ending, tokens: seq<Token>)

  /** All the input of a segment. */
  function Raw(seg: Segment): seq<char> {
    seg.text + EndChars(seg.ending)
  }

  function TextOf(segs: seq<Segment>): seq<char> {
    if segs == [] then [] else TextOf(segs[..|segs| - 1]) + Raw(segs[|segs| - 1])
  }

  function PageAfter(env: S.Env, p: Page, segs: seq<Segment>): Page {
    if segs == [] then p else WriteAll(env, PageAfter(env, p, segs[..|segs| - 1]), segs[|segs| - 1].tokens)
  }

  /** The byte order mark. */
  function BomSegment(): Segment {
    Segment(true, BOM, Cut, [Simple(ByteOrderMark, BOM, false)])
  }

  /** The line is a client command. */
  predicate IsClientCommand(ses: Session, p: Page, line: seq<char>) {
    (ses.namedCommands || p.text == []) && Outside(p) && ses.isLineCommand(line, p.mode)
  }

  function EndOfClient(e: Ending): Token {
    Simple(if e.Cut? then CutEnd else LineEnd, EndChars(e), false)
  }

  /** A client command, and its line end unless the client quits. */
  function ClientTokens(env: S.Env, p: Page, line: seq<char>, e: Ending): seq<Token> {
    var t := Simple(CommandLine, line, false);
    [t] + if Write(env, p, t).over then [] else [EndOfClient(e)]
  }

  /** A segment is a byte order mark, a client command, or the reading of a line. */
  predicate SegmentReads(ses: Session, p: Page, seg: Segment) {
    if seg.bom then p.read == 0 && seg == BomSegment()
    else if IsClientCommand(ses, p, seg.text) then seg.tokens == ClientTokens(ses.env, p, seg.text, seg.ending)
    else Reads(ses.env, p, seg.tokens, seg.text, 0, seg.ending)
  }

  /** Every segment is read to its end, or up to where the client quits. */
  predicate ReadsAll(ses: Session, p: Page, segs: seq<Segment>) {
    if segs == [] then true
    else
      var front, last := segs[..|segs| - 1], segs[|segs| - 1];
      var q := PageAfter(ses.env, p, front);
      ReadsAll(ses, p, front) && !q.over && WellEnded(last.ending) && SegmentReads(ses, q, last)
  }

  /** The same input. */
  predicate SameInput(a: Segment, b: Segment) {
    a.bom == b.bom && a.text == b.text && a.ending == b.ending
  }

  lemma OneSegment(ses: Session, p: Page, a: Segment, b: Segment)
    requires SegmentReads(ses, p, a) && SegmentReads(ses, p, b) && SameInput(a, b)
    ensures a == b
  {
    hide Reads, ClientTokens;
    if !a.bom && !IsClientCommand(ses, p, a.text) {
      OneReading(ses.env, p, a.tokens, b.tokens, a.text, 0, a.ending);
    }
  }

  /** Input has one reading only. */
  lemma {:induction false} OneFileReading(ses: Session, p: Page, a: seq<Segment>, b: seq<Segment>)
    requires ReadsAll(ses, p, a) && ReadsAll(ses, p, b) && |a| == |b|
    requires forall k :: 0 <= k < |a| ==> SameInput(a[k], b[k])
    ensures a == b
    decreases |a|
  {
    hide SegmentReads, PageAfter;
    if a != [] {
      var n := |a| - 1;
      OneFileReading(ses, p, a[..n], b[..n]);
      OneSegment(ses, PageAfter(ses.env, p, a[..n]), a[n], b[n]);
      assert a == a[..n] + [a[n]] && b == b[..n] + [b[n]];
    }
  }

  lemma BomSpells(env: S.Env, p: Page)
    ensures Spells(env, p, BomSegment().tokens, Raw(BomSegment()), 0)
  {
    var seg := BomSegment();
    assert seg.tokens[1..] == [] && BOM + [] == BOM && BOM[0..0 + 3] == BOM;
  }

  lemma OneTokenList(env: S.Env, p: Page, t: Token)
    ensures WriteAll(env, p, [t]) == Write(env, p, t)
    ensures Tripped(env, p, [t]) <==> Trips(env, p, t)
    ensures AllGentle(env, p, [t]) <==> Gentle(env, p, t)
  {
    hide Write, Trips, Gentle;
    assert [t][1..] == [];
  }

  lemma TwoTokenList(env: S.Env, p: Page, t: Token, u: Token, q: Page)
    requires q == Write(env, p, t)
    ensures WriteAll(env, p, [t, u]) == Write(env, q, u)
    ensures Tripped(env, p, [t, u]) <==> Trips(env, p, t) || Trips(env, q, u)
    ensures AllGentle(env, p, [t, u]) <==> Gentle(env, p, t) && Gentle(env, q, u)
  {
    hide Write, Trips, Gentle;
    OneTokenList(env, q, u);
    assert [t, u][1..] == [u];
  }

  /** The tokens of a client command, one or two. */
  lemma ClientTokensAre(env: S.Env, p: Page, line: seq<char>, e: Ending)
    ensures var t := Simple(CommandLine, line, false);
      ClientTokens(env, p, line, e) == if Write(env, p, t).over then [t] else [t, EndOfClient(e)]
  {
    hide Write;
  }

  lemma SpellsLast(env: S.Env, p: Page, t: Token, x: seq<char>, i: nat)
    requires Shaped(t) && S.PrefixAt(x, i, t.source) && i + |t.source| == |x|
    ensures Spells(env, p, [t], x, i)
  {
    hide Write, Shaped, S.PrefixAt;
    assert [t][1..] == [];
  }

  lemma SpellsFirst(env: S.Env, p: Page, t: Token, more: seq<Token>, x: seq<char>)
    requires Shaped(t) && S.PrefixAt(x, 0, t.source) && Spells(env, Write(env, p, t), more, x, |t.source|)
    ensures Spells(env, p, [t] + more, x, 0)
  {
    hide Write, Shaped, S.PrefixAt;
    assert ([t] + more)[1..] == more;
  }

  lemma ClientSpells(env: S.Env, p: Page, line: seq<char>, e: Ending)
    ensures Spells(env, p, ClientTokens(env, p, line, e), line + EndChars(e), 0)
  {
    hide Write;
    var x, t := line + EndChars(e), Simple(CommandLine, line, false);
    var q := Write(env, p, t);
    assert x[0..0 + |line|] == line && x[|line|..|line| + |EndChars(e)|] == EndChars(e);
    SpellsLast(env, q, EndOfClient(e), x, |line|);
    hide Spells;
    if q.over { SpellsNothing(env, q, x, |line|); }
    SpellsFirst(env, p, t, if q.over then [] else [EndOfClient(e)], x);
  }

  lemma SpellsNothing(env: S.Env, p: Page, x: seq<char>, i: nat)
    requires p.over
    ensures Spells(env, p, [], x, i)
  {
  }

  /** The tokens of a segment spell its input. */
  lemma SegmentSpells(ses: Session, p: Page, seg: Segment)
    requires SegmentReads(ses, p, seg)
    ensures Spells(ses.env, p, seg.tokens, Raw(seg), 0)
  {
    hide Reads, Spells, ClientTokens;
    if seg.bom {
      BomSpells(ses.env, p);
    } else if IsClientCommand(ses, p, seg.text) {
      ClientSpells(ses.env, p, seg.text, seg.ending);
    } else {
      ReadsSpell(ses.env, p, seg.tokens, seg.text, 0, seg.ending);
    }
  }

  function FirstPage(m: S.Mode): Page {
    Page(0, [], [], 0, NUL, false, false, false, false, m, [], [], false)
  }

  /** A byte order mark at the beginning is passed over. */
  function BomSegments(p: Piece, line: seq<char>): seq<Segment> {
    if |line| == |p.text| then [] else [BomSegment()]
  }

  function LineSegment(ses: Session, c: S.Carry, line: seq<char>, e: Ending, p: Page): Segment {
    Segment(false, line, e,
      if TriesLineCommand(ses, c, line) then ClientTokens(ses.env, p, line, e) else LineTokens(ses.env, c, line, e))
  }

  /** The page in front of a line, behind a byte order mark. */
  function BehindBom(env: S.Env, p: Page, piece: Piece, line: seq<char>): Page {
    PageAfter(env, p, BomSegments(piece, line))
  }

  function PieceSegments(ses: Session, st: State, p: Piece, e: Ending, q: Page): seq<Segment> {
    if NUL in p.text then []
    else
      var line := SkipBom(p.text, st.firstLine);
      BomSegments(p, line) + [LineSegment(ses, st.carry, line, e, BehindBom(ses.env, q, p, line))]
  }

  /** The tokens of a stream delivered in these pieces, until the client stops. */
  function FileSegments(ses: Session, m: S.Mode, s: seq<char>, pieces: seq<Piece>): seq<Segment> {
    if pieces == [] then []
    else
      var front, last := pieces[..|pieces| - 1], pieces[|pieces| - 1];
      var st, segs := TakePieces(ses, FirstState(m), front), FileSegments(ses, m, s, front);
      if st.status != Running then segs
      else
        var e := EndingOf(Remaining(s, front), last);
        segs + PieceSegments(ses, st, last, e, PageAfter(ses.env, FirstPage(m), segs))
  }

  lemma AddSegment(ses: Session, p: Page, segs: seq<Segment>, seg: Segment, q: Page)
    requires ReadsAll(ses, p, segs) && q == PageAfter(ses.env, p, segs) && !q.over
    requires WellEnded(seg.ending) && SegmentReads(ses, q, seg)
    ensures ReadsAll(ses, p, segs + [seg])
    ensures PageAfter(ses.env, p, segs + [seg]) == WriteAll(ses.env, q, seg.tokens)
    ensures TextOf(segs + [seg]) == TextOf(segs) + Raw(seg)
  {
    hide SegmentReads, WriteAll;
    assert (segs + [seg])[..|segs|] == segs;
  }

  lemma CommandLineWrites(env: S.Env, p: Page, line: seq<char>)
    ensures var q := Write(env, p, Simple(CommandLine, line, false));
      var sent := p.sent + [S.LineCommand(line, p.text)];
      var r := env.reply(sent);
      && q.sent == sent && q.over == r.quit && q.text == r.buffer && q.mode == r.mode && q.mark == |q.text|
      && q.quote == p.quote && q.inComment == p.inComment && q.due == p.due
      && (p.text == [] ==> !Ends(env, q))
  {
  }

  lemma ClientEndWrites(env: S.Env, p: Page, e: Ending)
    ensures var q := Write(env, p, EndOfClient(e));
      && q.sent == p.sent && q.over == p.over && q.text == p.text && q.origin == p.origin && q.mode == p.mode
      && q.quote == p.quote && q.inComment == p.inComment && !q.due && !q.server && q.mark == |q.text|
  {
  }

  lemma ClientWritten(ses: Session, c: S.Carry, line: seq<char>, e: Ending, p: Page)
    requires Between(p, c) && !c.quit && TriesLineCommand(ses, c, line)
    ensures Between(WriteAll(ses.env, p, ClientTokens(ses.env, p, line, e)), RunLineCommand(ses, c, line))
  {
    hide WriteAll, ClientTokens, Write, Tripped, AllGentle;
    var t := Simple(CommandLine, line, false);
    var q := Write(ses.env, p, t);
    ClientTokensAre(ses.env, p, line, e);
    OneTokenList(ses.env, p, t);
    TwoTokenList(ses.env, p, t, EndOfClient(e), q);
    CommandLineWrites(ses.env, p, line);
    ClientEndWrites(ses.env, q, e);
  }

  /** A line is a client command or text for the splitter; both are read as tokens. */
  lemma LineSegmentRead(ses: Session, c: S.Carry, line: seq<char>, e: Ending, p: Page)
    requires Between(p, c) && !c.quit && WellEnded(e)
    ensures var seg := LineSegment(ses, c, line, e, p);
      && seg.text == line && seg.ending == e
      && SegmentReads(ses, p, seg)
      && Between(WriteAll(ses.env, p, seg.tokens), NextCarry(ses, c, line, e.Cut?))
  {
    hide Reads, WriteAll, RunLineCommand, S.ScanLine, LineTokens, ClientTokens;
    assert TriesLineCommand(ses, c, line) <==> IsClientCommand(ses, p, line);
    if TriesLineCommand(ses, c, line) {
      ClientWritten(ses, c, line, e, p);
    } else {
      LineIsTokens(ses.env, c, line, e, p);
    }
  }

  /** The page shows the state of the client; at the start of a file nothing has been read. */
  predicate PageShows(p: Page, st: State) {
    && p.sent == st.carry.sent
    && (st.status == Running ==> Between(p, st.carry) && !st.carry.quit && (st.firstLine ==> p.read == 0))
  }

  lemma BomWritten(env: S.Env, p: Page)
    requires p.read == 0
    ensures WriteAll(env, p, BomSegment().tokens) == p.(read := 3, torn := true, server := false)
  {
    assert BomSegment().tokens[1..] == [];
  }

  lemma BehindNothing(env: S.Env, p: Page, piece: Piece, line: seq<char>)
    ensures BehindBom(env, p, piece, line)
            == if |line| == |piece.text| then p else WriteAll(env, p, BomSegment().tokens)
  {
    hide WriteAll;
    assert [BomSegment()][..0] == [];
    assert PageAfter(env, p, []) == p;
  }

  /** The segments with a byte order mark, if there is one. */
  lemma AddBom(ses: Session, st: State, piece: Piece, segs: seq<Segment>, first: Page, q: Page) returns (q': Page)
    requires ReadsAll(ses, first, segs) && q == PageAfter(ses.env, first, segs)
    requires st.status == Running && PageShows(q, st)
    ensures var line := SkipBom(piece.text, st.firstLine);
      var segs' := segs + BomSegments(piece, line);
      && ReadsAll(ses, first, segs') && q' == PageAfter(ses.env, first, segs')
      && q' == BehindBom(ses.env, q, piece, line) && Between(q', st.carry)
      && TextOf(segs') + line == TextOf(segs) + piece.text
  {
    hide WriteAll, BehindBom, ReadsAll, PageAfter, TextOf;
    var line := SkipBom(piece.text, st.firstLine);
    BehindNothing(ses.env, q, piece, line);
    if |line| == |piece.text| {
      assert segs + [] == segs;
      q' := q;
    } else {
      BomWritten(ses.env, q);
      AddSegment(ses, first, segs, BomSegment(), q);
      q' := q.(read := 3, torn := true, server := false);
      assert piece.text == BOM + line && Raw(BomSegment()) == BOM;
      Associate(TextOf(segs), BOM, line);
    }
  }

  lemma PieceShows(ses: Session, st: State, piece: Piece, p: Page)
    requires NUL !in piece.text
    requires Between(p, NextCarry(ses, st.carry, SkipBom(piece.text, st.firstLine), piece.truncated))
    ensures PageShows(p, TakePiece(ses, st, piece))
  {
    hide NextCarry, SkipBom;
  }

  /** What taking one more piece does to the segments. */
  lemma PieceIsTokens(ses: Session, st: State, piece: Piece, e: Ending, segs: seq<Segment>, first: Page, q: Page)
    requires st.status == Running && NUL !in piece.text && WellEnded(e) && (e.Cut? <==> piece.truncated)
    requires ReadsAll(ses, first, segs) && q == PageAfter(ses.env, first, segs) && PageShows(q, st)
    ensures var segs' := segs + PieceSegments(ses, st, piece, e, q);
      && ReadsAll(ses, first, segs')
      && PageShows(PageAfter(ses.env, first, segs'), TakePiece(ses, st, piece))
      && TextOf(segs') == TextOf(segs) + (piece.text + EndChars(e))
  {
    hide Reads, WriteAll, TakePiece, NextCarry, SkipBom, LineSegment, BomSegments, BehindBom, SegmentReads, ReadsAll;
    var line := SkipBom(piece.text, st.firstLine);
    var q1 := AddBom(ses, st, piece, segs, first, q);
    var bom, seg := BomSegments(piece, line), LineSegment(ses, st.carry, line, e, q1);
    LineSegmentRead(ses, st.carry, line, e, q1);
    AddSegment(ses, first, segs + bom, seg, q1);
    Associate(segs, bom, [seg]);
    PieceShows(ses, st, piece, WriteAll(ses.env, q1, seg.tokens));
    Associate(TextOf(segs + bom), line, EndChars(e));
    Associate(TextOf(segs), piece.text, EndChars(e));
  }

  /** The segments up to some pieces, and what is left of the stream. */
  ghost predicate ReadsStream(ses: Session, m: S.Mode, s: seq<char>, pieces: seq<Piece>, rest: seq<char>) {
    var st, segs := TakePieces(ses, FirstState(m), pieces), FileSegments(ses, m, s, pieces);
    && ReadsAll(ses, FirstPage(m), segs)
    && PageShows(PageAfter(ses.env, FirstPage(m), segs), st)
    && TextOf(segs) <= s && (st.status == Running ==> TextOf(segs) + rest == s)
  }

  lemma MorePieces(ses: Session, m: S.Mode, s: seq<char>, front: seq<Piece>, piece: Piece, mid: seq<char>,
      safe: nat, capacity: nat, keepCr: bool)
    requires ReadsStream(ses, m, s, front, mid) && DeliversNext(mid, piece, safe, capacity, keepCr)
    requires Remaining(s, front) == mid
    ensures ReadsStream(ses, m, s, front + [piece], AfterPiece(mid, piece))
  {
    hide TakePiece, PieceSegments, PageAfter, ReadsAll, DeliversNext, AfterPiece, EndingOf, Remaining, PageShows;
    var pieces := front + [piece];
    assert pieces[..|pieces| - 1] == front && pieces[|pieces| - 1] == piece;
    var st, segs := TakePieces(ses, FirstState(m), front), FileSegments(ses, m, s, front);
    PieceOfStream(mid, piece, safe, capacity, keepCr);
    if st.status == Running {
      var e := EndingOf(mid, piece);
      if NUL in piece.text {
        NulStops(ses, st, piece, e, PageAfter(ses.env, FirstPage(m), segs));
        assert segs + [] == segs;
      } else {
        PieceIsTokens(ses, st, piece, e, segs, FirstPage(m), PageAfter(ses.env, FirstPage(m), segs));
        Associate(TextOf(segs), piece.text + EndChars(e), AfterPiece(mid, piece));
      }
    }
  }

  /**
    For every delivery of a stream: the stream, line ends included, is read as tokens, and
    what the client has collected and sent is what writing them down gives. All that was
    delivered is read, unless the client stops.
   */
  lemma {:induction false} FileIsTokens(ses: Session, m: S.Mode, s: seq<char>, pieces: seq<Piece>, rest: seq<char>,
      safe: nat, capacity: nat, keepCr: bool)
    requires DeliversUpTo(s, pieces, rest, safe, capacity, keepCr)
    ensures ReadsStream(ses, m, s, pieces, rest)
    decreases |pieces|
  {
    hide ReadsStream, DeliversNext, AfterPiece, Remaining;
    if pieces == [] {
      NothingRead(ses, m, s);
    } else {
      var front, piece := pieces[..|pieces| - 1], pieces[|pieces| - 1];
      var mid := DeliverLast(s, pieces, rest, safe, capacity, keepCr);
      RemainingIs(s, front, mid, safe, capacity, keepCr);
      FileIsTokens(ses, m, s, front, mid, safe, capacity, keepCr);
      MorePieces(ses, m, s, front, piece, mid, safe, capacity, keepCr);
      assert pieces == front + [piece];
    }
  }

  lemma NothingRead(ses: Session, m: S.Mode, s: seq<char>)
    ensures ReadsStream(ses, m, s, [], s)
  {
    assert [] + s == s;
  }

  lemma NulStops(ses: Session, st: State, piece: Piece, e: Ending, q: Page)
    requires NUL in piece.text
    ensures TakePiece(ses, st, piece) == State(st.carry, st.firstLine, Stopped)
    ensures PieceSegments(ses, st, piece, e, q) == []
    ensures PageShows(q, st) ==> PageShows(q, TakePiece(ses, st, piece))
  {
  }

  // ---------------------------------------------------------------- conservation

  lemma ReadsLast(ses: Session, p: Page, segs: seq<Segment>) returns (front: seq<Segment>, last: Segment, q: Page)
    requires ReadsAll(ses, p, segs) && segs != []
    ensures |front| == |segs| - 1 && segs == front + [last] && q == PageAfter(ses.env, p, front)
    ensures ReadsAll(ses, p, front) && !q.over && Spells(ses.env, q, last.tokens, Raw(last), 0)
    ensures PageAfter(ses.env, p, segs) == WriteAll(ses.env, q, last.tokens)
    ensures front == segs[..|segs| - 1] && last == segs[|segs| - 1]
    ensures TextOf(segs) == TextOf(front) + Raw(last)
  {
    hide SegmentReads, WriteAll, Spells;
    front, last := segs[..|segs| - 1], segs[|segs| - 1];
    q := PageAfter(ses.env, p, front);
    SegmentSpells(ses, q, last);
  }

  lemma PartOfInput(input: seq<char>, a: seq<char>, b: seq<char>)
    requires a + b <= input
    ensures a <= input && GoesOn(input, |a|, b)
  {
    forall k | 0 <= k < |b|
      ensures b[k] == input[|a| + k]
    {
      assert b[k] == (a + b)[|a| + k];
    }
  }

  /** Every character on the page has the origin it is said to have. */
  lemma {:induction false} SegmentsTraced(ses: Session, input: seq<char>, m: S.Mode, segs: seq<Segment>)
    requires S.ValidEnv(ses.env) && ReadsAll(ses, FirstPage(m), segs) && TextOf(segs) <= input
    ensures var p := PageAfter(ses.env, FirstPage(m), segs);
      PageTraced(ses.env, input, p) && (!p.over ==> p.read == |TextOf(segs)|)
    decreases |segs|
  {
    hide Spells, WriteAll;
    if segs != [] {
      var front, last, q := ReadsLast(ses, FirstPage(m), segs);
      PartOfInput(input, TextOf(front), Raw(last));
      SegmentsTraced(ses, input, m, front);
      WriteAllTraced(ses.env, input, q, last.tokens, Raw(last), 0, |TextOf(front)|, PageAfter(ses.env, FirstPage(m),
          segs));
    }
  }

  /** The input positions of all kept tokens. */
  function KeptAll(env: S.Env, segs: seq<Segment>): seq<nat> {
    if segs == [] then []
    else
      var front, last := segs[..|segs| - 1], segs[|segs| - 1];
      KeptAll(env, front) + KeptAt(env, last.tokens, |TextOf(front)|)
  }

  predicate Increasing(ks: seq<nat>, bound: nat) {
    && (forall i :: 0 < i < |ks| ==> ks[i - 1] < ks[i])
    && (ks != [] ==> ks[|ks| - 1] < bound)
  }

  lemma KeptOfLine(env: S.Env, p: Page, ts: seq<Token>, s: seq<char>, at: nat)
    requires Spells(env, p, ts, s, 0)
    ensures Increasing(KeptAt(env, ts, at), at + |s|)
    ensures KeptAt(env, ts, at) != [] ==> at <= KeptAt(env, ts, at)[0]
  {
    hide Spells, KeptAt;
    var ks := KeptAt(env, ts, at);
    forall k | 0 <= k < |ks|
      ensures at <= ks[k] < at + |s| && (k > 0 ==> ks[k - 1] < ks[k])
    {
      KeptIncrease(env, p, ts, s, 0, at, k);
    }
  }

  lemma IncreasingAppend(a: seq<nat>, at: nat, b: seq<nat>, bound: nat)
    requires Increasing(a, at) && Increasing(b, bound) && at <= bound && (b != [] ==> at <= b[0])
    ensures Increasing(a + b, bound)
  {
  }

  lemma NoneIncreasing()
    ensures Increasing([], 0)
  {
  }

  lemma {:induction false} KeptAllIncreasing(ses: Session, p: Page, segs: seq<Segment>)
    requires ReadsAll(ses, p, segs)
    ensures Increasing(KeptAll(ses.env, segs), |TextOf(segs)|)
    decreases |segs|
  {
    hide Spells, WriteAll, KeptAt, Increasing, Raw;
    if segs == [] {
      NoneIncreasing();
    } else {
      var front, last, q := ReadsLast(ses, p, segs);
      KeptAllIncreasing(ses, p, front);
      KeptOfLine(ses.env, q, last.tokens, Raw(last), |TextOf(front)|);
      IncreasingAppend(KeptAll(ses.env, front), |TextOf(front)|, KeptAt(ses.env, last.tokens, |TextOf(front)|),
          |TextOf(segs)|);
    }
  }

  /** The page holds the kept characters, each once and in input order. */
  lemma {:induction false} SegmentsConserve(ses: Session, m: S.Mode, segs: seq<Segment>, input: seq<char>)
    requires S.ValidEnv(ses.env) && ReadsAll(ses, FirstPage(m), segs) && TextOf(segs) <= input
    ensures Inputs(AllOrigins(PageAfter(ses.env, FirstPage(m), segs))) == KeptAll(ses.env, segs)
    decreases |segs|
  {
    hide Spells, WriteAll, KeptAt, PageTraced;
    if segs != [] {
      var front, last, q := ReadsLast(ses, FirstPage(m), segs);
      PartOfInput(input, TextOf(front), Raw(last));
      SegmentsTraced(ses, input, m, front);
      SegmentsConserve(ses, m, front, input);
      WriteAllConserves(ses.env, q, last.tokens, PageAfter(ses.env, FirstPage(m), segs));
    } else {
      assert AllOrigins(FirstPage(m)) == [];
    }
  }

  // ---------------------------------------------------------------- what is sent for a file

  /** What the tokens of a file lead to. */
  function FilePage(ses: Session, m: S.Mode, s: seq<char>, pieces: seq<Piece>): Page {
    PageAfter(ses.env, FirstPage(m), FileSegments(ses, m, s, pieces))
  }

  /** The origins of everything sent; at the end of the input the last statement is sent, trimmed. */
  function SentOrigins(ses: Session, running: bool, p: Page): seq<seq<Origin>>
    requires |p.origin| == |p.text|
  {
    var n := TrimmedLength(ses, p.text);
    if running && n > 0 then p.taken + [p.origin[..n]] else p.taken
  }

  /** The origins of what was collected but never sent. */
  function LeftOver(ses: Session, running: bool, p: Page): seq<Origin>
    requires |p.origin| == |p.text|
  {
    if running then p.origin[TrimmedLength(ses, p.text)..] else p.origin
  }

  lemma {:induction false} TrimmedAway(ses: Session, text: seq<char>, k: nat)
    requires TrimmedLength(ses, text) <= k < |text|
    ensures !ses.isGraph(text[k])
  {
    if k < |text| - 1 {
      TrimmedAway(ses, text[..|text| - 1], k);
    }
  }

  lemma LastConserves(ses: Session, running: bool, p: Page)
    requires |p.origin| == |p.text|
    ensures Flat(SentOrigins(ses, running, p)) + LeftOver(ses, running, p) == AllOrigins(p)
  {
    var n := TrimmedLength(ses, p.text);
    if running {
      assert p.origin == p.origin[..n] + p.origin[n..];
      if n > 0 {
        FlatPut(p.taken, p.origin[..n]);
        Associate(Flat(p.taken), p.origin[..n], p.origin[n..]);
      }
    }
  }

  lemma LastTraced(ses: Session, input: seq<char>, p: Page, c: S.Carry)
    requires PageTraced(ses.env, input, p) && p.sent == c.sent && p.text == c.text
    ensures SentTraced(ses.env, input, |input|, SendLast(ses, c), SentOrigins(ses, true, p))
  {
    var n := TrimmedLength(ses, p.text);
    SentTracedLater(ses.env, input, p.read, |input|, p.sent, p.taken);
    TracedLater(ses.env, input, p.read, |input|, p.text, p.origin);
    if n > 0 {
      SentTracedPut(ses.env, input, |input|, p.sent, p.taken, S.Statement(p.text[..n]), p.origin[..n]);
    }
  }

  /** What the client sends carries the origins recorded for it. */
  lemma SentIsTraced(ses: Session, m: S.Mode, pieces: seq<Piece>, input: seq<char>, p: Page)
    requires S.ValidEnv(ses.env) && PageTraced(ses.env, input, p)
    requires PageShows(p, TakePieces(ses, FirstState(m), pieces))
    ensures var running := TakePieces(ses, FirstState(m), pieces).status == Running;
      SentTraced(ses.env, input, |input|, Sent(ses, m, pieces), SentOrigins(ses, running, p))
  {
    var st := TakePieces(ses, FirstState(m), pieces);
    if st.status == Running {
      LastTraced(ses, input, p, st.carry);
    } else {
      SentTracedLater(ses.env, input, p.read, |input|, p.sent, p.taken);
    }
  }

  /**
    For every delivery of a stream: each character sent is the character of the stream at its
    origin, or white space the splitter added, or was put there by a client command. Taken
    together the origins in what is sent, and in what is left over, are exactly the
    positions of what the tokens keep, in increasing order: no character of the stream, line
    ends included, is sent twice, moved, or lost unless it is in a token that is not kept.
    What is left over at the end is not graphic.
   */
  lemma EveryCharacterIsAccountedFor(ses: Session, m: S.Mode, s: seq<char>, pieces: seq<Piece>, rest: seq<char>,
      safe: nat, capacity: nat, keepCr: bool)
    requires S.ValidEnv(ses.env) && DeliversUpTo(s, pieces, rest, safe, capacity, keepCr)
    ensures var running := TakePieces(ses, FirstState(m), pieces).status == Running;
      var p, segs := FilePage(ses, m, s, pieces), FileSegments(ses, m, s, pieces);
      && ReadsAll(ses, FirstPage(m), segs)
      && TextOf(segs) <= s && (running ==> TextOf(segs) + rest == s)
      && |p.origin| == |p.text|
      && SentTraced(ses.env, s, |s|, Sent(ses, m, pieces), SentOrigins(ses, running, p))
      && Inputs(Flat(SentOrigins(ses, running, p)) + LeftOver(ses, running, p)) == KeptAll(ses.env, segs)
      && Increasing(KeptAll(ses.env, segs), |TextOf(segs)|)
      && (running ==> forall k :: TrimmedLength(ses, p.text) <= k < |p.text| ==> !ses.isGraph(p.text[k]))
  {
    hide WriteAll, ReadsAll, Sent, FileSegments, KeptAll, SentTraced, Traced, TextOf, TakePieces, DeliversUpTo;
    var st := TakePieces(ses, FirstState(m), pieces);
    var p, segs := FilePage(ses, m, s, pieces), FileSegments(ses, m, s, pieces);
    FileIsTokens(ses, m, s, pieces, rest, safe, capacity, keepCr);
    SegmentsTraced(ses, s, m, segs);
    SegmentsConserve(ses, m, segs, s);
    KeptAllIncreasing(ses, FirstPage(m), segs);
    TextsMatch(ses.env, s, p);
    SentIsTraced(ses, m, pieces, s, p);
    LastConserves(ses, st.status == Running, p);
    forall k | TrimmedLength(ses, p.text) <= k < |p.text|
      ensures !ses.isGraph(p.text[k])
    {
      TrimmedAway(ses, p.text, k);
    }
  }

  lemma TextsMatch(env: S.Env, input: seq<char>, p: Page)
    requires PageTraced(env, input, p)
    ensures |p.origin| == |p.text| && |p.taken| == |p.sent|
  {
  }

  // ---------------------------------------------------------------- what is joined

  predicate TrippedAll(env: S.Env, p: Page, segs: seq<Segment>) {
    segs != [] &&
    var front, last := segs[..|segs| - 1], segs[|segs| - 1];
    TrippedAll(env, p, front) || Tripped(env, PageAfter(env, p, front), last.tokens)
  }

  lemma {:induction false} SegmentsJoin(ses: Session, m: S.Mode, segs: seq<Segment>)
    requires S.ValidEnv(ses.env) && ReadsAll(ses, FirstPage(m), segs)
    ensures Gapped(PageAfter(ses.env, FirstPage(m), segs))
    ensures PageJoined(ses.env, PageAfter(ses.env, FirstPage(m), segs)) <==> TrippedAll(ses.env, FirstPage(m), segs)
    decreases |segs|
  {
    hide Spells, WriteAll, Tripped;
    if segs != [] {
      var front, last, q := ReadsLast(ses, FirstPage(m), segs);
      SegmentsJoin(ses, m, front);
      WriteAllJoins(ses.env, q, last.tokens, Raw(last), 0, PageAfter(ses.env, FirstPage(m), segs));
    }
  }

  lemma PrefixJoined(env: S.Env, text: seq<char>, origin: seq<Origin>, n: nat)
    requires |origin| == |text| && n <= |text| && Joined(env, text[..n], origin[..n])
    ensures Joined(env, text, origin)
  {
    var k: nat :| JoinedAt(env, text[..n], origin[..n], k);
    assert JoinedAt(env, text, origin, k);
  }

  /** What is joined in the last statement is joined on the page. */
  lemma LastJoins(ses: Session, p: Page, c: S.Carry)
    requires Gapped(p) && p.sent == c.sent && p.text == c.text
    ensures SentJoined(ses.env, SendLast(ses, c), SentOrigins(ses, true, p)) ==> PageJoined(ses.env, p)
  {
    var n := TrimmedLength(ses, p.text);
    if n > 0 {
      SentJoinedPut(ses.env, p.sent, p.taken, S.Statement(p.text[..n]), p.origin[..n]);
      if Joined(ses.env, p.text[..n], p.origin[..n]) {
        PrefixJoined(ses.env, p.text, p.origin, n);
      }
    }
  }

  /**
    Characters that are not white space become neighbours in what is collected or sent,
    although they were not in the stream, exactly where something kept trips: it comes
    right behind something left out, no space stands or is put in between.
   */
  lemma JoinedWhereTripped(ses: Session, m: S.Mode, s: seq<char>, pieces: seq<Piece>, rest: seq<char>,
      safe: nat, capacity: nat, keepCr: bool)
    requires S.ValidEnv(ses.env) && DeliversUpTo(s, pieces, rest, safe, capacity, keepCr)
    ensures var st, p := TakePieces(ses, FirstState(m), pieces), FilePage(ses, m, s, pieces);
      && p.sent == st.carry.sent && (st.status == Running ==> p.text == st.carry.text)
      && (PageJoined(ses.env, p) <==> TrippedAll(ses.env, FirstPage(m), FileSegments(ses, m, s, pieces)))
  {
    hide WriteAll, ReadsAll, FileSegments, TakePieces, DeliversUpTo, PageJoined, TrippedAll;
    FileIsTokens(ses, m, s, pieces, rest, safe, capacity, keepCr);
    SegmentsJoin(ses, m, FileSegments(ses, m, s, pieces));
  }

  predicate GentleAll(env: S.Env, p: Page, segs: seq<Segment>) {
    segs == [] ||
    var front, last := segs[..|segs| - 1], segs[|segs| - 1];
    GentleAll(env, p, front) && AllGentle(env, PageAfter(env, p, front), last.tokens)
  }

  /** Nothing has been joined, and nothing can be unless it is in a comment. */
  predicate Calm(env: S.Env, p: Page, segs: seq<Segment>) {
    var q := PageAfter(env, p, segs);
    !TrippedAll(env, p, segs) && (q.over || Settled(env, q))
  }

  lemma AddCalm(env: S.Env, p: Page, segs: seq<Segment>, seg: Segment, q: Page)
    requires Calm(env, p, segs) && q == PageAfter(env, p, segs) && !Tripped(env, q, seg.tokens)
    requires var q' := WriteAll(env, q, seg.tokens); q'.over || Settled(env, q')
    ensures Calm(env, p, segs + [seg])
  {
    hide Tripped, WriteAll;
    assert (segs + [seg])[..|segs|] == segs;
  }

  lemma DropGentle(env: S.Env, p: Page, segs: seq<Segment>, seg: Segment)
    requires GentleAll(env, p, segs + [seg])
    ensures GentleAll(env, p, segs) && AllGentle(env, PageAfter(env, p, segs), seg.tokens)
  {
    hide AllGentle, WriteAll;
    assert (segs + [seg])[..|segs|] == segs;
  }

  lemma ClientCalm(ses: Session, line: seq<char>, e: Ending, p: Page)
    requires AllGentle(ses.env, p, ClientTokens(ses.env, p, line, e))
    ensures var ts := ClientTokens(ses.env, p, line, e);
      var q := WriteAll(ses.env, p, ts);
      !Tripped(ses.env, p, ts) && (q.over || Settled(ses.env, q))
  {
    hide WriteAll, ClientTokens, Tripped, AllGentle, Write;
    var t := Simple(CommandLine, line, false);
    var q := Write(ses.env, p, t);
    ClientTokensAre(ses.env, p, line, e);
    OneTokenList(ses.env, p, t);
    TwoTokenList(ses.env, p, t, EndOfClient(e), q);
    CommandLineWrites(ses.env, p, line);
    ClientEndWrites(ses.env, q, e);
  }

  lemma LineCalm(ses: Session, c: S.Carry, line: seq<char>, e: Ending, p: Page)
    requires S.ValidEnv(ses.env) && Between(p, c) && !c.quit && WellEnded(e) && e.Whole?
    requires Settled(ses.env, p)
    requires AllGentle(ses.env, p, LineSegment(ses, c, line, e, p).tokens)
    ensures var ts := LineSegment(ses, c, line, e, p).tokens;
      var q := WriteAll(ses.env, p, ts);
      !Tripped(ses.env, p, ts) && (q.over || Settled(ses.env, q))
  {
    hide WriteAll, Tripped, AllGentle, ClientTokens, LineTokens, Exposed;
    if TriesLineCommand(ses, c, line) {
      ClientCalm(ses, line, e, p);
    } else {
      LineIsTokens(ses.env, c, line, e, p);
      var ts := LineTokens(ses.env, c, line, e);
      ReadsQuiet(ses.env, p, ts, line, 0, e, WriteAll(ses.env, p, ts));
    }
  }

  lemma BomCalm(env: S.Env, p: Page)
    requires p.text == []
    ensures var q := WriteAll(env, p, BomSegment().tokens);
      !Tripped(env, p, BomSegment().tokens) && !Exposed(env, q)
  {
    assert BomSegment().tokens[1..] == [];
  }

  lemma BomSegmentsCalm(ses: Session, st: State, piece: Piece, segs: seq<Segment>, p: Page, q: Page)
    requires q == PageAfter(ses.env, p, segs) && Calm(ses.env, p, segs) && (st.firstLine ==> q.text == [])
    ensures Calm(ses.env, p, segs + BomSegments(piece, SkipBom(piece.text, st.firstLine)))
  {
    hide Tripped, WriteAll;
    if |SkipBom(piece.text, st.firstLine)| == |piece.text| {
      assert segs + [] == segs;
    } else {
      BomCalm(ses.env, q);
      AddCalm(ses.env, p, segs, BomSegment(), q);
    }
  }

  /** One more whole line of gentle tokens. */
  lemma PieceCalm(ses: Session, st: State, piece: Piece, e: Ending, segs: seq<Segment>, p: Page, q: Page)
    requires S.ValidEnv(ses.env) && st.status == Running
    requires NUL !in piece.text && e.Whole? && WellEnded(e)
    requires ReadsAll(ses, p, segs) && q == PageAfter(ses.env, p, segs) && PageShows(q, st)
    requires Calm(ses.env, p, segs) && (st.firstLine ==> q.text == [])
    requires GentleAll(ses.env, p, segs + PieceSegments(ses, st, piece, e, q))
    ensures Calm(ses.env, p, segs + PieceSegments(ses, st, piece, e, q))
  {
    hide Tripped, WriteAll, AllGentle, LineSegment, BomSegments, BehindBom, SkipBom, TrippedAll, GentleAll, ReadsAll;
    var line := SkipBom(piece.text, st.firstLine);
    var q1 := AddBom(ses, st, piece, segs, p, q);
    var bom, seg := BomSegments(piece, line), LineSegment(ses, st.carry, line, e, q1);
    BomSegmentsCalm(ses, st, piece, segs, p, q);
    Associate(segs, bom, [seg]);
    DropGentle(ses.env, p, segs + bom, seg);
    LineCalm(ses, st.carry, line, e, q1);
    AddCalm(ses.env, p, segs + bom, seg, q1);
  }

  lemma GentleFront(env: S.Env, p: Page, a: seq<Segment>, b: seq<Segment>)
    requires GentleAll(env, p, a + b)
    ensures GentleAll(env, p, a)
    decreases |b|
  {
    hide AllGentle, PageAfter;
    if b == [] {
      assert a + b == a;
    } else {
      assert (a + b)[..|a + b| - 1] == a + b[..|b| - 1];
      GentleFront(env, p, a, b[..|b| - 1]);
    }
  }

  lemma {:induction false} OnlyFirst(ses: Session, m: S.Mode, pieces: seq<Piece>)
    requires pieces != [] && TakePieces(ses, FirstState(m), pieces).status == Running
    ensures !TakePieces(ses, FirstState(m), pieces).firstLine
  {
  }

  /** One more piece of a stream. */
  lemma MoreCalm(ses: Session, m: S.Mode, s: seq<char>, front: seq<Piece>, piece: Piece, mid: seq<char>, e: Ending)
    requires S.ValidEnv(ses.env) && ReadsStream(ses, m, s, front, mid) && Remaining(s, front) == mid
    requires e == EndingOf(mid, piece) && WellEnded(e) && e.Whole?
    requires GentleAll(ses.env, FirstPage(m), FileSegments(ses, m, s, front + [piece]))
    requires GentleAll(ses.env, FirstPage(m), FileSegments(ses, m, s, front)) ==>
               Calm(ses.env, FirstPage(m), FileSegments(ses, m, s, front))
    ensures Calm(ses.env, FirstPage(m), FileSegments(ses, m, s, front + [piece]))
  {
    hide PieceSegments, TakePiece, PageAfter, ReadsAll, EndingOf, Remaining, GentleAll, Calm;
    var pieces := front + [piece];
    assert pieces[..|pieces| - 1] == front && pieces[|pieces| - 1] == piece;
    var st, segs := TakePieces(ses, FirstState(m), front), FileSegments(ses, m, s, front);
    var q := PageAfter(ses.env, FirstPage(m), segs);
    if st.status == Running {
      GentleFront(ses.env, FirstPage(m), segs, PieceSegments(ses, st, piece, e, q));
      if NUL in piece.text {
        NulStops(ses, st, piece, e, q);
        assert segs + [] == segs;
      } else {
        FirstIsEmpty(ses, m, s, front, mid);
        PieceCalm(ses, st, piece, e, segs, FirstPage(m), q);
      }
    }
  }

  lemma FirstIsEmpty(ses: Session, m: S.Mode, s: seq<char>, front: seq<Piece>, mid: seq<char>)
    requires ReadsStream(ses, m, s, front, mid)
    ensures var st := TakePieces(ses, FirstState(m), front);
      st.status == Running && st.firstLine ==> FilePage(ses, m, s, front).text == []
  {
    hide ReadsStream;
    if front != [] && TakePieces(ses, FirstState(m), front).status == Running { OnlyFirst(ses, m, front); }
  }

  lemma {:induction false} FileCalm(ses: Session, m: S.Mode, s: seq<char>, pieces: seq<Piece>, rest: seq<char>,
      safe: nat, capacity: nat, keepCr: bool)
    requires S.ValidEnv(ses.env) && DeliversUpTo(s, pieces, rest, safe, capacity, keepCr)
    requires forall p :: p in pieces ==> !p.truncated
    ensures GentleAll(ses.env, FirstPage(m), FileSegments(ses, m, s, pieces)) ==>
              Calm(ses.env, FirstPage(m), FileSegments(ses, m, s, pieces))
    decreases |pieces|
  {
    hide ReadsStream, DeliversNext, AfterPiece, Remaining, GentleAll, Calm, FileSegments;
    if pieces == [] {
      NothingCalm(ses, m, s);
    } else {
      var front, piece := pieces[..|pieces| - 1], pieces[|pieces| - 1];
      var mid := DeliverLast(s, pieces, rest, safe, capacity, keepCr);
      RemainingIs(s, front, mid, safe, capacity, keepCr);
      FileIsTokens(ses, m, s, front, mid, safe, capacity, keepCr);
      FileCalm(ses, m, s, front, mid, safe, capacity, keepCr);
      PieceOfStream(mid, piece, safe, capacity, keepCr);
      assert pieces == front + [piece] && piece in pieces;
      if GentleAll(ses.env, FirstPage(m), FileSegments(ses, m, s, pieces)) {
        MoreCalm(ses, m, s, front, piece, mid, EndingOf(mid, piece));
      }
    }
  }

  lemma NothingCalm(ses: Session, m: S.Mode, s: seq<char>)
    ensures Calm(ses.env, FirstPage(m), FileSegments(ses, m, s, []))
  {
  }

  /**
    For all streams whose lines arrive whole: if no client command is taken inside a
    statement, no backslash pair is kept while a space is due, a comment kept behind a
    delimiter comes after white space, and no line ends in what could be a DELIMITER command,
    then characters that are not white space are neighbours in a statement only if they
    were neighbours in the stream.
   */
  lemma NothingIsJoined(ses: Session, m: S.Mode, s: seq<char>, pieces: seq<Piece>, rest: seq<char>,
      safe: nat, capacity: nat, keepCr: bool)
    requires S.ValidEnv(ses.env) && DeliversUpTo(s, pieces, rest, safe, capacity, keepCr)
    requires forall p :: p in pieces ==> !p.truncated
    requires GentleAll(ses.env, FirstPage(m), FileSegments(ses, m, s, pieces))
    ensures var running := TakePieces(ses, FirstState(m), pieces).status == Running;
      var p := FilePage(ses, m, s, pieces);
      && |p.origin| == |p.text|
      && !SentJoined(ses.env, Sent(ses, m, pieces), SentOrigins(ses, running, p))
  {
    hide WriteAll, FileSegments, TakePieces, DeliversUpTo, GentleAll;
    var st, p := TakePieces(ses, FirstState(m), pieces), FilePage(ses, m, s, pieces);
    FileCalm(ses, m, s, pieces, rest, safe, capacity, keepCr);
    FileIsTokens(ses, m, s, pieces, rest, safe, capacity, keepCr);
    SegmentsJoin(ses, m, FileSegments(ses, m, s, pieces));
    if st.status == Running {
      LastJoins(ses, p, st.carry);
    }
  }

  // ---------------------------------------------------------------- plain streams

  /** A line that has no backslash and does not contain the word DELIMITER. */
  ghost predicate PlainText(env: S.Env, text: seq<char>) {
    '\\' !in text && DelimiterFree(env, text)
  }

  lemma PlainSuffix(env: S.Env, text: seq<char>, k: nat)
    requires PlainText(env, text) && k <= |text|
    ensures PlainText(env, text[k..])
  {
    forall i: nat
      ensures !NameAt(env, text[k..], i)
    {
      if i + S.DELIMITER_NAME_LEN <= |text| - k {
        assert text[k..][i..i + S.DELIMITER_NAME_LEN] == text[k + i..k + i + S.DELIMITER_NAME_LEN];
        assert !NameAt(env, text, k + i);
      }
    }
  }

  lemma PlainLine(env: S.Env, piece: Piece, firstLine: bool)
    requires PlainText(env, piece.text)
    ensures PlainText(env, SkipBom(piece.text, firstLine))
  {
    if SkipBom(piece.text, firstLine) != piece.text { PlainSuffix(env, piece.text, 3); }
  }

  lemma ClientGentle(ses: Session, line: seq<char>, e: Ending, p: Page)
    requires p.text == []
    ensures AllGentle(ses.env, p, ClientTokens(ses.env, p, line, e))
  {
    hide WriteAll, ClientTokens, Tripped, AllGentle, Write;
    var t := Simple(CommandLine, line, false);
    var q := Write(ses.env, p, t);
    ClientTokensAre(ses.env, p, line, e);
    OneTokenList(ses.env, p, t);
    TwoTokenList(ses.env, p, t, EndOfClient(e), q);
    CommandLineWrites(ses.env, p, line);
    assert q.text[q.mark..] == [];
  }

  lemma LineGentle(ses: Session, c: S.Carry, line: seq<char>, e: Ending, p: Page)
    requires !ses.env.preserveComments && Between(p, c) && !c.quit && !ses.namedCommands && WellEnded(e)
    requires PlainText(ses.env, line) && ProperName(ses.env)
    ensures AllGentle(ses.env, p, LineSegment(ses, c, line, e, p).tokens)
  {
    hide AllGentle, ClientTokens, LineTokens, Reads, WriteAll;
    if TriesLineCommand(ses, c, line) {
      ClientGentle(ses, line, e, p);
    } else {
      LineIsTokens(ses.env, c, line, e, p);
      EmptyChunk(p, line, 0);
      PlainIsGentle(ses.env, p, LineTokens(ses.env, c, line, e), line, 0, e);
    }
  }

  lemma AddGentle(env: S.Env, p: Page, segs: seq<Segment>, seg: Segment)
    requires GentleAll(env, p, segs) && AllGentle(env, PageAfter(env, p, segs), seg.tokens)
    ensures GentleAll(env, p, segs + [seg])
  {
    hide AllGentle, WriteAll;
    assert (segs + [seg])[..|segs|] == segs;
  }

  lemma BomGentle(env: S.Env, p: Page, segs: seq<Segment>, piece: Piece, line: seq<char>)
    requires GentleAll(env, p, segs)
    ensures GentleAll(env, p, segs + BomSegments(piece, line))
  {
    hide AllGentle, WriteAll, GentleAll, PageAfter;
    OneTokenList(env, PageAfter(env, p, segs), Simple(ByteOrderMark, BOM, false));
    AddGentle(env, p, segs, BomSegment());
    assert segs + [] == segs;
  }

  lemma PieceGentle(ses: Session, st: State, piece: Piece, e: Ending, segs: seq<Segment>, p: Page, q: Page)
    requires !ses.env.preserveComments && st.status == Running && NUL !in piece.text && WellEnded(e)
    requires !ses.namedCommands && PlainText(ses.env, piece.text) && ProperName(ses.env)
    requires ReadsAll(ses, p, segs) && q == PageAfter(ses.env, p, segs) && PageShows(q, st)
    requires GentleAll(ses.env, p, segs)
    ensures GentleAll(ses.env, p, segs + PieceSegments(ses, st, piece, e, q))
  {
    hide WriteAll, AllGentle, LineSegment, BomSegments, BehindBom, GentleAll, SkipBom, PlainText, ProperName, ReadsAll;
    var line := SkipBom(piece.text, st.firstLine);
    PlainLine(ses.env, piece, st.firstLine);
    var q1 := AddBom(ses, st, piece, segs, p, q);
    var bom, seg := BomSegments(piece, line), LineSegment(ses, st.carry, line, e, q1);
    BomGentle(ses.env, p, segs, piece, line);
    Associate(segs, bom, [seg]);
    LineGentle(ses, st.carry, line, e, q1);
    AddGentle(ses.env, p, segs + bom, seg);
  }

  lemma MoreGentle(ses: Session, m: S.Mode, s: seq<char>, front: seq<Piece>, piece: Piece, mid: seq<char>, e: Ending)
    requires !ses.env.preserveComments && !ses.namedCommands && ProperName(ses.env) && PlainText(ses.env, piece.text)
    requires ReadsStream(ses, m, s, front, mid) && Remaining(s, front) == mid && e == EndingOf(mid, piece) &&
        WellEnded(e)
    requires GentleAll(ses.env, FirstPage(m), FileSegments(ses, m, s, front))
    ensures GentleAll(ses.env, FirstPage(m), FileSegments(ses, m, s, front + [piece]))
  {
    hide PieceSegments, TakePiece, PageAfter, ReadsAll, EndingOf, Remaining, GentleAll, PlainText, ProperName;
    var pieces := front + [piece];
    assert pieces[..|pieces| - 1] == front && pieces[|pieces| - 1] == piece;
    var st, segs := TakePieces(ses, FirstState(m), front), FileSegments(ses, m, s, front);
    var q := PageAfter(ses.env, FirstPage(m), segs);
    if st.status == Running {
      if NUL in piece.text {
        NulStops(ses, st, piece, e, q);
        assert segs + [] == segs;
      } else {
        PieceGentle(ses, st, piece, e, segs, FirstPage(m), q);
      }
    }
  }

  /**
    When comments are removed and named commands are off, lines without backslashes and without
    the word DELIMITER meet the condition: removing comments joins nothing.
   */
  lemma {:induction false} PlainFilesAreGentle(ses: Session, m: S.Mode, s: seq<char>, pieces: seq<Piece>,
      rest: seq<char>, safe: nat, capacity: nat, keepCr: bool)
    requires !ses.env.preserveComments && !ses.namedCommands && ProperName(ses.env)
    requires DeliversUpTo(s, pieces, rest, safe, capacity, keepCr)
    requires forall p :: p in pieces ==> PlainText(ses.env, p.text)
    ensures GentleAll(ses.env, FirstPage(m), FileSegments(ses, m, s, pieces))
    decreases |pieces|
  {
    hide ReadsStream, DeliversNext, AfterPiece, Remaining, PlainText, ProperName;
    if pieces != [] {
      var front, piece := pieces[..|pieces| - 1], pieces[|pieces| - 1];
      var mid := DeliverLast(s, pieces, rest, safe, capacity, keepCr);
      RemainingIs(s, front, mid, safe, capacity, keepCr);
      FileIsTokens(ses, m, s, front, mid, safe, capacity, keepCr);
      PlainFilesAreGentle(ses, m, s, front, mid, safe, capacity, keepCr);
      PieceOfStream(mid, piece, safe, capacity, keepCr);
      assert pieces == front + [piece] && piece in pieces;
      MoreGentle(ses, m, s, front, piece, mid, EndingOf(mid, piece));
    }
  }

  // ---------------------------------------------------------------- where the condition fails

  /** A plain session, for the examples: the command \p prints the text and leaves it alone. */
  function PlainSession(): Session {
    Session(
      S.Env(false, c => c == ' ' || c == '\n', t => t == "delimiter", c => c == 'p', c => false,
            sent => S.Reply(false, if sent == [] then [] else EventText(sent[|sent| - 1]), PlainMode())),
      false, (line, m) => false, c => c != ' ' && c != '\n')
  }

  function PlainMode(): S.Mode {
    S.Mode(";", false, false)
  }

  function PlainEnv(): S.Env {
    PlainSession().env
  }

  /** The segments of the first pieces of a stream, read by the plain session. */
  function SegmentsOf(s: seq<char>, pieces: seq<Piece>): seq<Segment> {
    FileSegments(PlainSession(), PlainMode(), s, pieces)
  }

  function PageOf(s: seq<char>, pieces: seq<Piece>): Page {
    FilePage(PlainSession(), PlainMode(), s, pieces)
  }

  predicate IsRunning(pieces: seq<Piece>) {
    TakePieces(PlainSession(), FirstState(PlainMode()), pieces).status == Running
  }

  /** A line that starts the stream s, and nothing about it is special. */
  predicate StartsWith(s: seq<char>, line: seq<char>, more: seq<char>) {
    s == (line + [LF]) + more && LF !in line && CR !in line && NUL !in line && line != [] && line[0] != BOM[0]
  }

  lemma LineDelivered(s: seq<char>, line: seq<char>, more: seq<char>)
    requires StartsWith(s, line, more) && |line| < 100
    ensures DeliversNext(s, Piece(line, false), 0, 100, false) && AfterPiece(s, Piece(line, false)) == more
    ensures EndingOf(s, Piece(line, false)) == Whole([LF])
    ensures WholeLines(s, false) == [Piece(line, false)] + WholeLines(more, false)
  {
    var n := |line|;
    assert s[..n] == line && s[n] == LF && s[n + 1..] == more && s[n..n + 1] == [LF];
    LineLengthIs(s, n);
  }

  /** One more line of a stream. */
  lemma NextSegment(s: seq<char>, front: seq<Piece>, mid: seq<char>, line: seq<char>, more: seq<char>)
      returns (seg: Segment)
    requires ReadsStream(PlainSession(), PlainMode(), s, front, mid) && Remaining(s, front) == mid
    requires IsRunning(front) && StartsWith(mid, line, more) && |line| < 100
    ensures SegmentsOf(s, front + [Piece(line, false)]) == SegmentsOf(s, front) + [seg]
    ensures Reads(PlainEnv(), PageOf(s, front), seg.tokens, line, 0, Whole([LF]))
    ensures !WriteAll(PlainEnv(), PageOf(s, front), seg.tokens).over ==> IsRunning(front + [Piece(line, false)])
  {
    hide WriteAll, Reads, LineTokens, S.ScanLine, TakePieces, ReadsAll, PageAfter, Remaining, EndingOf;
    var ses, m, piece := PlainSession(), PlainMode(), Piece(line, false);
    var st, q := TakePieces(ses, FirstState(m), front), PageOf(s, front);
    LineDelivered(mid, line, more);
    assert SkipBom(line, st.firstLine) == line;
    BehindNothing(ses.env, q, piece, line);
    seg := LineSegment(ses, st.carry, line, Whole([LF]), q);
    LineSegmentRead(ses, st.carry, line, Whole([LF]), q);
    assert (front + [piece])[..|front|] == front;
    assert PieceSegments(ses, st, piece, Whole([LF]), q) == [] + [seg] == [seg];
    TakeOneMore(ses, FirstState(m), front, piece);
  }

  /** What stands at a place of a line is what is read there. */
  lemma NextToken(p: Page, ts: seq<Token>, s: seq<char>, i: nat, e: Ending, t: Token, q: Page)
    requires Reads(PlainEnv(), p, ts, s, i, e) && CanRead(PlainEnv(), p, t, s, i, e) && q == Write(PlainEnv(), p, t)
    ensures ts != [] && ts[0] == t && ts == [t] + ts[1..]
    ensures i < |s| ==> Reads(PlainEnv(), q, ts[1..], s, i + |t.source|, e)
    ensures i == |s| ==> ts == [t]
    ensures Trips(PlainEnv(), p, t) || Tripped(PlainEnv(), q, ts[1..]) ==> Tripped(PlainEnv(), p, ts)
    ensures WriteAll(PlainEnv(), p, ts) == WriteAll(PlainEnv(), q, ts[1..])
  {
    hide Write, Trips, PlainEnv;
    assert !p.over;
    hide CanRead;
    OneToken(PlainEnv(), p, ts[0], t, s, i, e);
  }

  predicate Letter(c: char) {
    c !in ['\\', ';', '#', '-', '/', '*', '\'', '"', '`', NUL]
  }

  /** In the middle of a statement, outside strings and comments. */
  predicate Plainly(p: Page) {
    Outside(p) && !p.due && !p.server && !p.over && p.mode == PlainMode() && |p.origin| == |p.text|
  }

  function TakeToken(c: char): Token {
    Simple(Take, [c], false)
  }

  lemma LetterStands(p: Page, s: seq<char>, i: nat, e: Ending)
    requires Plainly(p) && i < |s| && Letter(s[i]) && (p.text == [] ==> s[i] != ' ' && s[i] != '\n')
    ensures CanRead(PlainEnv(), p, TakeToken(s[i]), s, i, e)
  {
    assert s[i..i + 1] == [s[i]];
    assert [s[i]] != ";";
  }

  lemma LetterWritten(p: Page, c: char)
    requires Plainly(p) && Letter(c)
    ensures var q := Write(PlainEnv(), p, TakeToken(c));
      && Plainly(q) && q.text == p.text + [c] && q.mark == p.mark && !q.torn && q.origin[|q.origin| - 1].Input?
      && q.sent == p.sent
  {
  }

  /** A stretch of letters and spaces. */
  lemma {:induction false} LettersRead(p: Page, ts: seq<Token>, s: seq<char>, i: nat, j: nat, e: Ending)
      returns (q: Page, us: seq<Token>)
    requires Plainly(p) && Reads(PlainEnv(), p, ts, s, i, e) && i < j <= |s|
    requires (forall k :: i <= k < j ==> Letter(s[k])) && (p.text == [] ==> s[i] != ' ' && s[i] != '\n')
    ensures Plainly(q) && q.text == p.text + s[i..j] && q.mark == p.mark && !q.torn && q.origin[|q.origin| - 1].Input?
    ensures Reads(PlainEnv(), q, us, s, j, e) && WriteAll(PlainEnv(), p, ts) == WriteAll(PlainEnv(), q, us)
    ensures Tripped(PlainEnv(), q, us) ==> Tripped(PlainEnv(), p, ts)
    decreases j - i
  {
    hide Write, Reads, CanRead, Tripped, WriteAll, PlainEnv, Letter;
    var t := TakeToken(s[i]);
    q := Write(PlainEnv(), p, t);
    LetterStands(p, s, i, e);
    LetterWritten(p, s[i]);
    NextToken(p, ts, s, i, e, t, q);
    us := ts[1..];
    assert s[i..i + 1] == [s[i]];
    if i + 1 < j {
      var q1 := q;
      q, us := LettersRead(q1, us, s, i + 1, j, e);
      assert s[i..j] == [s[i]] + s[i + 1..j];
      Associate(p.text, [s[i]], s[i + 1..j]);
    }
  }

  lemma FirstIsPlain()
    ensures Plainly(FirstPage(PlainMode())) && FirstPage(PlainMode()).text == []
    ensures PageOf([], []) == FirstPage(PlainMode())
  {
  }

  /** The examples are complete deliveries, and something is joined. */
  ghost predicate IsJoined(s: seq<char>) {
    var pieces := WholeLines(s, false);
    Delivers(s, pieces, 0, 100, false) && PageJoined(PlainEnv(), PageOf(s, pieces))
  }

  lemma Begin(s: seq<char>)
    ensures ReadsStream(PlainSession(), PlainMode(), s, [], s) && Remaining(s, []) == s && IsRunning([])
    ensures SegmentsOf(s, []) == [] && PageOf(s, []) == FirstPage(PlainMode())
  {
    NothingRead(PlainSession(), PlainMode(), s);
  }

  /** If the tokens of a one-line stream trip, something is joined. */
  lemma OneLineJoins(s: seq<char>, line: seq<char>, seg: Segment)
    requires StartsWith(s, line, []) && |line| < 100 && SegmentsOf(s, [Piece(line, false)]) == [seg]
    requires Tripped(PlainEnv(), FirstPage(PlainMode()), seg.tokens)
    ensures IsJoined(s)
  {
    hide Tripped, PageJoined, FileSegments;
    LineDelivered(s, line, []);
    DeliverOne(s, Piece(line, false), 0, 100, false);
    assert [Piece(line, false)] + [] == [Piece(line, false)];
    assert [seg][..0] == [];
    assert TrippedAll(PlainEnv(), FirstPage(PlainMode()), [seg]);
    JoinedWhereTripped(PlainSession(), PlainMode(), s, [Piece(line, false)], [], 0, 100, false);
  }

  lemma FirstSegment(s: seq<char>, line: seq<char>, more: seq<char>) returns (seg: Segment)
    requires StartsWith(s, line, more) && |line| < 100
    ensures SegmentsOf(s, [Piece(line, false)]) == [seg]
    ensures Reads(PlainEnv(), FirstPage(PlainMode()), seg.tokens, line, 0, Whole([LF]))
    ensures !WriteAll(PlainEnv(), FirstPage(PlainMode()), seg.tokens).over ==> IsRunning([Piece(line, false)])
  {
    hide Reads, WriteAll, IsRunning, SegmentsOf, PageOf, ReadsStream, Remaining, StartsWith;
    Begin(s);
    seg := NextSegment(s, [], s, line, more);
    assert [] + [Piece(line, false)] == [Piece(line, false)] && [] + [seg] == [seg];
  }

  const OPEN := Simple(OpenMark, ['/', '*'], false)
  const CLOSE := Simple(CloseMark, ['*', '/'], false)
  const PAIR := Simple(Pair, ['\\', 'N'], false)

  predicate CommentAt(s: seq<char>, i: nat) {
    i + 4 <= |s| && s[i] == '/' && s[i + 1] == '*' && s[i + 2] == '*' && s[i + 3] == '/'
  }

  lemma OpenStands(p: Page, s: seq<char>, i: nat, e: Ending)
    requires Plainly(p) && p.text != [] && CommentAt(s, i)
    ensures CanRead(PlainEnv(), p, OPEN, s, i, e)
  {
    assert s[i..i + 2] == [s[i], s[i + 1]];
    assert s[i..i + 1] == [s[i]] != ";";
  }

  lemma CloseStands(p: Page, s: seq<char>, i: nat, e: Ending)
    requires p.inComment && p.quote == NUL && !p.server && !p.over && p.text != [] && CommentAt(s, i)
    ensures CanRead(PlainEnv(), p, CLOSE, s, i + 2, e)
  {
    assert s[i + 2..i + 4] == [s[i + 2], s[i + 3]];
  }

  lemma PairStands(p: Page, s: seq<char>, i: nat, e: Ending)
    requires Outside(p) && !p.over && !p.server && p.text != [] && i + 2 == |s| && s[i] == '\\' && s[i + 1] == 'N'
    ensures CanRead(PlainEnv(), p, PAIR, s, i, e)
  {
    assert s[i..i + 2] == ['\\', 'N'];
  }

  lemma CommentWritten(p: Page)
    requires Plainly(p) && p.text != []
    ensures var p1 := Write(PlainEnv(), p, OPEN);
      && p1.inComment && p1.quote == NUL && !p1.server && !p1.over && p1.text == p.text
      && var q := Write(PlainEnv(), p1, CLOSE);
         q.text == p.text && q.origin == p.origin && q.torn && Outside(q) && !q.over && !q.server
  {
  }

  lemma CommentRead(p: Page, ts: seq<Token>, s: seq<char>, i: nat, e: Ending) returns (q: Page, us: seq<Token>)
    requires Plainly(p) && p.text != [] && CommentAt(s, i) && Reads(PlainEnv(), p, ts, s, i, e)
    ensures q.text == p.text && q.origin == p.origin && q.torn && Outside(q) && !q.over && !q.server
    ensures Reads(PlainEnv(), q, us, s, i + 4, e)
    ensures Tripped(PlainEnv(), q, us) ==> Tripped(PlainEnv(), p, ts)
  {
    hide Reads, CanRead, Write, Tripped, Trips, WriteAll, PlainEnv;
    var p1 := Write(PlainEnv(), p, OPEN);
    q := Write(PlainEnv(), p1, CLOSE);
    CommentWritten(p);
    OpenStands(p, s, i, e);
    NextToken(p, ts, s, i, e, OPEN, p1);
    CloseStands(p1, s, i, e);
    NextToken(p1, ts[1..], s, i + 2, e, CLOSE, q);
    us := ts[1..][1..];
  }

  lemma PairTrips(p: Page)
    requires p.text != [] && |p.origin| == |p.text| && p.torn && p.origin[|p.origin| - 1].Input?
    requires p.text[|p.text| - 1] != ' ' && p.text[|p.text| - 1] != '\n'
    ensures Trips(PlainEnv(), p, PAIR)
  {
  }

  lemma PairBehindCommentTrips(line: seq<char>, ts: seq<Token>, e: Ending)
    requires line == ['a', '/', '*', '*', '/', '\\', 'N'] && Reads(PlainEnv(), FirstPage(PlainMode()), ts, line, 0, e)
    ensures Tripped(PlainEnv(), FirstPage(PlainMode()), ts)
  {
    hide Reads, CanRead, Write, Tripped, Trips, WriteAll, PlainEnv;
    FirstIsPlain();
    var p1, us1 := LettersRead(FirstPage(PlainMode()), ts, line, 0, 1, e);
    assert p1.text == [] + line[0..1] == ['a'];
    var p2, us2 := CommentRead(p1, us1, line, 1, e);
    PairStands(p2, line, 5, e);
    NextToken(p2, us2, line, 5, e, PAIR, Write(PlainEnv(), p2, PAIR));
    PairTrips(p2);
  }

  /** A backslash pair right behind a comment gets no space. */
  lemma PairBehindComment()
    ensures IsJoined(['a', '/', '*', '*', '/', '\\', 'N', '\n'])
  {
    hide Tripped, IsJoined;
    var line := ['a', '/', '*', '*', '/', '\\', 'N'];
    var s := ['a', '/', '*', '*', '/', '\\', 'N', '\n'];
    assert s == (line + [LF]) + [];
    var seg := FirstSegment(s, line, []);
    PairBehindCommentTrips(line, seg.tokens, Whole([LF]));
    OneLineJoins(s, line, seg);
  }

  /** The one-character command \p and its arguments. */
  function PrintToken(args: seq<char>): Token {
    Token(Command, ['\\', 'p'], args, false)
  }

  lemma CommandStands(p: Page, s: seq<char>, i: nat, e: Ending)
    requires Plainly(p) && p.text != [] && i + 2 <= |s| && s[i] == '\\' && s[i + 1] == 'p'
    ensures CanRead(PlainEnv(), p, PrintToken(s[i..]), s, i, e)
  {
    assert s[i..i + 2] == ['\\', 'p'];
  }

  lemma CommandWritten(p: Page, args: seq<char>)
    requires Plainly(p)
    ensures var q := Write(PlainEnv(), p, PrintToken(args));
      q.text == p.text && q.origin == p.origin && q.torn && Plainly(q)
  {
    var sent := p.sent + [S.ShortCommand('p', args, p.text)];
    assert sent[|sent| - 1] == S.ShortCommand('p', args, p.text);
  }

  lemma LetterTrips(p: Page, c: char)
    requires p.text != [] && |p.origin| == |p.text| && p.torn && p.origin[|p.origin| - 1].Input? && !p.due
    requires p.text[|p.text| - 1] != ' ' && p.text[|p.text| - 1] != '\n' && c != ' ' && c != '\n'
    ensures Trips(PlainEnv(), p, TakeToken(c))
  {
  }

  lemma CommandRead(p: Page, ts: seq<Token>, s: seq<char>, i: nat, e: Ending) returns (q: Page, us: seq<Token>)
    requires Plainly(p) && p.text != [] && i + 2 <= |s| && s[i] == '\\' && s[i + 1] == 'p'
    requires Reads(PlainEnv(), p, ts, s, i, e)
    ensures q.text == p.text && q.origin == p.origin && q.torn && Plainly(q)
    ensures Reads(PlainEnv(), q, us, s, i + 2, e)
    ensures Tripped(PlainEnv(), q, us) ==> Tripped(PlainEnv(), p, ts)
  {
    hide Reads, CanRead, Write, Tripped, Trips, WriteAll, PlainEnv;
    var t := PrintToken(s[i..]);
    q := Write(PlainEnv(), p, t);
    CommandStands(p, s, i, e);
    CommandWritten(p, s[i..]);
    NextToken(p, ts, s, i, e, t, q);
    us := ts[1..];
  }

  /** A letter right behind something left out. */
  lemma LetterReadTrips(p: Page, ts: seq<Token>, s: seq<char>, i: nat, e: Ending)
    requires Plainly(p) && p.text != [] && i < |s| && Letter(s[i]) && Reads(PlainEnv(), p, ts, s, i, e)
    requires p.torn && p.origin[|p.origin| - 1].Input?
    requires p.text[|p.text| - 1] != ' ' && p.text[|p.text| - 1] != '\n' && s[i] != ' ' && s[i] != '\n'
    ensures Tripped(PlainEnv(), p, ts)
  {
    hide Reads, CanRead, Write, Tripped, Trips, WriteAll, PlainEnv, Letter;
    LetterStands(p, s, i, e);
    LetterTrips(p, s[i]);
    NextToken(p, ts, s, i, e, TakeToken(s[i]), Write(PlainEnv(), p, TakeToken(s[i])));
  }

  lemma CommandInsideTrips(line: seq<char>, ts: seq<Token>, e: Ending)
    requires line == ['a', '\\', 'p', 'b'] && Reads(PlainEnv(), FirstPage(PlainMode()), ts, line, 0, e)
    ensures Tripped(PlainEnv(), FirstPage(PlainMode()), ts)
  {
    hide Reads, CanRead, Write, Tripped, Trips, WriteAll, PlainEnv;
    FirstIsPlain();
    var p1, us1 := LettersRead(FirstPage(PlainMode()), ts, line, 0, 1, e);
    assert p1.text == [] + line[0..1] == ['a'];
    var p2, us2 := CommandRead(p1, us1, line, 1, e);
    LetterReadTrips(p2, us2, line, 3, e);
  }

  /** A command that leaves the text alone is left out without a space. */
  lemma CommandInside()
    ensures IsJoined(['a', '\\', 'p', 'b', '\n'])
  {
    hide Tripped, IsJoined;
    var line, s := ['a', '\\', 'p', 'b'], ['a', '\\', 'p', 'b', '\n'];
    assert s == (line + [LF]) + [];
    var seg := FirstSegment(s, line, []);
    CommandInsideTrips(line, seg.tokens, Whole([LF]));
    OneLineJoins(s, line, seg);
  }

  // ---------------------------------------------------------------- a line that ends in a DELIMITER command

  function SemicolonToken(): Token {
    Simple(Separator, [';'], false)
  }

  lemma SemicolonStands(p: Page, s: seq<char>, i: nat, e: Ending)
    requires Plainly(p) && i < |s| && s[i] == ';'
    ensures CanRead(PlainEnv(), p, SemicolonToken(), s, i, e)
  {
    assert s[i..i + 1] == ";";
    assert S.StatementEnd(PlainEnv(), s, i, ";") == i + 1;
  }

  lemma SemicolonWritten(p: Page)
    requires Plainly(p)
    ensures var q := Write(PlainEnv(), p, SemicolonToken()); Plainly(q) && q.text == [] && q.mark == 0
  {
  }

  /** Its line end is left out. */
  lemma DelimiterEnds(p: Page, s: seq<char>)
    requires Plainly(p) && p.mark == 0 && |p.text| >= 9 && p.text[..9] == "delimiter"
    ensures CanRead(PlainEnv(), p, Simple(LineEnd, [LF], false), s, |s|, Whole([LF]))
    ensures var q := Write(PlainEnv(), p, Simple(LineEnd, [LF], false));
      Plainly(q) && q.text == p.text && q.origin == p.origin && q.torn
  {
    assert p.text[0..] == p.text;
  }

  lemma SemicolonRead(p: Page, ts: seq<Token>, s: seq<char>, i: nat, e: Ending) returns (q: Page, us: seq<Token>)
    requires Plainly(p) && i < |s| && s[i] == ';' && Reads(PlainEnv(), p, ts, s, i, e)
    ensures Plainly(q) && q.text == [] && q.mark == 0 && Reads(PlainEnv(), q, us, s, i + 1, e)
    ensures WriteAll(PlainEnv(), p, ts) == WriteAll(PlainEnv(), q, us)
  {
    hide Reads, CanRead, Write, Tripped, Trips, WriteAll, PlainEnv;
    q := Write(PlainEnv(), p, SemicolonToken());
    SemicolonStands(p, s, i, e);
    SemicolonWritten(p);
    NextToken(p, ts, s, i, e, SemicolonToken(), q);
    us := ts[1..];
  }

  lemma DelimiterEndRead(p: Page, ts: seq<Token>, s: seq<char>) returns (q: Page)
    requires Plainly(p) && p.mark == 0 && |p.text| >= 9 && p.text[..9] == "delimiter"
    requires Reads(PlainEnv(), p, ts, s, |s|, Whole([LF]))
    ensures q == WriteAll(PlainEnv(), p, ts) && Plainly(q) && q.text == p.text && q.origin == p.origin && q.torn
  {
    hide Reads, CanRead, Write, Tripped, Trips, WriteAll, PlainEnv;
    var t := Simple(LineEnd, [LF], false);
    DelimiterEnds(p, s);
    q := Write(PlainEnv(), p, t);
    NextToken(p, ts, s, |s|, Whole([LF]), t, q);
    NothingMore(q, ts);
  }

  lemma DelimiterLetters(line: seq<char>)
    requires line == "x;delimiter f"
    ensures Letter(line[0]) && line[0] != ' ' && line[0] != '\n' && line[2] != ' ' && line[2] != '\n'
    ensures forall k :: 2 <= k < 13 ==> Letter(line[k])
    ensures line[2..13] == "delimiter f" && line[2..13][..9] == "delimiter"
  {
  }

  /** The page after the first line. */
  lemma DelimiterLineRead(line: seq<char>, ts: seq<Token>) returns (q: Page)
    requires line == "x;delimiter f" && Reads(PlainEnv(), FirstPage(PlainMode()), ts, line, 0, Whole([LF]))
    ensures q == WriteAll(PlainEnv(), FirstPage(PlainMode()), ts)
    ensures Plainly(q) && q.text == "delimiter f" && q.torn && q.origin[|q.origin| - 1].Input?
  {
    hide Reads, CanRead, Write, Tripped, Trips, WriteAll, PlainEnv, Plainly, Letter;
    var e := Whole([LF]);
    FirstIsPlain();
    DelimiterLetters(line);
    var p1, us1 := LettersRead(FirstPage(PlainMode()), ts, line, 0, 1, e);
    var p2, us2 := SemicolonRead(p1, us1, line, 1, e);
    var p3, us3 := LettersRead(p2, us2, line, 2, 13, e);
    assert p3.text == [] + line[2..13] == line[2..13];
    q := DelimiterEndRead(p3, us3, line);
  }

  lemma NothingMore(q: Page, us: seq<Token>)
    requires |us| == 1
    ensures WriteAll(PlainEnv(), q, us[1..]) == q
  {
    assert us[1..] == [];
  }

  lemma TwoLinesDelivered(s: seq<char>, a: seq<char>, b: seq<char>)
    requires StartsWith(s, a, b + [LF]) && StartsWith(b + [LF], b, []) && |a| < 100 && |b| < 100
    ensures WholeLines(s, false) == [Piece(a, false), Piece(b, false)]
    ensures DeliversUpTo(s, [Piece(a, false)], b + [LF], 0, 100, false)
    ensures Delivers(s, [Piece(a, false), Piece(b, false)], 0, 100, false)
  {
    hide StartsWith, DeliversNext;
    LineDelivered(s, a, b + [LF]);
    LineDelivered(b + [LF], b, []);
    DeliverOne(s, Piece(a, false), 0, 100, false);
    DeliverOneMore(s, [Piece(a, false)], b + [LF], Piece(b, false), 0, 100, false);
    assert [Piece(a, false)] + [Piece(b, false)] == [Piece(a, false), Piece(b, false)];
    assert WholeLines([], false) == [];
  }

  /** If the tokens of the second of two lines trip, something is joined. */
  lemma TwoLinesJoin(s: seq<char>, a: seq<char>, b: seq<char>, first: Segment, second: Segment, q: Page)
    requires StartsWith(s, a, b + [LF]) && StartsWith(b + [LF], b, []) && |a| < 100 && |b| < 100
    requires SegmentsOf(s, [Piece(a, false), Piece(b, false)]) == [first, second]
    requires q == WriteAll(PlainEnv(), FirstPage(PlainMode()), first.tokens)
    requires Tripped(PlainEnv(), q, second.tokens)
    ensures IsJoined(s)
  {
    hide Tripped, PageJoined, FileSegments, WriteAll, StartsWith, DeliversUpTo;
    TwoLinesDelivered(s, a, b);
    assert [first, second][..1] == [first] && [first][..0] == [];
    assert PageAfter(PlainEnv(), FirstPage(PlainMode()), [first]) == q;
    assert TrippedAll(PlainEnv(), FirstPage(PlainMode()), [first, second]);
    JoinedWhereTripped(PlainSession(), PlainMode(), s, [Piece(a, false), Piece(b, false)], [], 0, 100, false);
  }

  lemma SecondSegment(s: seq<char>, a: seq<char>, b: seq<char>, first: Segment) returns (second: Segment)
    requires StartsWith(s, a, b + [LF]) && StartsWith(b + [LF], b, []) && |a| < 100 && |b| < 100
    requires SegmentsOf(s, [Piece(a, false)]) == [first] && IsRunning([Piece(a, false)])
    ensures SegmentsOf(s, [Piece(a, false), Piece(b, false)]) == [first, second]
    ensures Reads(PlainEnv(), WriteAll(PlainEnv(), FirstPage(PlainMode()), first.tokens), second.tokens, b, 0,
                  Whole([LF]))
  {
    hide FileSegments, WriteAll, StartsWith, DeliversUpTo, ReadsStream, Remaining, Reads, IsRunning;
    var front, mid := [Piece(a, false)], b + [LF];
    TwoLinesDelivered(s, a, b);
    FileIsTokens(PlainSession(), PlainMode(), s, front, mid, 0, 100, false);
    RemainingIs(s, front, mid, 0, 100, false);
    second := NextSegment(s, front, mid, b, []);
    assert front + [Piece(b, false)] == [Piece(a, false), Piece(b, false)];
    assert [first] + [second] == [first, second] && [first][..0] == [];
    assert PageAfter(PlainEnv(), FirstPage(PlainMode()), []) == FirstPage(PlainMode());
    assert PageOf(s, front) == PageAfter(PlainEnv(), FirstPage(PlainMode()), [first]);
  }

  lemma DelimiterStarts()
    ensures StartsWith("x;delimiter f\nbar\n", "x;delimiter f", "bar" + [LF])
    ensures StartsWith("bar" + [LF], "bar", [])
  {
    assert "bar" + [LF] == ("bar" + [LF]) + [];
    assert "x;delimiter f\nbar\n" == ("x;delimiter f" + [LF]) + ("bar" + [LF]);
  }

  /** A line that ends in what could be a DELIMITER command is joined to the next one. */
  lemma DelimiterLine()
    ensures IsJoined("x;delimiter f\nbar\n")
  {
    hide Tripped, IsJoined, Reads, WriteAll, IsRunning, SegmentsOf, StartsWith;
    var a, b, s := "x;delimiter f", "bar", "x;delimiter f\nbar\n";
    DelimiterStarts();
    var first := FirstSegment(s, a, b + [LF]);
    var q := DelimiterLineRead(a, first.tokens);
    var second := SecondSegment(s, a, b, first);
    LetterReadTrips(q, second.tokens, b, 0, Whole([LF]));
    TwoLinesJoin(s, a, b, first, second, q);
  }
}
