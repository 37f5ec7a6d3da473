/**
  read_and_execute in batch mode: the line reader and the splitter share one buffer, the
  splitter rewriting each line where the reader left it. What reaches the server depends
  only on the content of the file.
 */
module Batch {
  import opened Shared
  import opened Lines
  import opened LineReader
  import S = Scanner
  import AddLine

  /** What decides whether a whole line is a client command, and what ends a statement. */
  datatype Session = Session(
    env: S.Env,
    namedCommands: bool,
    isLineCommand: (seq<char>, S.Mode) -> bool,
    isGraph: char -> bool)

  datatype Status = Running | AtEnd | Stopped

  datatype State = State(carry: S.Carry, firstLine: bool, status: Status)

  const BOM: seq<char> := [0xEF as char, 0xBB as char, 0xBF as char]

  function SkipBom(text: seq<char>, firstLine: bool): seq<char> {
    if firstLine && |text| >= 3 && text[0] == BOM[0] && text[1] == BOM[1] && text[2] == BOM[2]
    then text[3..] else text
  }

  predicate TriesLineCommand(ses: Session, c: S.Carry, line: seq<char>) {
    && (ses.namedCommands || c.text == []) && !c.inComment && c.quote == NUL
    && ses.isLineCommand(line, c.mode)
  }

  function RunLineCommand(ses: Session, c: S.Carry, line: seq<char>): S.Carry {
    var sent := c.sent + [S.LineCommand(line, c.text)];
    var r := ses.env.reply(sent);
    S.Carry(r.buffer, c.quote, c.inComment, r.mode, sent, r.quit)
  }

  /** A line is a client command, or text for the splitter. */
  function NextCarry(ses: Session, c: S.Carry, line: seq<char>, truncated: bool): S.Carry {
    if TriesLineCommand(ses, c, line) then RunLineCommand(ses, c, line)
    else S.ScanLine(ses.env, c, line, truncated)
  }

  /** One line (or piece of a line) of the input. */
  function TakePiece(ses: Session, st: State, p: Piece): State {
    if NUL in p.text then State(st.carry, st.firstLine, Stopped)
    else
      var line := SkipBom(p.text, st.firstLine);
      var c := NextCarry(ses, st.carry, line, p.truncated);
      if c.quit then State(c.(quit := false), false, Stopped) else State(c, false, Running)
  }

  function TakePieces(ses: Session, st: State, pieces: seq<Piece>): State {
    if pieces == [] then st
    else
      var st1 := TakePieces(ses, st, pieces[..|pieces| - 1]);
      if st1.status == Running then TakePiece(ses, st1, pieces[|pieces| - 1]) else st1
  }

  /** The length left when trailing characters that are not graphic are removed. */
  function TrimmedLength(ses: Session, text: seq<char>): (n: nat)
    ensures n <= |text|
    ensures n > 0 ==> ses.isGraph(text[n - 1])
  {
    if text == [] || ses.isGraph(text[|text| - 1]) then |text|
    else TrimmedLength(ses, text[..|text| - 1])
  }

  /** At the end of the file the last statement is sent even without a delimiter. */
  function SendLast(ses: Session, c: S.Carry): seq<S.Event> {
    var text := c.text[..TrimmedLength(ses, c.text)];
    if text == [] then c.sent else c.sent + [S.Statement(text)]
  }

  /** Everything the client sends for a file delivered in these pieces. */
  function Sent(ses: Session, m: S.Mode, pieces: seq<Piece>): seq<S.Event> {
    var st := TakePieces(ses, FirstState(m), pieces);
    if st.status == Running then SendLast(ses, st.carry) else st.carry.sent
  }

  /** strlen of a line that has a terminator. */
  method Strlen(a: array<char>, line: nat, n: nat) returns (k: nat)
    requires line + n < a.Length && a[line + n] == NUL
    ensures k <= n && a[line + k] == NUL && NUL !in a[line..line + k]
  {
    k := 0;
    while a[line + k] != NUL
      invariant k <= n && NUL !in a[line..line + k]
      decreases n - k
    {
      assert a[line..line + k + 1] == a[line..line + k] + [a[line + k]];
      k := k + 1;
    }
  }

  lemma TakeMarked(ses: Session, st: State, text: seq<char>, truncated: bool)
    requires st.firstLine && !(BOM <= text)
    ensures TakePiece(ses, st, Piece(BOM + text, truncated)) == TakePiece(ses, st, Piece(text, truncated))
  {
    assert NUL in BOM + text <==> NUL in text;
    assert (BOM + text)[3..] == text;
    assert SkipBom(text, true) == text by {
      if |text| >= 3 { assert text[..3] == [text[0], text[1], text[2]]; }
    }
  }

  lemma {:induction false} TakeMarkedFirst(ses: Session, st: State, text: seq<char>, truncated: bool, more: seq<Piece>)
    requires st.firstLine && st.status == Running && !(BOM <= text)
    ensures TakePieces(ses, st, [Piece(BOM + text, truncated)] + more) ==
        TakePieces(ses, st, [Piece(text, truncated)] + more)
    decreases |more|
  {
    hide TakePiece;
    var marked, plain := [Piece(BOM + text, truncated)], [Piece(text, truncated)];
    if more == [] {
      TakeMarked(ses, st, text, truncated);
      assert marked + more == marked && plain + more == plain && marked[..0] == plain[..0] == [];
    } else {
      var n := |more| - 1;
      TakeMarkedFirst(ses, st, text, truncated, more[..n]);
      assert (marked + more)[..n + 1] == marked + more[..n] && (plain + more)[..n + 1] == plain + more[..n];
    }
  }

  /** A byte order mark at the start of the input changes nothing that is sent. */
  lemma BomIsPassedOver(ses: Session, m: S.Mode, text: seq<char>, truncated: bool, more: seq<Piece>)
    requires !(BOM <= text)
    ensures Sent(ses, m, [Piece(BOM + text, truncated)] + more) == Sent(ses, m, [Piece(text, truncated)] + more)
  {
    TakeMarkedFirst(ses, FirstState(m), text, truncated, more);
  }

  /** A byte order mark at the start of the file is passed over. */
  method BomLength(a: array<char>, line: nat, n: nat, firstLine: bool) returns (k: nat)
    requires line + n < a.Length && a[line + n] == NUL
    ensures k <= n && a[line + k..line + n] == SkipBom(a[line..line + n], firstLine)
  {
    ghost var text := a[line..line + n];
    if firstLine && a[line] == BOM[0] && a[line + 1] == BOM[1] && a[line + 2] == BOM[2] {
      k := 3;
    } else {
      k := 0;
    }
  }

  /** The splitter is where taking the piece leads. */
  ghost predicate Took(ses: Session, st: State, p: Piece, sp: AddLine.Splitter, go: bool)
    reads sp
  {
    var st1 := TakePiece(ses, st, p);
    if go then st1 == State(sp.Between(), false, Running)
    else st1.status == Stopped && st1.carry.sent == sp.sent
  }

  /** Nothing but the line and its terminator has changed. */
  twostate predicate OnlyLine(a: array<char>, line: nat, n: nat)
    reads a
  {
    forall k :: 0 <= k < a.Length && (k < line || line + n < k) ==> a[k] == old(a[k])
  }

  /** Look for NUL characters and a byte order mark. */
  method Inspect(a: array<char>, line: nat, n: nat, firstLine: bool)
    returns (clean: bool, bom: nat, content: seq<char>)
    requires line + n < a.Length && a[line + n] == NUL
    ensures clean <==> NUL !in a[line..line + n]
    ensures clean ==> bom <= n && content == a[line + bom..line + n] == SkipBom(a[line..line + n], firstLine)
  {
    ghost var text := a[line..line + n];
    var len := Strlen(a, line, n);
    bom, content := 0, [];
    clean := len == n;
    if clean {
      bom := BomLength(a, line, n, firstLine);
      content := a[line + bom..line + n];
    } else {
      assert text[len] == NUL;
    }
  }

  /** Run the line as a command or give it to the splitter. */
  method Dispatch(a: array<char>, line: nat, n: nat, truncated: bool, sp: AddLine.Splitter, ses: Session,
                  content: seq<char>)
    returns (quit: bool)
    requires line + n < a.Length && a[line + n] == NUL && content == a[line..line + n] && NUL !in content
    requires sp.env == ses.env && S.ValidEnv(ses.env)
    modifies sp, a
    ensures OnlyLine(a, line, n)
    ensures sp.Between().(quit := quit) == NextCarry(ses, old(sp.Between()), content, truncated)
  {
    if (ses.namedCommands || sp.buffer == []) && !sp.mlComment && sp.inString == NUL
       && ses.isLineCommand(content, sp.mode)
    {
      quit := sp.RunCommand(content);
    } else {
      quit := sp.AddLine(a, line, n, truncated);
    }
  }

  /** One turn of the loop, once the reader has handed out the line p. */
  method HandleLine(a: array<char>, line: nat, n: nat, truncated: bool, sp: AddLine.Splitter, ses: Session,
                    firstLine: bool, ghost st: State)
    returns (go: bool)
    requires line + n < a.Length && a[line + n] == NUL
    requires sp.env == ses.env && S.ValidEnv(ses.env) && st == State(sp.Between(), firstLine, Running)
    modifies sp, a
    ensures OnlyLine(a, line, n)
    ensures Took(ses, st, Piece(old(a[line..line + n]), truncated), sp, go)
  {
    ghost var p := Piece(a[line..line + n], truncated);
    var clean, bom, content := Inspect(a, line, n, firstLine);
    if clean {
      NoNulInSuffix(p.text, bom);
      assert content == p.text[bom..];
      var quit := Dispatch(a, line + bom, n - bom, truncated, sp, ses, content);
      go := !quit;
      PieceTaken(ses, st.carry, firstLine, p, sp.Between(), quit);
    } else {
      go := false;
    }
  }

  /** Taking a clean piece leads to the carry that its text leads to. */
  lemma PieceTaken(ses: Session, carry: S.Carry, firstLine: bool, p: Piece, after: S.Carry, quit: bool)
    requires NUL !in p.text && !after.quit
    requires after.(quit := quit) == NextCarry(ses, carry, SkipBom(p.text, firstLine), p.truncated)
    ensures TakePiece(ses, State(carry, firstLine, Running), p) ==
        State(after, false, if quit then Stopped else Running)
  {
  }

  lemma NoNulInSuffix(text: seq<char>, k: nat)
    requires k <= |text| && NUL !in text
    ensures NUL !in text[k..]
  {
  }

  // ---------------------------------------------------------------- the loop

  function FirstState(m: S.Mode): State {
    State(S.Carry([], NUL, false, m, [], false), true, Running)
  }

  lemma TakeOneMore(ses: Session, st: State, pieces: seq<Piece>, p: Piece)
    ensures TakePieces(ses, st, pieces + [p])
            == var st1 := TakePieces(ses, st, pieces);
               if st1.status == Running then TakePiece(ses, st1, p) else st1
  {
    assert (pieces + [p])[..|pieces|] == pieces;
  }

  /** The splitter has taken the pieces read so far and goes on. */
  ghost predicate Following(ses: Session, m: S.Mode, pieces: seq<Piece>, sp: AddLine.Splitter, firstLine: bool)
    reads sp
  {
    TakePieces(ses, FirstState(m), pieces) == State(sp.Between(), firstLine, Running)
  }

  /** The splitter has taken the pieces and stopped. */
  ghost predicate HasStopped(ses: Session, m: S.Mode, pieces: seq<Piece>, sp: AddLine.Splitter)
    reads sp
  {
    var st := TakePieces(ses, FirstState(m), pieces);
    st.status == Stopped && st.carry.sent == sp.sent
  }

  /** Handle the line where the reader left it; the reader does not mind the changes. */
  method HandleLent(lb: LineBuffer, sp: AddLine.Splitter, ses: Session, firstLine: bool, ghost p: Piece,
      ghost st: State)
    returns (go: bool)
    requires lb.Lent() && p == Piece(lb.Text(), lb.truncated)
    requires sp.env == ses.env && S.ValidEnv(ses.env) && st == State(sp.Between(), firstLine, Running)
    modifies sp, lb.buffer, lb`held
    ensures lb.Valid() && lb.Pending() == old(lb.Pending())
    ensures Took(ses, st, p, sp, go)
  {
    var a, line, n := lb.buffer, lb.startOfLine, lb.readLength;
    go := HandleLine(a, line, n, lb.truncated, sp, ses, firstLine, st);
    lb.TakeBack();
  }

  /** Handle the piece just read. */
  method Follow(lb: LineBuffer, sp: AddLine.Splitter, ses: Session, firstLine: bool,
                ghost m: S.Mode, ghost pieces: seq<Piece>) returns (go: bool)
    requires lb.Lent() && sp.env == ses.env && S.ValidEnv(ses.env)
    requires Following(ses, m, pieces, sp, firstLine)
    modifies sp, lb.buffer, lb`held
    ensures lb.Valid() && lb.Pending() == old(lb.Pending())
    ensures var pieces' := pieces + [Piece(old(lb.Text()), lb.truncated)];
      if go then Following(ses, m, pieces', sp, false) else HasStopped(ses, m, pieces', sp)
  {
    ghost var piece, st := Piece(lb.Text(), lb.truncated), State(sp.Between(), firstLine, Running);
    go := HandleLent(lb, sp, ses, firstLine, piece, st);
    TakeOneMore(ses, FirstState(m), pieces, piece);
  }

  /** remove_cntrl, and the last statement if anything is left of it. */
  method Finish(sp: AddLine.Splitter, ses: Session)
    modifies sp
    ensures sp.sent == SendLast(ses, old(sp.Between()))
  {
    var n: nat := |sp.buffer|;
    assert sp.buffer[..n] == sp.buffer;
    while n > 0 && !ses.isGraph(sp.buffer[n - 1])
      invariant n <= |sp.buffer|
      invariant TrimmedLength(ses, sp.buffer) == TrimmedLength(ses, sp.buffer[..n])
    {
      assert sp.buffer[..n][..n - 1] == sp.buffer[..n - 1];
      n := n - 1;
    }
    sp.buffer := sp.buffer[..n];
    if sp.buffer != [] {
      sp.sent := sp.sent + [S.Statement(sp.buffer)];
    }
  }

  /** Once stopped, further pieces make no difference. */
  lemma {:induction false} StoppedStays(ses: Session, st: State, pieces: seq<Piece>, more: seq<Piece>)
    requires TakePieces(ses, st, pieces).status != Running
    ensures TakePieces(ses, st, pieces + more) == TakePieces(ses, st, pieces)
    decreases |more|
  {
    if more == [] {
      assert pieces + more == pieces;
    } else {
      var front, p := more[..|more| - 1], more[|more| - 1];
      StoppedStays(ses, st, pieces, front);
      TakeOneMore(ses, st, pieces + front, p);
      assert pieces + more == (pieces + front) + [p];
    }
  }

  /** The client has read the stream up to rest; it read on unless it stopped. */
  ghost predicate ReadUpTo(ses: Session, m: S.Mode, s: seq<char>, pieces: seq<Piece>, rest: seq<char>,
                           safe: nat, capacity: nat, keepCr: bool)
  {
    && DeliversUpTo(s, pieces, rest, safe, capacity, keepCr)
    && (TakePieces(ses, FirstState(m), pieces).status == Running ==> rest == [])
  }

  /** When every line fits, what is sent is determined by the lines of the stream. */
  lemma SentForLines(ses: Session, m: S.Mode, s: seq<char>, pieces: seq<Piece>, rest: seq<char>,
                     safe: nat, capacity: nat, keepCr: bool)
    requires ReadUpTo(ses, m, s, pieces, rest, safe, capacity, keepCr) && AllLinesWithin(s, safe)
    ensures Sent(ses, m, pieces) == Sent(ses, m, WholeLines(s, keepCr))
  {
    ShortLinesDeliverOneWay(s, pieces, rest, safe, capacity, keepCr);
    if TakePieces(ses, FirstState(m), pieces).status == Running {
      assert pieces + [] == pieces;
    } else {
      StoppedStays(ses, FirstState(m), pieces, WholeLines(rest, keepCr));
    }
  }

  /** The same for a string, whose lines always fit. */
  lemma SentForStream(ses: Session, m: S.Mode, s: seq<char>, pieces: seq<Piece>, rest: seq<char>,
                      safe: nat, capacity: nat, keepCr: bool)
    requires ReadUpTo(ses, m, s, pieces, rest, safe, capacity, keepCr)
    ensures |s| <= safe || AllLinesWithin(s, safe) ==> Sent(ses, m, pieces) == Sent(ses, m, WholeLines(s, keepCr))
  {
    if |s| <= safe { LinesWithinStream(s, safe); }
    if AllLinesWithin(s, safe) { SentForLines(ses, m, s, pieces, rest, safe, capacity, keepCr); }
  }

  /** Reader and splitter are in step after these pieces of s. */
  ghost predicate InStep(lb: LineBuffer, sp: AddLine.Splitter, ses: Session, m: S.Mode,
                         s: seq<char>, pieces: seq<Piece>, firstLine: bool)
    reads lb, lb.buffer, lb.file, sp
  {
    Delivering(lb, s, pieces, false) && Following(ses, m, pieces, sp, firstLine)
  }

  datatype Turned = Go | EndOfInput | Halt

  /** One turn of the loop: read a line and let the client act on it. */
  method Turn(lb: LineBuffer, sp: AddLine.Splitter, ses: Session, firstLine: bool,
              ghost m: S.Mode, ghost s: seq<char>, pieces: seq<Piece>)
    returns (t: Turned, pieces': seq<Piece>)
    requires InStep(lb, sp, ses, m, s, pieces, firstLine)
    requires sp.env == ses.env && S.ValidEnv(ses.env)
    modifies lb, lb.buffer, lb.file, sp
    ensures lb.buffer == old(lb.buffer) || fresh(lb.buffer)
    ensures t.Go? ==> InStep(lb, sp, ses, m, s, pieces', false) && |lb.Pending()| < |old(lb.Pending())|
    ensures t.EndOfInput? ==> pieces' == pieces && Following(ses, m, pieces, sp, firstLine)
    ensures t.EndOfInput? && !lb.error ==> Delivers(s, pieces, lb.Safe(|s|), lb.Most(|s|), lb.ofString)
    ensures t.Halt? ==> Delivering(lb, s, pieces', false) && HasStopped(ses, m, pieces', sp)
  {
    var ok;
    ok, pieces' := ReadOn(lb, false, s, pieces, false, []);
    if !ok { return EndOfInput, pieces'; }
    var go := Follow(lb, sp, ses, firstLine, m, pieces);
    t := if go then Go else Halt;
  }

  /**
    read_and_execute on a file or on the strings of -e options. Whatever the sizes of the
    reads, and although the splitter overwrites the reader's buffer, what is sent is what
    the specification says of the pieces read; and of the lines, when they all fit, as those
    of a string do.
   */
  method ReadAndExecute(lb: LineBuffer, sp: AddLine.Splitter, ses: Session, ghost m: S.Mode)
    returns (ghost pieces: seq<Piece>, ghost rest: seq<char>)
    requires lb.Serving()
    requires sp.env == ses.env && S.ValidEnv(ses.env) && sp.Between() == FirstState(m).carry
    modifies lb, lb.buffer, lb.file, sp
    ensures var s := old(lb.Pending()); !lb.error ==>
      && ReadUpTo(ses, m, s, pieces, rest, lb.Safe(|s|), lb.Most(|s|), lb.ofString)
      && sp.sent == Sent(ses, m, pieces)
      && (lb.ofString || AllLinesWithin(s, lb.Safe(|s|)) ==> sp.sent == Sent(ses, m, WholeLines(s, lb.ofString)))
  {
    ghost var s := lb.Pending();
    var firstLine, read, t := true, [], Go;
    while t.Go?
      invariant lb.buffer == old(lb.buffer) || fresh(lb.buffer)
      invariant t.Go? ==> InStep(lb, sp, ses, m, s, read, firstLine)
      invariant t.EndOfInput? ==> Following(ses, m, read, sp, firstLine)
      invariant t.EndOfInput? && !lb.error ==> Delivers(s, read, lb.Safe(|s|), lb.Most(|s|), lb.ofString)
      invariant t.Halt? ==> Delivering(lb, s, read, false) && HasStopped(ses, m, read, sp)
      decreases t.Go?, if t.Go? then |lb.Pending()| else 0
    {
      t, read := Turn(lb, sp, ses, firstLine, m, s, read);
      firstLine := firstLine && !t.Go?;
    }
    pieces, rest := read, [];
    if t.Halt? {
      rest := lb.Pending();
    } else if !lb.error {
      Finish(sp, ses);
    }
    if !lb.error {
      SentForStream(ses, m, s, pieces, rest, lb.Safe(|s|), lb.Most(|s|), lb.ofString);
    }
  }
}
