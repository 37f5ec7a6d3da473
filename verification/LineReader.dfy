/**
  The batch line reader: a buffer that is scanned, shifted, grown and refilled from a
  file whose reads may return any part of what was asked for, or fail.
 */
module LineReader {
  import opened Shared
  import opened Lines

  const IO_SIZE: nat := 4096

  /** The largest buffer reached by doubling size while it stays within the limit. */
  function Capacity(size: nat, maxSize: nat): nat
    requires size > 0
    decreases maxSize - size
  {
    if 2 * size > maxSize then size else Capacity(2 * size, maxSize)
  }

  lemma {:induction false} CapacityBounds(size: nat, maxSize: nat)
    requires size > 0
    ensures size <= Capacity(size, maxSize) && 2 * Capacity(size, maxSize) > maxSize
    ensures Capacity(size, maxSize) <= if size <= maxSize then maxSize else size
    decreases maxSize - size
  {
    if 2 * size <= maxSize {
      CapacityBounds(2 * size, maxSize);
    }
  }

  /** The sizes from size up to the largest one. */
  ghost function Doublings(size: nat, maxSize: nat): seq<nat>
    requires size > 0
    decreases maxSize - size
  {
    if 2 * size > maxSize then [size] else [size] + Doublings(2 * size, maxSize)
  }

  ghost predicate DoubledAt(sizes: seq<nat>, i: nat, maxSize: nat)
    requires i + 1 < |sizes|
  {
    sizes[i + 1] == 2 * sizes[i] && sizes[i + 1] <= maxSize
  }

  /** The sizes a buffer can still take: each twice the one before, up to its capacity. */
  ghost predicate Ladder(sizes: seq<nat>, size: nat, maxSize: nat, capacity: nat) {
    && sizes != [] && sizes[0] == size && sizes[|sizes| - 1] == capacity && 2 * capacity > maxSize
    && (forall i :: 0 <= i < |sizes| ==> sizes[i] <= capacity)
    && (forall i :: 0 <= i < |sizes| - 1 ==> DoubledAt(sizes, i, maxSize))
  }

  lemma {:induction false} DoublingsLadder(size: nat, maxSize: nat)
    requires size > 0
    ensures Ladder(Doublings(size, maxSize), size, maxSize, Capacity(size, maxSize))
    decreases maxSize - size
  {
    if 2 * size <= maxSize {
      DoublingsLadder(2 * size, maxSize);
      var rest, all := Doublings(2 * size, maxSize), Doublings(size, maxSize);
      forall i | 0 <= i < |all| - 1
        ensures DoubledAt(all, i, maxSize)
      {
        if i > 0 { assert DoubledAt(rest, i - 1, maxSize); }
      }
    }
  }

  /** A buffer can double unless it has its capacity. */
  lemma LadderStep(sizes: seq<nat>, size: nat, maxSize: nat, capacity: nat)
    requires Ladder(sizes, size, maxSize, capacity)
    ensures if 2 * size > maxSize then size == capacity
            else 2 * size <= capacity && |sizes| > 1 && Ladder(sizes[1..], 2 * size, maxSize, capacity)
  {
    if |sizes| > 1 {
      assert DoubledAt(sizes, 0, maxSize);
      var rest := sizes[1..];
      forall i | 0 <= i < |rest| - 1
        ensures DoubledAt(rest, i, maxSize)
      {
        assert DoubledAt(sizes, i + 1, maxSize);
      }
    }
  }

  /** How a read that asks for some bytes turns out: with at most so many of them, or with an error. */
  datatype Outcome = Bytes(most: nat) | Failure

  /** How many bytes such a read returns, of those asked for and those left. */
  function ReadSize(plan: seq<Outcome>, asked: nat, left: nat): (k: nat)
    requires asked > 0
    ensures k <= asked && k <= left && (k == 0 ==> left == 0)
  {
    var most := if plan == [] || plan[0] == Failure then asked else if plan[0].most == 0 then 1 else plan[0].most;
    if left <= most && left <= asked then left else if most <= asked then most else asked
  }

  /** An open file: what has not been read from it yet, and how its coming reads turn out. */
  class File {
    var data: seq<char>
    var plan: seq<Outcome>

    constructor (content: seq<char>, plan: seq<Outcome>)
      ensures data == content && this.plan == plan
    {
      data, this.plan := content, plan;
    }

    /** A read of up to n bytes: short reads and failures are up to the file's plan. */
    method Read(n: nat) returns (failed: bool, chunk: seq<char>)
      requires n > 0
      modifies this
      ensures failed <==> old(plan) != [] && old(plan)[0] == Failure
      ensures failed ==> data == old(data) && chunk == []
      ensures !failed ==> |chunk| <= n && chunk + data == old(data)
      ensures !failed && chunk == [] ==> old(data) == []
      ensures !failed ==> |chunk| == ReadSize(old(plan), n, |old(data)|)
      ensures plan == if old(plan) == [] || (!failed && old(data) == []) then old(plan) else old(plan)[1..]
    {
      failed, chunk := plan != [] && plan[0] == Failure, [];
      if !failed {
        var k := ReadSize(plan, n, |data|);
        if data == [] { return; }
        chunk := data[..k];
        data := data[k..];
      }
      if plan != [] { plan := plan[1..]; }
    }
  }

  /** The length batch_readline keeps of a raw line. */
  function StrippedLength(raw: seq<char>, binary: bool): (n: nat)
    ensures n <= |raw|
  {
    var n := |raw|;
    if n > 0 && raw[n - 1] == LF then
      if n > 1 && !binary && raw[n - 2] == CR then n - 2 else n - 1
    else n
  }

  lemma StrippedIsLineText(content: seq<char>, binary: bool)
    requires LF !in content
    ensures StrippedLength(content, binary) == |content|
    ensures var raw := content + [LF];
      raw[..StrippedLength(raw, binary)] == LineText(Line(content, true), binary)
  {
    var raw := content + [LF];
    assert raw[..|content|] == content;
    assert |content| > 0 ==> raw[..|content| - 1] == content[..|content| - 1];
  }

  /**
    What is kept of the raw line at the front of the held bytes is the line's text; when the
    end was seen before the call, CRs are kept.
   */
  lemma StrippedHeldLine(line: Line, held: seq<char>, length: nat, eof: bool, wasEof: bool, binary: bool)
    requires LF !in line.content && |line.content| < |held|
    requires held[..|line.content|] == line.content && held[|line.content|] == LF
    requires length == |line.content| + (if eof then 0 else 1)
    requires eof == (wasEof || !line.terminated)
    ensures var k := StrippedLength(held[..length], binary);
      k <= |line.content| && held[..k] == LineText(line, binary || wasEof)
  {
    StrippedIsLineText(line.content, binary);
    var raw := held[..length];
    var k := StrippedLength(raw, binary);
    if eof {
      assert raw == line.content;
    } else {
      assert raw == line.content + [LF];
      assert held[..k] == raw[..k];
    }
  }

  /** A newline at position n of the held bytes ends the first line of those and the unread ones. */
  lemma FoundLine(p: seq<char>, held: seq<char>, unread: seq<char>, n: nat)
    requires n < |held| && LF !in held[..n] && held[n] == LF && p == held + unread
    ensures LineLength(p) == n < |p| && FirstLine(p) == Line(held[..n], true)
    ensures AfterFirstLine(p) == held[n + 1..] + unread
  {
    assert p[..n] == held[..n] && p[n] == held[n];
    assert p[n + 1..] == held[n + 1..] + unread;
    LineLengthIs(p, n);
  }

  /** When the newline was supplied at the end of the file, the line is everything. */
  lemma SuppliedNewline(p: seq<char>, held: seq<char>, n: nat)
    requires n < |held| && held[n] == LF && held == p + [LF] && LF !in p
    ensures LineLength(p) == n == |p| && FirstLine(p) == Line(held[..n], false)
    ensures AfterFirstLine(p) == held[n + 1..] == []
  {
    assert p[..|p|] == p;
    LineLengthIs(p, |p|);
  }

  /** There is no newline among the first n bytes. */
  ghost predicate NoLf(t: seq<char>, n: int) {
    n <= |t| && forall k :: 0 <= k < n ==> t[k] != LF
  }

  /** What a reader holds and has not read yet shows the text p; at the end a newline is supplied. */
  ghost predicate Shows(p: seq<char>, wasEof: bool, held: seq<char>, unread: seq<char>, eof: bool) {
    && (wasEof ==> eof && (p != [] ==> p[|p| - 1] == LF))
    && (if eof && !wasEof then held == p + [LF] && LF !in p && p != [] else p == held + unread)
  }

  /** It still does after a successful read. */
  lemma ShowsMore(p: seq<char>, wasEof: bool, held: seq<char>, unread: seq<char>, held': seq<char>,
      unread': seq<char>, eof': bool)
    requires Shows(p, wasEof, held, unread, false) && NoLf(held, |held|)
    requires if eof' then unread == [] && held != [] && held' == held + [LF]
             else held' + unread' == held + unread && held <= held'
    ensures Shows(p, wasEof, held', unread', eof') && NoLf(held', |held|)
  {
    assert eof' ==> held + unread == held;
  }

  /** A read of at most one block goes as the file's plan says, and none is tried at the size limit. */
  ghost predicate AsPlanned(plan: seq<Outcome>, fits: bool, left: nat, plan': seq<Outcome>, count: int, eof': bool) {
    && (!fits ==> count == 0 && !eof' && plan' == plan)
    && (fits && plan != [] && plan[0].Bytes? && 1 <= plan[0].most <= IO_SIZE && plan[0].most <= left ==>
          count == plan[0].most && !eof' && plan' == plan[1..])
    && (fits && left == 0 && (plan == [] || plan[0].Bytes?) ==> count >= 0 && eof' && plan' == plan)
  }

  lemma LastIsNoLf(t: seq<char>)
    ensures t == [] || !NoLf(t, |t|) || t[|t| - 1] != LF
  {
  }

  /** At the end, without a newline among the held bytes, there is no text. */
  lemma NothingLeft(p: seq<char>, wasEof: bool, held: seq<char>, unread: seq<char>, eof: bool)
    requires Shows(p, wasEof, held, unread, eof) && NoLf(held, |held|) && unread == []
    requires eof || held == []
    ensures p == [] && held == []
  {
    assert held + [] == held;
    LastIsNoLf(held);
  }

  /** A newline among the held bytes of a text ends its first line. */
  lemma LineFound(p: seq<char>, wasEof: bool, held: seq<char>, unread: seq<char>, eof: bool, n: nat)
    requires Shows(p, wasEof, held, unread, eof) && (eof ==> unread == [])
    requires n < |held| && NoLf(held, n) && held[n] == LF
    ensures p != [] && FirstLine(p) == Line(held[..n], wasEof || !eof) && LF !in held[..n]
    ensures AfterFirstLine(p) == held[n + 1..] + unread
    ensures eof && held[n + 1..] + unread != [] ==> held[|held| - 1] == LF
    ensures eof && !wasEof ==> n == |p|
  {
    if eof && !wasEof {
      SuppliedNewline(p, held, n);
      assert held[n + 1..] + unread == [];
    } else {
      FoundLine(p, held, unread, n);
      assert wasEof ==> p == held;
    }
  }

  /** Reads that take a line from h to n held bytes: single bytes, then everything over the safe limit at once. */
  function PlanFor(h: nat, n: nat, safe: nat): seq<Outcome>
    decreases n - h
  {
    if h >= n then []
    else if h < safe then [Bytes(1)] + PlanFor(h + 1, n, safe)
    else [Bytes(n - h)]
  }

  /**
    With h bytes of the text p held, the file's plan leads to a stop at n bytes: at a
    newline, at the size limit, or at the end of the file.
   */
  ghost predicate Follows(p: seq<char>, h: nat, n: nat, plan: seq<Outcome>, tail: seq<Outcome>, safe: nat,
      capacity: nat)
  {
    && h <= n <= |p| && 1 <= n <= capacity == safe + IO_SIZE && (h <= safe || h == n) && NoLf(p, n - 1)
    && plan == PlanFor(h, n, safe) + tail
    && (p[n - 1] == LF || n > safe || (n == |p| && (tail == [] || tail[0].Bytes?)))
  }

  /** One more read follows the plan. */
  lemma FollowOn(p: seq<char>, h: nat, n: nat, plan: seq<Outcome>, tail: seq<Outcome>, safe: nat, capacity: nat,
      plan': seq<Outcome>, count: int, eof': bool)
    requires Follows(p, h, n, plan, tail, safe, capacity) && NoLf(p, h)
    requires AsPlanned(plan, h + IO_SIZE <= capacity, |p| - h, plan', count, eof')
    ensures h < n ==> count > 0 && !eof' && Follows(p, h + count, n, plan', tail, safe, capacity)
    ensures h == n ==> p[n - 1] != LF && plan' == tail
    ensures h == n > safe ==> count == 0 && !eof'
    ensures h == n <= safe ==> n == |p| && eof'
  {
    if h == n {
      assert plan == tail;
    } else if h < safe {
      assert plan[0] == Bytes(1) && plan[1..] == PlanFor(h + 1, n, safe) + tail;
    } else {
      assert plan[0] == Bytes(n - h) && plan[1..] == tail == PlanFor(n, n, safe) + tail;
    }
  }

  /** The newline found on a planned text is the last byte held. */
  lemma PlannedNewline(p: seq<char>, wasEof: bool, held: seq<char>, unread: seq<char>, eof: bool, i: nat, n: nat)
    requires Shows(p, wasEof, held, unread, eof) && !wasEof && 1 <= n <= |p| && NoLf(p, n - 1)
    requires i < |held| && NoLf(held, i) && held[i] == LF
    requires if eof then |p| == n && p[n - 1] != LF else |held| <= n
    ensures i == |held| - 1 && (if eof then i == n else i == n - 1 && p[n - 1] == LF)
  {
    assert i < |p| ==> p[i] == held[i];
  }

  /** Writing a terminator at n keeps what is before it and what is behind mid. */
  lemma KeptBehind(was: seq<char>, held: seq<char>, n: nat, mid: nat)
    requires n <= |was| && mid <= |was| && (n < mid || n == |was|)
    requires held == if n < |was| then was[n := NUL] else was
    ensures held[mid..] == was[mid..] && held[..n] == was[..n]
    ensures was[mid..] != [] ==> held[|held| - 1] == was[|was| - 1]
  {
  }

  class LineBuffer {
    const file: File
    const maxSize: nat
    ghost const capacity: nat      // the size the buffer can grow to
    ghost const ofString: bool     // reads the strings of -e options
    var buffer: array<char>
    var end: nat
    var startOfLine: nat
    var endOfLine: nat
    var bufread: nat
    var eof: bool
    var error: bool
    var truncated: bool
    var readLength: nat

    ghost var sizes: seq<nat>      // the sizes the buffer can still take
    ghost var held: seq<char>      // buffer[startOfLine..end]
    ghost var unread: seq<char>    // what the file still has for this reader

    /** The held bytes are those in the buffer. */
    ghost predicate Tied()
      reads this`startOfLine, this`end, this`held, this`buffer, buffer
    {
      && startOfLine <= end < buffer.Length && |held| == end - startOfLine
      && (forall k :: startOfLine <= k < end ==> buffer[k] == held[k - startOfLine])
    }

    /** The positions, and what the file has for this reader. */
    ghost predicate Placed()
      reads this, file
    {
      && startOfLine <= endOfLine <= end < buffer.Length && |held| == end - startOfLine
      && maxSize < 0x8000_0000
      && unread == (if eof then [] else file.data)
      && (!eof ==> buffer.Length == bufread + 1 && IO_SIZE <= bufread <= capacity)
    }

    /** The buffer geometry, which every operation keeps. */
    ghost predicate Shape()
      reads this, buffer, file
    {
      Tied() && Placed()
    }

    /** Doubling the buffer leads to its capacity. */
    ghost predicate Growth()
      reads this`eof, this`bufread, this`sizes
    {
      && (!eof ==> IO_SIZE <= bufread && Ladder(sizes, bufread, maxSize, capacity))
      && (ofString ==> eof)
    }

    /** Once the end was seen, every stored line has its newline. */
    ghost predicate Sealed()
      reads this, file
    {
      && Placed() && Growth() && !error
      && (eof && held[endOfLine - startOfLine..] != [] ==> held[|held| - 1] == LF)
    }

    /** Between calls. */
    ghost predicate Valid()
      reads this, buffer, file
    {
      Tied() && Sealed()
    }

    /** What the reader has still to hand out. */
    ghost function Pending(): seq<char>
      requires Placed()
      reads this, file
    {
      held[endOfLine - startOfLine..] + unread
    }

    /** init_line_buffer */
    constructor FromFile(f: File, max: nat)
      requires max < 0x8000_0000
      ensures Serving() && !eof && !ofString && file == f && maxSize == max && endOfLine == end && fresh(buffer)
      ensures capacity == Capacity(IO_SIZE, max)
      ensures Pending() == f.data
    {
      CapacityBounds(IO_SIZE, max);
      DoublingsLadder(IO_SIZE, max);
      file, maxSize, capacity, sizes, ofString := f, max, Capacity(IO_SIZE, max), Doublings(IO_SIZE, max), false;
      bufread := IO_SIZE;
      buffer := new char[IO_SIZE + 1];
      end, startOfLine, endOfLine := 0, 0, 0;
      eof, error, truncated, readLength := false, false, false, 0;
      held, unread := [], f.data;
      new;
      buffer[0] := NUL;
    }

    /** batch_readline_command for the first -e option */
    constructor FromString(str: seq<char>)
      ensures Serving() && ofString && endOfLine == 0 && fresh(buffer) && fresh(file)
      ensures Pending() == str + [LF]
    {
      file := new File([], []);
      maxSize, capacity, sizes, ofString := 1, 0, [], true;
      var text := str + [LF];
      var b := new char[|text| + 1];
      forall i | 0 <= i < |text| { b[i] := text[i]; }
      b[|text|] := NUL;
      buffer, bufread, end := b, 0, |text|;
      startOfLine, endOfLine, readLength := 0, 0, 0;
      eof, error, truncated := true, false, false;
      held, unread := text, [];
      new;
      assert buffer[0..end] == text;
    }

    /** init_line_buffer_from_string on a buffer that already holds a string */
    method AppendString(str: seq<char>)
      requires Serving() && ofString && endOfLine == 0 && end > 0
      modifies this
      ensures Serving() && ofString && endOfLine == 0 && fresh(buffer)
      ensures Pending() == old(Pending())[..old(end) - 1] + [' '] + str + [LF]
    {
      ghost var was := Pending();
      assert startOfLine == 0 && was[..end - 1] == buffer[..end - 1];
      var text := buffer[..end - 1] + [' '] + str + [LF];
      var b := new char[|text| + 1];
      forall i | 0 <= i < |text| { b[i] := text[i]; }
      b[|text|] := NUL;
      assert b[0..|text|] == text;
      buffer, startOfLine, end := b, 0, |text|;
      held := text;
      assert held[0..] + [] == text;
    }

    /** my_realloc to twice the size; positions are offsets, so they survive the move. */
    method Grow()
      requires !eof && buffer.Length == bufread + 1
      modifies this`buffer, this`bufread
      ensures fresh(buffer) && bufread == 2 * old(bufread) && buffer.Length == bufread + 1
      ensures forall k :: 0 <= k <= old(bufread) ==> buffer[k] == old(buffer[k])
    {
      bufread := bufread * 2;
      var b := new char[bufread + 1];
      forall i | 0 <= i < buffer.Length { b[i] := buffer[i]; }
      buffer := b;
    }

    /** How much can be read behind the unfinished line, in whole I/O blocks. */
    function Room(): nat
      requires startOfLine <= end <= startOfLine + bufread
      reads this
    {
      (bufread - (end - startOfLine)) / IO_SIZE * IO_SIZE
    }

    /** The grow loop: zero means that the line fills the largest buffer allowed. */
    method MakeRoom() returns (room: nat)
      requires Shape() && Growth() && !eof
      modifies this`buffer, this`bufread, this`sizes
      ensures Shape() && Growth() && (buffer == old(buffer) || fresh(buffer))
      ensures bufread == old(bufread) || bufread == 2 * old(bufread)
      ensures room + |held| <= bufread
      ensures room == 0 ==> buffer == old(buffer) && bufread == old(bufread) && sizes == old(sizes)
      ensures room == 0 <==> |held| + IO_SIZE > capacity
      ensures room > 0 ==> room >= IO_SIZE
    {
      LadderStep(sizes, bufread, maxSize, capacity);
      room := Room();
      while room == 0
        invariant Shape() && Growth() && room == Room()
        invariant (bufread == old(bufread) && buffer == old(buffer) && sizes == old(sizes))
                  || (bufread == 2 * old(bufread) && room > 0)
        invariant buffer == old(buffer) || fresh(buffer)
        decreases room == 0
      {
        if bufread * 2 > maxSize { return 0; }
        LadderStep(sizes, bufread, maxSize, capacity);
        Grow();
        sizes := sizes[1..];
        room := Room();
      }
    }

    /** Move the unfinished line to the front of the buffer. */
    method ShiftDown()
      requires Shape() && !eof
      modifies this`end, this`startOfLine, this`endOfLine, buffer
      ensures Shape() && startOfLine == 0 && endOfLine == end == |held|
    {
      if startOfLine != 0 {
        forall i | 0 <= i < end - startOfLine { buffer[i] := buffer[startOfLine + i]; }
      }
      end := end - startOfLine;
      startOfLine, endOfLine := 0, end;
      assert buffer[0..end] == held;
    }

    /** Put what was read behind the unfinished line. */
    method Store(chunk: seq<char>)
      requires Tied() && end + |chunk| < buffer.Length
      modifies this`end, this`held, buffer
      ensures Tied() && end == old(end) + |chunk| && held == old(held) + chunk && buffer[end] == NUL
    {
      forall i | 0 <= i < |chunk| { buffer[end + i] := chunk[i]; }
      end, held := end + |chunk|, held + chunk;
      buffer[end] := NUL;
    }

    /** Read behind the unfinished line; at the end of the file supply a missing newline. */
    method Refill(room: nat) returns (count: int)
      requires Shape() && !eof && !error && startOfLine == 0 && endOfLine == end
      requires 0 < room && end + room < buffer.Length && NoLf(held, |held|)
      modifies this`end, this`eof, this`error, this`held, this`unread, buffer, file
      ensures count < 0 <==> error
      ensures !error ==> Shape() && end == old(end) + count <= old(end) + room
      ensures !error && !eof ==>
        count > 0 && held + unread == old(held + unread) && |unread| < |old(unread)| && old(held) <= held
      ensures !error && eof ==>
        old(unread) == [] && count == (if old(held) == [] then 0 else 1)
        && held == (if old(held) == [] then [] else old(held) + [LF])
      ensures room >= IO_SIZE ==> AsPlanned(old(file.plan), true, |old(unread)|, file.plan, count, eof)
    {
      var failed, chunk := file.Read(room);
      if failed {
        error := true;
        return -1;
      }
      var atEnd := chunk == [];
      if atEnd && end > 0 && buffer[end - 1] != LF {
        chunk := [LF];
      }
      count := |chunk|;
      Store(chunk);
      eof := atEnd;
      unread := if eof then [] else file.data;
    }

    /**
      fill_buffer. The unfinished line moves to the front of the buffer and new bytes follow
      it; the buffer doubles at most once. A zero result without eof means the size limit.
     */
    method FillBuffer() returns (count: int)
      requires Shape() && Growth() && !error && NoLf(held, |held|)
      modifies this, buffer, file
      ensures buffer == old(buffer) || fresh(buffer)
      ensures bufread == old(bufread) || bufread == 2 * old(bufread)
      ensures count < 0 <==> error
      ensures !error ==> Shape() && Growth()
      ensures old(eof) ==> count == 0 && unchanged(this)
      ensures count == 0 && !eof ==>
        unchanged(this) && unchanged(buffer) && unchanged(file) && capacity - IO_SIZE < |held|
      ensures count == 0 && eof && !old(eof) ==> old(held) == [] && held == [] && old(unread) == []
      ensures count > 0 ==> !old(eof) && end <= capacity && endOfLine - startOfLine == |old(held)|
      ensures count > 0 && !eof ==>
        held + unread == old(held + unread) && |unread| < |old(unread)| && old(held) <= held
        && |held| == |old(held)| + count
      ensures count > 0 && eof ==>
        old(unread) == [] && old(held) != [] && held == old(held) + [LF] && |old(held)| + IO_SIZE <= capacity
      ensures !old(eof) ==>
        AsPlanned(old(file.plan), |old(held)| + IO_SIZE <= capacity, |old(unread)|, file.plan, count, eof)
    {
      if eof { return 0; }
      var room := MakeRoom();
      if room == 0 { return 0; }
      ShiftDown();
      count := Refill(room);
    }

    /** The scan for a newline; it stops at the end of the data. */
    method ScanLine() returns (pos: nat)
      requires Shape() && NoLf(held, endOfLine - startOfLine)
      ensures endOfLine <= pos <= end
      ensures NoLf(held, pos - startOfLine)
      ensures pos < end ==> held[pos - startOfLine] == LF
    {
      pos := endOfLine;
      while buffer[pos] != LF && pos != end
        invariant endOfLine <= pos <= end
        invariant NoLf(held, pos - startOfLine)
        decreases end - pos
      {
        pos := pos + 1;
      }
    }

    /**
      The buffer and the file together hold the text p from startOfLine on; at the end of
      the file a newline may have been supplied.
     */
    ghost predicate Holds(p: seq<char>, wasEof: bool)
      reads this, buffer, file
    {
      && Shape() && Growth() && !error
      && NoLf(held, endOfLine - startOfLine)
      && (!wasEof ==> end <= capacity)
      && Shows(p, wasEof, held, unread, eof)
      && (eof && !wasEof ==> |p| + IO_SIZE <= capacity)
    }

    /** A new line starts where the last one ended. */
    method BeginLine()
      requires Valid()
      modifies this`startOfLine, this`held
      ensures Holds(old(Pending()), eof) && startOfLine == old(endOfLine)
    {
      ghost var rest := held[endOfLine - startOfLine..];
      assert rest == buffer[endOfLine..end];
      assert eof && rest != [] ==> rest[|rest| - 1] == LF;
      assert eof ==> rest + unread == rest;
      startOfLine := endOfLine;
      held := rest;
    }

    /** The reader has nothing left. */
    ghost predicate Empty()
      reads this, buffer, file
    {
      Shape() && Growth() && !error && eof && held == []
    }

    /**
      One turn of the read loop that did not find a newline: there is more text, there is
      nothing left, the size limit is reached and nothing has changed, or an error occurred.
     */
    method FetchMore(ghost p: seq<char>, ghost wasEof: bool) returns (count: int)
      requires Holds(p, wasEof) && NoLf(held, |held|)
      modifies this, buffer, file
      ensures buffer == old(buffer) || fresh(buffer)
      ensures count < 0 <==> error
      ensures count > 0 ==> Holds(p, wasEof) && !old(eof) && (eof || |unread| < |old(unread)|)
      ensures count > 0 && !eof ==> |held| == |old(held)| + count
      ensures count == 0 && eof ==> p == [] && Empty()
      ensures count == 0 && !eof ==>
        unchanged(this) && unchanged(buffer) && unchanged(file) && capacity - IO_SIZE < |held|
      ensures !old(eof) ==>
        AsPlanned(old(file.plan), |old(held)| + IO_SIZE <= capacity, |old(unread)|, file.plan, count, eof)
    {
      count := FillBuffer();
      if count > 0 {
        ShowsMore(p, wasEof, old(held), old(unread), held, unread, eof);
      } else if count == 0 && eof {
        NothingLeft(p, wasEof, old(held), old(unread), old(eof));
      }
    }

    /** The file's plan leads to a stop at n bytes of the text p. */
    ghost predicate OnPlan(p: seq<char>, n: nat, tail: seq<Outcome>)
      reads this, file
    {
      !eof && capacity >= IO_SIZE && Follows(p, |held|, n, file.plan, tail, capacity - IO_SIZE, capacity)
    }

    /** What a planned stop at n bytes of p looks like: a newline, the size limit, or the end. */
    ghost predicate Planned(p: seq<char>, n: nat, tail: seq<Outcome>)
      reads this, file
    {
      && 1 <= n <= |p| && file.plan == tail && capacity >= IO_SIZE
      && (if p[n - 1] == LF || n > capacity - IO_SIZE then !eof && |held| == n
          else eof && |held| == n + 1 && |p| == n)
    }

    /** A turn of the read loop on a text that may be planned. */
    method FetchPlanned(ghost p: seq<char>, ghost wasEof: bool, ghost planned: bool, ghost n: nat,
        ghost tail: seq<Outcome>)
      returns (count: int)
      requires Holds(p, wasEof) && NoLf(held, |held|) && (planned ==> !wasEof && OnPlan(p, n, tail))
      modifies this, buffer, file
      ensures buffer == old(buffer) || fresh(buffer)
      ensures count < 0 <==> error
      ensures count > 0 ==> Holds(p, wasEof) && !old(eof) && (eof || |unread| < |old(unread)|)
      ensures count == 0 && eof ==> p == [] && Empty()
      ensures count == 0 && !eof ==>
        unchanged(this) && unchanged(buffer) && unchanged(file) && capacity - IO_SIZE < |held|
      ensures planned ==>
        if count > 0 && !eof then OnPlan(p, n, tail)
        else (count > 0 || !eof) && !error && p[n - 1] != LF && Planned(p, n, tail)
    {
      count := FetchMore(p, wasEof);
      if planned {
        FollowOn(p, |old(held)|, n, old(file.plan), tail, capacity - IO_SIZE, capacity, file.plan, count, eof);
      }
    }

    /** The search for the end of the line goes on. */
    ghost predicate Searching(p: seq<char>, wasEof: bool, planned: bool, n: nat, tail: seq<Outcome>)
      reads this, buffer, file
    {
      && Holds(p, wasEof)
      && (planned ==>
            !wasEof && NoLf(p, n - 1) && if eof then Planned(p, n, tail) && p[n - 1] != LF else OnPlan(p, n, tail))
    }

    /** The end of the line is at pos: a newline, or the end of all that the size limit allows. */
    ghost predicate EndAt(p: seq<char>, wasEof: bool, pos: nat)
      reads this, buffer, file
    {
      && Holds(p, wasEof) && startOfLine <= pos <= end && NoLf(held, pos - startOfLine)
      && (if pos < end then held[pos - startOfLine] == LF else !eof && capacity - IO_SIZE < |held|)
    }

    /** A newline found on a planned text. */
    ghost method StopAtNewline(p: seq<char>, wasEof: bool, n: nat, tail: seq<Outcome>, pos: nat)
      requires Searching(p, wasEof, true, n, tail) && EndAt(p, wasEof, pos) && pos < end
      ensures Planned(p, n, tail) && pos == end - 1 && (p[n - 1] == LF || n <= capacity - IO_SIZE)
    {
      PlannedNewline(p, wasEof, held, unread, eof, pos - startOfLine, n);
    }

    /** One turn of the loop of intern_read_line; done says whether it ended. */
    method SearchOn(ghost p: seq<char>, ghost wasEof: bool, ghost planned: bool, ghost n: nat, ghost tail: seq<Outcome>)
      returns (done: bool, ok: bool, pos: nat)
      requires Searching(p, wasEof, planned, n, tail)
      modifies this, buffer, file
      ensures buffer == old(buffer) || fresh(buffer)
      ensures !done ==> Searching(p, wasEof, planned, n, tail) && !old(eof) && (eof || |unread| < |old(unread)|)
      ensures done && ok ==> EndAt(p, wasEof, pos) && !error
      ensures done && !ok && !error ==> p == [] && Empty()
      ensures done && planned ==>
        ok && Planned(p, n, tail) && pos == (if p[n - 1] != LF && n > capacity - IO_SIZE then end else end - 1)
    {
      pos := ScanLine();
      if pos < end {
        if planned { StopAtNewline(p, wasEof, n, tail, pos); }
        return true, true, pos;
      }
      LastIsNoLf(held);
      var count := FetchPlanned(p, wasEof, planned, n, tail);
      if count < 0 || (count == 0 && eof) { return true, false, pos; }
      return count == 0, true, pos;
    }

    /**
      The loop of intern_read_line: read on until a newline, the end of the file, the size
      limit (pos == end) or an error (also !ok) is reached. With a plan, that is at n bytes.
     */
    method FindLineEnd(ghost p: seq<char>, ghost wasEof: bool, ghost planned: bool, ghost n: nat,
        ghost tail: seq<Outcome>)
      returns (ok: bool, pos: nat)
      requires Searching(p, wasEof, planned, n, tail)
      modifies this, buffer, file
      ensures buffer == old(buffer) || fresh(buffer)
      ensures ok ==> EndAt(p, wasEof, pos) && !error
      ensures !ok && !error ==> p == [] && Empty()
      ensures planned ==>
        ok && Planned(p, n, tail) && pos == (if p[n - 1] != LF && n > capacity - IO_SIZE then end else end - 1)
    {
      var done;
      done, ok, pos := SearchOn(p, wasEof, planned, n, tail);
      while !done
        invariant buffer == old(buffer) || fresh(buffer)
        invariant !done ==> Searching(p, wasEof, planned, n, tail)
        invariant done && ok ==> EndAt(p, wasEof, pos) && !error
        invariant done && !ok && !error ==> p == [] && Empty()
        invariant done && planned ==>
          ok && Planned(p, n, tail) && pos == (if p[n - 1] != LF && n > capacity - IO_SIZE then end else end - 1)
        decreases !done, !eof, |unread|
      {
        done, ok, pos := SearchOn(p, wasEof, planned, n, tail);
      }
    }

    /** A piece of p was cut off at the size limit and lies at startOfLine. */
    ghost predicate HasPiece(p: seq<char>, length: nat)
      reads this, buffer, file
    {
      && Valid() && truncated && !eof && startOfLine + length == endOfLine == end
      && capacity - IO_SIZE < length <= |p| && length <= capacity
      && held == p[..length] && LF !in held
      && Pending() == p[length..]
    }

    /** A line lies at startOfLine, with the newline found or supplied; the rest is pending. */
    ghost predicate HasLine(line: Line, rest: seq<char>, wasEof: bool, length: nat)
      reads this, buffer, file
    {
      var n := |line.content|;
      && Valid() && !truncated && LF !in line.content
      && startOfLine + n + 1 == endOfLine
      && held[..n] == line.content && held[n] == LF
      && length == (if eof then n else n + 1)
      && (!wasEof ==> n < capacity && (!line.terminated ==> n + IO_SIZE <= capacity))
      && Pending() == rest
      && eof == (wasEof || !line.terminated)
    }

    method CutPiece(ghost p: seq<char>) returns (length: nat)
      requires Holds(p, false) && !eof && NoLf(held, |held|) && capacity - IO_SIZE < |held|
      modifies this`truncated, this`endOfLine
      ensures HasPiece(p, length)
    {
      truncated, endOfLine := true, end;
      length := endOfLine - startOfLine;
      assert p[..length] == held && p[length..] == unread;
    }

    /** The line found lies at the start of the held bytes. */
    method TakeLine(ghost line: Line, ghost rest: seq<char>, ghost wasEof: bool, pos: nat) returns (length: nat)
      requires Shape() && Growth() && !error && startOfLine <= pos < end && held[pos - startOfLine] == LF
      requires var n := pos - startOfLine;
        && line == Line(held[..n], wasEof || !eof) && LF !in held[..n] && rest == held[n + 1..] + unread
        && (eof && rest != [] ==> held[|held| - 1] == LF)
        && (!wasEof ==> n < capacity && (eof ==> n + IO_SIZE <= capacity))
      requires wasEof ==> eof
      modifies this`truncated, this`endOfLine
      ensures HasLine(line, rest, wasEof, length) && endOfLine == pos + 1
    {
      ghost var n := pos - startOfLine;
      truncated, endOfLine := false, pos + 1;
      assert endOfLine - startOfLine == n + 1;
      length := endOfLine - (if eof then 1 else 0) - startOfLine;
    }

    /** Nothing is buffered, and the file's plan leads to a stop at n bytes of the pending text. */
    ghost predicate Scripted(n: nat, tail: seq<Outcome>)
      reads this, buffer, file
    {
      && Valid() && endOfLine == end && !eof && capacity >= IO_SIZE
      && Follows(unread, 0, n, file.plan, tail, capacity - IO_SIZE, capacity)
    }

    /** What such a call leads to: the plan is used up, and the call stopped there. */
    ghost predicate StoppedAt(p: seq<char>, n: nat, tail: seq<Outcome>)
      reads this, file
    {
      && file.plan == tail && endOfLine == end && 1 <= n <= |p|
      && (truncated <==> p[n - 1] != LF && n > capacity - IO_SIZE)
    }

    /** A new line starts where the last one ended, and the search for its end begins. */
    method BeginSearch(ghost planned: bool, ghost n: nat, ghost tail: seq<Outcome>)
      requires Valid() && (planned ==> Scripted(n, tail))
      modifies this`startOfLine, this`held
      ensures Searching(old(Pending()), eof, planned, n, tail)
    {
      assert endOfLine == end ==> Pending() == unread;
      BeginLine();
    }

    method TakeFirstLine(ghost p: seq<char>, ghost wasEof: bool, pos: nat) returns (length: nat)
      requires EndAt(p, wasEof, pos) && pos < end
      modifies this`truncated, this`endOfLine
      ensures p != [] && HasLine(FirstLine(p), AfterFirstLine(p), wasEof, length) && endOfLine == pos + 1
    {
      ghost var n := pos - startOfLine;
      LineFound(p, wasEof, held, unread, eof, n);
      length := TakeLine(Line(held[..n], wasEof || !eof), held[n + 1..] + unread, wasEof, pos);
    }

    /** The end of the line was found: hand out the line, or the piece of it that fits. */
    method EndSearch(ghost p: seq<char>, ghost wasEof: bool, pos: nat) returns (length: nat)
      requires EndAt(p, wasEof, pos) && !error
      modifies this`truncated, this`endOfLine
      ensures truncated <==> pos == end
      ensures truncated ==> p != [] && HasPiece(p, length) && !wasEof
      ensures !truncated ==> p != [] && HasLine(FirstLine(p), AfterFirstLine(p), wasEof, length) && endOfLine == pos + 1
    {
      if pos == end {
        length := CutPiece(p);
      } else {
        length := TakeFirstLine(p, wasEof, pos);
      }
    }

    /**
      intern_read_line. The raw line lies at startOfLine; its newline is counted in length
      only while the end of the file has not been seen.
     */
    method InternReadLine(ghost planned: bool, ghost n: nat, ghost tail: seq<Outcome>) returns (ok: bool, length: nat)
      requires Valid() && (planned ==> Scripted(n, tail))
      modifies this, buffer, file
      ensures buffer == old(buffer) || fresh(buffer)
      ensures error ==> !ok
      ensures !ok && !error ==> old(Pending()) == [] && Empty()
      ensures ok ==> old(Pending()) != []
      ensures ok && truncated ==> HasPiece(old(Pending()), length) && !old(eof)
      ensures ok && !truncated ==>
        HasLine(FirstLine(old(Pending())), AfterFirstLine(old(Pending())), old(eof), length)
      ensures planned ==> ok && StoppedAt(old(Pending()), n, tail) && (truncated ==> length == n)
    {
      ghost var p, wasEof := Pending(), eof;
      BeginSearch(planned, n, tail);
      var pos;
      ok, pos := FindLineEnd(p, wasEof, planned, n, tail);
      if !ok { return false, 0; }
      length := EndSearch(p, wasEof, pos);
    }

    /** The line most recently handed out. */
    ghost function Text(): seq<char>
      requires startOfLine + readLength < buffer.Length
      reads this, buffer
    {
      buffer[startOfLine..startOfLine + readLength]
    }

    method StripNewline(length: nat, binary: bool) returns (n: nat)
      requires Shape() && length <= |held|
      ensures n == StrippedLength(held[..length], binary)
    {
      n := length;
      if n > 0 && buffer[startOfLine + n - 1] == LF {
        n := n - 1;
        if n > 0 && !binary && buffer[startOfLine + n - 1] == CR {
          n := n - 1;
        }
      }
    }

    /** Write a terminator at offset n of the line. */
    method PutNul(n: nat)
      requires Tied() && startOfLine + n < buffer.Length && n <= |held|
      modifies this`held, buffer
      ensures Tied() && held == (if n < |old(held)| then old(held)[n := NUL] else old(held))
      ensures buffer[startOfLine + n] == NUL && buffer[startOfLine..startOfLine + n] == held[..n]
    {
      buffer[startOfLine + n] := NUL;
      held := if n < |held| then held[n := NUL] else held;
      assert Tied();
      assert forall i :: 0 <= i < n ==> held[i] == buffer[startOfLine + i];
    }

    /** Put the terminator behind the text; what is pending does not contain that place. */
    method Terminate(n: nat)
      requires Valid() && startOfLine + n < buffer.Length && n <= |held|
      requires startOfLine + n < endOfLine || startOfLine + n == end
      modifies this`readLength, this`held, buffer
      ensures Valid() && Pending() == old(Pending()) && readLength == n
      ensures Text() == old(held)[..n] && buffer[startOfLine + n] == NUL
    {
      ghost var was, mid := held, endOfLine - startOfLine;
      readLength := n;
      PutNul(n);
      KeptBehind(was, held, n, mid);
    }

    /** The caller got a piece of p, cut at the size limit. */
    ghost predicate GavePiece(p: seq<char>)
      reads this, buffer, file
    {
      && Valid() && truncated && !eof
      && startOfLine + readLength == endOfLine == end && buffer[end] == NUL
      && capacity - IO_SIZE < readLength <= |p| && readLength <= capacity
      && Text() == p[..readLength] && LF !in p[..readLength]
      && Pending() == p[readLength..]
    }

    /** The caller got a line, and the rest is pending. */
    ghost predicate GaveLine(line: Line, rest: seq<char>, wasEof: bool, binary: bool)
      reads this, buffer, file
    {
      && Valid() && !truncated
      && startOfLine + readLength < endOfLine && buffer[startOfLine + readLength] == NUL
      && Text() == LineText(line, binary || wasEof)
      && Pending() == rest
      && (!wasEof ==> |line.content| < capacity && (!line.terminated ==> |line.content| + IO_SIZE <= capacity))
      && (eof <==> wasEof || !line.terminated)
    }

    method FinishPiece(ghost p: seq<char>, length: nat, binary: bool)
      requires HasPiece(p, length)
      modifies this`readLength, this`held, buffer
      ensures GavePiece(p) && readLength == length
    {
      assert held[..length] == held;
      StrippedIsLineText(held, binary);
      var n := StripNewline(length, binary);
      Terminate(n);
    }

    method FinishLine(ghost line: Line, ghost rest: seq<char>, ghost wasEof: bool, length: nat, binary: bool)
      requires HasLine(line, rest, wasEof, length)
      modifies this`readLength, this`held, buffer
      ensures GaveLine(line, rest, wasEof, binary)
    {
      ghost var text := LineText(line, binary || wasEof);
      StrippedHeldLine(line, held, length, eof, wasEof, binary);
      var n := StripNewline(length, binary);
      assert n <= |line.content| && held[..n] == text;
      Terminate(n);
    }

    /**
      batch_readline. Each call removes the first line of the pending stream, or a piece of
      it when the buffer may not grow, and leaves it NUL-terminated in the buffer. The
      strings of -e options (eof from the start) keep their CRs. With a plan for the reads,
      it stops where the plan says.
     */
    method BatchReadline(binary: bool, ghost planned: bool, ghost n: nat, ghost tail: seq<Outcome>) returns (ok: bool)
      requires Valid() && (planned ==> Scripted(n, tail))
      modifies this, buffer, file
      ensures buffer == old(buffer) || fresh(buffer)
      ensures error ==> !ok
      ensures !ok && !error ==> old(Pending()) == [] && Empty()
      ensures ok ==> old(Pending()) != []
      ensures ok && truncated ==> GavePiece(old(Pending())) && !old(eof)
      ensures ok && !truncated ==>
        GaveLine(FirstLine(old(Pending())), AfterFirstLine(old(Pending())), old(eof), binary)
      ensures planned ==> ok && StoppedAt(old(Pending()), n, tail) && (truncated ==> readLength == n)
    {
      ghost var p, wasEof := Pending(), eof;
      var length;
      ok, length := InternReadLine(planned, n, tail);
      if !ok { return false; }
      if truncated {
        FinishPiece(p, length, binary);
      } else {
        FinishLine(FirstLine(p), AfterFirstLine(p), wasEof, length, binary);
      }
    }

    /** A line or piece lies in the buffer, and the caller may edit it. */
    ghost predicate Lent()
      reads this, buffer, file
    {
      && Valid() && startOfLine + readLength < buffer.Length && buffer[startOfLine + readLength] == NUL
      && (startOfLine + readLength < endOfLine || (truncated && startOfLine + readLength == end == endOfLine))
    }

    /** The reader after the caller edited the line it was lent. */
    ghost method TakeBack()
      requires Sealed() && forall k :: endOfLine <= k < end ==> buffer[k] == held[k - startOfLine]
      modifies this`held
      ensures Valid() && Pending() == old(Pending())
    {
      ghost var mid := endOfLine - startOfLine;
      ghost var was := held;
      held := buffer[startOfLine..end];
      assert held[mid..] == was[mid..];
    }

    /** The limits that hold for the lines of a stream of this length: a string's lines have none. */
    ghost function Safe(total: nat): nat {
      if ofString then total else if capacity >= IO_SIZE then capacity - IO_SIZE else 0
    }

    ghost function Most(total: nat): nat {
      if ofString then total + 1 else capacity
    }

    /** Between calls: what a file's end left over was handed out. */
    ghost predicate Serving()
      reads this, buffer, file
    {
      Valid() && IO_SIZE <= Most(IO_SIZE) && (eof && !ofString ==> Pending() == [])
    }

    /**
      batch_readline, said in terms of delivery: the text handed out is the next piece of
      the pending stream, and the caller may edit it in place.
     */
    method ReadPiece(binary: bool, ghost total: nat, ghost planned: bool, ghost n: nat, ghost tail: seq<Outcome>)
      returns (ok: bool, piece: Piece)
      requires Serving() && |Pending()| <= total && (planned ==> Scripted(n, tail))
      modifies this, buffer, file
      ensures buffer == old(buffer) || fresh(buffer)
      ensures error ==> !ok
      ensures !ok && !error ==> old(Pending()) == [] && Empty()
      ensures ok ==>
        && Lent() && piece == Piece(Text(), truncated) && Serving()
        && DeliversNext(old(Pending()), piece, Safe(total), Most(total), binary || ofString)
        && Pending() == AfterPiece(old(Pending()), piece) && |Pending()| < |old(Pending())|
      ensures planned ==> ok && StoppedAt(old(Pending()), n, tail) && (truncated ==> readLength == n)
    {
      ok := BatchReadline(binary, planned, n, tail);
      piece := Piece([], false);
      if ok {
        piece := Piece(buffer[startOfLine..startOfLine + readLength], truncated);
      }
    }
  }

  /** The pieces read so far deliver the stream s up to what is pending. */
  ghost predicate Delivering(lb: LineBuffer, s: seq<char>, pieces: seq<Piece>, binary: bool)
    reads lb, lb.buffer, lb.file
  {
    && lb.Serving() && |lb.Pending()| <= |s|
    && DeliversUpTo(s, pieces, lb.Pending(), lb.Safe(|s|), lb.Most(|s|), binary || lb.ofString)
  }

  // ---------------------------------------------------------------- every delivery is some way of reading

  /** The bytes a piece takes from the front of a stream. */
  function RawLength(s: seq<char>, p: Piece): nat {
    if p.truncated then |p.text| else if LineLength(s) < |s| then LineLength(s) + 1 else |s|
  }

  /** Reads that make the reader stop at the end of each of the pieces. */
  function PlanOf(s: seq<char>, pieces: seq<Piece>, safe: nat): seq<Outcome>
    decreases |pieces|
  {
    if pieces == [] then []
    else PlanFor(0, RawLength(s, pieces[0]), safe) + PlanOf(AfterPiece(s, pieces[0]), pieces[1..], safe)
  }

  lemma NothingToDeliver(pieces: seq<Piece>, safe: nat, capacity: nat, binary: bool)
    requires Delivers([], pieces, safe, capacity, binary)
    ensures pieces == []
  {
  }

  lemma PlanStops(s: seq<char>, pieces: seq<Piece>, safe: nat, capacity: nat, binary: bool)
    requires Delivers(s, pieces, safe, capacity, binary) && pieces != [] && capacity == safe + IO_SIZE
    ensures var tail := PlanOf(AfterPiece(s, pieces[0]), pieces[1..], safe);
      Follows(s, 0, RawLength(s, pieces[0]), PlanOf(s, pieces, safe), tail, safe, capacity)
  {
    LineLengthFinds(s);
    var n, rest := RawLength(s, pieces[0]), AfterPiece(s, pieces[0]);
    assert forall k :: 0 <= k < n - 1 ==> s[k] == s[..n - 1][k];
    if !pieces[0].truncated {
      assert forall k :: 0 <= k < LineLength(s) ==> s[k] == s[..LineLength(s)][k];
      if rest == [] { NothingToDeliver(pieces[1..], safe, capacity, binary); }
    } else {
      assert forall k :: 0 <= k < n ==> s[k] == pieces[0].text[k] && pieces[0].text[k] in pieces[0].text;
    }
  }

  /** Where it stopped decides which piece it is. */
  lemma SamePiece(s: seq<char>, p: Piece, q: Piece, safe: nat, capacity: nat, binary: bool)
    requires DeliversNext(s, p, safe, capacity, binary) && DeliversNext(s, q, safe, capacity, binary)
    requires var n := RawLength(s, q);
      1 <= n <= |s| && (p.truncated <==> s[n - 1] != LF && n > safe) && (p.truncated ==> |p.text| == n)
    ensures p == q
  {
    LineLengthFinds(s);
    var n := RawLength(s, q);
    if q.truncated {
      assert q.text[n - 1] == s[n - 1];
    }
  }

  /** The pieces left to come, and the reads planned for them. */
  ghost predicate Schedule(rest: seq<char>, plan: seq<Outcome>, left: seq<Piece>, safe: nat, capacity: nat,
      binary: bool)
  {
    Delivers(rest, left, safe, capacity, binary) && (left != [] ==> rest != [] && plan == PlanOf(rest, left, safe))
  }

  lemma ScheduleOn(rest: seq<char>, left: seq<Piece>, safe: nat, capacity: nat, binary: bool)
    requires Delivers(rest, left, safe, capacity, binary) && left != []
    ensures var rest' := AfterPiece(rest, left[0]);
      Schedule(rest', PlanOf(rest', left[1..], safe), left[1..], safe, capacity, binary)
  {
    var rest' := AfterPiece(rest, left[0]);
    if rest' == [] { NothingToDeliver(left[1..], safe, capacity, binary); }
  }

  /** The reader has these pieces still before it, and the file's reads are planned for them. */
  ghost predicate Scheduled(lb: LineBuffer, left: seq<Piece>, binary: bool)
    reads lb, lb.buffer, lb.file
  {
    && lb.Serving() && !lb.ofString && (left != [] ==> lb.endOfLine == lb.end)
    && Schedule(lb.Pending(), lb.file.plan, left, lb.capacity - IO_SIZE, lb.capacity, binary)
  }

  lemma BeginScheduled(lb: LineBuffer, left: seq<Piece>, binary: bool)
    requires Scheduled(lb, left, binary) && left != []
    ensures var rest := lb.Pending();
      lb.Scripted(RawLength(rest, left[0]), PlanOf(AfterPiece(rest, left[0]), left[1..], lb.capacity - IO_SIZE))
  {
    PlanStops(lb.Pending(), left, lb.capacity - IO_SIZE, lb.capacity, binary);
    assert lb.unread == lb.Pending();
  }

  /** Where a planned call stopped, the scheduled piece ends. */
  lemma ScheduledPiece(rest: seq<char>, left: seq<Piece>, piece: Piece, safe: nat, capacity: nat, binary: bool)
    requires Delivers(rest, left, safe, capacity, binary) && left != []
    requires DeliversNext(rest, piece, safe, capacity, binary)
    requires var n := RawLength(rest, left[0]);
      1 <= n <= |rest| && (piece.truncated <==> rest[n - 1] != LF && n > safe) && (piece.truncated ==>
          |piece.text| == n)
    ensures piece == left[0]
    ensures var rest' := AfterPiece(rest, piece);
      Schedule(rest', PlanOf(AfterPiece(rest, left[0]), left[1..], safe), left[1..], safe, capacity, binary)
  {
    SamePiece(rest, piece, left[0], safe, capacity, binary);
    ScheduleOn(rest, left, safe, capacity, binary);
  }

  lemma EndScheduled(lb: LineBuffer, rest: seq<char>, left: seq<Piece>, piece: Piece, binary: bool)
    requires lb.Serving() && !lb.ofString && left != []
    requires Delivers(rest, left, lb.capacity - IO_SIZE, lb.capacity, binary)
    requires DeliversNext(rest, piece, lb.capacity - IO_SIZE, lb.capacity, binary)
    requires lb.StoppedAt(rest, RawLength(rest, left[0]),
                          PlanOf(AfterPiece(rest, left[0]), left[1..], lb.capacity - IO_SIZE))
    requires piece.truncated == lb.truncated && lb.Pending() == AfterPiece(rest, piece)
    requires piece.truncated ==> |piece.text| == RawLength(rest, left[0])
    ensures piece == left[0] && Scheduled(lb, left[1..], binary)
  {
    ScheduledPiece(rest, left, piece, lb.capacity - IO_SIZE, lb.capacity, binary);
  }

  /** A call of batch_readline whose piece may be scheduled. */
  method ReadNext(lb: LineBuffer, binary: bool, ghost total: nat, ghost planned: bool, ghost left: seq<Piece>)
    returns (ok: bool, piece: Piece)
    requires lb.Serving() && |lb.Pending()| <= total
    requires planned ==> Scheduled(lb, left, binary)
    modifies lb, lb.buffer, lb.file
    ensures lb.buffer == old(lb.buffer) || fresh(lb.buffer)
    ensures lb.error ==> !ok
    ensures !ok && !lb.error ==> old(lb.Pending()) == []
    ensures ok ==>
      && lb.Lent() && piece == Piece(lb.Text(), lb.truncated) && lb.Serving()
      && DeliversNext(old(lb.Pending()), piece, lb.Safe(total), lb.Most(total), binary || lb.ofString)
      && lb.Pending() == AfterPiece(old(lb.Pending()), piece) && |lb.Pending()| < |old(lb.Pending())|
    ensures planned ==> ok == (left != [])
    ensures planned && ok ==> piece == left[0] && Scheduled(lb, left[1..], binary)
  {
    ghost var rest, on := lb.Pending(), planned && left != [];
    ghost var n, tail := 0, [];
    if on {
      n, tail := RawLength(rest, left[0]), PlanOf(AfterPiece(rest, left[0]), left[1..], lb.capacity - IO_SIZE);
      BeginScheduled(lb, left, binary);
    }
    ok, piece := lb.ReadPiece(binary, total, on, n, tail);
    if on {
      EndScheduled(lb, rest, left, piece, binary);
    }
  }

  /** Read one more piece; when there is none left, everything has been delivered. */
  method ReadOn(lb: LineBuffer, binary: bool, ghost s: seq<char>, pieces: seq<Piece>,
                ghost planned: bool, ghost left: seq<Piece>)
    returns (ok: bool, pieces': seq<Piece>)
    requires Delivering(lb, s, pieces, binary)
    requires planned ==> Scheduled(lb, left, binary)
    modifies lb, lb.buffer, lb.file
    ensures lb.buffer == old(lb.buffer) || fresh(lb.buffer)
    ensures ok ==> Delivering(lb, s, pieces', binary) && |lb.Pending()| < |old(lb.Pending())| && lb.Lent()
    ensures ok ==> pieces' == pieces + [Piece(lb.Text(), lb.truncated)]
    ensures !ok ==> pieces' == pieces
    ensures !ok && !lb.error ==> Delivers(s, pieces, lb.Safe(|s|), lb.Most(|s|), binary || lb.ofString)
    ensures planned ==> ok == (left != [])
    ensures planned && ok ==> pieces' == pieces + [left[0]] && Scheduled(lb, left[1..], binary)
  {
    ghost var safe, most, rest := lb.Safe(|s|), lb.Most(|s|), lb.Pending();
    var piece;
    ok, piece := ReadNext(lb, binary, |s|, planned, left);
    if ok {
      pieces' := pieces + [piece];
      DeliverOneMore(s, pieces, rest, piece, safe, most, binary || lb.ofString);
    } else {
      if !lb.error { DeliveredAll(s, pieces, rest, safe, most, binary || lb.ofString); }
      pieces' := pieces;
    }
  }

  lemma MoveHead<T>(all: seq<T>, front: seq<T>, left: seq<T>)
    requires all == front + left && left != []
    ensures all == (front + [left[0]]) + left[1..]
  {
  }

  /** The read loop goes on, or has come to its end. */
  ghost predicate Reading(lb: LineBuffer, s: seq<char>, pieces: seq<Piece>, binary: bool, ok: bool)
    reads lb, lb.buffer, lb.file
  {
    if ok then Delivering(lb, s, pieces, binary)
    else !lb.error ==> Delivers(s, pieces, lb.Safe(|s|), lb.Most(|s|), binary || lb.ofString)
  }

  /** The pieces read are those expected, but for the ones left. */
  ghost predicate Expecting(lb: LineBuffer, pieces: seq<Piece>, left: seq<Piece>, expected: seq<Piece>, binary: bool,
      ok: bool)
    reads lb, lb.buffer, lb.file
  {
    expected == pieces + left && if ok then Scheduled(lb, left, binary) else left == []
  }

  /**
    Reading a file or a string to its end, as the batch loop does. Whatever the sizes of the
    reads, the pieces are a delivery of the content; lines within the safe limit arrive
    whole, as all lines of a string do. And every delivery of a file's content is what
    some sizes of the reads lead to.
   */
  method ReadAll(lb: LineBuffer, binary: bool, ghost planned: bool, ghost expected: seq<Piece>)
    returns (pieces: seq<Piece>)
    requires lb.Serving()
    requires planned ==> Scheduled(lb, expected, binary)
    modifies lb, lb.buffer, lb.file
    ensures var s := old(lb.Pending()); !lb.error ==>
      && Delivers(s, pieces, lb.Safe(|s|), lb.Most(|s|), binary || lb.ofString)
      && (lb.ofString || AllLinesWithin(s, lb.Safe(|s|)) ==> pieces == WholeLines(s, binary || lb.ofString))
    ensures planned ==> pieces == expected
  {
    ghost var s, left := lb.Pending(), expected;
    var ok := true;
    pieces := [];
    while ok
      invariant lb.buffer == old(lb.buffer) || fresh(lb.buffer)
      invariant Reading(lb, s, pieces, binary, ok)
      invariant planned ==> Expecting(lb, pieces, left, expected, binary, ok)
      decreases ok, if ok then |lb.Pending()| else 0
    {
      ghost var before := pieces;
      ok, pieces := ReadOn(lb, binary, s, pieces, planned, left);
      if planned && ok {
        MoveHead(expected, before, left);
        left := left[1..];
      }
    }
    if !lb.error {
      AllArrived(s, pieces, lb.Safe(|s|), lb.Most(|s|), binary || lb.ofString, lb.ofString);
    }
  }

  /** Lines within the safe limit have arrived whole. */
  lemma AllArrived(s: seq<char>, pieces: seq<Piece>, safe: nat, capacity: nat, binary: bool, unlimited: bool)
    requires Delivers(s, pieces, safe, capacity, binary) && (unlimited ==> safe >= |s|)
    ensures unlimited || AllLinesWithin(s, safe) ==> pieces == WholeLines(s, binary)
  {
    if unlimited { LinesWithinStream(s, safe); }
    if unlimited || AllLinesWithin(s, safe) {
      ShortLinesDeliverOneWay(s, pieces, [], safe, capacity, binary);
      assert pieces + [] == pieces;
    }
  }

  /** A new reader at the beginning of a file. */
  method Open(content: seq<char>, plan: seq<Outcome>, max: nat, binary: bool, ghost expected: seq<Piece>)
    returns (lb: LineBuffer)
    requires max < 0x8000_0000
    ensures fresh(lb) && fresh(lb.buffer) && fresh(lb.file)
    ensures lb.Serving() && !lb.ofString && lb.Pending() == content && lb.capacity == Capacity(IO_SIZE, max)
    ensures IO_SIZE <= lb.capacity
    ensures Schedule(content, plan, expected, lb.capacity - IO_SIZE, lb.capacity, binary) ==>
              Scheduled(lb, expected, binary)
  {
    CapacityBounds(IO_SIZE, max);
    var file := new File(content, plan);
    lb := new LineBuffer.FromFile(file, max);
  }

  /**
    A file read from its beginning with a new buffer. Its pieces are a delivery of the
    content; and any delivery is read, if the reads are planned for it.
   */
  method ReadFile(content: seq<char>, plan: seq<Outcome>, max: nat, binary: bool, ghost expected: seq<Piece>)
    returns (failed: bool, pieces: seq<Piece>)
    requires max < 0x8000_0000
    ensures var capacity := Capacity(IO_SIZE, max);
      && IO_SIZE <= capacity
      && (!failed ==> Delivers(content, pieces, capacity - IO_SIZE, capacity, binary))
      && (Schedule(content, plan, expected, capacity - IO_SIZE, capacity, binary) ==> pieces == expected)
  {
    var lb := Open(content, plan, max, binary, expected);
    pieces := ReadAll(lb, binary, Schedule(content, plan, expected, lb.capacity - IO_SIZE, lb.capacity, binary),
        expected);
    failed := lb.error;
  }
}
