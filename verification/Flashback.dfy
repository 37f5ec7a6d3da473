/**
  mysqlbinlog --flashback: the row events of a statement are queued and printed from the last
  one to the first, the printed statements are held back and written from the last one to
  the first, and the end-of-statement flag moves from the last event to the first.
  How one event is inverted and printed is left open: a row event is its bytes.
 */
module Flashback {
  import opened Shared

  type Change = seq<char>

  /** One event of the log. Begin stands for GTID and BEGIN, Commit for XID and COMMIT. */
  datatype Entry = Map(id: nat) | Row(change: Change, stmtEnd: bool) | Begin | Commit

  /** One printed event: a row event is printed inverted, and the transaction marks are swapped. */
  datatype Item = MapItem(id: nat) | RowItem(change: Change, stmtEnd: bool) | CommitItem | StartItem

  // --- what the program computes

  /** The queued changes of the statement, the printed events not yet held, and the held outputs. */
  datatype State = State(queue: seq<Change>, cache: seq<Item>, held: seq<seq<Item>>)

  /** The queue printed from its last event to its first, which carries the flag. */
  function Reversed(queue: seq<Change>): (r: seq<Item>)
    ensures |r| == |queue|
  {
    if queue == [] then []
    else [RowItem(queue[|queue| - 1], |queue| == 1)] + Reversed(queue[..|queue| - 1])
  }

  function Feed(s: State, e: Entry): State {
    match e
    case Map(id) => s.(cache := s.cache + [MapItem(id)], queue := [])
    case Row(change, stmtEnd) =>
      var queue := s.queue + [change];
      if stmtEnd then State([], [], s.held + [s.cache + Reversed(queue)]) else s.(queue := queue)
    case Begin => s.(held := s.held + [[CommitItem]])
    case Commit => s.(held := s.held + [[StartItem]])
  }

  function FeedAll(s: State, log: seq<Entry>): State
    decreases |log|
  {
    if log == [] then s else FeedAll(Feed(s, log[0]), log[1..])
  }

  /** What is written in the end. */
  function Written(held: seq<seq<Item>>): seq<Item> {
    if held == [] then [CommitItem] else held[|held| - 1] + Written(held[..|held| - 1])
  }

  // --- the program

  class LogEvent {
    const entry: Entry
    var stmtEnd: bool              // STMT_END_F
    var outputBuf: seq<Item>
    var deleted: bool

    constructor (entry: Entry)
      ensures this.entry == entry && Unread()
    {
      this.entry := entry;
      stmtEnd, outputBuf, deleted := entry.Row? && entry.stmtEnd, [], false;
    }

    /** As it was read from the log. */
    ghost predicate Unread()
      reads this
    {
      !deleted && outputBuf == [] && stmtEnd == (entry.Row? && entry.stmtEnd)
    }

    /** An event may be deleted once only. */
    method Delete()
      requires !deleted
      modifies this`deleted
      ensures deleted
    {
      deleted := true;
    }
  }

  class Printer {
    var eventsInStmt: seq<LogEvent>
    var binlogEvents: seq<seq<Item>>
    var cache: seq<Item>

    constructor ()
      ensures Valid() && eventsInStmt == [] && Abstract() == State([], [], [])
    {
      eventsInStmt, binlogEvents, cache := [], [], [];
    }

    /** The queued events are distinct live row events; the first one carries the flag. */
    ghost predicate Valid()
      reads this, eventsInStmt
    {
      && (forall i, j :: 0 <= i < j < |eventsInStmt| ==> eventsInStmt[i] != eventsInStmt[j])
      && (forall i :: 0 <= i < |eventsInStmt| ==> Queued(eventsInStmt[i], i))
    }

    ghost function Abstract(): State
      reads this
    {
      State(Changes(eventsInStmt), cache, binlogEvents)
    }

    /** The flag handling and queueing at the start of print_row_event. */
    method Enqueue(ev: LogEvent, isStmtEnd: bool)
      requires Valid() && ev.Unread() && ev.entry.Row? && isStmtEnd == ev.stmtEnd && ev !in eventsInStmt
      modifies this`eventsInStmt, ev`stmtEnd
      ensures Valid() && eventsInStmt == old(eventsInStmt) + [ev]
    {
      if isStmtEnd { ev.stmtEnd := false; }
      if |eventsInStmt| == 0 { ev.stmtEnd := true; }
      eventsInStmt := eventsInStmt + [ev];
    }

    /** Print a row event; one with the flag takes over what has been printed. */
    method PrintRow(e: LogEvent)
      requires !e.deleted && e.entry.Row?
      modifies this`cache, e`outputBuf
      ensures if e.stmtEnd
        then cache == [] && e.outputBuf == old(e.outputBuf) + (old(cache) + [RowItem(e.entry.change, true)])
        else cache == old(cache) + [RowItem(e.entry.change, false)] && e.outputBuf == old(e.outputBuf)
    {
      cache := cache + [RowItem(e.entry.change, e.stmtEnd)];
      if e.stmtEnd {
        e.outputBuf, cache := e.outputBuf + cache, [];
      }
    }

    /** The first i events are still to be printed; the first one ends up with all the output. */
    ghost predicate Printing(i: nat, queue: seq<Change>, all: seq<Item>)
      reads this, eventsInStmt
    {
      && eventsInStmt != [] && i <= |eventsInStmt| && queue == Changes(eventsInStmt)
      && (if i > 0 then Valid() && cache + Reversed(queue[..i]) == all
          else cache == [] && eventsInStmt[0].outputBuf == all)
    }

    method PrintNext(i: nat, ghost queue: seq<Change>, ghost all: seq<Item>)
      requires i > 0 && Printing(i, queue, all)
      modifies this`cache, eventsInStmt`outputBuf
      ensures Printing(i - 1, queue, all)
    {
      var e := eventsInStmt[i - 1];
      assert Queued(e, i - 1);
      assert queue[..i][..i - 1] == queue[..i - 1];
      PrintRow(e);
    }

    /** Print the queue from the last event to the first. */
    method PrintReversed(ghost queue: seq<Change>, ghost all: seq<Item>)
      requires Printing(|eventsInStmt|, queue, all)
      modifies this`cache, eventsInStmt`outputBuf
      ensures Printing(0, queue, all)
    {
      var i := |eventsInStmt|;
      while i > 0
        invariant 0 <= i <= |eventsInStmt| && Printing(i, queue, all)
      {
        PrintNext(i, queue, all);
        i := i - 1;
      }
    }

    /** Delete the queued events except the last one. */
    method DeleteQueued()
      requires eventsInStmt != [] && forall i :: 0 <= i < |eventsInStmt| ==> !eventsInStmt[i].deleted
      requires forall i, j :: 0 <= i < j < |eventsInStmt| ==> eventsInStmt[i] != eventsInStmt[j]
      modifies eventsInStmt`deleted
      ensures forall i :: 0 <= i < |eventsInStmt| ==> eventsInStmt[i].deleted == (i < |eventsInStmt| - 1)
    {
      var i := 0;
      while i < |eventsInStmt| - 1
        invariant 0 <= i <= |eventsInStmt| - 1
        invariant forall j :: 0 <= j < |eventsInStmt| ==> eventsInStmt[j].deleted == (j < i)
      {
        eventsInStmt[i].Delete();
        i := i + 1;
      }
    }

    /** The rest of print_row_event at the end of a statement. */
    method FinishStatement(ev: LogEvent)
      requires Valid() && eventsInStmt != [] && ev == eventsInStmt[|eventsInStmt| - 1]
      modifies this`cache, this`eventsInStmt, eventsInStmt
      ensures eventsInStmt == [] && cache == []
      ensures ev.outputBuf == old(cache) + Reversed(Changes(old(eventsInStmt))) && !ev.deleted
      ensures forall e :: e in old(eventsInStmt) && e != ev ==> e.deleted
    {
      ghost var queue := Changes(eventsInStmt);
      assert queue[..|eventsInStmt|] == queue;
      PrintReversed(queue, cache + Reversed(queue));
      ev.outputBuf := eventsInStmt[0].outputBuf;
      DeleteQueued();
      eventsInStmt := [];
    }

    /** print_row_event in flashback mode. */
    method PrintRowEvent(ev: LogEvent, isStmtEnd: bool)
      requires Valid() && ev.Unread() && ev.entry.Row? && isStmtEnd == ev.stmtEnd && ev !in eventsInStmt
      modifies this, eventsInStmt, ev
      ensures Valid() && !ev.deleted && binlogEvents == old(binlogEvents)
      ensures var queue := Changes(old(eventsInStmt)) + [ev.entry.change];
        if isStmtEnd
        then eventsInStmt == [] && cache == [] && ev.outputBuf == old(cache) + Reversed(queue)
        else eventsInStmt == old(eventsInStmt) + [ev] && cache == old(cache) && ev.outputBuf == []
      ensures forall i :: 0 <= i < |old(eventsInStmt)| ==> old(eventsInStmt)[i].deleted == isStmtEnd
    {
      Enqueue(ev, isStmtEnd);
      assert Changes(eventsInStmt) == Changes(old(eventsInStmt)) + [ev.entry.change];
      if isStmtEnd {
        FinishStatement(ev);
      } else {
        assert forall i :: 0 <= i < |old(eventsInStmt)| ==> Queued(eventsInStmt[i], i);
      }
    }

    /** The row and output parts of process_event. */
    method ProcessEvent(ev: LogEvent)
      requires Valid() && ev.Unread() && ev !in eventsInStmt
      modifies this, eventsInStmt, ev
      ensures Valid() && Abstract() == Feed(old(Abstract()), ev.entry)
      ensures eventsInStmt ==
          if Waits(ev.entry) then old(eventsInStmt) + [ev] else if KeepsQueue(ev.entry) then old(eventsInStmt) else []
      ensures ev.deleted == !Waits(ev.entry)
      ensures forall i :: 0 <= i < |old(eventsInStmt)| ==>
        old(eventsInStmt)[i].deleted == (ev.entry.Row? && ev.entry.stmtEnd)
    {
      var destroy := true;
      match ev.entry {
        case Map(id) =>
          cache, eventsInStmt := cache + [MapItem(id)], [];
        case Row(_, _) =>
          destroy := ev.stmtEnd;
          PrintRowEvent(ev, ev.stmtEnd);
        case Begin =>
          ev.outputBuf := ev.outputBuf + [CommitItem];
          assert ev.outputBuf == [CommitItem];
        case Commit =>
          ev.outputBuf := ev.outputBuf + [StartItem];
          assert ev.outputBuf == [StartItem];
      }
      if ev.outputBuf != [] {
        binlogEvents, ev.outputBuf := binlogEvents + [ev.outputBuf], [];
      }
      if destroy { ev.Delete(); }
      assert Abstract().queue == Feed(old(Abstract()), ev.entry).queue;
    }
  }

  /** A row event that does not end its statement stays in the queue. */
  predicate Waits(e: Entry) { e.Row? && !e.stmtEnd }

  /** The transaction marks leave the queue alone. */
  predicate KeepsQueue(e: Entry) { e.Begin? || e.Commit? }

  ghost predicate Queued(e: LogEvent, i: nat)
    reads e
  {
    e.entry.Row? && !e.deleted && e.outputBuf == [] && e.stmtEnd == (i == 0)
  }

  ghost function Changes(events: seq<LogEvent>): seq<Change> {
    seq(|events|, i requires 0 <= i < |events| => if events[i].entry.Row? then events[i].entry.change else [])
  }

  /** No table map comes inside a statement, and the last statement ends. */
  predicate Complete(s: State, log: seq<Entry>)
    decreases |log|
  {
    if log == [] then s.queue == []
    else (log[0].Map? ==> s.queue == []) && Complete(Feed(s, log[0]), log[1..])
  }

  /** The queue holds the events at the positions at, all before k. */
  ghost predicate QueueAt(queue: seq<LogEvent>, events: seq<LogEvent>, k: nat, at: seq<nat>)
    requires k <= |events|
  {
    |at| == |queue| && forall j :: 0 <= j < |at| ==> at[j] < k && queue[j] == events[at[j]]
  }

  /** After k events: the queue holds some of them, and the rest of them are deleted. */
  ghost predicate Driving(p: Printer, events: seq<LogEvent>, k: nat, complete: bool, at: seq<nat>)
    requires k <= |events|
    reads p, p.eventsInStmt, events
  {
    && p.Valid() && QueueAt(p.eventsInStmt, events, k, at)
    && (forall i :: k <= i < |events| ==> events[i].Unread())
    && (complete ==> forall i :: 0 <= i < k ==> events[i].deleted || i in at)
  }

  /** Where the queue's events are after one more event. */
  function NextAt(e: Entry, k: nat, at: seq<nat>): seq<nat> {
    if Waits(e) then at + [k] else if KeepsQueue(e) then at else []
  }

  /** A deleted event is not queued. */
  lemma DeletedIsOut(p: Printer, e: LogEvent)
    requires p.Valid() && e.deleted
    ensures e !in p.eventsInStmt
  {
  }

  method DriveOne(p: Printer, events: seq<LogEvent>, k: nat, ghost complete: bool, ghost at: seq<nat>)
    requires k < |events| && Driving(p, events, k, complete, at)
    requires forall i, j :: 0 <= i < j < |events| ==> events[i] != events[j]
    requires complete && events[k].entry.Map? ==> p.eventsInStmt == []
    modifies p, events
    ensures p.Abstract() == Feed(old(p.Abstract()), events[k].entry)
    ensures Driving(p, events, k + 1, complete, NextAt(events[k].entry, k, at))
  {
    ghost var at' := NextAt(events[k].entry, k, at);
    forall i | 0 <= i < k && events[i].deleted
      ensures events[i] !in p.eventsInStmt
    {
      DeletedIsOut(p, events[i]);
    }
    p.ProcessEvent(events[k]);
    assert QueueAt(p.eventsInStmt, events, k + 1, at');
    forall i | complete && 0 <= i <= k
      ensures events[i].deleted || i in at'
    {
      if i == k {
        assert Waits(events[k].entry) ==> at'[|at|] == k;
      } else if i in at {
        var j :| 0 <= j < |at| && at[j] == i;
        assert Waits(events[k].entry) ==> at'[j] == i;
      }
    }
  }

  /**
    Reading the log event by event and then writing the held outputs. If no table map comes
    inside a statement and the last statement ends, every event is deleted.
   */
  method FlashbackLog(events: seq<LogEvent>) returns (written: seq<Item>)
    requires forall i :: 0 <= i < |events| ==> events[i].Unread()
    requires forall i, j :: 0 <= i < j < |events| ==> events[i] != events[j]
    modifies events
    ensures written == Written(FeedAll(State([], [], []), Entries(events)).held)
    ensures forall groups :: WellFormed(groups) && Entries(events) == Log(groups) ==>
      written == BackwardsOutput(groups) + [CommitItem]
    ensures Complete(State([], [], []), Entries(events)) ==> forall i :: 0 <= i < |events| ==> events[i].deleted
  {
    var p := new Printer();
    var k := 0;
    ghost var log, at := Entries(events), [];
    ghost var complete, end := Complete(State([], [], []), log), FeedAll(State([], [], []), log);
    assert log[0..] == log;
    while k < |events|
      invariant 0 <= k <= |events| && fresh(p) && Driving(p, events, k, complete, at)
      invariant end == FeedAll(p.Abstract(), log[k..])
      invariant complete ==> Complete(p.Abstract(), log[k..])
    {
      assert log[k..][0] == events[k].entry && log[k..][1..] == log[k + 1..];
      DriveOne(p, events, k, complete, at);
      at := NextAt(events[k].entry, k, at);
      k := k + 1;
    }
    written := WriteBackwards(p.binlogEvents);
    forall groups | WellFormed(groups) && log == Log(groups)
      ensures written == BackwardsOutput(groups) + [CommitItem]
    {
      AllIsWritten(groups);
    }
  }

  /** The loop of main over the held outputs, and the closing COMMIT. */
  method WriteBackwards(held: seq<seq<Item>>) returns (written: seq<Item>)
    ensures written == Written(held)
  {
    written := [];
    var i := |held|;
    assert held[..i] == held;
    while i > 0
      invariant 0 <= i <= |held|
      invariant written + Written(held[..i]) == Written(held)
    {
      assert held[..i][..i - 1] == held[..i - 1];
      written := written + held[i - 1];
      i := i - 1;
    }
    written := written + [CommitItem];
  }

  ghost function Entries(events: seq<LogEvent>): seq<Entry> {
    seq(|events|, i requires 0 <= i < |events| => events[i].entry)
  }

  // --- what it means

  /** A statement of the log: table maps, then row events of which the last has the flag. */
  datatype Group = Statement(maps: seq<nat>, changes: seq<Change>) | Mark(begins: bool)

  predicate WellFormed(groups: seq<Group>) {
    forall i :: 0 <= i < |groups| && groups[i].Statement? ==> groups[i].changes != []
  }

  function MapEntries(maps: seq<nat>): seq<Entry> {
    if maps == [] then [] else [Map(maps[0])] + MapEntries(maps[1..])
  }

  function RowEntries(changes: seq<Change>): seq<Entry> {
    if changes == [] then [] else [Row(changes[0], |changes| == 1)] + RowEntries(changes[1..])
  }

  function GroupLog(g: Group): seq<Entry> {
    match g
    case Statement(maps, changes) => MapEntries(maps) + RowEntries(changes)
    case Mark(begins) => [if begins then Begin else Commit]
  }

  function Log(groups: seq<Group>): seq<Entry> {
    if groups == [] then [] else GroupLog(groups[0]) + Log(groups[1..])
  }

  function MapItems(maps: seq<nat>): seq<Item> {
    if maps == [] then [] else [MapItem(maps[0])] + MapItems(maps[1..])
  }

  /** A statement is printed as its table maps and then its row events backwards. */
  function GroupOutput(g: Group): seq<Item> {
    match g
    case Statement(maps, changes) => MapItems(maps) + Reversed(changes)
    case Mark(begins) => [if begins then CommitItem else StartItem]
  }

  function Outputs(groups: seq<Group>): seq<seq<Item>> {
    if groups == [] then [] else [GroupOutput(groups[0])] + Outputs(groups[1..])
  }

  lemma {:induction false} FeedAppend(s: State, a: seq<Entry>, b: seq<Entry>)
    ensures FeedAll(s, a + b) == FeedAll(FeedAll(s, a), b)
    ensures Complete(FeedAll(s, a), b) && FeedAll(s, a).queue == [] && Complete(s, a) ==> Complete(s, a + b)
    decreases |a|
  {
    if a == [] {
      assert a + b == b;
    } else {
      assert (a + b)[1..] == a[1..] + b;
      FeedAppend(Feed(s, a[0]), a[1..], b);
    }
  }

  lemma FeedOne(s: State, e: Entry, rest: seq<Entry>)
    ensures FeedAll(s, [e] + rest) == FeedAll(Feed(s, e), rest)
    ensures Complete(s, [e] + rest) <==> (e.Map? ==> s.queue == []) && Complete(Feed(s, e), rest)
  {
    assert ([e] + rest)[1..] == rest;
  }

  lemma {:induction false} FeedMaps(s: State, maps: seq<nat>)
    requires s.queue == []
    ensures FeedAll(s, MapEntries(maps)) == State([], s.cache + MapItems(maps), s.held)
    ensures Complete(s, MapEntries(maps))
    decreases |maps|
  {
    if maps == [] {
      assert s.cache + [] == s.cache;
    } else {
      var s' := Feed(s, Map(maps[0]));
      FeedOne(s, Map(maps[0]), MapEntries(maps[1..]));
      FeedMaps(s', maps[1..]);
      assert s'.cache + MapItems(maps[1..]) == s.cache + MapItems(maps);
    }
  }

  lemma {:induction false} FeedRows(s: State, changes: seq<Change>)
    requires changes != []
    ensures FeedAll(s, RowEntries(changes)) == State([], [], s.held + [s.cache + Reversed(s.queue + changes)])
    ensures Complete(s, RowEntries(changes))
    decreases |changes|
  {
    var e := Row(changes[0], |changes| == 1);
    var s' := Feed(s, e);
    FeedOne(s, e, RowEntries(changes[1..]));
    if |changes| == 1 {
      assert s.queue + changes == s.queue + [changes[0]];
    } else {
      FeedRows(s', changes[1..]);
      assert s.queue + changes == s'.queue + changes[1..];
    }
  }

  lemma FeedGroup(held: seq<seq<Item>>, g: Group)
    requires g.Statement? ==> g.changes != []
    ensures FeedAll(State([], [], held), GroupLog(g)) == State([], [], held + [GroupOutput(g)])
    ensures Complete(State([], [], held), GroupLog(g))
  {
    match g
    case Statement(maps, changes) =>
      var s := State([], [], held);
      FeedAppend(s, MapEntries(maps), RowEntries(changes));
      FeedMaps(s, maps);
      assert [] + MapItems(maps) == MapItems(maps) && [] + changes == changes;
      FeedRows(s.(cache := MapItems(maps)), changes);
    case Mark(begins) =>
      assert GroupLog(g)[1..] == [];
  }

  /** Every statement is held as its output, in log order, and every event is dealt with. */
  lemma {:induction false} FeedLog(held: seq<seq<Item>>, groups: seq<Group>)
    requires WellFormed(groups)
    ensures FeedAll(State([], [], held), Log(groups)) == State([], [], held + Outputs(groups))
    ensures Complete(State([], [], held), Log(groups))
    decreases |groups|
  {
    if groups == [] {
      assert held + [] == held;
    } else {
      var held' := held + [GroupOutput(groups[0])];
      FeedLog(held', groups[1..]);
      assert held + Outputs(groups) == held' + Outputs(groups[1..]);
      FeedGroup(held, groups[0]);
      FeedAppend(State([], [], held), GroupLog(groups[0]), Log(groups[1..]));
    }
  }

  /** The flag is on the last event of a reversed statement only. */
  lemma {:induction false} ReversedAt(queue: seq<Change>, k: nat)
    requires k < |queue|
    ensures Reversed(queue)[k] == RowItem(queue[|queue| - 1 - k], k == |queue| - 1)
  {
    if k > 0 { ReversedAt(queue[..|queue| - 1], k - 1); }
  }

  lemma {:induction false} MapItemAt(maps: seq<nat>, k: nat)
    requires k < |maps|
    ensures |MapItems(maps)| == |maps| && MapItems(maps)[k] == MapItem(maps[k])
  {
    if |maps| > 1 { MapItemAt(maps[1..], if k == 0 then 0 else k - 1); }
  }

  /** A statement is printed as its table maps in order, then its rows from the last to the first. */
  lemma StatementOutputAt(maps: seq<nat>, changes: seq<Change>, k: nat)
    requires k < |maps| + |changes|
    ensures var out, n := GroupOutput(Statement(maps, changes)), |changes|;
      && |out| == |maps| + n
      && out[k] == if k < |maps| then MapItem(maps[k])
                   else RowItem(changes[n - 1 - (k - |maps|)], k == |maps| + n - 1)
  {
    if maps != [] { MapItemAt(maps, if k < |maps| then k else 0); }
    if k >= |maps| { ReversedAt(changes, k - |maps|); }
  }

  // --- the whole output

  /** The outputs of the groups from the last to the first. */
  function BackwardsOutput(groups: seq<Group>): seq<Item> {
    if groups == [] then [] else BackwardsOutput(groups[1..]) + GroupOutput(groups[0])
  }

  lemma {:induction false} BackwardsOutputAppend(a: seq<Group>, b: seq<Group>)
    ensures BackwardsOutput(a + b) == BackwardsOutput(b) + BackwardsOutput(a)
  {
    hide GroupOutput;
    if a == [] {
      assert a + b == b;
    } else {
      BackwardsOutputAppend(a[1..], b);
      assert (a + b)[1..] == a[1..] + b && (a + b)[0] == a[0];
      Associate(BackwardsOutput(b), BackwardsOutput(a[1..]), GroupOutput(a[0]));
    }
  }

  lemma {:induction false} WrittenMore(first: seq<Item>, held: seq<seq<Item>>, rest: seq<Item>)
    requires Written(held) == rest + [CommitItem]
    ensures Written([first] + held) == (rest + first) + [CommitItem]
    decreases |held|
  {
    if held == [] {
      assert ([first] + held)[..0] == [] && [first] + held == [first];
      assert rest == [] by { assert |rest + [CommitItem]| == 1; }
    } else {
      var last := |held| - 1;
      assert ([first] + held)[..|held|] == [first] + held[..last];
      WrittenEnds(held[..last]);
      var rest' := Written(held[..last])[..|Written(held[..last])| - 1];
      assert Written(held[..last]) == rest' + [CommitItem];
      WrittenMore(first, held[..last], rest');
      assert held[last] + (rest' + [CommitItem]) == (held[last] + rest') + [CommitItem];
      assert rest == held[last] + rest' by {
        assert (rest + [CommitItem])[..|rest|] == ((held[last] + rest') + [CommitItem])[..|rest|];
      }
      assert held[last] + ((rest' + first) + [CommitItem]) == ((held[last] + rest') + first) + [CommitItem];
    }
  }

  lemma {:induction false} WrittenEnds(held: seq<seq<Item>>)
    ensures Written(held) != [] && Written(held)[|Written(held)| - 1] == CommitItem
  {
    if held != [] { WrittenEnds(held[..|held| - 1]); }
  }

  lemma {:induction false} OutputsWritten(groups: seq<Group>)
    ensures Written(Outputs(groups)) == BackwardsOutput(groups) + [CommitItem]
  {
    if groups != [] {
      OutputsWritten(groups[1..]);
      WrittenMore(GroupOutput(groups[0]), Outputs(groups[1..]), BackwardsOutput(groups[1..]));
    }
  }

  /** Everything is written: the output of every statement and mark, from the last to the first, and a COMMIT. */
  lemma AllIsWritten(groups: seq<Group>)
    requires WellFormed(groups)
    ensures Written(FeedAll(State([], [], []), Log(groups)).held) == BackwardsOutput(groups) + [CommitItem]
  {
    FeedLog([], groups);
    assert [] + Outputs(groups) == Outputs(groups);
    OutputsWritten(groups);
  }

  /** A transaction: its statements between BEGIN and COMMIT. */
  function TransactionGroups(statements: seq<Group>): seq<Group> {
    [Mark(true)] + statements + [Mark(false)]
  }

  function AllGroups(transactions: seq<seq<Group>>): seq<Group> {
    if transactions == [] then [] else TransactionGroups(transactions[0]) + AllGroups(transactions[1..])
  }

  /** What undoes a transaction: its statements backwards, again as a transaction. */
  function UndoTransaction(statements: seq<Group>): seq<Item> {
    [StartItem] + BackwardsOutput(statements) + [CommitItem]
  }

  function UndoAllTransactions(transactions: seq<seq<Group>>): seq<Item> {
    if transactions == [] then [] else UndoAllTransactions(transactions[1..]) + UndoTransaction(transactions[0])
  }

  lemma TransactionBackwards(statements: seq<Group>)
    ensures BackwardsOutput(TransactionGroups(statements)) == UndoTransaction(statements)
  {
    BackwardsOutputAppend([Mark(true)] + statements, [Mark(false)]);
    BackwardsOutputAppend([Mark(true)], statements);
    assert [Mark(true)][1..] == [] && [Mark(false)][1..] == [];
    assert BackwardsOutput([Mark(true)]) == [CommitItem] && BackwardsOutput([Mark(false)]) == [StartItem];
  }

  lemma {:induction false} TransactionsBackwards(transactions: seq<seq<Group>>)
    ensures BackwardsOutput(AllGroups(transactions)) == UndoAllTransactions(transactions)
  {
    if transactions != [] {
      TransactionsBackwards(transactions[1..]);
      BackwardsOutputAppend(TransactionGroups(transactions[0]), AllGroups(transactions[1..]));
      TransactionBackwards(transactions[0]);
    }
  }

  /** A log of complete transactions is undone transaction by transaction, from the last to the first. */
  lemma TransactionsAreUndone(transactions: seq<seq<Group>>)
    requires WellFormed(AllGroups(transactions))
    ensures Written(FeedAll(State([], [], []), Log(AllGroups(transactions))).held)
            == UndoAllTransactions(transactions) + [CommitItem]
  {
    AllIsWritten(AllGroups(transactions));
    TransactionsBackwards(transactions);
  }

  // --- undoing

  function Backwards<T>(s: seq<T>): seq<T> {
    if s == [] then [] else Backwards(s[1..]) + [s[0]]
  }

  /** The changes among printed events, in order. */
  function Printed(items: seq<Item>): seq<Change> {
    if items == [] then []
    else (if items[0].RowItem? then [items[0].change] else []) + Printed(items[1..])
  }

  /** The changes of the log, in order. */
  function Logged(log: seq<Entry>): seq<Change> {
    if log == [] then []
    else (if log[0].Row? then [log[0].change] else []) + Logged(log[1..])
  }

  lemma {:induction false} BackwardsAppend<T>(a: seq<T>, b: seq<T>)
    ensures Backwards(a + b) == Backwards(b) + Backwards(a)
  {
    if a == [] {
      assert a + b == b;
    } else {
      assert (a + b)[1..] == a[1..] + b;
      BackwardsAppend(a[1..], b);
    }
  }

  lemma {:induction false} PrintedAppend(a: seq<Item>, b: seq<Item>)
    ensures Printed(a + b) == Printed(a) + Printed(b)
  {
    if a == [] {
      assert a + b == b;
    } else {
      assert (a + b)[1..] == a[1..] + b;
      PrintedAppend(a[1..], b);
    }
  }

  lemma {:induction false} LoggedAppend(a: seq<Entry>, b: seq<Entry>)
    ensures Logged(a + b) == Logged(a) + Logged(b)
  {
    if a == [] {
      assert a + b == b;
    } else {
      assert (a + b)[1..] == a[1..] + b;
      LoggedAppend(a[1..], b);
    }
  }

  lemma {:induction false} PrintedReversed(queue: seq<Change>)
    ensures Printed(Reversed(queue)) == Backwards(queue)
  {
    if queue != [] {
      var last := |queue| - 1;
      PrintedReversed(queue[..last]);
      assert queue == queue[..last] + [queue[last]];
      BackwardsAppend(queue[..last], [queue[last]]);
    }
  }

  lemma {:induction false} NoRowsInMaps(maps: seq<nat>)
    ensures Printed(MapItems(maps)) == [] && Logged(MapEntries(maps)) == []
  {
    if maps != [] { NoRowsInMaps(maps[1..]); }
  }

  lemma {:induction false} LoggedRows(changes: seq<Change>)
    ensures Logged(RowEntries(changes)) == changes
  {
    if changes != [] { LoggedRows(changes[1..]); }
  }

  /** A statement's output undoes its changes backwards. */
  lemma GroupBackwards(g: Group)
    ensures Printed(GroupOutput(g)) == Backwards(Logged(GroupLog(g)))
  {
    match g
    case Statement(maps, changes) =>
      PrintedAppend(MapItems(maps), Reversed(changes));
      LoggedAppend(MapEntries(maps), RowEntries(changes));
      NoRowsInMaps(maps);
      LoggedRows(changes);
      PrintedReversed(changes);
      assert Logged(GroupLog(g)) == [] + changes == changes;
      assert Printed(GroupOutput(g)) == [] + Backwards(changes) == Backwards(changes);
    case Mark(_) =>
  }

  lemma {:induction false} WrittenFirst(held: seq<seq<Item>>, rest: seq<seq<Item>>)
    ensures Printed(Written(held + rest)) == Printed(Written(rest)) + Printed(Written(held))
  {
    if rest == [] {
      assert held + rest == held;
    } else {
      var last := |rest| - 1;
      assert (held + rest)[..|held + rest| - 1] == held + rest[..last];
      WrittenFirst(held, rest[..last]);
      PrintedAppend(rest[last], Written(held + rest[..last]));
      PrintedAppend(rest[last], Written(rest[..last]));
    }
  }

  lemma {:induction false} OutputsBackwards(groups: seq<Group>)
    ensures Printed(Written(Outputs(groups))) == Backwards(Logged(Log(groups)))
  {
    if groups != [] {
      OutputsBackwards(groups[1..]);
      GroupBackwards(groups[0]);
      LoggedAppend(GroupLog(groups[0]), Log(groups[1..]));
      BackwardsAppend(Logged(GroupLog(groups[0])), Logged(Log(groups[1..])));
      WrittenFirst([GroupOutput(groups[0])], Outputs(groups[1..]));
      assert Written([]) == [CommitItem];
      PrintedAppend(GroupOutput(groups[0]), [CommitItem]);
      assert [GroupOutput(groups[0])][..0] == [];
    }
  }

  /** Flashback prints every row event of the log once, in exact reverse order. */
  lemma RowsInReverse(groups: seq<Group>)
    requires WellFormed(groups)
    ensures Printed(Written(FeedAll(State([], [], []), Log(groups)).held)) == Backwards(Logged(Log(groups)))
  {
    FeedLog([], groups);
    assert [] + Outputs(groups) == Outputs(groups);
    OutputsBackwards(groups);
  }

  function Replay<D>(apply: (D, Change) -> D, db: D, changes: seq<Change>): D
    decreases |changes|
  {
    if changes == [] then db else Replay(apply, apply(db, changes[0]), changes[1..])
  }

  /** Each printed event undoes its original, where the original was applied. */
  predicate Inverts<D(==)>(apply: (D, Change) -> D, undo: (D, Change) -> D, db: D, changes: seq<Change>)
    decreases |changes|
  {
    changes == [] ||
    (undo(apply(db, changes[0]), changes[0]) == db && Inverts(apply, undo, apply(db, changes[0]), changes[1..]))
  }

  lemma {:induction false} ReplayAppend<D>(apply: (D, Change) -> D, db: D, a: seq<Change>, b: seq<Change>)
    ensures Replay(apply, db, a + b) == Replay(apply, Replay(apply, db, a), b)
    decreases |a|
  {
    if a == [] {
      assert a + b == b;
    } else {
      assert (a + b)[1..] == a[1..] + b;
      ReplayAppend(apply, apply(db, a[0]), a[1..], b);
    }
  }

  lemma {:induction false} UndoAll<D>(apply: (D, Change) -> D, undo: (D, Change) -> D, db: D, changes: seq<Change>)
    requires Inverts(apply, undo, db, changes)
    ensures Replay(undo, Replay(apply, db, changes), Backwards(changes)) == db
    decreases |changes|
  {
    if changes != [] {
      var db' := apply(db, changes[0]);
      UndoAll(apply, undo, db', changes[1..]);
      ReplayAppend(undo, Replay(apply, db, changes), Backwards(changes[1..]), [changes[0]]);
      assert [changes[0]][1..] == [];
    }
  }

  /** So applying what flashback wrote to the state after the log restores the state before it. */
  lemma FlashbackRestores<D>(apply: (D, Change) -> D, undo: (D, Change) -> D, db: D, groups: seq<Group>)
    requires WellFormed(groups) && Inverts(apply, undo, db, Logged(Log(groups)))
    ensures var after := Replay(apply, db, Logged(Log(groups)));
      Replay(undo, after, Printed(Written(FeedAll(State([], [], []), Log(groups)).held))) == db
  {
    RowsInReverse(groups);
    UndoAll(apply, undo, db, Logged(Log(groups)));
  }
}
