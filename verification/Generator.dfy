/**
  The iterator that readline calls to list completions. It keeps its place between calls in
  static variables. For the empty text it walks the whole table, where every word is stored
  once under each of its prefixes, and lists it only under its full length.
 */
module Generator {
  import opened Wrappers
  import opened WordIndex
  import opened Completion

  /** The entries whose word has length n, and then the words to follow. */
  ghost function Entries(e: seq<Word>, n: nat, later: seq<Word>): seq<Word> {
    if e == [] then later
    else if |e[0]| == n then [e[0]] + Entries(e[1..], n, later)
    else Entries(e[1..], n, later)
  }

  /** What the walk lists for the buckets of a chain from position j on, and then. */
  ghost function Buckets(table: map<Word, seq<Word>>, chain: seq<Bucket>, j: nat, later: seq<Word>): seq<Word>
    decreases |chain| - j
  {
    if j >= |chain| || chain[j].Key() !in table then later
    else Entries(table[chain[j].Key()], |chain[j].Key()|, Buckets(table, chain, j + 1, later))
  }

  /** What it lists for the slots from i on. */
  ghost function Chains(table: map<Word, seq<Word>>, chains: seq<seq<Bucket>>, i: nat): seq<Word>
    decreases |chains| - i
  {
    if i >= |chains| then [] else Buckets(table, chains[i], 0, Chains(table, chains, i + 1))
  }

  /** What it lists from bucket j of slot i on. */
  ghost function After(table: map<Word, seq<Word>>, chains: seq<seq<Bucket>>, i: nat, j: nat): seq<Word>
    requires i < |chains|
  {
    Buckets(table, chains[i], j, Chains(table, chains, i + 1))
  }

  /** What it lists from the entries e of bucket j of slot i on. */
  ghost function WalkFrom(table: map<Word, seq<Word>>, chains: seq<seq<Bucket>>, i: nat, j: nat,
      e: seq<Word>): seq<Word>
    requires e != [] ==> i < |chains| && j < |chains[i]|
  {
    if e == [] then [] else Entries(e, |chains[i][j].Key()|, After(table, chains, i, j + 1))
  }

  /** Unread entries are in the list of the j-th bucket of slot i. */
  ghost predicate At(chains: seq<seq<Bucket>>, i: nat, j: nat, b: Bucket?, e: seq<Word>) {
    e != [] ==> i < |chains| && j < |chains[i]| && b == chains[i][j]
  }

  /** The word of an entry, if it has the length of its key. */
  ghost function Listed(w: Word, n: nat): seq<Word> {
    if |w| == n then [w] else []
  }

  lemma SkipEntry(e: seq<Word>, n: nat, later: seq<Word>)
    requires e != []
    ensures Entries(e, n, later) == Listed(e[0], n) + Entries(e[1..], n, later)
  {
  }

  class CommandGenerator {
    const ht: HashTable
    var textlen: nat
    var b: Bucket?
    var e: seq<Word>         // the entries not yet looked at; [] is the null pointer
    var i: nat
    ghost var j: nat         // where b is in the chain of slot i

    constructor (ht: HashTable)
      ensures this.ht == ht && e == []
    {
      this.ht := ht;
      textlen, b, e, i, j := 0, null, [], 0, 0;
    }

    /** The first used slot from k on, with its first bucket and that bucket's entries. */
    method EnterSlot(k: nat, ghost table: map<Word, seq<Word>>, ghost chains: seq<seq<Bucket>>)
      returns (i: nat, b: Bucket?, e: seq<Word>)
      requires ht.Valid() && table == ht.table && chains == ht.chains && k <= |chains|
      ensures k <= i <= |chains| && At(chains, i, 0, b, e) && (e == [] <==> i == |chains|)
      ensures WalkFrom(table, chains, i, 0, e) == Chains(table, chains, k)
    {
      i, b, e := k, null, [];
      while i < ht.size && ht.buckets[i] == null
        invariant k <= i <= ht.size
        invariant Chains(table, chains, k) == Chains(table, chains, i)
      {
        assert chains[i] == [];
        i := i + 1;
      }
      if i < ht.size {
        b := ht.buckets[i];
        e := ht.DataAt(b, i);
      }
    }

    /** The next bucket of the chain, or the first one of the next used slot. */
    method NextBucket(i: nat, ghost j: nat, b: Bucket, ghost table: map<Word, seq<Word>>,
        ghost chains: seq<seq<Bucket>>)
      returns (i': nat, ghost j': nat, b': Bucket?, e': seq<Word>)
      requires ht.Valid() && table == ht.table && chains == ht.chains
      requires i < |chains| && j < |chains[i]| && b == chains[i][j]
      ensures i' <= |chains| && At(chains, i', j', b', e')
      ensures WalkFrom(table, chains, i', j', e') == After(table, chains, i, j + 1)
      ensures i < i' || (i == i' && j < j' < |chains[i]|)
    {
      assert LinkAt(chains[i], j);
      if b.next == null {
        i', b', e' := EnterSlot(i + 1, table, chains);
        j' := 0;
      } else {
        i', j', b' := i, j + 1, b.next;
        e' := ht.DataAt(b', i);
      }
    }

    /** The place after the next entry: in the same list, the next bucket or the next used slot. */
    method Advance(i: nat, ghost j: nat, b: Bucket, e: seq<Word>, ghost table: map<Word, seq<Word>>,
        ghost chains: seq<seq<Bucket>>)
      returns (i': nat, ghost j': nat, b': Bucket?, e': seq<Word>)
      requires ht.Valid() && table == ht.table && chains == ht.chains && At(chains, i, j, b, e) && e != []
      ensures i' <= |chains| && At(chains, i', j', b', e')
      ensures WalkFrom(table, chains, i, j, e) == Listed(e[0], b.keyLength) + WalkFrom(table, chains, i', j', e')
      ensures i < i' || (i == i' && (j < j' < |chains[i]| || (j == j' && |e'| < |e|)))
    {
      ChainHolds(ht.hash, ht.slot, ht.size, ht.chains, ht.bucketOf, i, b);
      SkipEntry(e, b.keyLength, After(table, chains, i, j + 1));
      i', j', b', e' := i, j, b, e[1..];
      if e' == [] {
        i', j', b', e' := NextBucket(i, j, b, table, chains);
      }
    }

    /** Look at entries until one has the full length of its bucket's key. */
    method Walk(i: nat, ghost j: nat, b: Bucket?, e: seq<Word>, ghost table: map<Word, seq<Word>>,
        ghost chains: seq<seq<Bucket>>)
      returns (ptr: Option<Word>, i': nat, ghost j': nat, b': Bucket?, e': seq<Word>)
      requires ht.Valid() && table == ht.table && chains == ht.chains && i <= |chains| && At(chains, i, j, b, e)
      ensures i' <= |chains| && At(chains, i', j', b', e') && (ptr == None ==> e' == [])
      ensures WalkFrom(table, chains, i, j, e)
           == (if ptr.Some? then [ptr.value] else []) + WalkFrom(table, chains, i', j', e')
    {
      ptr, i', j', b', e' := None, i, j, b, e;
      while e' != [] && ptr == None
        invariant i' <= |chains| && At(chains, i', j', b', e')
        invariant WalkFrom(table, chains, i, j, e)
               == (if ptr.Some? then [ptr.value] else []) + WalkFrom(table, chains, i', j', e')
        decreases |chains| - i', (if e' != [] then |chains[i']| - j' else 0), |e'|
      {
        if |e'[0]| == b'.keyLength { ptr := Some(e'[0]); }
        i', j', b', e' := Advance(i', j', b', e', table, chains);
      }
    }

    /** The kept place is a place of the walk. */
    ghost predicate Walking()
      reads this, ht`chains
    {
      i <= |ht.chains| && At(ht.chains, i, j, b, e)
    }

    /** What the rest of the walk lists. */
    ghost function WalkRest(): seq<Word>
      requires Walking()
      reads this, ht`chains, ht`table
    {
      WalkFrom(ht.table, ht.chains, i, j, e)
    }

    /** The words that the calls still to come will return. */
    ghost function Rest(): seq<Word>
      requires textlen > 0 || Walking()
      reads this, ht
    {
      if textlen > 0 then e else WalkRest()
    }

    /** What a new listing for text should return. */
    ghost function Listing(text: Word): seq<Word>
      requires |ht.chains| == ht.size
      reads ht
    {
      if text != [] then Matches(ht.words, text) else Chains(ht.table, ht.chains, 0)
    }

    /** What the calls from this one on should return. */
    ghost function Due(text: Word, first: bool): seq<Word>
      requires |ht.chains| == ht.size && (first || textlen > 0 || Walking())
      reads this, ht
    {
      if first then Listing(text) else Rest()
    }

    /**
      new_command_generator. A listing starts with first set. With the empty text and an
      empty table the place kept from an earlier listing is used again, so that one must
      have reached its end.
     */
    method Next(text: Word, first: bool) returns (ptr: Option<Word>)
      requires ht.Ready() && (first || textlen > 0 || Walking())
      requires first && text == [] && Listing(text) == [] ==> e == []
      modifies this
      ensures first ==> textlen == |text|
      ensures !first ==> textlen == old(textlen)
      ensures ptr == if old(Due(text, first)) == [] then None else Some(old(Due(text, first))[0])
      ensures ptr.Some? ==> (textlen > 0 || Walking()) && Rest() == old(Due(text, first))[1..]
      ensures ptr.None? ==> e == [] || (first && text != [] && e == old(e))
    {
      if first { textlen := |text|; }
      if textlen > 0 {
        ptr := NextMatch(text, first);
      } else {
        ptr := NextOfAll(first, old(Due(text, first)));
      }
    }

    /** The place where the walk starts: the first used slot, or without one the kept entries. */
    method Begin() returns (i': nat, ghost j': nat, b': Bucket?, e': seq<Word>)
      requires ht.Valid() && (Chains(ht.table, ht.chains, 0) == [] ==> e == [])
      ensures i' <= |ht.chains| && At(ht.chains, i', j', b', e')
      ensures WalkFrom(ht.table, ht.chains, i', j', e') == Chains(ht.table, ht.chains, 0)
    {
      i', b', e' := EnterSlot(0, ht.table, ht.chains);
      j' := 0;
      if i' == ht.size { b', e' := b, e; }
    }

    /** The branch that walks the whole table. */
    method NextOfAll(first: bool, ghost due: seq<Word>) returns (ptr: Option<Word>)
      requires ht.Valid() && (first ==> due == Chains(ht.table, ht.chains, 0) && (due == [] ==> e == []))
      requires !first ==> Walking() && due == WalkRest()
      modifies this`b, this`e, this`i, this`j
      ensures Walking() && (ptr == None ==> e == [])
      ensures due == (if ptr.Some? then [ptr.value] else []) + WalkRest()
    {
      hide Chains, WalkFrom;
      var i', b', e' := i, b, e;
      ghost var j' := j;
      if first { i', j', b', e' := Begin(); }
      ptr, i', j', b', e' := Walk(i', j', b', e', ht.table, ht.chains);
      i, j, b, e := i', j', b', e';
    }

    /** The branch that lists one bucket. */
    method NextMatch(text: Word, first: bool) returns (ptr: Option<Word>)
      requires ht.Ready() && textlen > 0 && (first ==> textlen == |text|)
      modifies this`b, this`e
      ensures var due := if first then Matches(ht.words, text) else old(e);
        && (ptr == if due == [] then None else Some(due[0]))
        && (ptr.Some? ==> e == due[1..]) && (ptr.None? ==> e == old(e))
    {
      if first {
        var found, length := ht.FindAllMatches(text);
        if found == null { return None; }
        b, e := found, found.data;
      }
      if e == [] { return None; }
      ptr, e := Some(e[0]), e[1..];
    }

    /**
      A whole listing, as readline asks for it: call until nothing is returned. For the empty
      text it has every nonempty added word as often as it was added. Only a listing of an
      empty table depends on where the one before ended.
     */
    method List(text: Word) returns (out: seq<Word>)
      requires ht.Ready() && (text == [] && Listing(text) == [] ==> e == [])
      modifies this
      ensures e == [] || (text != [] && out == [] && e == old(e))
      ensures text != [] ==> out == Matches(ht.words, text)
      ensures text == [] ==> forall w :: multiset(out)[w] == if w == [] then 0 else multiset(ht.words)[w]
    {
      if text == [] { WalkListsAll(ht); }
      ghost var due := Listing(text);
      var ptr := Next(text, true);
      if ptr == None { return []; }
      var tail := Drain(text, due[1..]);
      out := [ptr.value] + tail;
      assert out == due;
    }

    method Drain(text: Word, ghost rest: seq<Word>) returns (out: seq<Word>)
      requires ht.Ready() && Left(rest)
      modifies this
      ensures out == rest && e == []
      decreases |rest|
    {
      var ptr := More(text, rest);
      if ptr == None { return []; }
      var tail := Drain(text, rest[1..]);
      out := [ptr.value] + tail;
    }

    /** The calls to come will return the words of rest. */
    ghost predicate Left(rest: seq<Word>)
      reads this, ht
    {
      (textlen > 0 || Walking()) && Rest() == rest
    }

    /** Any call but the first. */
    method More(text: Word, ghost rest: seq<Word>) returns (ptr: Option<Word>)
      requires ht.Ready() && Left(rest)
      modifies this
      ensures ht.Ready() && ht.words == old(ht.words)
      ensures ptr.Some? ==> rest != [] && ptr.value == rest[0] && Left(rest[1..])
      ensures ptr.None? ==> rest == [] && e == []
    {
      ptr := Next(text, false);
    }
  }

  lemma {:induction false} CountEntries(e: seq<Word>, n: nat, later: seq<Word>, w: Word)
    ensures multiset(Entries(e, n, later))[w] == multiset(later)[w] + if |w| == n then multiset(e)[w] else 0
  {
    if e != [] {
      CountEntries(e[1..], n, later, w);
      assert e == [e[0]] + e[1..];
    }
  }

  /** A bucket lists the word that is its key, as often as it was added, and no other. */
  lemma CountBucket(words: seq<Word>, key: Word, later: seq<Word>, w: Word)
    ensures multiset(Entries(Matches(words, key), |key|, later))[w]
         == multiset(later)[w] + if w == key then multiset(words)[w] else 0
  {
    CountEntries(Matches(words, key), |key|, later, w);
    MatchesCount(words, key, w);
  }

  ghost predicate HasKey(chain: seq<Bucket>, j: nat, w: Word) {
    exists k :: j <= k < |chain| && chain[k].Key() == w
  }

  ghost predicate DistinctKeys(chain: seq<Bucket>) {
    forall j, k :: 0 <= j < k < |chain| ==> chain[j].Key() != chain[k].Key()
  }

  lemma {:induction false} CountBuckets(table: map<Word, seq<Word>>, words: seq<Word>, chain: seq<Bucket>, j: nat,
      later: seq<Word>, w: Word)
    requires Indexes(table, words) && DistinctKeys(chain)
    requires forall k :: 0 <= k < |chain| ==> chain[k].Key() in table
    ensures multiset(Buckets(table, chain, j, later))[w]
         == multiset(later)[w] + if HasKey(chain, j, w) then multiset(words)[w] else 0
    decreases |chain| - j
  {
    if j < |chain| {
      CountBuckets(table, words, chain, j + 1, later, w);
      CountBucket(words, chain[j].Key(), Buckets(table, chain, j + 1, later), w);
      assert HasKey(chain, j, w) <==> chain[j].Key() == w || HasKey(chain, j + 1, w);
    }
  }

  lemma ChainKeysDiffer(hash: Word -> nat, slot: nat -> nat, i: nat, chain: seq<Bucket>, head: Bucket?,
      bucketOf: map<Word, Bucket>)
    requires ChainFrom(head, chain) && ChainPlaced(hash, slot, i, chain, bucketOf)
    ensures DistinctKeys(chain)
  {
    forall j, k | 0 <= j < k < |chain|
      ensures chain[j].Key() != chain[k].Key()
    {
      NoBucketTwice(chain, j, k);
      assert Placed(hash, slot, i, chain[j], bucketOf) && Placed(hash, slot, i, chain[k], bucketOf);
    }
  }

  /** Slot i lists the added words whose key belongs there, and the later slots the others. */
  lemma {:induction false} CountChains(hash: Word -> nat, slot: nat -> nat, size: nat, chains: seq<seq<Bucket>>,
      bucketOf: map<Word, Bucket>, table: map<Word, seq<Word>>, words: seq<Word>, i: nat, w: Word)
    requires Slots(slot, size) && KeysPlaced(hash, slot, size, chains, bucketOf) && i <= size
    requires Indexes(table, words) && table.Keys == bucketOf.Keys
    requires forall k :: 0 <= k < size ==> DistinctKeys(chains[k])
    ensures multiset(Chains(table, chains, i))[w]
         == if w in bucketOf && i <= slot(hash(w)) then multiset(words)[w] else 0
    decreases size - i
  {
    if i < size {
      CountChains(hash, slot, size, chains, bucketOf, table, words, i + 1, w);
      assert ChainPlaced(hash, slot, i, chains[i], bucketOf);
      assert HasKey(chains[i], 0, w) <==> w in bucketOf && slot(hash(w)) == i by {
        if w in bucketOf { TableHolds(hash, slot, size, chains, bucketOf, w); }
      }
      assert forall k :: 0 <= k < |chains[i]| ==> Placed(hash, slot, i, chains[i][k], bucketOf);
      CountBuckets(table, words, chains[i], 0, Chains(table, chains, i + 1), w);
    }
  }

  /** The walk lists every nonempty word as often as it was added. */
  lemma WalkListsAll(ht: HashTable)
    requires ht.Ready()
    ensures forall w :: multiset(Chains(ht.table, ht.chains, 0))[w] == if w == [] then 0 else multiset(ht.words)[w]
  {
    forall i | 0 <= i < ht.size
      ensures DistinctKeys(ht.chains[i])
    {
      ChainKeysDiffer(ht.hash, ht.slot, i, ht.chains[i], ht.buckets[i], ht.bucketOf);
    }
    forall w
      ensures multiset(Chains(ht.table, ht.chains, 0))[w] == if w == [] then 0 else multiset(ht.words)[w]
    {
      CountChains(ht.hash, ht.slot, ht.size, ht.chains, ht.bucketOf, ht.table, ht.words, 0, w);
      MatchesCount(ht.words, w, w);
      assert w in ht.table <==> w != [] && Matches(ht.words, w) != [];
    }
  }
}
