/**
  The completion index: a chained hash table in which every nonempty prefix of every added
  word has a bucket listing the words, newest first. It works for any hash function and
  any table size.
 */
module Completion {
  import opened WordIndex

  /** One key. The key is the first keyLength characters of the word that created it. */
  class Bucket {
    const h: nat
    const arKey: Word
    const keyLength: nat
    const next: Bucket?
    var data: seq<Word>      // newest first
    var count: nat

    constructor (h: nat, arKey: Word, keyLength: nat, str: Word, next: Bucket?)
      requires keyLength <= |arKey|
      ensures this.h == h && this.arKey == arKey && this.keyLength == keyLength && this.next == next
      ensures data == [str] && count == 1
    {
      this.h, this.arKey, this.keyLength, this.next := h, arKey, keyLength, next;
      data, count := [str], 1;
    }

    function Key(): Word {
      if keyLength <= |arKey| then arKey[..keyLength] else arKey
    }
  }

  class HashTable {
    const hash: Word -> nat
    const size: nat
    const slot: nat -> nat                      // the slot of a hash value
    const buckets: array<Bucket?>
    ghost var chains: seq<seq<Bucket>>          // the buckets of each slot, in chain order
    ghost var bucketOf: map<Word, Bucket>       // the bucket of each key
    ghost var table: map<Word, seq<Word>>       // the words of each key
    ghost var words: seq<Word>                  // the words added, oldest first

    /** The slots link exactly the buckets in chains. */
    ghost predicate Linked()
      reads this`chains, buckets
    {
      && Slots(slot, size) && buckets.Length == size && |chains| == size
      && (forall i :: 0 <= i < size ==> ChainFrom(buckets[i], chains[i]))
    }

    ghost predicate Keyed()
      reads this`chains, this`bucketOf
    {
      Slots(slot, size) && KeysPlaced(hash, slot, size, chains, bucketOf)
    }

    /** Every bucket holds its key's words and their number. */
    ghost predicate Counted()
      reads this`table, this`bucketOf, bucketOf.Values
    {
      && table.Keys == bucketOf.Keys
      && forall key :: key in table ==>
           bucketOf[key].data == table[key] && bucketOf[key].count == |table[key]| && table[key] != []
    }

    ghost predicate Valid()
      reads this, buckets, bucketOf.Values
    {
      Linked() && Keyed() && Counted()
    }

    /** The table indexes the words added to it. */
    ghost predicate Ready()
      reads this, buckets, bucketOf.Values
    {
      Valid() && Rooted() && Indexes(table, words)
    }

    /** completion_hash_init */
    constructor (hash: Word -> nat, size: nat)
      requires size >= 1
      ensures Ready() && words == [] && this.hash == hash && this.size == size && fresh(buckets)
      ensures forall h: nat :: slot(h) == h % size
    {
      this.hash, this.size := hash, size;
      slot := (h: nat) => if size >= 1 then h % size else 0;
      buckets := new Bucket?[size](i => null);
      chains, bucketOf, table, words := seq(size, i => []), map[], map[], [];
    }

    /** completion_hash_find */
    method Find(key: Word) returns (b: Bucket?)
      requires Valid()
      ensures b == null <==> key !in bucketOf
      ensures b != null ==> b == bucketOf[key]
    {
      var h := hash(key);
      ghost var chain := chains[slot(h)];
      b := WalkChain(buckets[slot(h)], chain, h, key);
    }

    /** The first word put under each key is the one its bucket points to. */
    ghost predicate Rooted()
      reads this`table, this`bucketOf
    {
      RootsOf(table, bucketOf)
    }

    /** The entry and count fields of one bucket. */
    method PushWord(b: Bucket, ghost key: Word, str: Word)
      requires Counted() && key in bucketOf && b == bucketOf[key]
      requires forall k :: k in bucketOf && k != key ==> bucketOf[k] != b
      modifies b, this`table
      ensures Counted() && table == WithEntry(old(table), key, str)
    {
      b.data, b.count := [str] + b.data, b.count + 1;
      table := WithEntry(table, key, str);
    }

    method AddEntry(b: Bucket, ghost key: Word, str: Word)
      requires Valid() && key in bucketOf && b == bucketOf[key]
      modifies b, this`table
      ensures Valid() && table == WithEntry(old(table), key, str)
    {
      OwnBucket(hash, slot, size, chains, bucketOf, key);
      PushWord(b, key, str);
      assert Linked() && Keyed();
    }

    /** Put a bucket at the front of a slot. */
    method SetHead(i: nat, b: Bucket)
      requires Linked() && i < size && b.next == buckets[i] && b.keyLength <= |b.arKey|
      modifies this`chains, buckets
      ensures Linked() && chains == old(chains)[i := [b] + old(chains)[i]]
    {
      ChainGrows(b, buckets[i], chains[i]);
      buckets[i] := b;
      chains := chains[i := [b] + chains[i]];
    }

    /** Record a new key. */
    ghost method Register(b: Bucket, key: Word, str: Word)
      requires Counted() && key !in bucketOf && b.data == [str] && b.count == 1
      modifies this`bucketOf, this`table
      ensures Counted() && table == WithEntry(old(table), key, str)
      ensures bucketOf == old(bucketOf)[key := b]
    {
      bucketOf, table := bucketOf[key := b], WithEntry(table, key, str);
      assert table[key] == [str];
    }

    method AddBucket(h: nat, arKey: Word, n: nat, str: Word) returns (b: Bucket)
      requires Valid() && 0 < n <= |arKey| && h == hash(arKey[..n]) && arKey[..n] !in bucketOf
      modifies this`chains, this`bucketOf, this`table, buckets
      ensures Valid() && table == WithEntry(old(table), arKey[..n], str)
      ensures fresh(b) && b.arKey == arKey && bucketOf == old(bucketOf)[arKey[..n] := b]
    {
      var i := slot(h);
      b := new Bucket(h, arKey, n, str, buckets[i]);
      PlaceKey(hash, slot, size, chains, bucketOf, i, b);
      SetHead(i, b);
      Register(b, arKey[..n], str);
    }

    /** completion_hash_update */
    method Update(arKey: Word, n: nat, str: Word) returns (failed: bool)
      requires Valid() && n <= |arKey|
      modifies this`chains, this`bucketOf, this`table, buckets, bucketOf.Values
      ensures Valid() && (failed <==> n == 0)
      ensures fresh(bucketOf.Values - old(bucketOf.Values))
      ensures failed ==> table == old(table) && bucketOf == old(bucketOf)
      ensures !failed ==> table == WithEntry(old(table), arKey[..n], str)
      ensures old(Rooted()) && arKey == str ==> Rooted()
    {
      hide WithEntry;
      var h := hash(arKey[..n]);
      if n == 0 { return true; }
      var b := Find(arKey[..n]);
      if b != null {
        AddEntry(b, arKey[..n], str);
      } else {
        b := AddBucket(h, arKey, n, str);
      }
      if arKey == str { RootsGrow(old(table), old(bucketOf), bucketOf, arKey[..n], str); }
      return false;
    }

    /** The loop of add_word: the word is entered under each of its nonempty prefixes. */
    method EnterPrefixes(str: Word)
      requires Valid() && Rooted()
      modifies this`chains, this`bucketOf, this`table, buckets, bucketOf.Values
      ensures Valid() && Rooted() && table == WithPrefixes(old(table), str, |str|)
      ensures fresh(bucketOf.Values - old(bucketOf.Values))
    {
      var i := 1;
      while i <= |str|
        invariant 1 <= i <= |str| + 1
        invariant Valid() && Rooted() && table == WithPrefixes(old(table), str, i - 1)
        invariant fresh(bucketOf.Values - old(bucketOf.Values))
      {
        var failed := Update(str, i, str);
        i := i + 1;
      }
    }

    /** add_word */
    method AddWord(str: Word)
      requires Ready()
      modifies this, buckets, bucketOf.Values
      ensures Ready() && words == old(words) + [str]
      ensures fresh(bucketOf.Values - old(bucketOf.Values))
    {
      EnterPrefixes(str);
      IndexWord(old(table), words, str);
      words := words + [str];
    }

    /** completion_hash_clean */
    method Clean()
      requires Valid()
      modifies this, buckets
      ensures Ready() && words == []
    {
      forall i | 0 <= i < buckets.Length { buckets[i] := null; }
      chains, bucketOf, table, words := seq(size, i => []), map[], map[], [];
    }

    /** The entries of a linked bucket are those of its key. */
    method DataAt(b: Bucket, ghost i: nat) returns (data: seq<Word>)
      requires Valid() && i < size && b in chains[i]
      ensures data == b.data && b.Key() in table && data == table[b.Key()] && data != []
    {
      ChainHolds(hash, slot, size, chains, bucketOf, i, b);
      data := b.data;
    }

    /**
      find_all_matches: the bucket of the words that start with text, newest first and with
      their number, or null when there are none (always for the empty text).
     */
    method FindAllMatches(text: Word) returns (b: Bucket?, length: nat)
      requires Ready()
      ensures b == null <==> text == [] || Matches(words, text) == []
      ensures b != null ==> b.data == Matches(words, text) && b.count == |Matches(words, text)| && length == |text|
      ensures b == null ==> length == 0
      ensures b != null ==> text in bucketOf && b == bucketOf[text]
    {
      b := Find(text);
      length := if b == null then 0 else |text|;
    }

    /** The bucket of one more character, unless fewer words have it. */
    method OneMore(s: Word, lm: nat, count: nat, ghost text: Word, ghost ms: seq<Word>) returns (b: Bucket?)
      requires Ready() && ms == Matches(words, text) && ms != [] && s == ms[0] && count == |ms|
      requires |text| <= lm < |s| && CommonPrefix(ms, lm)
      ensures b != null ==> CommonPrefix(ms, lm + 1) && b.data == ms && b.count == count
      ensures b == null ==> !CommonPrefix(ms, lm + 1)
    {
      OneMoreCharacter(words, text, lm);
      var length;
      b, length := FindAllMatches(s[..lm + 1]);
      if b != null && b.count < count { b := null; }
    }

    /**
      find_longest_match: the words that start with text, and the length of their longest
      common prefix, found from the first word and the counts alone.
     */
    method FindLongestMatch(text: Word) returns (found: Bucket?, length: nat)
      requires Ready()
      ensures found == null <==> text == [] || Matches(words, text) == []
      ensures found == null ==> length == 0
      ensures found != null ==>
        && found.data == Matches(words, text) && found.count == |Matches(words, text)|
        && LongestCommonPrefix(Matches(words, text), length)
    {
      found, length := FindAllMatches(text);
      if found != null { found, length := Lengthen(found, text, Matches(words, text)); }
    }

    /** Its loop. */
    method Lengthen(first: Bucket, text: Word, ghost ms: seq<Word>) returns (found: Bucket, lm: nat)
      requires Ready() && ms == Matches(words, text) && ms != []
      requires first.data == ms && first.count == |ms|
      ensures found.data == ms && found.count == |ms| && LongestCommonPrefix(ms, lm)
    {
      StartIsCommon(words, text);
      var count, s := first.count, first.data[0];
      found, lm := first, |text|;
      while lm < |s|
        invariant |text| <= lm <= |s| && CommonPrefix(ms, lm)
        invariant found.data == ms && found.count == count
      {
        var b := OneMore(s, lm, count, text, ms);
        if b == null { break; }
        found, lm := b, lm + 1;
      }
      CommonStops(ms, lm);
    }

    /**
      completion_hash_exists compares the whole of the word that created the bucket, so it
      finds a word exactly when it was the first one added of those that start with it.
     */
    method Exists(key: Word) returns (found: bool)
      requires Ready()
      ensures found <==> key != [] && Matches(words, key) != []
                         && Matches(words, key)[|Matches(words, key)| - 1] == key
    {
      var h := hash(key);
      ghost var chain := chains[slot(h)];
      var b := WalkChainWhole(buckets[slot(h)], chain, h, key);
      if b != null { ChainHolds(hash, slot, size, chains, bucketOf, slot(h), b); }
      if key in bucketOf {
        TableHolds(hash, slot, size, chains, bucketOf, key);
        assert b == null ==> bucketOf[key].arKey != key;
        assert table[key] == Matches(words, key);
      }
      assert b != null ==> b.Key() == key && b == bucketOf[key];
      assert key !in table ==> b == null && (key == [] || Matches(words, key) == []);
      found := b != null;
    }
  }

  /** Every hash value has a slot in the table. */
  ghost predicate Slots(slot: nat -> nat, size: nat) {
    forall h: nat :: slot(h) < size
  }

  ghost predicate LinkAt(chain: seq<Bucket>, j: nat)
    requires j < |chain|
  {
    && chain[j].keyLength <= |chain[j].arKey|
    && chain[j].next == if j + 1 < |chain| then chain[j + 1] else null
  }

  /** A chain of buckets starting at b. */
  ghost predicate ChainFrom(b: Bucket?, chain: seq<Bucket>) {
    && (b == if chain == [] then null else chain[0])
    && (forall j :: 0 <= j < |chain| ==> LinkAt(chain, j))
  }

  /** The word a bucket points to is the oldest in its list. */
  ghost predicate RootsOf(table: map<Word, seq<Word>>, bucketOf: map<Word, Bucket>) {
    forall key :: key in table && key in bucketOf ==>
      table[key] != [] && bucketOf[key].arKey == table[key][|table[key]| - 1]
  }

  lemma RootsGrow(table: map<Word, seq<Word>>, bucketOf: map<Word, Bucket>, bucketOf': map<Word, Bucket>, key: Word,
      str: Word)
    requires key in bucketOf' && table.Keys == bucketOf.Keys
    requires bucketOf' == if key in bucketOf then bucketOf else bucketOf[key := bucketOf'[key]]
    requires key !in bucketOf ==> bucketOf'[key].arKey == str
    ensures RootsOf(table, bucketOf) ==> RootsOf(WithEntry(table, key, str), bucketOf')
  {
  }

  lemma ChainGrows(b: Bucket, head: Bucket?, chain: seq<Bucket>)
    requires ChainFrom(head, chain) && b.next == head && b.keyLength <= |b.arKey|
    ensures ChainFrom(b, [b] + chain)
  {
    var chain' := [b] + chain;
    forall j | 0 <= j < |chain'|
      ensures LinkAt(chain', j)
    {
      if j > 0 {
        assert LinkAt(chain, j - 1);
      }
    }
  }

  /** A linked bucket is at one place of its chain only. */
  lemma {:induction false} NoBucketTwice(chain: seq<Bucket>, j: nat, k: nat)
    requires j < k < |chain| && forall l :: 0 <= l < |chain| ==> LinkAt(chain, l)
    ensures chain[j] != chain[k]
    decreases |chain| - k
  {
    assert LinkAt(chain, j) && LinkAt(chain, k);
    if k + 1 < |chain| { NoBucketTwice(chain, j + 1, k + 1); }
  }

  /** A bucket that belongs in slot i and is its key's only one. */
  ghost predicate Placed(hash: Word -> nat, slot: nat -> nat, i: nat, b: Bucket, bucketOf: map<Word, Bucket>)
  {
    && 0 < b.keyLength <= |b.arKey| && b.h == hash(b.Key()) && slot(b.h) == i
    && b.Key() in bucketOf && bucketOf[b.Key()] == b
  }

  ghost predicate ChainPlaced(hash: Word -> nat, slot: nat -> nat, i: nat, chain: seq<Bucket>,
      bucketOf: map<Word, Bucket>)
  {
    forall j :: 0 <= j < |chain| ==> Placed(hash, slot, i, chain[j], bucketOf)
  }

  /** Every key has one bucket, in its own slot, and every bucket is some key's. */
  ghost predicate KeysPlaced(hash: Word -> nat, slot: nat -> nat, size: nat, chains: seq<seq<Bucket>>,
      bucketOf: map<Word, Bucket>)
    requires Slots(slot, size)
  {
    && |chains| == size
    && (forall i :: 0 <= i < size ==> ChainPlaced(hash, slot, i, chains[i], bucketOf))
    && (forall key :: key in bucketOf ==> InSlot(hash, slot, size, chains, bucketOf[key], key))
  }

  ghost predicate InSlot(hash: Word -> nat, slot: nat -> nat, size: nat, chains: seq<seq<Bucket>>, b: Bucket, key: Word)
    requires Slots(slot, size) && |chains| == size
  {
    b.keyLength <= |b.arKey| && b.Key() == key && b in chains[slot(hash(key))]
  }

  lemma OwnBucket(hash: Word -> nat, slot: nat -> nat, size: nat, chains: seq<seq<Bucket>>,
      bucketOf: map<Word, Bucket>, key: Word)
    requires Slots(slot, size) && KeysPlaced(hash, slot, size, chains, bucketOf) && key in bucketOf
    ensures forall k :: k in bucketOf && k != key ==> bucketOf[k] != bucketOf[key]
  {
    assert InSlot(hash, slot, size, chains, bucketOf[key], key);
    forall k | k in bucketOf && k != key
      ensures bucketOf[k] != bucketOf[key]
    {
      assert InSlot(hash, slot, size, chains, bucketOf[k], k);
    }
  }

  /** A linked bucket is its key's. */
  lemma ChainHolds(hash: Word -> nat, slot: nat -> nat, size: nat, chains: seq<seq<Bucket>>,
      bucketOf: map<Word, Bucket>, i: nat, b: Bucket)
    requires Slots(slot, size) && KeysPlaced(hash, slot, size, chains, bucketOf) && i < size && b in chains[i]
    ensures Placed(hash, slot, i, b, bucketOf)
  {
    assert ChainPlaced(hash, slot, i, chains[i], bucketOf);
  }

  /** A key's bucket is linked in its slot. */
  lemma TableHolds(hash: Word -> nat, slot: nat -> nat, size: nat, chains: seq<seq<Bucket>>,
      bucketOf: map<Word, Bucket>, key: Word)
    requires Slots(slot, size) && KeysPlaced(hash, slot, size, chains, bucketOf) && key in bucketOf
    ensures key != [] && bucketOf[key] in chains[slot(hash(key))] && bucketOf[key].h == hash(key)
    ensures bucketOf[key].keyLength == |key| <= |bucketOf[key].arKey| && bucketOf[key].Key() == key
  {
    assert InSlot(hash, slot, size, chains, bucketOf[key], key);
    ChainHolds(hash, slot, size, chains, bucketOf, slot(hash(key)), bucketOf[key]);
  }

  /** A new key's bucket goes to the front of its slot. */
  lemma PlaceKey(hash: Word -> nat, slot: nat -> nat, size: nat, chains: seq<seq<Bucket>>,
      bucketOf: map<Word, Bucket>, i: nat, b: Bucket)
    requires Slots(slot, size) && KeysPlaced(hash, slot, size, chains, bucketOf) && i < size
    requires 0 < b.keyLength <= |b.arKey| && b.h == hash(b.Key()) && slot(b.h) == i && b.Key() !in bucketOf
    ensures KeysPlaced(hash, slot, size, chains[i := [b] + chains[i]], bucketOf[b.Key() := b])
  {
    var chains', bucketOf' := chains[i := [b] + chains[i]], bucketOf[b.Key() := b];
    forall s | 0 <= s < size
      ensures ChainPlaced(hash, slot, s, chains'[s], bucketOf')
    {
      assert ChainPlaced(hash, slot, s, chains[s], bucketOf);
    }
    forall key | key in bucketOf'
      ensures InSlot(hash, slot, size, chains', bucketOf'[key], key)
    {
      if key != b.Key() {
        assert InSlot(hash, slot, size, chains, bucketOf[key], key);
      } else {
        assert chains'[i][0] == b;
      }
    }
  }

  /** The loop over a chain that compares hash, length and characters. */
  method WalkChain(head: Bucket?, ghost chain: seq<Bucket>, h: nat, key: Word) returns (b: Bucket?)
    requires ChainFrom(head, chain)
    ensures b != null ==> b in chain && b.h == h && b.Key() == key
    ensures b == null ==> forall j :: 0 <= j < |chain| ==> !(chain[j].h == h && chain[j].Key() == key)
  {
    b := head;
    ghost var j := 0;
    while b != null
      invariant 0 <= j <= |chain|
      invariant b == if j < |chain| then chain[j] else null
      invariant forall k :: 0 <= k < j ==> !(chain[k].h == h && chain[k].Key() == key)
      decreases |chain| - j
    {
      assert LinkAt(chain, j);
      if b.h == h && b.keyLength == |key| && b.arKey[..b.keyLength] == key { return; }
      b, j := b.next, j + 1;
    }
  }

  /** The loop of completion_hash_exists. */
  method WalkChainWhole(head: Bucket?, ghost chain: seq<Bucket>, h: nat, key: Word) returns (b: Bucket?)
    requires ChainFrom(head, chain)
    ensures b != null ==> b in chain && b.h == h && b.keyLength == |key| && b.arKey == key
    ensures b == null ==> forall j :: 0 <= j < |chain| ==>
      !(chain[j].h == h && chain[j].keyLength == |key| && chain[j].arKey == key)
  {
    b := head;
    ghost var j := 0;
    while b != null
      invariant 0 <= j <= |chain|
      invariant b == if j < |chain| then chain[j] else null
      invariant forall k :: 0 <= k < j ==> !(chain[k].h == h && chain[k].keyLength == |key| && chain[k].arKey == key)
      decreases |chain| - j
    {
      assert LinkAt(chain, j);
      if b.h == h && b.keyLength == |key| && b.arKey == key { return; }
      b, j := b.next, j + 1;
    }
  }
}
