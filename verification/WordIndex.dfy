/**
  What the completion index means: the list of added words, and for every text the words
  that start with it, newest first.
 */
module WordIndex {
  type Word = seq<char>

  predicate StartsWith(w: Word, key: Word) {
    |key| <= |w| && w[..|key|] == key
  }

  /** The added words that start with key, newest first, one per addition. */
  function Matches(words: seq<Word>, key: Word): seq<Word> {
    if words == [] then []
    else
      var last, front := words[|words| - 1], words[..|words| - 1];
      if StartsWith(last, key) then [last] + Matches(front, key) else Matches(front, key)
  }

  lemma MatchesAdd(words: seq<Word>, w: Word, key: Word)
    ensures Matches(words + [w], key)
            == if StartsWith(w, key) then [w] + Matches(words, key) else Matches(words, key)
  {
    assert (words + [w])[..|words|] == words;
  }

  /** Exactly the added words with that prefix, with their multiplicities. */
  lemma {:induction false} MatchesCount(words: seq<Word>, key: Word, w: Word)
    ensures multiset(Matches(words, key))[w] == if StartsWith(w, key) then multiset(words)[w] else 0
  {
    if words != [] {
      var last, front := words[|words| - 1], words[..|words| - 1];
      MatchesCount(front, key, w);
      assert words == front + [last];
    }
  }

  lemma {:induction false} MatchesStart(words: seq<Word>, key: Word, i: nat)
    requires i < |Matches(words, key)|
    ensures StartsWith(Matches(words, key)[i], key) && Matches(words, key)[i] in words
  {
    MatchesCount(words, key, Matches(words, key)[i]);
    assert Matches(words, key)[i] in multiset(Matches(words, key));
  }

  lemma {:induction false} MatchesHas(words: seq<Word>, key: Word, w: Word)
    requires w in words && StartsWith(w, key)
    ensures w in Matches(words, key)
  {
    MatchesCount(words, key, w);
    assert w in multiset(words);
    assert w in multiset(Matches(words, key));
  }

  /** A longer prefix matches no more words, and as many only if it matches the same ones. */
  lemma {:induction false} LongerPrefix(words: seq<Word>, key: Word, longer: Word)
    requires StartsWith(longer, key)
    ensures |Matches(words, longer)| <= |Matches(words, key)|
    ensures |Matches(words, longer)| == |Matches(words, key)| ==> Matches(words, longer) == Matches(words, key)
  {
    if words != [] {
      var last := words[|words| - 1];
      LongerPrefix(words[..|words| - 1], key, longer);
      if StartsWith(last, longer) {
        assert last[..|key|] == last[..|longer|][..|key|];
      }
    }
  }

  /** A key's entry list with one more word in front. */
  function WithEntry(table: map<Word, seq<Word>>, key: Word, str: Word): map<Word, seq<Word>> {
    table[key := [str] + (if key in table then table[key] else [])]
  }

  /** A word entered under its prefixes of length 1 to n. */
  function WithPrefixes(table: map<Word, seq<Word>>, str: Word, n: nat): map<Word, seq<Word>>
    requires n <= |str|
  {
    if n == 0 then table else WithEntry(WithPrefixes(table, str, n - 1), str[..n], str)
  }

  lemma {:induction false} WithPrefixesAt(table: map<Word, seq<Word>>, str: Word, n: nat, key: Word)
    requires n <= |str|
    ensures var t := WithPrefixes(table, str, n);
      if 0 < |key| <= n && StartsWith(str, key)
      then key in t && t[key] == [str] + (if key in table then table[key] else [])
      else (key in t <==> key in table) && (key in t ==> t[key] == table[key])
  {
    if n > 0 {
      WithPrefixesAt(table, str, n - 1, key);
      assert key == str[..n] <==> |key| == n && StartsWith(str, key);
    }
  }

  /** The table answers every nonempty text with the words that start with it. */
  ghost predicate Indexes(table: map<Word, seq<Word>>, words: seq<Word>) {
    forall key: Word ::
      && (key in table <==> key != [] && Matches(words, key) != [])
      && (key in table ==> table[key] == Matches(words, key))
  }

  /** Entering a word under all its prefixes indexes it. */
  lemma IndexWord(table: map<Word, seq<Word>>, words: seq<Word>, str: Word)
    requires Indexes(table, words)
    ensures Indexes(WithPrefixes(table, str, |str|), words + [str])
  {
    var t := WithPrefixes(table, str, |str|);
    forall key: Word
      ensures key in t <==> key != [] && Matches(words + [str], key) != []
      ensures key in t ==> t[key] == Matches(words + [str], key)
    {
      WithPrefixesAt(table, str, |str|, key);
      MatchesAdd(words, str, key);
      assert key !in table && key != [] ==> Matches(words, key) == [];
    }
  }

  /** The first n characters of the words are the same. */
  predicate CommonPrefix(words: seq<Word>, n: nat)
    requires words != []
  {
    forall w :: w in words ==> n <= |w| && n <= |words[0]| && w[..n] == words[0][..n]
  }

  ghost predicate LongestCommonPrefix(words: seq<Word>, n: nat)
    requires words != []
  {
    CommonPrefix(words, n) && forall m: nat :: CommonPrefix(words, m) ==> m <= n
  }

  /** A longer prefix matches as many words exactly when all the words have it. */
  lemma {:induction false} CountTells(words: seq<Word>, key: Word, longer: Word)
    requires StartsWith(longer, key)
    ensures |Matches(words, longer)| == |Matches(words, key)|
       <==> forall w :: w in Matches(words, key) ==> StartsWith(w, longer)
  {
    if words != [] {
      var last, front := words[|words| - 1], words[..|words| - 1];
      CountTells(front, key, longer);
      LongerPrefix(front, key, longer);
      if StartsWith(last, longer) {
        assert last[..|key|] == last[..|longer|][..|key|];
      }
      if StartsWith(last, key) {
        assert last in Matches(words, key);
        assert forall w :: w in Matches(words, key) <==> w == last || w in Matches(front, key);
      }
    }
  }

  /**
    Once n characters of the newest match are common to all, one more is common exactly when
    as many words have it, and those are then the same words.
   */
  lemma OneMoreCharacter(words: seq<Word>, key: Word, n: nat)
    requires var ms := Matches(words, key); ms != [] && |key| <= n < |ms[0]| && CommonPrefix(ms, n)
    ensures var ms := Matches(words, key); var longer := Matches(words, ms[0][..n + 1]);
      && 0 < |longer| <= |ms|
      && (|longer| == |ms| ==> longer == ms && CommonPrefix(ms, n + 1))
      && (|longer| < |ms| ==> !CommonPrefix(ms, n + 1))
  {
    var ms := Matches(words, key);
    var next := ms[0][..n + 1];
    StartIsCommon(words, key);
    assert next[..|key|] == ms[0][..|key|];
    CountTells(words, key, next);
    LongerPrefix(words, key, next);
    MatchesStart(words, key, 0);
    MatchesHas(words, next, ms[0]);
  }

  lemma StartIsCommon(words: seq<Word>, key: Word)
    requires Matches(words, key) != []
    ensures CommonPrefix(Matches(words, key), |key|) && StartsWith(Matches(words, key)[0], key)
  {
    var ms := Matches(words, key);
    forall i | 0 <= i < |ms|
      ensures StartsWith(ms[i], key)
    {
      MatchesStart(words, key, i);
    }
    assert StartsWith(ms[0], key);
  }

  lemma ShorterIsCommon(words: seq<Word>, n: nat, m: nat)
    requires words != [] && CommonPrefix(words, m) && n <= m
    ensures CommonPrefix(words, n)
  {
    forall w | w in words
      ensures n <= |w| && n <= |words[0]| && w[..n] == words[0][..n]
    {
      assert w[..n] == w[..m][..n];
    }
  }

  /** No longer prefix is common once the next one is not. */
  lemma CommonStops(words: seq<Word>, n: nat)
    requires words != [] && CommonPrefix(words, n)
    requires n == |words[0]| || !CommonPrefix(words, n + 1)
    ensures LongestCommonPrefix(words, n)
  {
    forall m: nat | CommonPrefix(words, m)
      ensures m <= n
    {
      assert words[0] in words;
      if n < m { ShorterIsCommon(words, n + 1, m); }
    }
  }

  /** The last match is the first added word that starts with the key. */
  lemma {:induction false} OldestMatch(words: seq<Word>, key: Word) returns (k: nat)
    requires Matches(words, key) != []
    ensures k < |words| && StartsWith(words[k], key)
    ensures words[k] == Matches(words, key)[|Matches(words, key)| - 1]
    ensures forall m :: 0 <= m < k ==> !StartsWith(words[m], key)
  {
    var front := words[..|words| - 1];
    if Matches(front, key) == [] {
      k := |words| - 1;
      forall m | 0 <= m < k
        ensures !StartsWith(words[m], key)
      {
        if StartsWith(front[m], key) { MatchesHas(front, key, front[m]); }
      }
    } else {
      k := OldestMatch(front, key);
    }
  }

  /** It is the key itself exactly when the longer words that start with the key came later. */
  lemma OldestIsKey(words: seq<Word>, key: Word)
    requires Matches(words, key) != []
    ensures Matches(words, key)[|Matches(words, key)| - 1] == key
       <==> forall k :: 0 <= k < |words| && StartsWith(words[k], key) && words[k] != key ==> key in words[..k]
  {
    var o := OldestMatch(words, key);
    if words[o] == key {
      forall k | 0 <= k < |words| && StartsWith(words[k], key) && words[k] != key
        ensures key in words[..k]
      {
        assert words[..k][o] == key;
      }
    }
  }

  /** So a word added after a longer one is not found to exist. */
  lemma LaterWordIsMissed()
    ensures var words := ["ab", "a"];
      "a" in words && Matches(words, "a") != [] && Matches(words, "a")[|Matches(words, "a")| - 1] != "a"
  {
    var words := ["ab", "a"];
    MatchesAdd(["ab"], "a", "a");
    MatchesAdd([], "ab", "a");
    assert words == ["ab"] + ["a"] && ["ab"] == [] + ["ab"];
  }
}
