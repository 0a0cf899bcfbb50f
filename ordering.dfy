/**
 * `sort_episodes`: Python's `sorted` with the key `(episode_number,
 * part_value)`, which is a stable sort. It is modelled as a stable
 * insertion sort, and stability is stated without reference to it: for
 * every key, the episodes with that key appear in the output in the order
 * they had in the input.
 */
module Ordering {
  import opened Wrappers
  import opened TitleParser
  import opened Sequences
  import opened Episodes

  predicate SortedByKey(s: seq<Episode>)
  {
    forall i, j :: 0 <= i < j < |s| ==> KeyLe(KeyOf(s[i]), KeyOf(s[j]))
  }

  function HasKey(k: EpisodeKey): Episode -> bool
  {
    (e: Episode) => KeyOf(e) == k
  }

  /**
   * The episodes of `s` whose key is `k`, in their order in `s`: what a
   * stable sort must preserve for every key.
   */
  function WithKey(s: seq<Episode>, k: EpisodeKey): (r: seq<Episode>)
    ensures forall i :: 0 <= i < |r| ==> r[i] in s && KeyOf(r[i]) == k
    ensures forall i :: 0 <= i < |s| && KeyOf(s[i]) == k ==> s[i] in r
  {
    Filter(HasKey(k), s)
  }

  lemma WithKeyCons(e: Episode, s: seq<Episode>, k: EpisodeKey)
    ensures WithKey([e] + s, k) == (if KeyOf(e) == k then [e] else []) + WithKey(s, k)
  {
    assert ([e] + s)[1..] == s;
  }

  lemma SortedCons(x: Episode, s: seq<Episode>)
    requires SortedByKey(s) && (s != [] ==> KeyLe(KeyOf(x), KeyOf(s[0])))
    ensures SortedByKey([x] + s)
  {
  }

  /** Puts `e` in front of the first element whose key is not below its own. */
  function Insert(e: Episode, t: seq<Episode>): (r: seq<Episode>)
    requires SortedByKey(t)
    ensures SortedByKey(r)
    ensures multiset(r) == multiset(t) + multiset{e}
    ensures |r| == |t| + 1 && (r[0] == e || (t != [] && r[0] == t[0]))
  {
    if t == [] || KeyLe(KeyOf(e), KeyOf(t[0])) then
      SortedCons(e, t);
      [e] + t
    else
      assert t == [t[0]] + t[1..];
      var rest := Insert(e, t[1..]);
      SortedCons(t[0], rest);
      assert multiset([t[0]] + rest) == multiset([t[0]]) + multiset(t[1..]) + multiset{e};
      [t[0]] + rest
  }

  /** `e` lands before every element of its own key: insertion is stable. */
  lemma {:induction false} InsertStable(e: Episode, t: seq<Episode>, k: EpisodeKey)
    requires SortedByKey(t)
    ensures WithKey(Insert(e, t), k) == (if KeyOf(e) == k then [e] else []) + WithKey(t, k)
  {
    if t == [] || KeyLe(KeyOf(e), KeyOf(t[0])) {
      WithKeyCons(e, t, k);
    } else {
      var rest := Insert(e, t[1..]);
      assert t == [t[0]] + t[1..];
      InsertStable(e, t[1..], k);
      WithKeyCons(t[0], rest, k);
      WithKeyCons(t[0], t[1..], k);
    }
  }

  /** `sort_episodes`: sorted by key and a permutation of the input. */
  function SortEpisodes(s: seq<Episode>): (r: seq<Episode>)
    ensures SortedByKey(r)
    ensures multiset(r) == multiset(s)
  {
    if s == [] then []
    else
      assert s == [s[0]] + s[1..];
      Insert(s[0], SortEpisodes(s[1..]))
  }

  /** In a list sorted by key, equal numbers put no part first and B last. */
  lemma SortedPartsInOrder(r: seq<Episode>, i: int, j: int)
    requires SortedByKey(r) && 0 <= i < j < |r| && r[i].episodeNumber == r[j].episodeNumber
    ensures r[j].part == None ==> r[i].part == None
    ensures r[i].part == Some(B) ==> r[j].part == Some(B)
  {
    assert KeyLe(KeyOf(r[i]), KeyOf(r[j]));
  }

  /**
   * Within one episode number the sorted list puts the unsplit episode
   * first, then part A, then part B.
   */
  lemma PartsInOrder(s: seq<Episode>, i: int, j: int)
    requires 0 <= i < j < |SortEpisodes(s)|
    requires SortEpisodes(s)[i].episodeNumber == SortEpisodes(s)[j].episodeNumber
    ensures SortEpisodes(s)[j].part == None ==> SortEpisodes(s)[i].part == None
    ensures SortEpisodes(s)[i].part == Some(B) ==> SortEpisodes(s)[j].part == Some(B)
  {
    SortedPartsInOrder(SortEpisodes(s), i, j);
  }

  /** Part B listed before part A of the same number is swapped by the sort. */
  lemma PartOrderExample(b: Episode, a: Episode)
    requires a.episodeNumber == b.episodeNumber && b.part == Some(B) && a.part == Some(A)
    ensures SortEpisodes([b, a]) == [a, b]
  {
    assert [b, a][1..] == [a] && [a][1..] == [];
  }

  /**
   * `sorted` is stable: for every key, the episodes with that key keep
   * their input order.
   */
  lemma {:induction false} SortStable(s: seq<Episode>, k: EpisodeKey)
    ensures WithKey(SortEpisodes(s), k) == WithKey(s, k)
  {
    if s != [] {
      SortStable(s[1..], k);
      InsertStable(s[0], SortEpisodes(s[1..]), k);
    }
  }

  /** An already sorted list comes back unchanged. */
  lemma {:induction false} SortSortedIsIdentity(s: seq<Episode>)
    requires SortedByKey(s)
    ensures SortEpisodes(s) == s
  {
    if s != [] {
      SortSortedIsIdentity(s[1..]);
    }
  }

  lemma HeadKeyIsLeast(r: seq<Episode>, k: EpisodeKey)
    requires SortedByKey(r) && WithKey(r, k) != []
    ensures r != [] && KeyLe(KeyOf(r[0]), k)
  {
    var w := WithKey(r, k);
    assert w[0] in r;
  }

  /**
   * Sortedness and stability leave no freedom: two sorted lists that agree
   * on the episodes of every key are equal.
   */
  lemma {:induction false} SortedStableUnique(r1: seq<Episode>, r2: seq<Episode>)
    requires SortedByKey(r1) && SortedByKey(r2)
    requires forall k :: WithKey(r1, k) == WithKey(r2, k)
    ensures r1 == r2
    decreases |r1| + |r2|
  {
    if r1 == [] || r2 == [] {
      var t := if r1 == [] then r2 else r1;
      if t != [] {
        assert t == [t[0]] + t[1..];
        WithKeyCons(t[0], t[1..], KeyOf(t[0]));
      }
    } else {
      var a, b := r1[0], r2[0];
      assert r1 == [a] + r1[1..] && r2 == [b] + r2[1..];
      WithKeyCons(a, r1[1..], KeyOf(a));
      WithKeyCons(b, r2[1..], KeyOf(b));
      WithKeyCons(a, r1[1..], KeyOf(b));
      WithKeyCons(b, r2[1..], KeyOf(a));
      // the smallest key of each list is the key of its head
      HeadKeyIsLeast(r2, KeyOf(a));
      HeadKeyIsLeast(r1, KeyOf(b));
      assert a == b by {
        assert WithKey(r1, KeyOf(a))[0] == a;
        assert WithKey(r2, KeyOf(a))[0] == b;
      }
      forall k ensures WithKey(r1[1..], k) == WithKey(r2[1..], k) {
        WithKeyCons(a, r1[1..], k);
        WithKeyCons(b, r2[1..], k);
        var h := if KeyOf(a) == k then [a] else [];
        assert WithKey(r1[1..], k) == WithKey(r1, k)[|h|..];
        assert WithKey(r2[1..], k) == WithKey(r2, k)[|h|..];
      }
      SortedStableUnique(r1[1..], r2[1..]);
    }
  }
}
