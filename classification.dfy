/**
 * The classification block of `load_episodes` and the filter of
 * `mark_played`. The three session lists `all_episodes`,
 * `chosen_episodes` and `unplayed_episodes` are the fields of a
 * `Session` object; a fresh session starts with all three empty, as
 * `session.get(key, [])` reads them.
 */
module Classification {
  import opened Episodes
  import opened GuestFilter
  import opened Ordering
  import opened Sequences

  /** The parsed records of the fetched catalog items, in fetch order. */
  function Details(fetched: seq<RawEpisode>): (r: seq<Episode>)
    ensures |r| == |fetched|
  {
    seq(|fetched|, i requires 0 <= i < |fetched| => EpisodeDetails(fetched[i]))
  }

  /** The guest filter as a test on parsed episodes. */
  function ChosenTest(lower: char -> char): Episode -> bool
  {
    (e: Episode) => PassesGuestFilter(e.description, e.episodeNumber, lower)
  }

  /** The chosen list: the episodes of `sorted` that pass the guest filter, in order. */
  function Chosen(sorted: seq<Episode>, lower: char -> char): (r: seq<Episode>)
    ensures |r| <= |sorted|
    ensures forall i :: 0 <= i < |r| ==> r[i] in sorted && PassesGuestFilter(r[i].description, r[i].episodeNumber, lower)
    ensures forall i :: 0 <= i < |sorted| && PassesGuestFilter(sorted[i].description, sorted[i].episodeNumber, lower) ==>
              sorted[i] in r
  {
    Filter(ChosenTest(lower), sorted)
  }

  /** The filtering loop of `load_episodes`: one `contains_target_guest` call per episode. */
  method SelectChosen(sorted: seq<Episode>, lower: char -> char) returns (chosen: seq<Episode>)
    ensures chosen == Chosen(sorted, lower)
  {
    chosen := [];
    for i := 0 to |sorted|
      invariant chosen == Chosen(sorted[..i], lower)
    {
      var pass := ContainsTargetGuest(sorted[i].description, sorted[i].episodeNumber, lower);
      assert sorted[..i + 1] == sorted[..i] + [sorted[i]];
      FilterConcat(ChosenTest(lower), sorted[..i], [sorted[i]]);
      assert [sorted[i]][1..] == [];
      if pass {
        chosen := chosen + [sorted[i]];
      }
    }
    assert sorted[..|sorted|] == sorted;
  }

  /**
   * The chosen list keeps the order of the sorted list, every episode in
   * it passes the guest filter, and every passing episode is in it as
   * often as in the sorted list.
   */
  lemma ChosenIsPassingSubsequence(sorted: seq<Episode>, lower: char -> char)
    ensures IsSubsequence(Chosen(sorted, lower), sorted)
    ensures forall i :: 0 <= i < |Chosen(sorted, lower)| ==>
              PassesGuestFilter(Chosen(sorted, lower)[i].description, Chosen(sorted, lower)[i].episodeNumber, lower)
    ensures forall e :: multiset(Chosen(sorted, lower))[e] ==
              if PassesGuestFilter(e.description, e.episodeNumber, lower) then multiset(sorted)[e] else 0
  {
    FilterIsSubsequence(ChosenTest(lower), sorted);
    forall e ensures multiset(Chosen(sorted, lower))[e] ==
                     if PassesGuestFilter(e.description, e.episodeNumber, lower) then multiset(sorted)[e] else 0 {
      FilterMultiset(ChosenTest(lower), sorted, e);
    }
  }

  /** Episodes numbered below 322 are all chosen: the chosen list keeps every one of them. */
  lemma EarlyEpisodesAllChosen(sorted: seq<Episode>, lower: char -> char)
    requires forall i :: 0 <= i < |sorted| ==> sorted[i].episodeNumber < FilterFrom
    ensures Chosen(sorted, lower) == sorted
  {
    FilterAllPass(ChosenTest(lower), sorted);
  }

  /** The test of `mark_played`'s comprehension: keep what is not numbered `n`. */
  function NotNumbered(n: int): Episode -> bool
  {
    (e: Episode) => e.episodeNumber != n
  }

  /** `[ep for ep in unplayed if ep['episode_number'] != n]` */
  function RemovePlayed(unplayed: seq<Episode>, n: int): (r: seq<Episode>)
    ensures |r| <= |unplayed|
    ensures forall i :: 0 <= i < |r| ==> r[i] in unplayed && r[i].episodeNumber != n
    ensures forall i :: 0 <= i < |unplayed| && unplayed[i].episodeNumber != n ==> unplayed[i] in r
  {
    Filter(NotNumbered(n), unplayed)
  }

  /**
   * Marking `n` played removes every part numbered `n` and keeps every
   * other entry, as often as before and in its original order; the list
   * never grows.
   */
  lemma RemovePlayedSpec(unplayed: seq<Episode>, n: int)
    ensures forall i :: 0 <= i < |RemovePlayed(unplayed, n)| ==> RemovePlayed(unplayed, n)[i].episodeNumber != n
    ensures forall e :: multiset(RemovePlayed(unplayed, n))[e] == if e.episodeNumber == n then 0 else multiset(unplayed)[e]
    ensures IsSubsequence(RemovePlayed(unplayed, n), unplayed)
    ensures |RemovePlayed(unplayed, n)| <= |unplayed|
  {
    FilterIsSubsequence(NotNumbered(n), unplayed);
    forall e ensures multiset(RemovePlayed(unplayed, n))[e] == if e.episodeNumber == n then 0 else multiset(unplayed)[e] {
      FilterMultiset(NotNumbered(n), unplayed, e);
    }
  }

  /** Marking the same number twice is marking it once. */
  lemma RemovePlayedIdempotent(unplayed: seq<Episode>, n: int)
    ensures RemovePlayed(RemovePlayed(unplayed, n), n) == RemovePlayed(unplayed, n)
  {
    FilterIdempotent(NotNumbered(n), unplayed);
  }

  /** Marking a number no entry has changes nothing. */
  lemma RemoveAbsentNumber(unplayed: seq<Episode>, n: int)
    requires forall i :: 0 <= i < |unplayed| ==> unplayed[i].episodeNumber != n
    ensures RemovePlayed(unplayed, n) == unplayed
  {
    FilterAllPass(NotNumbered(n), unplayed);
  }

  /** The per-user episode lists kept in the session. */
  class Session {
    /** `str.lower()` of the Python runtime, per character. */
    const lower: char -> char
    var allEpisodes: seq<Episode>
    var chosenEpisodes: seq<Episode>
    var unplayedEpisodes: seq<Episode>

    /**
     * The lists are sorted, chosen is the guest-filtered sorted list, and
     * unplayed is what is left of chosen after removals.
     */
    ghost predicate Valid()
      reads this
    {
      SortedByKey(allEpisodes) &&
      chosenEpisodes == Chosen(allEpisodes, lower) &&
      IsSubsequence(unplayedEpisodes, chosenEpisodes)
    }

    constructor (lower: char -> char)
      ensures Valid() && this.lower == lower
      ensures allEpisodes == [] && chosenEpisodes == [] && unplayedEpisodes == []
    {
      this.lower := lower;
      allEpisodes, chosenEpisodes, unplayedEpisodes := [], [], [];
    }

    /**
     * The classification block of `load_episodes`: sort everything fetched,
     * filter it in order, and seed unplayed with a copy of chosen. The
     * returned counts are those of the JSON reply.
     */
    method LoadEpisodes(fetched: seq<RawEpisode>) returns (total: nat, chosenCount: nat, unplayedCount: nat)
      modifies this
      ensures Valid()
      ensures allEpisodes == SortEpisodes(Details(fetched))
      ensures chosenEpisodes == Chosen(allEpisodes, lower)
      ensures unplayedEpisodes == chosenEpisodes
      ensures total == |fetched| && chosenCount == |chosenEpisodes| && unplayedCount == chosenCount
    {
      var sorted := SortEpisodes(Details(fetched));
      var chosen := SelectChosen(sorted, lower);
      allEpisodes := sorted;
      chosenEpisodes := chosen;
      unplayedEpisodes := chosen;
      SubsequenceReflexive(chosen);
      assert |multiset(sorted)| == |multiset(Details(fetched))|;
      total, chosenCount, unplayedCount := |sorted|, |chosen|, |chosen|;
    }

    /**
     * `mark_played`: removes every unplayed entry numbered `episodeNumber`
     * (every part of it); the other two lists stay as they are.
     */
    method MarkPlayed(episodeNumber: nat) returns (remaining: nat)
      requires Valid()
      modifies this
      ensures Valid()
      ensures unplayedEpisodes == RemovePlayed(old(unplayedEpisodes), episodeNumber)
      ensures allEpisodes == old(allEpisodes) && chosenEpisodes == old(chosenEpisodes)
      ensures remaining == |unplayedEpisodes|
    {
      var kept := RemovePlayed(unplayedEpisodes, episodeNumber);
      FilterIsSubsequence(NotNumbered(episodeNumber), unplayedEpisodes);
      SubsequenceTransitive(kept, unplayedEpisodes, chosenEpisodes);
      unplayedEpisodes := kept;
      remaining := |kept|;
    }
  }
}
