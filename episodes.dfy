/**
 * Episodes as the pipeline sees them: the raw catalog item and the parsed
 * record built by `get_episode_details`, and the sort key of
 * `sort_episodes`.
 */
module Episodes {
  import opened Wrappers
  import opened TitleParser

  /** A catalog item; `description` is `None` when the item has no such key. */
  datatype RawEpisode = RawEpisode(
    name: string, releaseDate: string, uri: string, description: Option<string>, id: string)

  /** The parsed record; `episodeNumber` and `part` are computed once from `name`. */
  datatype Episode = Episode(
    name: string, releaseDate: string, uri: string, description: string,
    episodeNumber: nat, part: Option<Part>, id: string)

  /** `get_episode_details`; a missing description reads as the empty string. */
  function EpisodeDetails(raw: RawEpisode): (e: Episode)
    ensures e.name == raw.name && e.releaseDate == raw.releaseDate && e.uri == raw.uri && e.id == raw.id
    ensures raw.description.Some? ==> e.description == raw.description.value
    ensures raw.description.None? ==> e.description == ""
    ensures e.episodeNumber <= 9999
    ensures e.episodeNumber == ExtractEpisodeNumber(raw.name) && e.part == ExtractPart(raw.name)
  {
    Episode(raw.name, raw.releaseDate, raw.uri,
            match raw.description case Some(d) => d case None => "",
            ExtractEpisodeNumber(raw.name), ExtractPart(raw.name), raw.id)
  }

  /** `part_value`: no part first, then A, then B. */
  function PartRank(p: Option<Part>): (r: nat)
    ensures r <= 2
    ensures r == 0 <==> p.None?
  {
    match p
    case None => 0
    case Some(A) => 1
    case Some(B) => 2
  }

  /** `episode_key`: the pair `(episode_number, part_value)`. */
  datatype EpisodeKey = EpisodeKey(number: nat, rank: nat)

  function KeyOf(e: Episode): EpisodeKey
  {
    EpisodeKey(e.episodeNumber, PartRank(e.part))
  }

  /** Distinct parts have distinct ranks: no part, A and B never tie. */
  lemma PartRankInjective(p: Option<Part>, q: Option<Part>)
    ensures PartRank(p) == PartRank(q) <==> p == q
  {
  }

  /** Two episodes share a key exactly when they share number and part. */
  lemma SameKey(a: Episode, b: Episode)
    ensures KeyOf(a) == KeyOf(b) <==> a.episodeNumber == b.episodeNumber && a.part == b.part
  {
    PartRankInjective(a.part, b.part);
  }

  /** Python's tuple comparison `<=` on the keys. */
  predicate KeyLe(a: EpisodeKey, b: EpisodeKey)
  {
    a.number < b.number || (a.number == b.number && a.rank <= b.rank)
  }

  /** `<=` on the keys is a total order: what a sort by them relies on. */
  lemma KeyLeTotalOrder(a: EpisodeKey, b: EpisodeKey, c: EpisodeKey)
    ensures KeyLe(a, a)
    ensures KeyLe(a, b) || KeyLe(b, a)
    ensures KeyLe(a, b) && KeyLe(b, a) ==> a == b
    ensures KeyLe(a, b) && KeyLe(b, c) ==> KeyLe(a, c)
  {
  }
}
