/**
 * The guest filter `contains_target_guest`: episodes numbered below 322
 * always pass; later ones pass when a target guest's name occurs in the
 * description, both sides lowercased. Lowercasing is a parameter
 * `lower`, applied character by character and identically to the
 * description and to the guest names.
 */
module GuestFilter {

  /** `TARGET_GUESTS`, in order; the spaced and unspaced spellings are both entries. */
  const TargetGuests: seq<string> := [
    "Nuri Çetin", "Kemal Ayça", "İlker Gümüşoluk", "Anlatan Adam",
    "Anlatanadam", "Alper Çelik", "Ömür Okumuş", "Erman Arıcasoy"
  ]

  /** Episodes numbered below this pass without looking at the description. */
  const FilterFrom: int := 322

  /** `s.lower()`, one character at a time. */
  function Lower(s: string, lower: char -> char): string
  {
    seq(|s|, i requires 0 <= i < |s| => lower(s[i]))
  }

  predicate OccursAt(p: string, s: string, i: int)
  {
    0 <= i && i + |p| <= |s| && s[i..i + |p|] == p
  }

  /** Python's `p in s` on strings. */
  predicate IsSubstring(p: string, s: string)
  {
    exists i :: 0 <= i <= |s| - |p| && OccursAt(p, s, i)
  }

  /** Some lowercased target guest occurs in the lowercased description. */
  predicate MentionsTargetGuest(description: string, lower: char -> char)
  {
    exists k :: 0 <= k < |TargetGuests| && IsSubstring(Lower(TargetGuests[k], lower), Lower(description, lower))
  }

  /** The filter's verdict, as a specification. */
  predicate PassesGuestFilter(description: string, episodeNumber: int, lower: char -> char)
  {
    episodeNumber < FilterFrom || MentionsTargetGuest(description, lower)
  }

  /** `contains_target_guest`: the threshold test, then a search over the guests with early return. */
  method ContainsTargetGuest(description: string, episodeNumber: int, lower: char -> char)
    returns (found: bool)
    ensures found <==> PassesGuestFilter(description, episodeNumber, lower)
  {
    if episodeNumber < FilterFrom {
      return true;
    }
    var descriptionLower := Lower(description, lower);
    for k := 0 to |TargetGuests|
      invariant forall j :: 0 <= j < k ==> !IsSubstring(Lower(TargetGuests[j], lower), descriptionLower)
    {
      if IsSubstring(Lower(TargetGuests[k], lower), descriptionLower) {
        return true;
      }
    }
    return false;
  }

  lemma GuestsNonEmpty()
    ensures forall k :: 0 <= k < |TargetGuests| ==> |TargetGuests[k]| > 0
  {
  }

  /** From episode 322 on, an empty description never passes. */
  lemma EmptyDescriptionFails(episodeNumber: int, lower: char -> char)
    requires episodeNumber >= FilterFrom
    ensures !PassesGuestFilter("", episodeNumber, lower)
  {
    GuestsNonEmpty();
  }

  /** Lowercasing commutes with taking a slice. */
  lemma LowerSlice(s: string, i: int, j: int, lower: char -> char)
    requires 0 <= i <= j <= |s|
    ensures Lower(s, lower)[i..j] == Lower(s[i..j], lower)
  {
  }

  /**
   * A description that contains a guest's name as written passes, whatever
   * lowercasing does: containment is not word matching, so the name inside
   * a longer word counts too.
   */
  lemma LiteralMentionPasses(description: string, episodeNumber: int, k: int, lower: char -> char)
    requires 0 <= k < |TargetGuests| && IsSubstring(TargetGuests[k], description)
    ensures PassesGuestFilter(description, episodeNumber, lower)
  {
    var g := TargetGuests[k];
    var i :| 0 <= i <= |description| - |g| && OccursAt(g, description, i);
    LowerSlice(description, i, i + |g|, lower);
    assert OccursAt(Lower(g, lower), Lower(description, lower), i);
  }

  /**
   * Case-insensitivity: two descriptions that agree after lowercasing,
   * character by character, get the same verdict.
   */
  lemma SameLowercaseSameVerdict(d1: string, d2: string, episodeNumber: int, lower: char -> char)
    requires |d1| == |d2| && forall i :: 0 <= i < |d1| ==> lower(d1[i]) == lower(d2[i])
    ensures PassesGuestFilter(d1, episodeNumber, lower) == PassesGuestFilter(d2, episodeNumber, lower)
  {
    assert Lower(d1, lower) == Lower(d2, lower);
  }
}
