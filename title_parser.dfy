/**
 * Parsing an episode title: the episode number (`\d{3,4}` searched
 * leftmost, then `int()`) and the optional part letter
 * (`\s([AB])(?:\s|$|\))` searched leftmost). Both are total functions of
 * the title alone.
 */
module TitleParser {
  import opened Wrappers

  /** The part label of a two-part episode. */
  datatype Part = A | B

  /** `\d`, restricted to the ASCII digits. */
  predicate IsDigit(c: char) { '0' <= c <= '9' }

  /**
   * `\s`, restricted to ASCII: space, tab, line feed, vertical tab, form
   * feed, carriage return (9 to 13) and the separators 28 to 31.
   */
  predicate IsSpace(c: char) { c == ' ' || 9 <= c as int <= 13 || 28 <= c as int <= 31 }

  function Pow10(n: nat): (p: nat)
    ensures p >= 1
  {
    if n == 0 then 1 else 10 * Pow10(n - 1)
  }

  predicate AllDigits(s: string) { forall i :: 0 <= i < |s| ==> IsDigit(s[i]) }

  /** `int(ds)` for a string of decimal digits (leading zeros allowed). */
  function DecimalValue(ds: string): (v: nat)
    requires AllDigits(ds)
    ensures v < Pow10(|ds|)
    ensures v == 0 <==> forall i :: 0 <= i < |ds| ==> ds[i] == '0'
  {
    if ds == [] then 0
    else
      var init := ds[..|ds| - 1];
      assert AllDigits(init) by { assert forall i :: 0 <= i < |init| ==> init[i] == ds[i]; }
      10 * DecimalValue(init) + ((ds[|ds| - 1] as int) - ('0' as int))
  }

  // ---------------------------------------------------------------------
  // Episode number
  // ---------------------------------------------------------------------

  /** `\d{3,4}` matches starting at index `i`: three digits begin there. */
  predicate RunAt(s: string, i: int)
  {
    0 <= i && i + 3 <= |s| && IsDigit(s[i]) && IsDigit(s[i + 1]) && IsDigit(s[i + 2])
  }

  /** The greedy `{3,4}`: a fourth digit is taken when there is one. */
  function RunLength(s: string, i: int): (n: nat)
    requires RunAt(s, i)
    ensures 3 <= n <= 4 && i + n <= |s| && AllDigits(s[i..i + n])
    ensures n == 4 <==> i + 3 < |s| && IsDigit(s[i + 3])
  {
    if i + 3 < |s| && IsDigit(s[i + 3]) then 4 else 3
  }

  /** Where `re.search` finds `\d{3,4}`, scanning from `from` on. */
  function LeftmostRun(s: string, from: nat): (r: Option<nat>)
    requires from <= |s|
    ensures r.Some? ==> from <= r.value && RunAt(s, r.value)
    ensures r.Some? ==> forall j :: from <= j < r.value ==> !RunAt(s, j)
    ensures r.None? ==> forall j :: from <= j ==> !RunAt(s, j)
    decreases |s| - from
  {
    if from + 3 > |s| then None
    else if RunAt(s, from) then Some(from)
    else LeftmostRun(s, from + 1)
  }

  /**
   * `extract_episode_number`: the value of the first three or four digits
   * of the leftmost run of at least three digits, or 0 when there is none.
   */
  function ExtractEpisodeNumber(name: string): (n: nat)
    ensures n <= 9999
    ensures (forall i :: !RunAt(name, i)) ==> n == 0
    ensures forall i :: RunAt(name, i) && (forall j :: 0 <= j < i ==> !RunAt(name, j)) ==>
              n == DecimalValue(name[i..i + RunLength(name, i)])
  {
    match LeftmostRun(name, 0)
    case None => 0
    case Some(i) =>
      var ds := name[i..i + RunLength(name, i)];
      assert DecimalValue(ds) <= 9999 by { DecimalUpTo4(ds); }
      DecimalValue(ds)
  }

  lemma DecimalUpTo4(ds: string)
    requires AllDigits(ds) && |ds| <= 4
    ensures DecimalValue(ds) <= 9999
  {
    assert Pow10(1) == 10;
    assert Pow10(2) == 100;
    assert Pow10(3) == 1000;
    assert Pow10(4) == 10000;
  }

  /**
   * The number is 0 exactly when the title has no run of three digits or
   * the digits taken from its leftmost run are all zeros ("000", "0000").
   */
  lemma EpisodeNumberZero(name: string)
    ensures ExtractEpisodeNumber(name) == 0 <==>
      (forall i :: !RunAt(name, i)) ||
      (exists i :: RunAt(name, i) && (forall j :: 0 <= j < i ==> !RunAt(name, j)) &&
         forall k :: i <= k < i + RunLength(name, i) ==> name[k] == '0')
  {
    var r := LeftmostRun(name, 0);
    if r.Some? {
      var i := r.value;
      var ds := name[i..i + RunLength(name, i)];
      assert forall k :: i <= k < i + RunLength(name, i) ==> name[k] == ds[k - i];
      if ExtractEpisodeNumber(name) == 0 {
        assert forall k :: 0 <= k < |ds| ==> ds[k] == '0';
      }
    }
  }

  // ---------------------------------------------------------------------
  // Part letter
  // ---------------------------------------------------------------------

  predicate IsPartLetter(c: char) { c == 'A' || c == 'B' }

  /**
   * `\s([AB])(?:\s|$|\))` matches starting at index `i`. Python's `$` also
   * matches before a final line feed, but a line feed there is already
   * matched by the `\s` alternative, so end of string is all `$` adds.
   */
  predicate PartAt(s: string, i: int)
  {
    0 <= i && i + 2 <= |s| && IsSpace(s[i]) && IsPartLetter(s[i + 1]) &&
    (i + 2 == |s| || IsSpace(s[i + 2]) || s[i + 2] == ')')
  }

  function PartOf(c: char): Part
    requires IsPartLetter(c)
  {
    if c == 'A' then A else B
  }

  /** Where `re.search` finds the part pattern, scanning from `from` on. */
  function LeftmostPart(s: string, from: nat): (r: Option<nat>)
    requires from <= |s|
    ensures r.Some? ==> from <= r.value && PartAt(s, r.value)
    ensures r.Some? ==> forall j :: from <= j < r.value ==> !PartAt(s, j)
    ensures r.None? ==> forall j :: from <= j ==> !PartAt(s, j)
    decreases |s| - from
  {
    if from + 2 > |s| then None
    else if PartAt(s, from) then Some(from)
    else LeftmostPart(s, from + 1)
  }

  /**
   * `extract_part`: the letter of the leftmost whitespace-preceded `A` or
   * `B` that is followed by whitespace, the end of the title or `)`.
   */
  function ExtractPart(name: string): (r: Option<Part>)
    ensures (forall i :: !PartAt(name, i)) ==> r == None
    ensures forall i :: PartAt(name, i) && (forall j :: 0 <= j < i ==> !PartAt(name, j)) ==>
              r == Some(PartOf(name[i + 1]))
  {
    match LeftmostPart(name, 0)
    case None => None
    case Some(i) => Some(PartOf(name[i + 1]))
  }

  /** A title without whitespace never has a part: "322ABC" has none. */
  lemma NoSpaceNoPart(name: string)
    requires forall k :: 0 <= k < |name| ==> !IsSpace(name[k])
    ensures ExtractPart(name) == None
  {
  }

  /** The numbers of example titles. */
  lemma NumberExamples()
    ensures ExtractEpisodeNumber("Rabarba 0322") == 322
    ensures ExtractEpisodeNumber("Rabarba") == 0
  {
    var t := "Rabarba 0322";
    assert RunAt(t, 8);
    assert forall j :: 0 <= j < 8 ==> !IsDigit(t[j]);
    assert RunLength(t, 8) == 4 && t[8..12] == "0322";
    assert DecimalValue("0322") == 322 by {
      assert "0322"[..3] == "032" && "032"[..2] == "03" && "03"[..1] == "0" && "0"[..0] == "";
    }
    assert forall j :: 0 <= j < |"Rabarba"| ==> !IsDigit("Rabarba"[j]);
  }

  /** A run longer than four digits gives its first four. */
  lemma LongRunExample()
    ensures ExtractEpisodeNumber("Rabarba 12345") == 1234
  {
    var t := "Rabarba 12345";
    assert RunAt(t, 8);
    assert forall j :: 0 <= j < 8 ==> !IsDigit(t[j]);
    assert RunLength(t, 8) == 4 && t[8..12] == "1234";
    assert DecimalValue("1234") == 1234 by {
      assert "1234"[..3] == "123" && "123"[..2] == "12" && "12"[..1] == "1" && "1"[..0] == "";
    }
  }

  /** The parts of example titles. */
  lemma PartExamples()
    ensures ExtractPart("Bölüm 322 A") == Some(A)
    ensures ExtractPart("Bölüm 322") == None
    ensures ExtractPart("322ABC") == None
  {
    var p := "Bölüm 322 A";
    assert PartAt(p, 9) && !PartAt(p, 5);
    assert forall j :: 0 <= j < 9 && j != 5 ==> !IsSpace(p[j]);
    var q := "Bölüm 322";
    assert forall j :: 0 <= j < |q| && j != 5 ==> !IsSpace(q[j]);
    assert !PartAt(q, 5);
    NoSpaceNoPart("322ABC");
  }
}
