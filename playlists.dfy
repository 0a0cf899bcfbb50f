/**
 * The playlist half of the system: `create_or_find_playlist` and
 * `update_playlist`, against an in-memory stand-in for the remote
 * playlist service. The service keeps the account's playlists in the
 * order it lists them and the items of each playlist.
 */
module Playlists {
  import opened Wrappers

  type Uri = string
  type PlaylistId = nat

  /** A listed playlist: its name and identifier. */
  datatype PlaylistEntry = PlaylistEntry(name: string, id: PlaylistId)

  /** The service's limit on items per add or replace call. */
  const MaxBatch: nat := 100

  /** `current_user_playlists(limit=50)`: only the first page is searched. */
  const PageLimit: nat := 50

  // ---------------------------------------------------------------------
  // Batching
  // ---------------------------------------------------------------------

  /** The slices `uris[i:i + 100]` for `i in range(0, len(uris), 100)`. */
  function Batches(uris: seq<Uri>): (r: seq<seq<Uri>>)
    ensures forall i :: 0 <= i < |r| ==> 0 < |r[i]| <= MaxBatch
    decreases |uris|
  {
    if uris == [] then []
    else if |uris| <= MaxBatch then [uris]
    else [uris[..MaxBatch]] + Batches(uris[MaxBatch..])
  }

  function Flatten(bs: seq<seq<Uri>>): seq<Uri>
  {
    if bs == [] then [] else bs[0] + Flatten(bs[1..])
  }

  /**
   * Every batch is non-empty and within the limit, the batches
   * concatenate back to the list, and there are as many as the list has
   * hundreds, rounded up.
   */
  lemma {:induction false} BatchesSpec(uris: seq<Uri>)
    ensures forall i :: 0 <= i < |Batches(uris)| ==> 0 < |Batches(uris)[i]| <= MaxBatch
    ensures Flatten(Batches(uris)) == uris
    ensures |Batches(uris)| == (|uris| + MaxBatch - 1) / MaxBatch
    decreases |uris|
  {
    if uris != [] && |uris| > MaxBatch {
      var rest := uris[MaxBatch..];
      BatchesSpec(rest);
      var bs := Batches(uris);
      assert bs == [uris[..MaxBatch]] + Batches(rest);
      assert bs[1..] == Batches(rest);
      assert uris == uris[..MaxBatch] + rest;
    }
  }

  // ---------------------------------------------------------------------
  // First match by name
  // ---------------------------------------------------------------------

  /** The first entry of `page` named exactly `name`, if any. */
  function FirstMatch(page: seq<PlaylistEntry>, name: string): (r: Option<PlaylistEntry>)
    ensures r.Some? ==> r.value.name == name
    ensures r.Some? ==> exists k :: 0 <= k < |page| && page[k] == r.value && forall j :: 0 <= j < k ==> page[j].name != name
    ensures r.None? ==> forall j :: 0 <= j < |page| ==> page[j].name != name
  {
    if page == [] then None
    else if page[0].name == name then Some(page[0])
    else
      var r := FirstMatch(page[1..], name);
      assert r.Some? ==> exists k :: 0 <= k < |page| && page[k] == r.value && forall j :: 0 <= j < k ==> page[j].name != name by {
        if r.Some? {
          var k :| 0 <= k < |page[1..]| && page[1..][k] == r.value && forall j :: 0 <= j < k ==> page[1..][j].name != name;
          assert page[k + 1] == r.value;
          assert forall j :: 0 <= j < k + 1 ==> page[j].name != name by {
            forall j | 0 <= j < k + 1 ensures page[j].name != name {
              if j > 0 { assert page[j] == page[1..][j - 1]; }
            }
          }
        }
      }
      r
  }

  /** The `for playlist in playlists['items']` loop with its early return. */
  method FindByName(page: seq<PlaylistEntry>, name: string) returns (r: Option<PlaylistEntry>)
    ensures r == FirstMatch(page, name)
  {
    for k := 0 to |page|
      invariant FirstMatch(page, name) == FirstMatch(page[k..], name)
    {
      assert page[k..][1..] == page[k + 1..];
      if page[k].name == name {
        return Some(page[k]);
      }
    }
    return None;
  }

  // ---------------------------------------------------------------------
  // The remote service
  // ---------------------------------------------------------------------

  class PlaylistService {
    /** The account's playlists, in the order the service lists them. */
    var listed: seq<PlaylistEntry>
    /** The items of every existing playlist. */
    var items: map<PlaylistId, seq<Uri>>
    /** An identifier no playlist has yet. */
    var nextId: PlaylistId
    /** Every batch accepted by an add call, oldest first. */
    ghost var added: seq<seq<Uri>>

    /** Every listed playlist exists, and every identifier in use is below `nextId`. */
    ghost predicate Valid()
      reads this
    {
      (forall i :: 0 <= i < |listed| ==> listed[i].id in items) &&
      (forall id :: id in items ==> id < nextId)
    }

    constructor ()
      ensures Valid() && listed == [] && items == map[] && added == []
    {
      listed, items, nextId, added := [], map[], 0, [];
    }

    /** The first page of `current_user_playlists(limit=50)`. */
    function FirstPage(): (page: seq<PlaylistEntry>)
      reads this
      ensures |page| <= PageLimit
      ensures |page| <= |listed| && page == listed[..|page|]
      ensures |page| == PageLimit || page == listed
    {
      if |listed| <= PageLimit then listed else listed[..PageLimit]
    }

    /** `playlist_replace_items`; `ok` is false when the playlist does not exist (the call raises). */
    method ReplaceItems(id: PlaylistId, uris: seq<Uri>) returns (ok: bool)
      requires Valid() && |uris| <= MaxBatch
      modifies this
      ensures Valid()
      ensures ok == (id in old(items))
      ensures items == if ok then old(items)[id := uris] else old(items)
      ensures listed == old(listed) && nextId == old(nextId) && added == old(added)
    {
      ok := id in items;
      if ok {
        items := items[id := uris];
      }
    }

    /** `playlist_add_items`: appends one batch; `ok` is false when the playlist does not exist. */
    method AddItems(id: PlaylistId, batch: seq<Uri>) returns (ok: bool)
      requires Valid() && |batch| <= MaxBatch
      modifies this
      ensures Valid()
      ensures ok == (id in old(items))
      ensures items == if ok then old(items)[id := old(items)[id] + batch] else old(items)
      ensures added == if ok then old(added) + [batch] else old(added)
      ensures listed == old(listed) && nextId == old(nextId)
    {
      ok := id in items;
      if ok {
        items := items[id := items[id] + batch];
        added := added + [batch];
      }
    }

    /**
     * `user_playlist_create`: a new, empty playlist. The model assumes the
     * service lists a playlist it has just created first; the client code
     * does not rely on or check any listing order.
     */
    method CreatePlaylist(name: string) returns (entry: PlaylistEntry)
      requires Valid()
      modifies this
      ensures Valid()
      ensures entry.name == name && entry.id !in old(items)
      ensures listed == [entry] + old(listed)
      ensures items == old(items)[entry.id := []]
      ensures added == old(added)
    {
      entry := PlaylistEntry(name, nextId);
      listed := [entry] + listed;
      items := items[nextId := []];
      nextId := nextId + 1;
    }
  }

  // ---------------------------------------------------------------------
  // The two operations
  // ---------------------------------------------------------------------

  /**
   * `create_or_find_playlist`: the first playlist on the first page whose
   * name equals `name` exactly; only when there is none, a new playlist.
   * Either way the returned playlist is afterwards the first match on the
   * first page (for a created one, under the assumption that the service
   * lists it first), so asking again finds it and creates nothing.
   */
  method CreateOrFindPlaylist(sp: PlaylistService, name: string) returns (entry: PlaylistEntry)
    requires sp.Valid()
    modifies sp
    ensures sp.Valid()
    ensures old(FirstMatch(sp.FirstPage(), name)).Some? ==>
      entry == old(FirstMatch(sp.FirstPage(), name)).value &&
      sp.listed == old(sp.listed) && sp.items == old(sp.items) && sp.nextId == old(sp.nextId)
    ensures old(FirstMatch(sp.FirstPage(), name)).None? ==>
      entry.name == name && entry.id !in old(sp.items) &&
      sp.listed == [entry] + old(sp.listed) && sp.items == old(sp.items)[entry.id := []]
    ensures FirstMatch(sp.FirstPage(), name) == Some(entry)
    ensures entry.id in sp.items
    ensures sp.added == old(sp.added)
  {
    var page := sp.FirstPage();
    var found := FindByName(page, name);
    if found.Some? {
      entry := found.value;
    } else {
      entry := sp.CreatePlaylist(name);
      assert sp.FirstPage()[0] == entry;
    }
  }

  /** The batches from `i` on: the slice `uris[i..end]`, then the batches from `end` on. */
  lemma BatchesFrom(uris: seq<Uri>, i: nat, end: nat)
    requires i < |uris| && end == (if i + MaxBatch <= |uris| then i + MaxBatch else |uris|)
    ensures Batches(uris[i..]) == [uris[i..end]] + Batches(uris[end..])
  {
    var rest := uris[i..];
    if |rest| > MaxBatch {
      assert rest[..MaxBatch] == uris[i..end] && rest[MaxBatch..] == uris[end..];
    } else {
      assert rest == uris[i..end] && uris[end..] == [];
    }
  }

  /** One pass of the loop of `update_playlist`: add the slice `uris[i:i + 100]`. */
  method AddSliceAt(sp: PlaylistService, id: PlaylistId, uris: seq<Uri>, i: nat) returns (end: nat)
    requires sp.Valid() && id in sp.items && i < |uris|
    modifies sp
    ensures sp.Valid() && id in sp.items
    ensures end == (if i + MaxBatch <= |uris| then i + MaxBatch else |uris|)
    ensures sp.items == old(sp.items)[id := old(sp.items)[id] + uris[i..end]]
    ensures sp.added == old(sp.added) + [uris[i..end]]
    ensures sp.listed == old(sp.listed) && sp.nextId == old(sp.nextId)
  {
    end := if i + MaxBatch <= |uris| then i + MaxBatch else |uris|;
    var ok := sp.AddItems(id, uris[i..end]);
  }

  /**
   * The loop of `update_playlist`: `playlist_add_items` once per slice of
   * at most 100, in order. Appended to an existing playlist, the items end
   * up after the old ones, and the add calls made are the batches of `uris`.
   */
  method AddInBatches(sp: PlaylistService, id: PlaylistId, uris: seq<Uri>)
    requires sp.Valid() && id in sp.items
    modifies sp
    ensures sp.Valid()
    ensures sp.items == old(sp.items)[id := old(sp.items)[id] + uris]
    ensures sp.added == old(sp.added) + Batches(uris)
    ensures sp.listed == old(sp.listed) && sp.nextId == old(sp.nextId)
  {
    ghost var items0, added0 := sp.items, sp.added;
    var i := 0;
    assert uris[..0] == [] && items0[id] + [] == items0[id];
    while i < |uris|
      invariant 0 <= i <= |uris|
      invariant sp.Valid() && id in sp.items
      invariant sp.items == items0[id := items0[id] + uris[..i]]
      invariant sp.added + Batches(uris[i..]) == added0 + Batches(uris)
      invariant sp.listed == old(sp.listed) && sp.nextId == old(sp.nextId)
      decreases |uris| - i
    {
      ghost var before := sp.added;
      var end := AddSliceAt(sp, id, uris, i);
      BatchesFrom(uris, i, end);
      assert sp.added + Batches(uris[end..]) == before + Batches(uris[i..]);
      assert items0[id] + uris[..i] + uris[i..end] == items0[id] + uris[..end] by {
        assert uris[..end] == uris[..i] + uris[i..end];
      }
      i := end;
    }
    assert uris[..i] == uris && uris[i..] == [];
  }

  /**
   * `update_playlist`: clear the playlist, then append `uris` in slices of
   * at most 100. Afterwards the playlist holds exactly `uris`, and the add
   * calls made are the batches of `uris`. When the playlist does not exist
   * the first call fails and nothing changes.
   */
  method UpdatePlaylist(sp: PlaylistService, id: PlaylistId, uris: seq<Uri>) returns (ok: bool)
    requires sp.Valid()
    modifies sp
    ensures sp.Valid()
    ensures ok == (id in old(sp.items))
    ensures sp.items == if ok then old(sp.items)[id := uris] else old(sp.items)
    ensures sp.added == if ok then old(sp.added) + Batches(uris) else old(sp.added)
    ensures sp.listed == old(sp.listed) && sp.nextId == old(sp.nextId)
  {
    ok := sp.ReplaceItems(id, []);
    if !ok {
      return;
    }
    if uris == [] {
      return;
    }
    ghost var cleared := sp.items;
    AddInBatches(sp, id, uris);
    assert cleared[id] + uris == uris;
  }

  /** Reconciling twice with the same list leaves the same content as reconciling once. */
  method UpdatePlaylistTwice(sp: PlaylistService, id: PlaylistId, uris: seq<Uri>)
    requires sp.Valid()
    modifies sp
    ensures sp.Valid()
    ensures sp.items == if id in old(sp.items) then old(sp.items)[id := uris] else old(sp.items)
  {
    var first := UpdatePlaylist(sp, id, uris);
    var second := UpdatePlaylist(sp, id, uris);
  }
}
