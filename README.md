# Rabarba organizer: the episode pipeline in Dafny

The Rabarba organizer is a small web app that reads the episode list of the
Rabarba podcast from Spotify and keeps the episodes featuring a fixed list of
guests. It mirrors two lists into Spotify playlists: "chosen" and "unplayed".
This project models the logic that sits between those two services:

- **Title parsing** (`TitleParser`). `extract_episode_number` is a leftmost
  search for `\d{3,4}` followed by `int()`. `extract_part` is a leftmost search
  for `\s([AB])(?:\s|$|\))`.
- **Guest filter** (`GuestFilter`). Episodes numbered below 322 always pass.
  A later episode passes when a lowercased name from `TARGET_GUESTS` occurs in
  its lowercased description.
- **Ordering** (`Ordering`). `sort_episodes` is Python's stable `sorted` with the
  key `(episode_number, part_value)`. Here it is a stable insertion sort. The
  proofs show its result is sorted, a permutation of the input, and stable.
  Sortedness plus stability pin the result down completely.
- **Classification and mark-played** (`Classification`). A `Session` object
  holds the three session lists. `LoadEpisodes` sorts, filters the sorted list
  in order, and seeds unplayed as a copy of chosen. `MarkPlayed` removes every
  unplayed entry with the given number.
- **Playlist reconcile** (`Playlists`). A `PlaylistService` object stands in for
  Spotify's playlists. `UpdatePlaylist` clears a playlist and appends in slices
  of 100. `CreateOrFindPlaylist` returns the first exact name match on the first
  page of 50 playlists, or creates a new playlist.
- **Render redirect URI** (`Config`). Appends `.onrender.com` unless the host
  already ends with it, then builds `https://<host>/callback`.

`Sequences` holds the order-preserving filter behind the list comprehensions
and filtering loops. It also holds the facts about it that the pipeline uses:
membership, multiplicities, subsequence and idempotence. `Wrappers` holds
`Option`.

Modelling choices:

- `\d` is ASCII digits only. `\s` is the ASCII whitespace Python's `re` accepts:
  space, code points 9 to 13, and 28 to 31.
- Python's `$` also matches before a final line feed. That changes nothing
  here, because a final line feed is already matched by the `\s` alternative.
- `str.lower()` is a parameter `lower: char -> char`, applied per character and
  identically to the description and the guest names. The `Session` keeps it as
  a constant.
- A catalog item without a `description` key has description `""`, as with
  `episode.get('description', '')`.
- `mark_played` takes a `nat`, because Flask's `<int:…>` converter only accepts
  non-negative numbers.
- A playlist call on an identifier that does not exist raises in the source. In
  the model that call returns `ok == false` and changes nothing.
  `UpdatePlaylist` then stops, which models the exception propagating.
- The model assumes that the service lists a newly created playlist first.
  The code neither relies on nor checks this; under the assumption, a created
  playlist is on the first page next time.

How the code treats long runs and zeros: a run longer than four digits gives
its first four, so "`Rabarba 12345`" gives 1234. The number is 0 when there is
no run of three digits, and also when the digits taken are all zeros
("`000`"). `EpisodeNumberZero` states exactly when the number is 0.

## Model

| member | source | states |
|---|---|---|
| `TitleParser.DecimalValue` | app.py:107 | `int()` of a digit string is below 10^length, and is 0 exactly when every digit is `'0'` |
| `TitleParser.RunLength` | app.py:106 | the greedy `{3,4}` takes 3 or 4 characters, all digits, inside the string, and takes 4 exactly when a fourth digit follows the first three |
| `TitleParser.LeftmostRun` | app.py:106 | the search result is a position where three digits start, with none earlier; no result means no such position anywhere |
| `TitleParser.ExtractEpisodeNumber` | app.py:103-107 | the number is at most 9999; it is 0 when no run of three digits exists; otherwise it is the value of the 3 or 4 digits taken at the leftmost run |
| `TitleParser.EpisodeNumberZero` | app.py:103-107 | the number is 0 exactly when there is no run, or when the digits taken from the leftmost run are all zeros |
| `TitleParser.LeftmostPart` | app.py:111 | the search result is a position matching whitespace, `A`/`B`, then whitespace, end or `)`, with none earlier; no result means none anywhere |
| `TitleParser.ExtractPart` | app.py:109-112 | `None` when there is no match anywhere; otherwise the letter of the leftmost match |
| `TitleParser.NoSpaceNoPart` | app.py:111 | a title without whitespace has no part, e.g. `322ABC` |
| `TitleParser.NumberExamples` | app.py:103-107 | `Rabarba 0322` gives 322 and `Rabarba` gives 0 |
| `TitleParser.LongRunExample` | app.py:106-107 | `Rabarba 12345` gives 1234: a longer run contributes its first four digits |
| `TitleParser.PartExamples` | app.py:109-112 | `Bölüm 322 A` gives A; `Bölüm 322` and `322ABC` give no part |
| `GuestFilter.ContainsTargetGuest` | app.py:114-127 | the threshold test and the early-return loop over `TARGET_GUESTS` answer true exactly when the number is below 322 or a lowercased guest name occurs in the lowercased description |
| `GuestFilter.GuestsNonEmpty` | app.py:58-61 | no target guest name is empty |
| `GuestFilter.EmptyDescriptionFails` | app.py:117-127 | from 322 on, an empty description never passes |
| `GuestFilter.LiteralMentionPasses` | app.py:120-125 | a description that contains a guest name as written passes, even inside a longer word and whatever the lowercasing |
| `GuestFilter.SameLowercaseSameVerdict` | app.py:120-124 | descriptions equal after lowercasing get the same verdict (case-insensitivity) |
| `Episodes.EpisodeDetails` | app.py:86-101 | name, release date, URI and id are copied; the description is the item's, or `""` without one; number (at most 9999) and part are computed from the name |
| `Episodes.PartRank` | app.py:135-137 | the part value is at most 2 and is 0 exactly when there is no part; the order it induces (no part, then A, then B) is stated on the sorted list by `Ordering.PartsInOrder` |
| `Episodes.PartRankInjective` | app.py:136-137 | no part, A and B get three different values |
| `Episodes.SameKey` | app.py:131-139 | two episodes have the same key exactly when they have the same number and the same part |
| `Episodes.KeyLeTotalOrder` | app.py:139-141 | tuple `<=` on the keys is reflexive, total, antisymmetric and transitive |
| `Ordering.WithKey` | app.py:141 | the stability specification of `sorted`: the episodes of the list with a given key, in order; every one comes from the list and has that key, and every episode of the list with that key is among them |
| `Ordering.Insert` | app.py:141 | inserting into a sorted list gives a sorted list with one more occurrence of the new episode |
| `Ordering.InsertStable` | app.py:141 | the inserted episode lands before every episode of its own key |
| `Ordering.SortEpisodes` | app.py:129-141 | the result is non-decreasing by `(episode_number, part_value)` and a permutation of the input |
| `Ordering.PartsInOrder` | app.py:135-141 | among sorted episodes with the same number, an unsplit episode comes before every part, and part B after every other: no part, then A, then B |
| `Ordering.PartOrderExample` | app.py:135-141 | two parts of one number listed B then A come out A then B |
| `Ordering.SortStable` | app.py:141 | for every key, the episodes with that key keep their input order |
| `Ordering.SortSortedIsIdentity` | app.py:129-141 | an already sorted list is returned unchanged |
| `Ordering.SortedStableUnique` | app.py:129-141 | two sorted lists that agree on the episodes of every key are equal, so sortedness and stability determine the result |
| `Classification.Details` | app.py:238-241 | one parsed record per fetched item |
| `Classification.Chosen` | app.py:254-257 | the chosen list is no longer than the sorted list; everything in it comes from the sorted list and passes the guest filter, and every passing episode is in it |
| `Classification.SelectChosen` | app.py:254-257 | the filtering loop builds exactly the order-preserving filter of the sorted list by the guest filter |
| `Classification.ChosenIsPassingSubsequence` | app.py:254-257 | the chosen list is a subsequence of the sorted list, all of it passes, and every passing episode keeps its multiplicity |
| `Classification.EarlyEpisodesAllChosen` | app.py:116-118 | a list of episodes all numbered below 322 is chosen whole |
| `Classification.RemovePlayed` | app.py:379 | the list never grows; no entry left is numbered `n`, everything left was there before, and every entry with another number stays |
| `Classification.RemovePlayedSpec` | app.py:379 | after marking `n`, no entry is numbered `n`; every other entry keeps its multiplicity and its order; the list never grows |
| `Classification.RemovePlayedIdempotent` | app.py:379 | marking the same number twice equals marking it once |
| `Classification.RemoveAbsentNumber` | app.py:379 | marking a number no entry has changes nothing |
| `Classification.Session.constructor` | app.py:376 | a fresh session reads all three lists as empty |
| `Classification.Session.LoadEpisodes` | app.py:251-268 | all is the sorted fetched list, chosen its guest filter, unplayed a copy of chosen; the invariant holds; the counts match the lists |
| `Classification.Session.MarkPlayed` | app.py:373-384 | unplayed loses exactly the entries numbered `n`; all and chosen are untouched; unplayed stays a subsequence of chosen; the count returned is the new length |
| `Playlists.Batches` | app.py:366-367 | every slice is non-empty and has at most 100 items |
| `Playlists.BatchesSpec` | app.py:366-368 | every batch is non-empty with at most 100 items, the batches concatenate to the list, and there are ceil(n/100) of them |
| `Playlists.FirstMatch` | app.py:340-343 | a result is named exactly as requested and no earlier entry is; no result means no entry has the name |
| `Playlists.FindByName` | app.py:340-343 | the early-return loop returns the first exact (case-sensitive) name match, or none |
| `Playlists.PlaylistService.FirstPage` | app.py:338 | the searched page is the first 50 listed playlists, or all of them when there are fewer |
| `Playlists.PlaylistService.ReplaceItems` | app.py:359 | replacing sets the playlist's items, or fails and changes nothing when the playlist does not exist |
| `Playlists.PlaylistService.AddItems` | app.py:368 | appending adds the batch to the end of the playlist and to the log of accepted batches |
| `Playlists.PlaylistService.CreatePlaylist` | app.py:347-352 | a new empty playlist with the requested name and an unused identifier; assumed to be listed first |
| `Playlists.CreateOrFindPlaylist` | app.py:336-354 | a first-page match is returned with nothing created; otherwise one new playlist with that name is created; afterwards the result is the first-page match (for a created playlist, assuming the service lists it first), so a repeat call creates nothing |
| `Playlists.AddSliceAt` | app.py:366-368 | one loop pass adds the slice from `i` of at most 100 items, ending at `min(i + 100, n)`, to the end of the playlist and to the batch log; nothing else changes |
| `Playlists.AddInBatches` | app.py:366-368 | the loop appends the whole list to the playlist, and the add calls made are exactly the batches of the list |
| `Playlists.UpdatePlaylist` | app.py:356-370 | afterwards the playlist holds exactly the given list (empty for an empty list); the add calls made are the batches of the list; no other playlist changes |
| `Playlists.UpdatePlaylistTwice` | app.py:356-370 | reconciling twice with the same list leaves the same content as once |
| `Config.RenderHostname` | app.py:32-33 | the host ends with `.onrender.com` and starts with the given host; it is unchanged when it already has the suffix, otherwise exactly the suffix is added |
| `Config.RenderHostnameIdempotent` | app.py:32-33 | adding the suffix again changes nothing |
| `Config.RenderRedirectUri` | app.py:29-34 | the host is `RENDER_EXTERNAL_HOSTNAME`, or `rabarba-organizer` when unset; a host already ending in `.onrender.com` becomes `https://<host>/callback` unchanged, any other host `https://<host>.onrender.com/callback`; so every URI starts with `https://` and ends with `.onrender.com/callback` |

## Left out

- The Flask routes, templates, session storage and `print` logging are framework plumbing. The three session lists are plain fields of `Session`. `view_lists`, `get_stats` and `logout` only read or clear them.
- `sync_playlists` (app.py:290-334) is a route. It calls `CreateOrFindPlaylist` and `UpdatePlaylist` once per list and is not modelled itself.
- OAuth, token refresh and `get_spotify_client` are calls into spotipy plus the wall clock.
- The pagination loop over `show_episodes`/`next` (app.py:237-246) is remote I/O. `LoadEpisodes` takes the concatenation of the fetched pages.
- Spotify is an in-memory `PlaylistService`. It does not model remote failures other than a playlist that does not exist, and a batch failing halfway cannot happen in it.
- The playlist description built from `datetime.now()` and the `public=False` flag are left out: neither affects which playlist is found.
- Unicode semantics are left out: Python's `\d` and `\s` on non-ASCII characters, and the real `str.lower()`, which can change a string's length (`İ`). `lower` is an abstract per-character function.
- `LoadEpisodes` models only the successful load. In the source the whole load fails with HTTP 500 (app.py:271-274) when a fetched item is null or lacks `name`, `release_date`, `uri` or `id` (app.py:88-100), or when an episode numbered 322 or more has a null description, which reaches `.lower()` (app.py:120). In both cases the session lists stay unchanged, because they are written only at the end (app.py:259-261). `RawEpisode` has these fields as mandatory, so those failures cannot arise in the model.
- Concurrency is left out: two requests of the same user that run at once can each read the session and write it back, so one update can be lost. The model runs one operation at a time.
- The remaining configuration is left out: the environment variables other than the Render host name, `/debug`, `/health` and the hard-coded show id.
