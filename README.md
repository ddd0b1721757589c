# Listen-next playlist selection, modelled in Dafny

This project models the selection pipeline of a small client for an
Audiobookshelf-style media server. The client keeps a "play next" playlist
in step with the podcast episodes the user has not finished yet.

- **Catalogue** (`Client.items` in common.py): walk the podcasts of the
  library in order, skip every podcast tagged `backlog`, keep each episode
  that has no progress record or whose progress record does not have
  `isFinished` equal to `true`, and return the kept episodes stably sorted by
  publication time. `Episode.from_json` maps the server's episode object to
  the `Episode` record on the way.
- **Playlist update** (`update_playlist` in play_next.py): take the first
  `count` catalogue episodes, project each to a `PlaylistItem(episode_id,
  library_id, episode_name)`, and send the server an add batch
  `new_items - existing_items` followed by a remove batch
  `existing_items - new_items`.

Modules, one per concern:

- `wrappers.dfy` (`Wrappers`): `Option`.
- `seqs.dfy` (`Seqs`): associativity of sequence concatenation.
- `episode.dfy` (`EpisodeRecord`): the server's episode object, `Episode`
  and `FromJson`.
- `stable_sort.dfy` (`StableSort`): Python's `sorted(..., key=publish_ts)`
  as an insertion sort, with sortedness, permutation and stability proved.
  Python uses Timsort; `StableSortIsUnique` shows that every stable sort
  by this key returns the same sequence, so the choice of algorithm does not
  matter.
- `catalogue.dfy` (`Catalogue`): the server's answers as a value
  (`seq<Podcast>`), the imperative `Items` method with its nested loops and
  `continue` guards, the specification `CatalogueOf`, and the lemmas about
  membership, exclusion, order and counting.
- `play_next.dfy` (`PlayNext`): the slice `items[:count]`, the projection,
  the playlist subtraction, the two update requests, and the lemmas that the
  requests reconcile the playlist.

`PlaylistItems` and its `-` operator are used by play_next.py but are not
part of this model. The model therefore states one assumed
definition and proves everything about the batches under it. Two playlist
items are the same entry when their `(episode_id, library_id)` pairs are
equal; the name is informational. `a - b` removes from `a`, for each entry
of `b` in turn, the first remaining entry with the same pair. In other words
it is multiset difference on the pairs. The server is assumed to apply an
add batch by appending its entries and a remove batch with the same
subtraction.

Three points of behaviour are easy to assume differently; the model follows
the code in each:

- There is no `skip` offset. The selection is `client.items[:count]`.
- The code does not fail open when a progress response cannot be parsed.
  Such a response raises an exception, and that is outside this model.
- `count` is applied with Python slice semantics, so a negative `count`
  counts from the end (`SliceEnd`).

## Model

| member | source | states |
|---|---|---|
| EpisodeRecord.FromJson | common.py:29-37 | id, libraryItemId, album tag, title and duration are copied unchanged; the publication time in seconds times 1000 gives back `publishedAt` |
| EpisodeRecord.PublishTsKeepsOrder | common.py:36 | dividing `publishedAt` by 1000 keeps the order and the ties between two episodes exactly |
| StableSort.Insert | common.py:93 | inserting an episode adds exactly one copy of it and loses nothing (multiset) |
| StableSort.InsertSorted | common.py:93 | inserting into a sequence sorted by publication time keeps it sorted |
| StableSort.InsertWithTs | common.py:93 | an inserted episode lands after every episode with the same publication time |
| StableSort.Sort | common.py:93 | the sorted result is in non-decreasing publication time and is a permutation of the input |
| StableSort.SortIsStable | common.py:93 | for every publication time, the episodes with that time keep their input order |
| StableSort.StableSortIsUnique | common.py:93 | any sequence sorted by publication time that keeps each time's episodes in input order equals `Sort`, so every stable sort by `publish_ts` gives the same result |
| Catalogue.Items | common.py:62-93 | the nested loops with their `backlog` and `isFinished` guards, followed by the sort, return exactly `CatalogueOf` of the server's answers |
| Catalogue.KeptOfAppend | common.py:76-91 | within one podcast, episodes are collected in listing order: the kept episodes of two listings are concatenated |
| Catalogue.CollectedAppend | common.py:66-91 | podcasts are collected in library order: the unsorted catalogue of two libraries is their concatenation |
| Catalogue.CatalogueMembership | common.py:67-93 | an episode is in the catalogue if and only if some non-backlogged podcast lists it with no progress record or with `isFinished` not `true` |
| Catalogue.KeptListingIncluded | common.py:85-91 | an episode of a non-backlogged podcast with no progress record, or with `isFinished` anything but `true`, is in the catalogue |
| Catalogue.BackloggedContributesNothing | common.py:70-72 | removing a backlogged podcast, whatever its episodes' progress, leaves the catalogue unchanged |
| Catalogue.FinishedContributesNothing | common.py:88-89 | removing an episode whose `isFinished` is exactly `true` leaves the catalogue unchanged |
| Catalogue.CatalogueOrdered | common.py:67-93 | the catalogue is sorted by publication time and, among equal times, keeps discovery order (podcast order, then episode order) |
| Catalogue.CatalogueCounts | common.py:66-93 | the catalogue has one entry per kept listing: its length is the number of kept listings, and each episode occurs as often as kept listings map to it |
| PlayNext.SliceEnd | play_next.py:20 | the end of `items[:count]` never exceeds the length; it is `min(count, length)` for a non-negative `count` and `max(length + count, 0)` for a negative one, as Python slicing counts from the end |
| PlayNext.NewItemsArePrefix | play_next.py:20-30 | for every `count` the desired playlist has as many entries as `items[:count]` (the smaller of `count` and the catalogue length when `count >= 0`) and entry k carries the id, library id and name of catalogue episode k |
| PlayNext.DesiredItemsAreKept | play_next.py:20 | every desired entry names a kept episode of a non-backlogged podcast |
| PlayNext.RemoveOne | play_next.py:32-33 | (assumed subtraction) removing one entry by pair takes exactly one copy of that pair out of the playlist's pairs, if present |
| PlayNext.Subtract | play_next.py:32-33 | (assumed subtraction) the pairs of `a - b` are the multiset difference of the pairs of `a` and `b`, and its entries come from `a` |
| PlayNext.SubtractSelf | play_next.py:32-33 | `X - X` is empty |
| PlayNext.BatchesDisjoint | play_next.py:32-33 | the add batch and the remove batch never share a pair |
| PlayNext.UpdatePlaylist | play_next.py:13-33 | two requests are issued for the playlist, the add batch first and the remove batch second; the batches share no `(episode_id, library_id)` pair; once both are applied the playlist holds exactly the pairs of the desired playlist, counting duplicates |
| PlayNext.UpdatePlaylistIdle | play_next.py:32-33 | when the playlist already holds the desired pairs, both batches are empty |

## Left out

- HTTP traffic: `login` (common.py:50-59), the library, podcast and progress requests of `Client.items` (common.py:63-84), and the `client.cleanup`, `client.get_playlist` and `client.update_playlist` calls (play_next.py:14-16, 32-33). The server's answers are the input `seq<Podcast>` and the existing playlist; the update calls are returned as `Update` values.
- `Client` is not a class here: its only state, the session and the library id, belongs to the left-out `login` and HTTP session.
- Exceptions: a missing JSON key, a field that is `null` (a `null` `publishedAt` raises at the division; other `null`s are carried into the episode as `None`, which the model's non-optional fields do not represent), a response that is not JSON, or a network failure raises in the source and aborts the run. The model's inputs are typed records that always have their fields.
- `cleanup`, `get_playlist`, `PlaylistItems`, `PlaylistItems.from_json` and `_config` are not part of this model. The subtraction and the server's batch handling are the assumed definitions stated above.
- `Episode.date` and `Episode.__str__` (common.py:39-44): date formatting.
- estimate.py (wall-clock time and float averages for a report) and logger.py (logging set-up).
- EpisodeRecord.FromJson: `publish_ts` is the exact rational `publishedAt / 1000`, not a double. For millisecond timestamps below 2^43 the double quotients keep the same order and ties.
- `duration` is a float in the source; it is a `real` here and is only copied.
- PlayNext.UpdatePlaylist: compares playlists by their `(episode_id, library_id)` pairs only, not by display names or order, because the assumed entry equality ignores both.
