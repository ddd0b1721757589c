/**
 * `update_playlist` of play_next.py: the desired playlist is the first
 * `count` catalogue episodes; the playlist on the server is brought to it
 * by one batch of additions followed by one batch of removals.
 *
 * The `PlaylistItems` type and its `-` operator are not part of this
 * model. They are modelled here under a stated assumption:
 * playlist items are compared by the pair (episode id, library item id),
 * the display name being informational, and `a - b` removes from `a`, for
 * each entry of `b` in turn, the first remaining entry with the same pair.
 * The server is assumed to apply an add batch by appending its entries and
 * a remove batch with the same subtraction.
 */
module PlayNext {
  import opened EpisodeRecord
  import opened Catalogue

  /** `PlaylistItem(episode_id, library_id, episode_name)`. */
  datatype PlaylistItem = PlaylistItem(episodeId: string, libraryId: string, episodeName: string)

  /** The pair that identifies a playlist item (assumed). */
  function Key(item: PlaylistItem): (string, string) {
    (item.episodeId, item.libraryId)
  }

  /** The multiset of identifying pairs of a playlist. */
  function Keys(s: seq<PlaylistItem>): (m: multiset<(string, string)>)
    ensures |m| == |s|
  {
    if s == [] then multiset{} else multiset{Key(s[0])} + Keys(s[1..])
  }

  // ----- Selection -----

  /**
   * The end index of Python's slice `items[:count]` over `n` items: a
   * non-negative `count` is clamped to `n`, a negative one counts from the end.
   */
  function SliceEnd(count: int, n: nat): (k: nat)
    ensures k <= n
    ensures count >= 0 ==> k == if count < n then count else n
    ensures count < 0 ==> k == if n + count > 0 then n + count else 0
  {
    if count >= 0 then (if count < n then count else n)
    else if n + count > 0 then n + count
    else 0
  }

  /** The projection of an episode to the playlist item naming it. */
  function ToItem(e: Episode): PlaylistItem {
    PlaylistItem(episodeId := e.id, libraryId := e.libraryId, episodeName := e.name)
  }

  /** `new_items`: the first `count` catalogue episodes, as playlist items. */
  function NewItems(items: seq<Episode>, count: int): seq<PlaylistItem> {
    var episodes := items[..SliceEnd(count, |items|)];
    seq(|episodes|, k requires 0 <= k < |episodes| => ToItem(episodes[k]))
  }

  /**
   * The desired playlist is the first `SliceEnd(count, |items|)` catalogue
   * episodes in order (min(count, |items|) of them for a non-negative
   * `count`), each carrying that episode's id, library item id and name.
   */
  lemma {:induction false} NewItemsArePrefix(items: seq<Episode>, count: int)
    ensures |NewItems(items, count)| == SliceEnd(count, |items|)
    ensures count >= 0 ==> |NewItems(items, count)| == if count < |items| then count else |items|
    ensures forall k :: 0 <= k < |NewItems(items, count)| ==>
      NewItems(items, count)[k] == ToItem(items[k]) &&
      NewItems(items, count)[k].episodeId == items[k].id &&
      NewItems(items, count)[k].libraryId == items[k].libraryId &&
      NewItems(items, count)[k].episodeName == items[k].name
  {
  }

  /**
   * Every desired item names a kept episode of a non-backlogged podcast:
   * the selection never brings in a backlogged or finished episode.
   */
  lemma {:induction false} DesiredItemsAreKept(lib: seq<Podcast>, count: int, k: int)
    requires 0 <= k < |NewItems(CatalogueOf(lib), count)|
    ensures exists i, j, e :: SurvivesAt(lib, i, j, e) && ToItem(e) == NewItems(CatalogueOf(lib), count)[k]
  {
    var items := CatalogueOf(lib);
    assert NewItems(items, count)[k] == ToItem(items[k]);
    CatalogueMembership(lib, items[k]);
    var i, j :| SurvivesAt(lib, i, j, items[k]);
  }

  // ----- Subtraction (assumed semantics of `PlaylistItems.__sub__`) -----

  /** Removes the first entry of `s` whose pair is `key`, if there is one. */
  function RemoveOne(s: seq<PlaylistItem>, key: (string, string)): (r: seq<PlaylistItem>)
    ensures Keys(r) == Keys(s) - multiset{key}
    ensures multiset(r) <= multiset(s)
  {
    if s == [] then []
    else
      assert s == [s[0]] + s[1..];
      if Key(s[0]) == key then s[1..] else [s[0]] + RemoveOne(s[1..], key)
  }

  /**
   * `a - b`: for each entry of `b`, at most one entry of `a` with the same
   * pair is removed. On pairs this is multiset difference, and what remains
   * is drawn from `a`.
   */
  function Subtract(a: seq<PlaylistItem>, b: seq<PlaylistItem>): (r: seq<PlaylistItem>)
    ensures Keys(r) == Keys(a) - Keys(b)
    ensures multiset(r) <= multiset(a)
    decreases b
  {
    if b == [] then a
    else
      var r := Subtract(RemoveOne(a, Key(b[0])), b[1..]);
      assert Keys(b) == multiset{Key(b[0])} + Keys(b[1..]);
      assert (Keys(a) - multiset{Key(b[0])}) - Keys(b[1..]) == Keys(a) - Keys(b);
      r
  }

  /** `X - X` is empty. */
  lemma {:induction false} SubtractSelf(a: seq<PlaylistItem>)
    ensures Subtract(a, a) == []
  {
    assert |Subtract(a, a)| == |Keys(a) - Keys(a)|;
    assert Keys(a) - Keys(a) == multiset{};
  }

  /** The add batch and the remove batch never name the same pair. */
  lemma {:induction false} BatchesDisjoint(desired: seq<PlaylistItem>, existing: seq<PlaylistItem>)
    ensures Keys(Subtract(desired, existing)) !! Keys(Subtract(existing, desired))
  {
    var add, del := Keys(desired) - Keys(existing), Keys(existing) - Keys(desired);
    forall key | key in add
      ensures key !in del
    {
      assert Keys(desired)[key] > Keys(existing)[key];
    }
  }

  // ----- Playlist updates -----

  datatype Action = Add | Remove

  /** One `client.update_playlist(playlist_id, items, action=...)` request. */
  datatype Update = Update(playlistId: string, items: seq<PlaylistItem>, action: Action)

  /**
   * `update_playlist`, from the catalogue onwards: the requests it issues,
   * in order, for the playlist `playlistId` currently holding `existing`.
   * The add batch goes first and the remove batch second, the two share no
   * (episode, library item) pair, and once the server has applied both the
   * playlist holds exactly the pairs of the desired playlist.
   */
  function UpdatePlaylist(items: seq<Episode>, count: int, playlistId: string, existing: seq<PlaylistItem>): (updates: seq<Update>)
    ensures |updates| == 2
    ensures updates[0].action == Add && updates[1].action == Remove
    ensures updates[0].playlistId == playlistId && updates[1].playlistId == playlistId
    ensures Keys(updates[0].items) !! Keys(updates[1].items)
    ensures Keys(ApplyAll(existing, updates)) == Keys(NewItems(items, count))
  {
    var newItems := NewItems(items, count);
    BatchesDisjoint(newItems, existing);
    AddThenRemove(newItems, existing, playlistId);
    [Update(playlistId, Subtract(newItems, existing), Add),
     Update(playlistId, Subtract(existing, newItems), Remove)]
  }

  /** The server's handling of one request (assumed). */
  function Apply(playlist: seq<PlaylistItem>, u: Update): seq<PlaylistItem> {
    match u.action
    case Add => playlist + u.items
    case Remove => Subtract(playlist, u.items)
  }

  /** The playlist after the server has handled `updates` in order. */
  function ApplyAll(playlist: seq<PlaylistItem>, updates: seq<Update>): seq<PlaylistItem>
    decreases updates
  {
    if updates == [] then playlist else ApplyAll(Apply(playlist, updates[0]), updates[1..])
  }

  lemma {:induction false} KeysAppend(a: seq<PlaylistItem>, b: seq<PlaylistItem>)
    ensures Keys(a + b) == Keys(a) + Keys(b)
  {
    if a == [] {
      assert a + b == b;
    } else {
      assert (a + b)[0] == a[0] && (a + b)[1..] == a[1..] + b;
      KeysAppend(a[1..], b);
    }
  }

  /**
   * Reconciliation: once the add batch and then the remove batch have been
   * applied, the playlist holds exactly the desired pairs, counting duplicates.
   */
  lemma {:induction false} ApplyPair(playlist: seq<PlaylistItem>, u: Update, v: Update)
    ensures ApplyAll(playlist, [u, v]) == Apply(Apply(playlist, u), v)
  {
    assert [u, v][1..] == [v];
    assert [v][1..] == [];
    assert ApplyAll(playlist, [u, v]) == ApplyAll(Apply(playlist, u), [v]);
    assert ApplyAll(Apply(playlist, u), [v]) == ApplyAll(Apply(Apply(playlist, u), v), []);
  }

  lemma {:induction false} AddThenRemove(desired: seq<PlaylistItem>, existing: seq<PlaylistItem>, playlistId: string)
    ensures Keys(ApplyAll(existing, [Update(playlistId, Subtract(desired, existing), Add),
                                     Update(playlistId, Subtract(existing, desired), Remove)])) == Keys(desired)
  {
    var toAdd, toRemove := Subtract(desired, existing), Subtract(existing, desired);
    ApplyPair(existing, Update(playlistId, toAdd, Add), Update(playlistId, toRemove, Remove));
    var added := existing + toAdd;
    KeysAppend(existing, toAdd);
    assert Keys(Subtract(added, toRemove)) == Keys(added) - Keys(toRemove);
    BatchesCancel(Keys(existing), Keys(desired));
  }

  lemma {:induction false} BatchesCancel<K>(e: multiset<K>, d: multiset<K>)
    ensures (e + (d - e)) - (e - d) == d
  {
    forall key
      ensures ((e + (d - e)) - (e - d))[key] == d[key]
    {
    }
  }

  /**
   * At the fixed point, when the playlist already holds the desired pairs,
   * both batches are empty.
   */
  lemma {:induction false} UpdatePlaylistIdle(items: seq<Episode>, count: int, playlistId: string, existing: seq<PlaylistItem>)
    requires Keys(existing) == Keys(NewItems(items, count))
    ensures UpdatePlaylist(items, count, playlistId, existing) == [Update(playlistId, [], Add), Update(playlistId, [], Remove)]
  {
    var desired := NewItems(items, count);
    assert |Subtract(desired, existing)| == |Keys(desired) - Keys(existing)| == 0;
    assert |Subtract(existing, desired)| == |Keys(existing) - Keys(desired)| == 0;
  }

}
