/**
 * `Client.items` of common.py: the catalogue of episodes still to be heard.
 * The server's answers to the per-podcast and per-episode requests are
 * given as a value, a sequence of `Podcast`s in library order.
 */
module Catalogue {
  import opened Wrappers
  import opened EpisodeRecord
  import opened StableSort
  import opened Seqs

  /** A scalar JSON value, as found in a progress record's `isFinished`. */
  datatype JsonValue = JNull | JBool(b: bool) | JNumber(n: int) | JString(s: string)

  /** The `userMediaProgress` object of a progress response. */
  datatype Progress = Progress(isFinished: JsonValue)

  /**
   * One entry of a podcast's `media.episodes`, joined with the
   * `userMediaProgress` field of that episode's progress response
   * (`None` where the server answered `null`).
   */
  datatype Listing = Listing(episode: EpisodeJson, progress: Option<Progress>)

  /** A podcast's detail record: its `media.tags` and its joined episodes. */
  datatype Podcast = Podcast(tags: seq<string>, episodes: seq<Listing>)

  const BacklogTag: string := "backlog"

  predicate Backlogged(p: Podcast) {
    BacklogTag in p.tags
  }

  /** Python's `v is True`: only the JSON literal `true` qualifies. */
  predicate IsTrue(v: JsonValue) {
    v == JBool(true)
  }

  /** An episode is kept unless its progress record says it is finished. */
  predicate Kept(l: Listing) {
    l.progress.None? || !IsTrue(l.progress.value.isFinished)
  }

  /** The kept episodes of one podcast, in listing order. */
  function KeptOf(ls: seq<Listing>): seq<Episode> {
    if ls == [] then []
    else
      var last := ls[|ls| - 1];
      KeptOf(ls[..|ls| - 1]) + (if Kept(last) then [FromJson(last.episode)] else [])
  }

  /** What one podcast adds to the catalogue before sorting. */
  function Contribution(p: Podcast): seq<Episode> {
    if Backlogged(p) then [] else KeptOf(p.episodes)
  }

  /** The unsorted catalogue, in discovery order: podcast by podcast, episode by episode. */
  function Collected(lib: seq<Podcast>): seq<Episode> {
    if lib == [] then []
    else Collected(lib[..|lib| - 1]) + Contribution(lib[|lib| - 1])
  }

  /** The value of `Client.items`. */
  function CatalogueOf(lib: seq<Podcast>): seq<Episode> {
    Sort(Collected(lib))
  }

  /**
   * `Client.items`: walks the podcasts, skips backlogged ones, appends each
   * episode that has no progress record or is not finished, then sorts.
   */
  method Items(podcasts: seq<Podcast>) returns (items: seq<Episode>)
    ensures items == CatalogueOf(podcasts)
  {
    var collected: seq<Episode> := [];
    for i := 0 to |podcasts|
      invariant collected == Collected(podcasts[..i])
    {
      assert podcasts[..i + 1][..i] == podcasts[..i];
      var podcast := podcasts[i];
      if BacklogTag in podcast.tags {
        continue;
      }
      var episodes := podcast.episodes;
      for j := 0 to |episodes|
        invariant collected == Collected(podcasts[..i]) + KeptOf(episodes[..j])
      {
        assert episodes[..j + 1][..j] == episodes[..j];
        var listing := episodes[j];
        if listing.progress.None? {
          collected := collected + [FromJson(listing.episode)];
          continue;
        }
        if listing.progress.value.isFinished == JBool(true) {
          continue;
        }
        collected := collected + [FromJson(listing.episode)];
      }
      assert episodes[..|episodes|] == episodes;
    }
    assert podcasts[..|podcasts|] == podcasts;
    items := Sort(collected);
  }

  // ----- Discovery order -----

  lemma {:induction false} KeptOfAppend(a: seq<Listing>, b: seq<Listing>)
    ensures KeptOf(a + b) == KeptOf(a) + KeptOf(b)
  {
    if b == [] {
      assert a + b == a;
    } else {
      var init, last := b[..|b| - 1], b[|b| - 1];
      var x := if Kept(last) then [FromJson(last.episode)] else [];
      calc {
        KeptOf(a + b);
        { assert (a + b)[..|a + b| - 1] == a + init && (a + b)[|a + b| - 1] == last; }
        KeptOf(a + init) + x;
        { KeptOfAppend(a, init); }
        (KeptOf(a) + KeptOf(init)) + x;
        { ConcatAssoc(KeptOf(a), KeptOf(init), x); }
        KeptOf(a) + (KeptOf(init) + x);
        KeptOf(a) + KeptOf(b);
      }
    }
  }

  /** Podcasts are visited in library order: the catalogue of two libraries is the concatenation. */
  lemma {:induction false} CollectedAppend(a: seq<Podcast>, b: seq<Podcast>)
    ensures Collected(a + b) == Collected(a) + Collected(b)
  {
    if b == [] {
      assert a + b == a;
    } else {
      var init, last := b[..|b| - 1], b[|b| - 1];
      calc {
        Collected(a + b);
        { assert (a + b)[..|a + b| - 1] == a + init && (a + b)[|a + b| - 1] == last; }
        Collected(a + init) + Contribution(last);
        { CollectedAppend(a, init); }
        (Collected(a) + Collected(init)) + Contribution(last);
        { ConcatAssoc(Collected(a), Collected(init), Contribution(last)); }
        Collected(a) + (Collected(init) + Contribution(last));
        Collected(a) + Collected(b);
      }
    }
  }

  // ----- Membership -----

  /** Listing `j` of `ls` is kept and maps to `e`. */
  predicate KeptAt(ls: seq<Listing>, j: int, e: Episode) {
    0 <= j < |ls| && Kept(ls[j]) && FromJson(ls[j].episode) == e
  }

  /** Podcast `i` of `lib` is not backlogged and its listing `j` is kept and maps to `e`. */
  predicate SurvivesAt(lib: seq<Podcast>, i: int, j: int, e: Episode) {
    0 <= i < |lib| && !Backlogged(lib[i]) && KeptAt(lib[i].episodes, j, e)
  }

  lemma {:induction false} KeptOfMembership(ls: seq<Listing>, e: Episode)
    ensures e in KeptOf(ls) <==> exists j :: KeptAt(ls, j, e)
  {
    if ls != [] {
      var init, last := ls[..|ls| - 1], ls[|ls| - 1];
      KeptOfMembership(init, e);
      if e in KeptOf(init) {
        var j :| KeptAt(init, j, e);
        assert KeptAt(ls, j, e);
      } else if e in KeptOf(ls) {
        assert KeptAt(ls, |ls| - 1, e);
      }
      if exists j :: KeptAt(ls, j, e) {
        var j :| KeptAt(ls, j, e);
        if j < |init| {
          assert KeptAt(init, j, e);
        }
      }
    }
  }

  lemma {:induction false} CollectedMembership(lib: seq<Podcast>, e: Episode)
    ensures e in Collected(lib) <==> exists i, j :: SurvivesAt(lib, i, j, e)
  {
    if lib != [] {
      var init, last := lib[..|lib| - 1], lib[|lib| - 1];
      CollectedMembership(init, e);
      KeptOfMembership(last.episodes, e);
      if e in Collected(init) {
        var i, j :| SurvivesAt(init, i, j, e);
        assert SurvivesAt(lib, i, j, e);
      } else if e in Contribution(last) {
        var j :| KeptAt(last.episodes, j, e);
        assert SurvivesAt(lib, |lib| - 1, j, e);
      }
      if exists i, j :: SurvivesAt(lib, i, j, e) {
        var i, j :| SurvivesAt(lib, i, j, e);
        if i < |init| {
          assert SurvivesAt(init, i, j, e);
        } else {
          assert KeptAt(last.episodes, j, e);
        }
      }
    }
  }

  /**
   * An episode is in the catalogue exactly when some non-backlogged podcast
   * lists it and its progress record does not mark it finished.
   */
  lemma {:induction false} CatalogueMembership(lib: seq<Podcast>, e: Episode)
    ensures e in CatalogueOf(lib) <==> exists i, j :: SurvivesAt(lib, i, j, e)
  {
    CollectedMembership(lib, e);
    assert multiset(CatalogueOf(lib)) == multiset(Collected(lib));
    assert e in CatalogueOf(lib) <==> e in multiset(CatalogueOf(lib));
    assert e in Collected(lib) <==> e in multiset(Collected(lib));
  }

  /** An episode without a progress record, or not marked finished, is in the catalogue. */
  lemma {:induction false} KeptListingIncluded(lib: seq<Podcast>, i: int, j: int)
    requires 0 <= i < |lib| && !Backlogged(lib[i]) && 0 <= j < |lib[i].episodes|
    requires lib[i].episodes[j].progress.None? || !IsTrue(lib[i].episodes[j].progress.value.isFinished)
    ensures FromJson(lib[i].episodes[j].episode) in CatalogueOf(lib)
  {
    var e := FromJson(lib[i].episodes[j].episode);
    assert SurvivesAt(lib, i, j, e);
    CatalogueMembership(lib, e);
  }

  /** The catalogue splits around any one podcast. */
  lemma {:induction false} CollectedSplit(lib: seq<Podcast>, i: int)
    requires 0 <= i < |lib|
    ensures Collected(lib) == Collected(lib[..i]) + Contribution(lib[i]) + Collected(lib[i + 1..])
  {
    var pre, p, post := lib[..i], lib[i], lib[i + 1..];
    var upTo := lib[..i + 1];
    assert upTo[..|upTo| - 1] == pre;
    assert Collected(upTo) == Collected(pre) + Contribution(p);
    assert lib == upTo + post;
    CollectedAppend(upTo, post);
  }

  /**
   * A backlogged podcast contributes nothing, whatever the progress of its
   * episodes: removing it leaves the catalogue unchanged.
   */
  lemma {:induction false} BackloggedContributesNothing(lib: seq<Podcast>, i: int)
    requires 0 <= i < |lib| && Backlogged(lib[i])
    ensures CatalogueOf(lib) == CatalogueOf(lib[..i] + lib[i + 1..])
  {
    var rest := lib[..i] + lib[i + 1..];
    CollectedSplit(lib, i);
    CollectedAppend(lib[..i], lib[i + 1..]);
    assert Contribution(lib[i]) == [];
    assert Collected(lib) == Collected(rest);
  }

  /**
   * An episode whose progress record has `isFinished` exactly `true`
   * contributes nothing: removing its listing leaves the catalogue unchanged.
   */
  lemma {:induction false} FinishedContributesNothing(lib: seq<Podcast>, i: int, j: int)
    requires 0 <= i < |lib| && 0 <= j < |lib[i].episodes|
    requires lib[i].episodes[j].progress.Some? && IsTrue(lib[i].episodes[j].progress.value.isFinished)
    ensures CatalogueOf(lib) ==
      CatalogueOf(lib[i := lib[i].(episodes := lib[i].episodes[..j] + lib[i].episodes[j + 1..])])
  {
    var ls := lib[i].episodes;
    var ls' := ls[..j] + ls[j + 1..];
    var lib' := lib[i := lib[i].(episodes := ls')];
    assert ls == ls[..j] + [ls[j]] + ls[j + 1..];
    KeptOfAppend(ls[..j] + [ls[j]], ls[j + 1..]);
    KeptOfAppend(ls[..j], [ls[j]]);
    KeptOfAppend(ls[..j], ls[j + 1..]);
    assert [ls[j]][..0] == [];
    assert KeptOf([ls[j]]) == KeptOf([]) + [];
    assert Contribution(lib[i]) == Contribution(lib'[i]);
    CollectedSplit(lib, i);
    CollectedSplit(lib', i);
    assert lib'[..i] == lib[..i] && lib'[i + 1..] == lib[i + 1..];
  }

  // ----- Order -----

  /**
   * The catalogue is sorted by publication time and, among episodes
   * published at the same time, keeps discovery order.
   */
  lemma {:induction false} CatalogueOrdered(lib: seq<Podcast>, t: real)
    ensures Sorted(CatalogueOf(lib))
    ensures WithTs(CatalogueOf(lib), t) == WithTs(Collected(lib), t)
  {
    SortIsStable(Collected(lib), t);
  }

  // ----- Counting -----

  /** How many listings of `ls` are kept and map to `e`. */
  function CountIn(ls: seq<Listing>, e: Episode): nat {
    if ls == [] then 0
    else
      var last := ls[|ls| - 1];
      CountIn(ls[..|ls| - 1], e) + (if Kept(last) && FromJson(last.episode) == e then 1 else 0)
  }

  /** How many listings of non-backlogged podcasts are kept and map to `e`. */
  function Occurrences(lib: seq<Podcast>, e: Episode): nat {
    if lib == [] then 0
    else
      var last := lib[|lib| - 1];
      Occurrences(lib[..|lib| - 1], e) + (if Backlogged(last) then 0 else CountIn(last.episodes, e))
  }

  /** How many listings of `ls` are kept. */
  function CountKept(ls: seq<Listing>): nat {
    if ls == [] then 0
    else CountKept(ls[..|ls| - 1]) + (if Kept(ls[|ls| - 1]) then 1 else 0)
  }

  /** How many listings of non-backlogged podcasts are kept. */
  function NumKept(lib: seq<Podcast>): nat {
    if lib == [] then 0
    else
      var last := lib[|lib| - 1];
      NumKept(lib[..|lib| - 1]) + (if Backlogged(last) then 0 else CountKept(last.episodes))
  }

  lemma {:induction false} KeptOfCounts(ls: seq<Listing>, e: Episode)
    ensures |KeptOf(ls)| == CountKept(ls)
    ensures multiset(KeptOf(ls))[e] == CountIn(ls, e)
  {
    if ls != [] {
      KeptOfCounts(ls[..|ls| - 1], e);
    }
  }

  lemma {:induction false} CollectedCounts(lib: seq<Podcast>, e: Episode)
    ensures |Collected(lib)| == NumKept(lib)
    ensures multiset(Collected(lib))[e] == Occurrences(lib, e)
  {
    if lib != [] {
      CollectedCounts(lib[..|lib| - 1], e);
      KeptOfCounts(lib[|lib| - 1].episodes, e);
    }
  }

  /**
   * The catalogue is a permutation of the kept listings: its length is the
   * number of kept listings, and each episode occurs as many times as kept
   * listings map to it.
   */
  lemma {:induction false} CatalogueCounts(lib: seq<Podcast>, e: Episode)
    ensures |CatalogueOf(lib)| == NumKept(lib)
    ensures multiset(CatalogueOf(lib))[e] == Occurrences(lib, e)
  {
    CollectedCounts(lib, e);
    assert |multiset(CatalogueOf(lib))| == |multiset(Collected(lib))|;
  }

}
