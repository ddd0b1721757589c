/**
 * Python's `sorted(items, key=lambda i: i.publish_ts)`: a stable sort of
 * episodes by publication time, written as an insertion sort.
 */
module StableSort {
  import opened EpisodeRecord
  import opened Seqs

  /** Non-decreasing publication times. */
  predicate Sorted(s: seq<Episode>) {
    forall i, j :: 0 <= i < j < |s| ==> s[i].publishTs <= s[j].publishTs
  }

  /** The episodes of `s` published at time `t`, in their order in `s`. */
  function WithTs(s: seq<Episode>, t: real): seq<Episode> {
    if s == [] then []
    else (if s[0].publishTs == t then [s[0]] else []) + WithTs(s[1..], t)
  }

  /**
   * Inserts `e` into `s` after every episode published no later than `e`,
   * so that `e` follows the episodes it ties with.
   */
  function Insert(s: seq<Episode>, e: Episode): (r: seq<Episode>)
    ensures multiset(r) == multiset(s) + multiset{e}
  {
    if s == [] then [e]
    else if e.publishTs < s[0].publishTs then [e] + s
    else
      assert s == [s[0]] + s[1..];
      [s[0]] + Insert(s[1..], e)
  }

  lemma {:induction false} SortedCons(x: Episode, s: seq<Episode>)
    requires Sorted(s)
    requires forall k :: 0 <= k < |s| ==> x.publishTs <= s[k].publishTs
    ensures Sorted([x] + s)
  {
    var r := [x] + s;
    forall i, j | 0 <= i < j < |r|
      ensures r[i].publishTs <= r[j].publishTs
    {
      assert r[j] == s[j - 1];
      if i > 0 {
        assert r[i] == s[i - 1];
      }
    }
  }

  /** Insertion keeps a sorted sequence sorted. */
  lemma {:induction false} InsertSorted(s: seq<Episode>, e: Episode)
    requires Sorted(s)
    ensures Sorted(Insert(s, e))
  {
    if s == [] {
    } else if e.publishTs < s[0].publishTs {
      SortedCons(e, s);
    } else {
      var tail := s[1..];
      SortedTail(s);
      var rest := Insert(tail, e);
      InsertSorted(tail, e);
      forall k | 0 <= k < |rest|
        ensures s[0].publishTs <= rest[k].publishTs
      {
        assert rest[k] in multiset(rest);
        if rest[k] != e {
          assert rest[k] in multiset(tail);
          var m :| 0 <= m < |tail| && tail[m] == rest[k];
          assert s[m + 1] == tail[m];
        }
      }
      SortedCons(s[0], rest);
    }
  }

  /** The stable sort: a permutation of `s` in non-decreasing publication time. */
  function Sort(s: seq<Episode>): (r: seq<Episode>)
    ensures Sorted(r)
    ensures multiset(r) == multiset(s)
  {
    if s == [] then []
    else
      var init, last := s[..|s| - 1], s[|s| - 1];
      assert s == init + [last];
      InsertSorted(Sort(init), last);
      Insert(Sort(init), last)
  }

  lemma {:induction false} WithTsAppend(a: seq<Episode>, b: seq<Episode>, t: real)
    ensures WithTs(a + b, t) == WithTs(a, t) + WithTs(b, t)
  {
    if a == [] {
      assert a + b == b;
    } else {
      var head: seq<Episode> := if a[0].publishTs == t then [a[0]] else [];
      assert a + b == [a[0]] + (a[1..] + b);
      WithTsCons(a[0], a[1..] + b, t);
      WithTsAppend(a[1..], b, t);
      assert a == [a[0]] + a[1..];
      WithTsCons(a[0], a[1..], t);
      assert head + (WithTs(a[1..], t) + WithTs(b, t)) == (head + WithTs(a[1..], t)) + WithTs(b, t);
    }
  }

  lemma {:induction false} WithTsNone(s: seq<Episode>, t: real)
    requires forall i :: 0 <= i < |s| ==> s[i].publishTs != t
    ensures WithTs(s, t) == []
  {
    if s != [] {
      WithTsNone(s[1..], t);
    }
  }

  lemma {:induction false} WithTsCons(x: Episode, s: seq<Episode>, t: real)
    ensures WithTs([x] + s, t) == (if x.publishTs == t then [x] else []) + WithTs(s, t)
  {
    assert ([x] + s)[0] == x && ([x] + s)[1..] == s;
  }

  lemma {:induction false} SortedTail(s: seq<Episode>)
    requires s != [] && Sorted(s)
    ensures Sorted(s[1..])
  {
    var tail := s[1..];
    forall i, j | 0 <= i < j < |tail|
      ensures tail[i].publishTs <= tail[j].publishTs
    {
      assert tail[i] == s[i + 1] && tail[j] == s[j + 1];
    }
  }

  /** `e` goes in front of a sorted `s` only when it precedes every episode of `s`. */
  lemma {:induction false} InsertFrontWithTs(s: seq<Episode>, e: Episode, t: real)
    requires s != [] && Sorted(s) && e.publishTs < s[0].publishTs
    ensures WithTs([e] + s, t) == WithTs(s, t) + (if e.publishTs == t then [e] else [])
  {
    WithTsCons(e, s, t);
    if e.publishTs == t {
      forall k | 0 <= k < |s|
        ensures s[k].publishTs != t
      {
        assert s[0].publishTs <= s[k].publishTs;
      }
      WithTsNone(s, t);
    }
  }

  /** When `e` goes behind the first episode, the insertion step commutes with `WithTs`. */
  lemma {:induction false} InsertBehindWithTs(s: seq<Episode>, e: Episode, t: real)
    requires s != [] && s[0].publishTs <= e.publishTs
    requires WithTs(Insert(s[1..], e), t) == WithTs(s[1..], t) + (if e.publishTs == t then [e] else [])
    ensures WithTs(Insert(s, e), t) == WithTs(s, t) + (if e.publishTs == t then [e] else [])
  {
    var head, tail := s[0], s[1..];
    var rest := Insert(tail, e);
    var h: seq<Episode> := if head.publishTs == t then [head] else [];
    var x: seq<Episode> := if e.publishTs == t then [e] else [];
    calc {
      WithTs(Insert(s, e), t);
      WithTs([head] + rest, t);
      { WithTsCons(head, rest, t); }
      h + WithTs(rest, t);
      h + (WithTs(tail, t) + x);
      { ConcatAssoc(h, WithTs(tail, t), x); }
      (h + WithTs(tail, t)) + x;
      { assert s == [head] + tail; WithTsCons(head, tail, t); }
      WithTs(s, t) + x;
    }
  }

  /** Inserting into a sorted sequence puts `e` last among the episodes it ties with. */
  lemma {:induction false} InsertWithTs(s: seq<Episode>, e: Episode, t: real)
    requires Sorted(s)
    ensures WithTs(Insert(s, e), t) == WithTs(s, t) + (if e.publishTs == t then [e] else [])
  {
    if s == [] {
      WithTsCons(e, [], t);
    } else if e.publishTs < s[0].publishTs {
      InsertFrontWithTs(s, e, t);
    } else {
      SortedTail(s);
      InsertWithTs(s[1..], e, t);
      InsertBehindWithTs(s, e, t);
    }
  }

  lemma {:induction false} WithTsSnoc(init: seq<Episode>, last: Episode, t: real)
    ensures WithTs(init + [last], t) == WithTs(init, t) + (if last.publishTs == t then [last] else [])
  {
    WithTsAppend(init, [last], t);
    assert [last][1..] == [];
  }

  /**
   * Stability: for every publication time, the episodes published at that
   * time keep their input order.
   */
  lemma {:induction false} SortIsStable(s: seq<Episode>, t: real)
    ensures WithTs(Sort(s), t) == WithTs(s, t)
  {
    if s != [] {
      var init, last := s[..|s| - 1], s[|s| - 1];
      assert s == init + [last];
      SortIsStable(init, t);
      InsertWithTs(Sort(init), last, t);
      WithTsSnoc(init, last, t);
    }
  }

  lemma {:induction false} WithTsElements(s: seq<Episode>, t: real, x: Episode)
    requires x in WithTs(s, t)
    ensures x in s && x.publishTs == t
  {
    if s != [] {
      WithTsCons(s[0], s[1..], t);
      assert s == [s[0]] + s[1..];
      if x != s[0] || s[0].publishTs != t {
        WithTsElements(s[1..], t, x);
      }
    }
  }

  /** The first episode of a non-empty sorted sequence leads the group of its publication time. */
  lemma {:induction false} SortedHeadGroup(s: seq<Episode>, t: real)
    requires s != []
    ensures WithTs(s, t) == (if s[0].publishTs == t then [s[0]] else []) + WithTs(s[1..], t)
  {
    assert s == [s[0]] + s[1..];
    WithTsCons(s[0], s[1..], t);
  }

  /**
   * Two sequences sorted by publication time that agree on the episodes of
   * every publication time, in order, are equal.
   */
  lemma {:induction false} SameGroupsSame(r1: seq<Episode>, r2: seq<Episode>)
    requires Sorted(r1) && Sorted(r2)
    requires forall t :: WithTs(r1, t) == WithTs(r2, t)
    ensures r1 == r2
    decreases |r1| + |r2|
  {
    if r1 == [] && r2 == [] {
    } else if r1 == [] {
      SortedHeadGroup(r2, r2[0].publishTs);
      assert false;
    } else if r2 == [] {
      SortedHeadGroup(r1, r1[0].publishTs);
      assert false;
    } else {
      var a, b := r1[0], r2[0];
      SortedHeadGroup(r1, a.publishTs);
      SortedHeadGroup(r2, b.publishTs);
      assert a in WithTs(r2, a.publishTs);
      WithTsElements(r2, a.publishTs, a);
      assert b in WithTs(r1, b.publishTs);
      WithTsElements(r1, b.publishTs, b);
      assert a.publishTs == b.publishTs;
      assert WithTs(r1, a.publishTs)[0] == a;
      assert WithTs(r2, a.publishTs)[0] == b;
      forall t
        ensures WithTs(r1[1..], t) == WithTs(r2[1..], t)
      {
        SortedHeadGroup(r1, t);
        SortedHeadGroup(r2, t);
        var h: seq<Episode> := if a.publishTs == t then [a] else [];
        assert WithTs(r1, t) == h + WithTs(r1[1..], t);
        assert WithTs(r2, t) == h + WithTs(r2[1..], t);
        assert (h + WithTs(r1[1..], t))[|h|..] == WithTs(r1[1..], t);
        assert (h + WithTs(r2[1..], t))[|h|..] == WithTs(r2[1..], t);
      }
      SortedTail(r1);
      SortedTail(r2);
      SameGroupsSame(r1[1..], r2[1..]);
      assert r1 == [a] + r1[1..] && r2 == [b] + r2[1..];
    }
  }

  /**
   * `Sort` is the only stable sort: any sequence sorted by publication time
   * that keeps, for every time, the input order of that time's episodes is
   * `Sort(s)`. So any stable sorting algorithm, Timsort included, returns it.
   */
  lemma {:induction false} StableSortIsUnique(s: seq<Episode>, r: seq<Episode>)
    requires Sorted(r)
    requires forall t :: WithTs(r, t) == WithTs(s, t)
    ensures r == Sort(s)
  {
    forall t
      ensures WithTs(r, t) == WithTs(Sort(s), t)
    {
      SortIsStable(s, t);
    }
    SameGroupsSame(r, Sort(s));
  }

}
