/** The cut/keep interval engine of the hard-cut stage: raw cut intervals
    from head and tail trims, shot-transition margins and long-segment
    tails; their merge into a sorted, well-separated cut set; the keep set
    as its complement inside [0, duration]; and the running offsets of the
    keeps on the new timeline. */
module HardcutIntervals {
  import opened Common
  import opened Sorting

  const EPS: real := 0.000001
  const TRIM_HEAD_SEC: real := 2.0
  const TRIM_TAIL_SEC: real := 2.0
  const SHOT_MARGIN_SEC: real := 3.5
  const LONG_SEG_THRESH_SEC: real := 15.0
  const SEG_TAIL_CUT_SEC: real := 2.0

  /** `max(0.0, min(x, duration))`. */
  function Clamp(x: real, duration: real): real { Max(0.0, Min(x, duration)) }

  /** A list of intervals that the merger produces: each longer than EPS,
      and each next one starting more than EPS after the previous ends. */
  ghost predicate Separated(ivs: seq<Interval>)
  {
    && (forall i :: 0 <= i < |ivs| ==> Len(ivs[i]) > EPS)
    && (forall i :: 0 <= i < |ivs| - 1 ==> ivs[i].e + EPS < ivs[i + 1].s)
  }

  ghost predicate Inside(ivs: seq<Interval>, lo: real, hi: real)
  {
    forall i :: 0 <= i < |ivs| ==> lo <= ivs[i].s && ivs[i].e <= hi
  }

  // ------------------------------------------------------------ _add_interval

  /** Appends `[s, e]` clamped into [0, duration] when what remains is longer
      than EPS; otherwise the list is unchanged. */
  function AddInterval(intervals: seq<Interval>, s: real, e: real, duration: real): (r: seq<Interval>)
    ensures |intervals| <= |r| <= |intervals| + 1 && r[..|intervals|] == intervals
    ensures |r| == |intervals| + 1 <==> Clamp(e, duration) - Clamp(s, duration) > EPS
    ensures |r| == |intervals| + 1 ==>
      var iv := r[|intervals|];
      0.0 <= iv.s && iv.e <= duration && Len(iv) > EPS
    ensures |r| == |intervals| + 1 ==> r[|intervals|] == Interval(Clamp(s, duration), Clamp(e, duration))
    ensures 0.0 <= s && e <= duration && e - s > EPS ==> r == intervals + [Interval(s, e)]
  {
    var cs, ce := Clamp(s, duration), Clamp(e, duration);
    if ce - cs > EPS then intervals + [Interval(cs, ce)] else intervals
  }

  // ---------------------------------------------------------- _merge_intervals

  predicate Nondegenerate(iv: Interval)
  {
    iv.e - iv.s > EPS || iv.s - iv.e > EPS
  }

  function Normalize(iv: Interval): Interval
  {
    Interval(Min(iv.s, iv.e), Max(iv.s, iv.e))
  }

  /** `[(min(a, b), max(a, b)) for a, b in intervals if abs(b - a) > EPS]`. */
  function NormalizeAll(ivs: seq<Interval>): (r: seq<Interval>)
    ensures forall k :: 0 <= k < |r| ==> Len(r[k]) > EPS
  {
    if ivs == [] then []
    else if Nondegenerate(ivs[0]) then [Normalize(ivs[0])] + NormalizeAll(ivs[1..])
    else NormalizeAll(ivs[1..])
  }

  /** The normalised list holds exactly the normalised non-degenerate pairs. */
  lemma {:induction false} NormalizeAllMembers(ivs: seq<Interval>)
    ensures forall k :: 0 <= k < |ivs| && Nondegenerate(ivs[k]) ==> Normalize(ivs[k]) in NormalizeAll(ivs)
    ensures forall iv :: iv in NormalizeAll(ivs) ==> exists j :: 0 <= j < |ivs| && iv == Normalize(ivs[j])
    ensures NormalizeAll(ivs) == [] <==> forall k :: 0 <= k < |ivs| ==> !Nondegenerate(ivs[k])
  {
    if ivs != [] {
      NormalizeAllMembers(ivs[1..]);
      assert forall k :: 1 <= k < |ivs| ==> ivs[k] == ivs[1..][k - 1];
      forall iv | iv in NormalizeAll(ivs) ensures exists j :: 0 <= j < |ivs| && iv == Normalize(ivs[j]) {
        if iv != Normalize(ivs[0]) {
          assert iv in NormalizeAll(ivs[1..]);
          var j :| 0 <= j < |ivs[1..]| && iv == Normalize(ivs[1..][j]);
          assert iv == Normalize(ivs[j + 1]);
        }
      }
    }
  }

  function StartKey(iv: Interval): real { iv.s }

  /** The sweep: `cur` is the running interval, `rest` the intervals still to
      visit in start order. */
  function Sweep(cur: Interval, rest: seq<Interval>): (r: seq<Interval>)
    ensures |r| >= 1 && r[0].s == cur.s && r[0].e >= cur.e
    decreases |rest|
  {
    if rest == [] then [cur]
    else if rest[0].s <= cur.e + EPS then Sweep(Interval(cur.s, Max(cur.e, rest[0].e)), rest[1..])
    else [cur] + Sweep(rest[0], rest[1..])
  }

  /** `_merge_intervals`: an empty list merges to the empty list; a
      non-empty list whose pairs are all degenerate fails at `intervals[0]`. */
  function Merge(intervals: seq<Interval>): Result<seq<Interval>>
  {
    if intervals == [] then Ok([])
    else
      var sorted := SortBy(NormalizeAll(intervals), StartKey);
      if sorted == [] then Err(IndexError) else Ok(Sweep(sorted[0], sorted[1..]))
  }

  method MergeIntervals(intervals: seq<Interval>) returns (r: Result<seq<Interval>>)
    ensures r == Merge(intervals)
  {
    if intervals == [] {
      return Ok([]);
    }
    var normalized := NormalizeAll(intervals);
    var sorted := SortBy(normalized, StartKey);
    if sorted == [] {
      return Err(IndexError);
    }
    var merged := SweepAll(sorted);
    return Ok(merged);
  }

  /** The loop of `_merge_intervals` over the sorted, normalised list. */
  method SweepAll(sorted: seq<Interval>) returns (merged: seq<Interval>)
    requires sorted != []
    ensures merged == Sweep(sorted[0], sorted[1..])
  {
    ghost var all := Sweep(sorted[0], sorted[1..]);
    merged := [];
    var curS, curE := sorted[0].s, sorted[0].e;
    var i := 1;
    while i < |sorted|
      invariant 1 <= i <= |sorted|
      invariant merged + Sweep(Interval(curS, curE), sorted[i..]) == all
    {
      var s, e := sorted[i].s, sorted[i].e;
      SweepStep(Interval(curS, curE), sorted, i);
      if s <= curE + EPS {
        curE := Max(curE, e);
      } else {
        assert merged + ([Interval(curS, curE)] + Sweep(sorted[i], sorted[i + 1..]))
          == (merged + [Interval(curS, curE)]) + Sweep(sorted[i], sorted[i + 1..]);
        merged := merged + [Interval(curS, curE)];
        curS, curE := s, e;
      }
      i := i + 1;
    }
    assert sorted[i..] == [];
    merged := merged + [Interval(curS, curE)];
  }

  /** One step of the sweep, at position `i` of the sorted list. */
  lemma SweepStep(cur: Interval, xs: seq<Interval>, i: nat)
    requires i < |xs|
    ensures Sweep(cur, xs[i..]) ==
      if xs[i].s <= cur.e + EPS then Sweep(Interval(cur.s, Max(cur.e, xs[i].e)), xs[i + 1..])
      else [cur] + Sweep(xs[i], xs[i + 1..])
  {
    assert xs[i..][1..] == xs[i + 1..];
  }

  lemma {:induction false} SweepSeparated(cur: Interval, rest: seq<Interval>)
    requires Len(cur) > EPS
    requires forall k :: 0 <= k < |rest| ==> Len(rest[k]) > EPS
    ensures Separated(Sweep(cur, rest))
    decreases |rest|
  {
    if rest != [] {
      if rest[0].s <= cur.e + EPS {
        SweepSeparated(Interval(cur.s, Max(cur.e, rest[0].e)), rest[1..]);
      } else {
        SweepSeparated(rest[0], rest[1..]);
        var tail := Sweep(rest[0], rest[1..]);
        assert Sweep(cur, rest) == [cur] + tail;
        assert forall i :: 1 <= i < |tail| + 1 ==> ([cur] + tail)[i] == tail[i - 1];
      }
    }
  }

  /** Every interval visited lies inside one output interval. */
  ghost predicate Within(iv: Interval, ivs: seq<Interval>)
  {
    exists j :: 0 <= j < |ivs| && ivs[j].s <= iv.s && iv.e <= ivs[j].e
  }

  lemma {:induction false} SweepCovers(cur: Interval, rest: seq<Interval>)
    requires SortedBy(rest, StartKey)
    requires forall k :: 0 <= k < |rest| ==> cur.s <= rest[k].s
    ensures forall k :: 0 <= k < |rest| ==> Within(rest[k], Sweep(cur, rest))
    decreases |rest|
  {
    if rest != [] {
      var r := Sweep(cur, rest);
      assert forall k :: 1 <= k < |rest| ==> rest[1..][k - 1] == rest[k];
      if rest[0].s <= cur.e + EPS {
        var next := Interval(cur.s, Max(cur.e, rest[0].e));
        SweepCovers(next, rest[1..]);
        assert r[0].s <= rest[0].s && rest[0].e <= r[0].e;
      } else {
        SweepCovers(rest[0], rest[1..]);
        var tail := Sweep(rest[0], rest[1..]);
        assert r == [cur] + tail;
        forall k | 0 <= k < |rest| ensures Within(rest[k], r) {
          if k == 0 {
            assert r[1] == tail[0];
          } else {
            assert Within(rest[1..][k - 1], tail);
            var j :| 0 <= j < |tail| && tail[j].s <= rest[k].s && rest[k].e <= tail[j].e;
            assert r[j + 1] == tail[j];
          }
        }
      }
    }
  }

  lemma {:induction false} SweepInside(cur: Interval, rest: seq<Interval>, lo: real, hi: real)
    requires lo <= cur.s && cur.e <= hi && Inside(rest, lo, hi)
    ensures Inside(Sweep(cur, rest), lo, hi)
    decreases |rest|
  {
    if rest != [] {
      if rest[0].s <= cur.e + EPS {
        SweepInside(Interval(cur.s, Max(cur.e, rest[0].e)), rest[1..], lo, hi);
      } else {
        SweepInside(rest[0], rest[1..], lo, hi);
        var tail := Sweep(rest[0], rest[1..]);
        assert forall i :: 1 <= i < |tail| + 1 ==> ([cur] + tail)[i] == tail[i - 1];
      }
    }
  }

  /** A point is at most EPS before, or inside, some interval of the list. */
  ghost predicate Near(x: real, ivs: seq<Interval>)
  {
    exists j :: 0 <= j < |ivs| && ivs[j].s - EPS <= x <= ivs[j].e
  }

  lemma {:induction false} SweepBridges(cur: Interval, rest: seq<Interval>, all: seq<Interval>)
    requires forall x :: cur.s <= x <= cur.e ==> Near(x, all)
    requires forall k :: 0 <= k < |rest| ==> rest[k] in all
    requires forall k :: 0 <= k < |rest| ==> rest[k].s <= rest[k].e
    ensures forall o, x :: o in Sweep(cur, rest) && o.s <= x <= o.e ==> Near(x, all)
    decreases |rest|
  {
    if rest != [] {
      var r0 := rest[0];
      assert forall k :: 1 <= k < |rest| ==> rest[1..][k - 1] == rest[k];
      var j0 :| 0 <= j0 < |all| && all[j0] == r0;
      assert forall x :: r0.s <= x <= r0.e ==> Near(x, all) by {
        forall x | r0.s <= x <= r0.e ensures Near(x, all) { assert all[j0].s - EPS <= x <= all[j0].e; }
      }
      if r0.s <= cur.e + EPS {
        var next := Interval(cur.s, Max(cur.e, r0.e));
        forall x | next.s <= x <= next.e ensures Near(x, all) {
          if x > cur.e {
            assert all[j0].s - EPS <= x <= all[j0].e;
          }
        }
        SweepBridges(next, rest[1..], all);
      } else {
        SweepBridges(r0, rest[1..], all);
      }
    }
  }

  lemma {:induction false} SweepOfSeparated(cur: Interval, rest: seq<Interval>)
    requires Separated([cur] + rest)
    ensures Sweep(cur, rest) == [cur] + rest
    decreases |rest|
  {
    var all := [cur] + rest;
    if rest != [] {
      assert all[0] == cur && all[1] == rest[0];
      assert Separated([rest[0]] + rest[1..]) by {
        assert [rest[0]] + rest[1..] == all[1..];
      }
      SweepOfSeparated(rest[0], rest[1..]);
      assert [rest[0]] + rest[1..] == rest;
    }
  }

  lemma {:induction false} SeparatedSorted(ivs: seq<Interval>)
    requires Separated(ivs)
    ensures SortedBy(ivs, StartKey)
    ensures forall i, j :: 0 <= i < j < |ivs| ==> ivs[i].e < ivs[j].s
  {
    forall i, j | 0 <= i < j < |ivs| ensures ivs[i].e < ivs[j].s {
      var k := i;
      while k < j - 1
        invariant i <= k < j && ivs[i].e < ivs[k + 1].s
      {
        k := k + 1;
      }
    }
  }

  /** Merging fails exactly on a non-empty list of degenerate pairs; on
      success the result is a well-separated list in start order. */
  lemma MergeResult(intervals: seq<Interval>)
    ensures Merge(intervals).Err? <==>
      intervals != [] && forall k :: 0 <= k < |intervals| ==> !Nondegenerate(intervals[k])
    ensures Merge(intervals).Ok? ==>
      Separated(Merge(intervals).value) && SortedBy(Merge(intervals).value, StartKey)
  {
    NormalizeAllMembers(intervals);
    if intervals != [] {
      var sorted := SortBy(NormalizeAll(intervals), StartKey);
      if sorted != [] {
        forall k | 0 <= k < |sorted| ensures Len(sorted[k]) > EPS {
          assert sorted[k] in multiset(NormalizeAll(intervals));
        }
        SweepSeparated(sorted[0], sorted[1..]);
        SeparatedSorted(Sweep(sorted[0], sorted[1..]));
      }
    }
  }

  /** Every pair longer than EPS, normalised, lies inside one merged interval. */
  lemma MergeCovers(intervals: seq<Interval>)
    requires Merge(intervals).Ok?
    ensures forall k :: 0 <= k < |intervals| && Nondegenerate(intervals[k]) ==>
      Within(Normalize(intervals[k]), Merge(intervals).value)
  {
    if intervals != [] {
      NormalizeAllMembers(intervals);
      var sorted := SortBy(NormalizeAll(intervals), StartKey);
      var out := Sweep(sorted[0], sorted[1..]);
      SweepCoversAll(sorted);
      forall k | 0 <= k < |intervals| && Nondegenerate(intervals[k])
        ensures Within(Normalize(intervals[k]), out)
      {
        var iv := Normalize(intervals[k]);
        assert iv in multiset(sorted);
        var m :| 0 <= m < |sorted| && sorted[m] == iv;
      }
    }
  }

  /** The sweep of a sorted list covers each of its intervals. */
  lemma SweepCoversAll(sorted: seq<Interval>)
    requires sorted != [] && SortedBy(sorted, StartKey)
    ensures forall m :: 0 <= m < |sorted| ==> Within(sorted[m], Sweep(sorted[0], sorted[1..]))
  {
    var out := Sweep(sorted[0], sorted[1..]);
    assert forall k :: 1 <= k < |sorted| ==> sorted[1..][k - 1] == sorted[k];
    SweepCovers(sorted[0], sorted[1..]);
    forall m | 0 <= m < |sorted| ensures Within(sorted[m], out) {
      if m == 0 {
        assert out[0].s <= sorted[0].s && sorted[0].e <= out[0].e;
      } else {
        assert Within(sorted[1..][m - 1], out);
      }
    }
  }

  /** Merged intervals bridge only gaps of at most EPS: every point of an
      output is inside, or at most EPS before, some normalised input pair. */
  lemma MergeBridgesOnlySmallGaps(intervals: seq<Interval>)
    requires Merge(intervals).Ok?
    ensures forall o, x :: o in Merge(intervals).value && o.s <= x <= o.e ==>
      Near(x, NormalizeAll(intervals))
  {
    if intervals != [] {
      var norm := NormalizeAll(intervals);
      var sorted := SortBy(norm, StartKey);
      forall k | 0 <= k < |sorted| ensures sorted[k] in norm && sorted[k].s <= sorted[k].e {
        assert sorted[k] in multiset(norm);
      }
      var c := sorted[0];
      forall x | c.s <= x <= c.e ensures Near(x, norm) {
        var j :| 0 <= j < |norm| && norm[j] == c;
        assert norm[j].s - EPS <= x <= norm[j].e;
      }
      SweepBridges(c, sorted[1..], norm);
    }
  }

  /** Merging pairs that all lie in [lo, hi] gives intervals in [lo, hi]. */
  lemma MergeInside(intervals: seq<Interval>, lo: real, hi: real)
    requires Merge(intervals).Ok?
    requires forall k :: 0 <= k < |intervals| ==>
      lo <= intervals[k].s <= hi && lo <= intervals[k].e <= hi
    ensures Inside(Merge(intervals).value, lo, hi)
  {
    if intervals != [] {
      var norm := NormalizeAll(intervals);
      NormalizeAllMembers(intervals);
      forall iv | iv in norm ensures lo <= iv.s && iv.e <= hi {
        var j :| 0 <= j < |intervals| && iv == Normalize(intervals[j]);
      }
      var sorted := SortBy(norm, StartKey);
      forall k | 0 <= k < |sorted| ensures lo <= sorted[k].s && sorted[k].e <= hi {
        assert sorted[k] in multiset(norm);
      }
      SweepInside(sorted[0], sorted[1..], lo, hi);
    }
  }

  /** Merging an already merged list returns it unchanged. */
  lemma MergeIdempotent(intervals: seq<Interval>)
    requires Merge(intervals).Ok?
    ensures Merge(Merge(intervals).value) == Merge(intervals)
  {
    var out := Merge(intervals).value;
    MergeResult(intervals);
    if out != [] {
      assert NormalizeAll(out) == out by {
        NormalizeSeparated(out);
      }
      SeparatedSorted(out);
      SortSorted(out, StartKey);
      assert out == [out[0]] + out[1..];
      SweepOfSeparated(out[0], out[1..]);
    }
  }

  lemma {:induction false} NormalizeSeparated(ivs: seq<Interval>)
    requires forall k :: 0 <= k < |ivs| ==> Len(ivs[k]) > EPS
    ensures NormalizeAll(ivs) == ivs
  {
    if ivs != [] {
      NormalizeSeparated(ivs[1..]);
      assert Nondegenerate(ivs[0]) && Normalize(ivs[0]) == ivs[0];
      assert [ivs[0]] + ivs[1..] == ivs;
    }
  }

  // ------------------------------------------------------------- _build_keeps

  /** The keeps emitted from cursor `cur` on, for the cuts still to visit. */
  function KeepsFrom(cuts: seq<Interval>, cur: real, duration: real): seq<Interval>
    decreases |cuts|
  {
    if cuts == [] then
      (if duration - cur > EPS then [Interval(cur, duration)] else [])
    else
      var gap := if cuts[0].s - cur > EPS then [Interval(cur, cuts[0].s)] else [];
      gap + KeepsFrom(cuts[1..], Max(cur, cuts[0].e), duration)
  }

  function Keeps(cuts: seq<Interval>, duration: real): seq<Interval>
  {
    KeepsFrom(cuts, 0.0, duration)
  }

  method BuildKeeps(cuts: seq<Interval>, duration: real) returns (keeps: seq<Interval>)
    ensures keeps == Keeps(cuts, duration)
  {
    ghost var all := KeepsFrom(cuts, 0.0, duration);
    keeps := [];
    var cur := 0.0;
    var i := 0;
    while i < |cuts|
      invariant 0 <= i <= |cuts|
      invariant keeps + KeepsFrom(cuts[i..], cur, duration) == all
    {
      var s, e := cuts[i].s, cuts[i].e;
      KeepsStep(cuts, i, cur, duration);
      ghost var later := KeepsFrom(cuts[i + 1..], Max(cur, e), duration);
      if s - cur > EPS {
        assert keeps + ([Interval(cur, s)] + later) == (keeps + [Interval(cur, s)]) + later;
        keeps := keeps + [Interval(cur, s)];
      } else {
        assert [] + later == later;
      }
      cur := Max(cur, e);
      i := i + 1;
    }
    assert cuts[i..] == [];
    if duration - cur > EPS {
      keeps := keeps + [Interval(cur, duration)];
    }
  }

  /** One step of the keep loop, at position `i` of the cut list. */
  lemma KeepsStep(cuts: seq<Interval>, i: nat, cur: real, duration: real)
    requires i < |cuts|
    ensures KeepsFrom(cuts[i..], cur, duration) ==
      (if cuts[i].s - cur > EPS then [Interval(cur, cuts[i].s)] else [])
      + KeepsFrom(cuts[i + 1..], Max(cur, cuts[i].e), duration)
  {
    assert cuts[i..][1..] == cuts[i + 1..];
  }

  /** What a merged cut set inside [0, duration] looks like. */
  ghost predicate CutSet(cuts: seq<Interval>, duration: real)
  {
    Separated(cuts) && Inside(cuts, 0.0, duration)
  }

  /** Length of the part of [cur, cuts[0].s] too short (<= EPS) to be kept. */
  function HeadSliver(cuts: seq<Interval>, cur: real): real
  {
    if cuts != [] && cuts[0].s - cur <= EPS then cuts[0].s - cur else 0.0
  }

  /** The facts each step of the induction below hands to the next: the cuts
      after the first are separated and lie after its end. */
  lemma CutSetTail(cuts: seq<Interval>, cur: real, duration: real)
    requires cuts != [] && Separated(cuts) && Inside(cuts, cur, duration)
    ensures Separated(cuts[1..]) && Inside(cuts[1..], cuts[0].e, duration)
    ensures Max(cur, cuts[0].e) == cuts[0].e
    ensures HeadSliver(cuts[1..], cuts[0].e) == 0.0
  {
    var rest := cuts[1..];
    assert forall k :: 1 <= k < |cuts| ==> rest[k - 1] == cuts[k];
    SeparatedSorted(cuts);
    forall k | 0 <= k < |rest| ensures cuts[0].e <= rest[k].s {
      assert cuts[0].e < cuts[k + 1].s;
    }
  }

  lemma {:induction false} KeepsFromBounds(cuts: seq<Interval>, cur: real, duration: real)
    requires Separated(cuts) && Inside(cuts, cur, duration)
    ensures var ks := KeepsFrom(cuts, cur, duration);
      Separated(ks) && Inside(ks, cur, duration)
    decreases |cuts|
  {
    if cuts != [] {
      var c := cuts[0];
      CutSetTail(cuts, cur, duration);
      KeepsFromBounds(cuts[1..], c.e, duration);
      var tail := KeepsFrom(cuts[1..], c.e, duration);
      InsideWiden(tail, cur, c.e, duration);
      if c.s - cur > EPS {
        ConsKeep(Interval(cur, c.s), tail, cur, duration);
        assert KeepsFrom(cuts, cur, duration) == [Interval(cur, c.s)] + tail;
      } else {
        assert KeepsFrom(cuts, cur, duration) == [] + tail;
      }
    } else {
      KeepsFromEnd(cur, duration);
    }
  }

  /** With no cut left, the keep is what remains of the video, if anything. */
  lemma KeepsFromEnd(cur: real, duration: real)
    ensures var ks := KeepsFrom([], cur, duration);
      Separated(ks) && Inside(ks, cur, duration)
  {
  }

  lemma InsideWiden(ivs: seq<Interval>, lo: real, mid: real, hi: real)
    requires lo <= mid && Inside(ivs, mid, hi)
    ensures Inside(ivs, lo, hi)
  {
  }

  /** A keep put in front of keeps that start more than EPS after it. */
  lemma ConsKeep(iv: Interval, tail: seq<Interval>, lo: real, hi: real)
    requires Len(iv) > EPS && lo <= iv.s && iv.e <= hi
    requires Separated(tail) && Inside(tail, lo, hi)
    requires tail != [] ==> iv.e + EPS < tail[0].s
    ensures Separated([iv] + tail) && Inside([iv] + tail, lo, hi)
  {
    var ks := [iv] + tail;
    assert forall i :: 1 <= i < |ks| ==> ks[i] == tail[i - 1];
  }

  /** Two intervals that overlap at most in an end point. */
  predicate Apart(a: Interval, b: Interval)
  {
    a.e <= b.s || b.e <= a.s
  }

  lemma {:induction false} KeepsFromDisjoint(cuts: seq<Interval>, cur: real, duration: real)
    requires Separated(cuts) && Inside(cuts, cur, duration)
    ensures var ks := KeepsFrom(cuts, cur, duration);
      forall i, j :: 0 <= i < |ks| && 0 <= j < |cuts| ==> Apart(ks[i], cuts[j])
    decreases |cuts|
  {
    if cuts != [] {
      var c, rest := cuts[0], cuts[1..];
      CutSetTail(cuts, cur, duration);
      KeepsFromDisjoint(rest, c.e, duration);
      KeepsFromBounds(rest, c.e, duration);
      var tail := KeepsFrom(rest, c.e, duration);
      TailApart(tail, cuts, duration);
      if c.s - cur > EPS {
        SeparatedSorted(cuts);
        ConsApart(Interval(cur, c.s), tail, cuts);
        assert KeepsFrom(cuts, cur, duration) == [Interval(cur, c.s)] + tail;
      } else {
        assert KeepsFrom(cuts, cur, duration) == [] + tail;
      }
    }
  }

  /** Keeps after the first cut's end, apart from the later cuts, are apart
      from every cut. */
  lemma TailApart(tail: seq<Interval>, cuts: seq<Interval>, duration: real)
    requires cuts != [] && Inside(tail, cuts[0].e, duration)
    requires forall i, j :: 0 <= i < |tail| && 0 <= j < |cuts[1..]| ==> Apart(tail[i], cuts[1..][j])
    ensures forall i, j :: 0 <= i < |tail| && 0 <= j < |cuts| ==> Apart(tail[i], cuts[j])
  {
    forall i, j | 0 <= i < |tail| && 0 <= j < |cuts| ensures Apart(tail[i], cuts[j]) {
      if j > 0 {
        assert cuts[j] == cuts[1..][j - 1];
      }
    }
  }

  /** A keep ending where the first cut starts is apart from every cut. */
  lemma ConsApart(iv: Interval, tail: seq<Interval>, cuts: seq<Interval>)
    requires cuts != [] && iv.e == cuts[0].s
    requires forall j :: 0 <= j < |cuts| ==> cuts[0].s <= cuts[j].s
    requires forall i, j :: 0 <= i < |tail| && 0 <= j < |cuts| ==> Apart(tail[i], cuts[j])
    ensures var ks := [iv] + tail;
      forall i, j :: 0 <= i < |ks| && 0 <= j < |cuts| ==> Apart(ks[i], cuts[j])
  {
    var ks := [iv] + tail;
    assert forall i :: 1 <= i < |ks| ==> ks[i] == tail[i - 1];
  }

  lemma {:induction false} KeepsFromSum(cuts: seq<Interval>, cur: real, duration: real)
    requires Separated(cuts) && Inside(cuts, cur, duration) && cur <= duration
    ensures var ks := KeepsFrom(cuts, cur, duration);
      duration - cur - EPS - HeadSliver(cuts, cur) <= SumLen(ks) + SumLen(cuts) <= duration - cur
    decreases |cuts|
  {
    if cuts != [] {
      var c, rest := cuts[0], cuts[1..];
      CutSetTail(cuts, cur, duration);
      KeepsFromSum(rest, c.e, duration);
      var tail := KeepsFrom(rest, c.e, duration);
      var gap := if c.s - cur > EPS then [Interval(cur, c.s)] else [];
      assert KeepsFrom(cuts, cur, duration) == gap + tail;
      SumLenConcat(gap, tail);
      assert SumLen(gap) == if c.s - cur > EPS then c.s - cur else 0.0;
    }
  }

  /** The keep set of a merged cut set inside [0, duration]: well separated,
      inside [0, duration], disjoint from every cut, and together with the
      cuts it covers [0, duration] up to two slivers of at most EPS (one at
      each end). */
  lemma KeepsComplementCuts(cuts: seq<Interval>, duration: real)
    requires CutSet(cuts, duration) && 0.0 <= duration
    ensures var ks := Keeps(cuts, duration);
      && Separated(ks) && Inside(ks, 0.0, duration)
      && (forall i, j :: 0 <= i < |ks| && 0 <= j < |cuts| ==> ks[i].e <= cuts[j].s || cuts[j].e <= ks[i].s)
      && duration - 2.0 * EPS <= SumLen(ks) + SumLen(cuts) <= duration
      && 0.0 <= SumLen(ks) <= duration
  {
    KeepsFromBounds(cuts, 0.0, duration);
    KeepsFromDisjoint(cuts, 0.0, duration);
    KeepsFromSum(cuts, 0.0, duration);
    SumLenNonneg(Keeps(cuts, duration));
    SumLenNonneg(cuts);
  }

  /** On pairs already normalised and in start order, merging is the sweep
      alone. */
  lemma MergeOfOrdered(xs: seq<Interval>)
    requires xs != [] && SortedBy(xs, StartKey)
    requires forall k :: 0 <= k < |xs| ==> Len(xs[k]) > EPS
    ensures Merge(xs) == Ok(Sweep(xs[0], xs[1..]))
  {
    NormalizeSeparated(xs);
    SortSorted(xs, StartKey);
  }

  /** The worked example: cuts (0,2), (1,3), (50,50.5) merge to (0,3),
      (50,50.5) ... */
  lemma MergeExample(raw: seq<Interval>)
    requires raw == [Interval(0.0, 2.0), Interval(1.0, 3.0), Interval(50.0, 50.5)]
    ensures Merge(raw) == Ok([Interval(0.0, 3.0), Interval(50.0, 50.5)])
  {
    assert SortedBy(raw, StartKey) by {
      forall i, j | 0 <= i < j < 3 ensures StartKey(raw[i]) <= StartKey(raw[j]) { }
    }
    MergeOfOrdered(raw);
    var c1 := Interval(0.0, 3.0);
    assert raw[1..] == [raw[1], raw[2]] && [raw[1], raw[2]][1..] == [raw[2]];
    assert Sweep(raw[0], raw[1..]) == Sweep(c1, [raw[2]]);
    assert Sweep(c1, [raw[2]]) == [c1] + Sweep(raw[2], []);
    assert Sweep(raw[2], []) == [raw[2]];
    assert Sweep(raw[0], raw[1..]) == [Interval(0.0, 3.0), Interval(50.0, 50.5)];
  }

  /** ... and leave the keeps (3,50), (50.5,100) in a 100 s video. */
  lemma KeepsExample()
    ensures Keeps([Interval(0.0, 3.0), Interval(50.0, 50.5)], 100.0)
      == [Interval(3.0, 50.0), Interval(50.5, 100.0)]
  {
    var cuts := [Interval(0.0, 3.0), Interval(50.0, 50.5)];
    assert cuts[1..] == [Interval(50.0, 50.5)];
    assert KeepsFrom([Interval(50.0, 50.5)], 3.0, 100.0) == [Interval(3.0, 50.0), Interval(50.5, 100.0)];
  }

  // ---------------------------------------------------------- _compute_offsets

  /** Each keep's start on the new timeline, and the post-cut duration. */
  method ComputeOffsets(keeps: seq<Interval>) returns (offsets: seq<real>, total: real)
    ensures |offsets| == |keeps|
    ensures forall i :: 0 <= i < |keeps| ==> offsets[i] == SumLen(keeps[..i])
    ensures |keeps| > 0 ==> offsets[0] == 0.0
    ensures forall i :: 0 <= i < |keeps| - 1 ==> offsets[i + 1] == offsets[i] + Len(keeps[i])
    ensures total == SumLen(keeps)
  {
    offsets := [];
    var acc := 0.0;
    var i := 0;
    while i < |keeps|
      invariant 0 <= i <= |keeps| && |offsets| == i
      invariant forall k :: 0 <= k < i ==> offsets[k] == SumLen(keeps[..k])
      invariant acc == SumLen(keeps[..i])
    {
      offsets := offsets + [acc];
      assert keeps[..i + 1] == keeps[..i] + [keeps[i]];
      SumLenAppend(keeps[..i], keeps[i]);
      acc := acc + Len(keeps[i]);
      i := i + 1;
    }
    assert keeps[..i] == keeps;
    total := acc;
    forall i | 0 <= i < |keeps| - 1 ensures offsets[i + 1] == offsets[i] + Len(keeps[i]) {
      assert keeps[..i + 1] == keeps[..i] + [keeps[i]];
      SumLenAppend(keeps[..i], keeps[i]);
    }
  }

  // --------------------------------------------- compute_cut_and_keep_intervals

  /** One shot-transition cut per shot: `[t - margin, t + margin]`. */
  function ShotMarginCuts(acc: seq<Interval>, shots: seq<Shot>, duration: real): seq<Interval>
    decreases |shots|
  {
    if shots == [] then acc else ShotMarginCuts(ShotCut(acc, shots[0], duration), shots[1..], duration)
  }

  /** `[t - margin, t + margin]` around the start `t` of a shot. */
  function ShotWindow(sh: Shot): Interval
  {
    Interval(sh.start - SHOT_MARGIN_SEC, sh.start + SHOT_MARGIN_SEC)
  }

  /** The transition cut of one shot. */
  function ShotCut(acc: seq<Interval>, sh: Shot, duration: real): seq<Interval>
  {
    AddInterval(acc, ShotWindow(sh).s, ShotWindow(sh).e, duration)
  }

  /** A shot whose transition window fits in [0, duration]. */
  predicate WindowInside(sh: Shot, duration: real)
  {
    0.0 <= ShotWindow(sh).s && ShotWindow(sh).e <= duration
  }

  /** The tail cut of one segment, if its times parse, it is not inverted and
      it is at least the long-segment threshold long. */
  function TailCut(acc: seq<Interval>, seg: Segment, duration: real): seq<Interval>
  {
    if LongSegment(seg)
    then AddInterval(acc, seg.end.value - SEG_TAIL_CUT_SEC, seg.end.value, duration)
    else acc
  }

  /** A segment whose times parse, is not inverted and is at least the
      long-segment threshold long. */
  predicate LongSegment(seg: Segment)
  {
    seg.start.Some? && seg.end.Some? && seg.end.value > seg.start.value
    && seg.end.value - seg.start.value >= LONG_SEG_THRESH_SEC
  }

  function SegmentTailCuts(acc: seq<Interval>, segs: seq<Segment>, duration: real): seq<Interval>
    decreases |segs|
  {
    if segs == [] then acc else SegmentTailCuts(TailCut(acc, segs[0], duration), segs[1..], duration)
  }

  function TrimCuts(duration: real): seq<Interval>
  {
    AddInterval(AddInterval([], 0.0, TRIM_HEAD_SEC, duration), duration - TRIM_TAIL_SEC, duration, duration)
  }

  /** The raw (unmerged) cut list, in the order the source appends it. */
  function RawCuts(duration: real, shots: seq<Shot>, segs: seq<Segment>): seq<Interval>
  {
    var transitions := if shots == [] then [] else shots[1..];
    SegmentTailCuts(ShotMarginCuts(TrimCuts(duration), transitions, duration), segs, duration)
  }

  /** Every raw cut is a clamped interval inside [0, duration] longer than EPS. */
  ghost predicate ClampedCuts(ivs: seq<Interval>, duration: real)
  {
    forall k :: 0 <= k < |ivs| ==> 0.0 <= ivs[k].s && ivs[k].e <= duration && Len(ivs[k]) > EPS
  }

  /** Appending a clamped cut keeps the list clamped. */
  lemma AddIntervalClamped(acc: seq<Interval>, s: real, e: real, duration: real)
    requires ClampedCuts(acc, duration)
    ensures ClampedCuts(AddInterval(acc, s, e, duration), duration)
  {
    var r := AddInterval(acc, s, e, duration);
    forall k | 0 <= k < |acc| ensures r[k] == acc[k] {
      assert r[k] == r[..|acc|][k];
    }
  }

  /** A prefix of a prefix is a prefix. */
  lemma PrefixTrans(r: seq<Interval>, mid: seq<Interval>, acc: seq<Interval>)
    requires |acc| <= |mid| <= |r| && r[..|mid|] == mid && mid[..|acc|] == acc
    ensures r[..|acc|] == acc
  {
    assert r[..|acc|] == r[..|mid|][..|acc|];
  }

  /** What is in a prefix is in the whole list. */
  lemma InPrefix(r: seq<Interval>, p: seq<Interval>, iv: Interval)
    requires |p| <= |r| && r[..|p|] == p && iv in p
    ensures iv in r
  {
    var m :| 0 <= m < |p| && p[m] == iv;
    assert r[m] == r[..|p|][m];
  }

  /** The shot loop only appends clamped cuts, at most one per shot. */
  lemma {:induction false} ShotMarginCutsGrow(acc: seq<Interval>, shots: seq<Shot>, duration: real)
    requires ClampedCuts(acc, duration)
    ensures var r := ShotMarginCuts(acc, shots, duration);
      ClampedCuts(r, duration) && |acc| <= |r| <= |acc| + |shots| && r[..|acc|] == acc
    decreases |shots|
  {
    if shots != [] {
      var next := ShotCut(acc, shots[0], duration);
      AddIntervalClamped(acc, ShotWindow(shots[0]).s, ShotWindow(shots[0]).e, duration);
      ShotMarginCutsGrow(next, shots[1..], duration);
      PrefixTrans(ShotMarginCuts(next, shots[1..], duration), next, acc);
    }
  }

  /** The window of a shot whose window fits in [0, duration] is appended. */
  lemma {:induction false} ShotMarginCutsHas(acc: seq<Interval>, shots: seq<Shot>, duration: real, k: nat)
    requires ClampedCuts(acc, duration)
    requires k < |shots| && WindowInside(shots[k], duration)
    ensures ShotWindow(shots[k]) in ShotMarginCuts(acc, shots, duration)
    decreases |shots|
  {
    var next := ShotCut(acc, shots[0], duration);
    AddIntervalClamped(acc, ShotWindow(shots[0]).s, ShotWindow(shots[0]).e, duration);
    if k == 0 {
      ShotMarginCutsGrow(next, shots[1..], duration);
      assert next == acc + [ShotWindow(shots[0])];
      assert next[|acc|] in next;
      InPrefix(ShotMarginCuts(next, shots[1..], duration), next, next[|acc|]);
    } else {
      assert shots[1..][k - 1] == shots[k];
      ShotMarginCutsHas(next, shots[1..], duration, k - 1);
    }
  }

  lemma ShotMarginCutsShape(acc: seq<Interval>, shots: seq<Shot>, duration: real)
    requires ClampedCuts(acc, duration)
    ensures var r := ShotMarginCuts(acc, shots, duration);
      && ClampedCuts(r, duration) && |acc| <= |r| <= |acc| + |shots| && r[..|acc|] == acc
      && forall k :: 0 <= k < |shots| && WindowInside(shots[k], duration) ==> ShotWindow(shots[k]) in r
  {
    ShotMarginCutsGrow(acc, shots, duration);
    forall k | 0 <= k < |shots| && WindowInside(shots[k], duration)
      ensures ShotWindow(shots[k]) in ShotMarginCuts(acc, shots, duration)
    {
      ShotMarginCutsHas(acc, shots, duration, k);
    }
  }

  /** A segment whose tail cut is taken and fits in [0, duration]. */
  predicate LongSegmentInside(seg: Segment, duration: real)
  {
    && seg.start.Some? && seg.end.Some?
    && seg.end.value - seg.start.value >= LONG_SEG_THRESH_SEC
    && SEG_TAIL_CUT_SEC <= seg.end.value <= duration
  }

  function TailInterval(seg: Segment): Interval
    requires seg.end.Some?
  {
    Interval(seg.end.value - SEG_TAIL_CUT_SEC, seg.end.value)
  }

  lemma TailCutClamped(acc: seq<Interval>, seg: Segment, duration: real)
    requires ClampedCuts(acc, duration)
    ensures ClampedCuts(TailCut(acc, seg, duration), duration)
  {
    if seg.start.Some? && seg.end.Some? {
      AddIntervalClamped(acc, seg.end.value - SEG_TAIL_CUT_SEC, seg.end.value, duration);
    }
  }

  /** The segment loop only appends clamped cuts, at most one per segment. */
  lemma {:induction false} SegmentTailCutsGrow(acc: seq<Interval>, segs: seq<Segment>, duration: real)
    requires ClampedCuts(acc, duration)
    ensures var r := SegmentTailCuts(acc, segs, duration);
      ClampedCuts(r, duration) && |acc| <= |r| <= |acc| + |segs| && r[..|acc|] == acc
    decreases |segs|
  {
    if segs != [] {
      var next := TailCut(acc, segs[0], duration);
      TailCutClamped(acc, segs[0], duration);
      SegmentTailCutsGrow(next, segs[1..], duration);
      PrefixTrans(SegmentTailCuts(next, segs[1..], duration), next, acc);
    }
  }

  /** The tail of a long segment whose tail fits in [0, duration] is appended. */
  lemma {:induction false} SegmentTailCutsHas(acc: seq<Interval>, segs: seq<Segment>, duration: real, k: nat)
    requires ClampedCuts(acc, duration)
    requires k < |segs| && LongSegmentInside(segs[k], duration)
    ensures TailInterval(segs[k]) in SegmentTailCuts(acc, segs, duration)
    decreases |segs|
  {
    var next := TailCut(acc, segs[0], duration);
    TailCutClamped(acc, segs[0], duration);
    if k == 0 {
      SegmentTailCutsGrow(next, segs[1..], duration);
      assert next == acc + [TailInterval(segs[0])];
      assert next[|acc|] in next;
      InPrefix(SegmentTailCuts(next, segs[1..], duration), next, next[|acc|]);
    } else {
      assert segs[1..][k - 1] == segs[k];
      SegmentTailCutsHas(next, segs[1..], duration, k - 1);
    }
  }

  lemma SegmentTailCutsShape(acc: seq<Interval>, segs: seq<Segment>, duration: real)
    requires ClampedCuts(acc, duration)
    ensures var r := SegmentTailCuts(acc, segs, duration);
      && ClampedCuts(r, duration) && |acc| <= |r| <= |acc| + |segs| && r[..|acc|] == acc
      && forall k :: 0 <= k < |segs| && LongSegmentInside(segs[k], duration) ==>
           TailInterval(segs[k]) in r
  {
    SegmentTailCutsGrow(acc, segs, duration);
    forall k | 0 <= k < |segs| && LongSegmentInside(segs[k], duration)
      ensures TailInterval(segs[k]) in SegmentTailCuts(acc, segs, duration)
    {
      SegmentTailCutsHas(acc, segs, duration, k);
    }
  }

  /** The two trims, when the video is at least as long as the head trim. */
  lemma TrimCutsShape(duration: real)
    requires duration > 0.0
    ensures ClampedCuts(TrimCuts(duration), duration)
    ensures |TrimCuts(duration)| <= 2
    ensures duration >= TRIM_HEAD_SEC ==>
      TrimCuts(duration) == [Interval(0.0, TRIM_HEAD_SEC), Interval(duration - TRIM_TAIL_SEC, duration)]
  {
    AddIntervalClamped([], 0.0, TRIM_HEAD_SEC, duration);
    AddIntervalClamped(AddInterval([], 0.0, TRIM_HEAD_SEC, duration), duration - TRIM_TAIL_SEC, duration, duration);
  }

  /** The raw cuts: the head trim `[0, 2]` and the tail trim `[D - 2, D]` come
      first, then a `[t - 3.5, t + 3.5]` window around the start of every shot
      after the first, then the last 2 s of every segment at least 15 s long;
      each clamped into [0, D] and dropped when no longer than EPS. */
  lemma RawCutsShape(duration: real, shots: seq<Shot>, segs: seq<Segment>)
    requires duration > 0.0
    ensures var r := RawCuts(duration, shots, segs);
      && ClampedCuts(r, duration)
      && |r| <= 2 + |shots| + |segs|
      && (duration >= TRIM_HEAD_SEC ==>
            |r| >= 2 && r[0] == Interval(0.0, TRIM_HEAD_SEC)
            && r[1] == Interval(duration - TRIM_TAIL_SEC, duration))
      && (forall k :: 1 <= k < |shots| && WindowInside(shots[k], duration) ==> ShotWindow(shots[k]) in r)
      && (forall k :: 0 <= k < |segs| && LongSegmentInside(segs[k], duration) ==>
            TailInterval(segs[k]) in r)
  {
    var trims := TrimCuts(duration);
    TrimCutsShape(duration);
    var transitions := if shots == [] then [] else shots[1..];
    ShotMarginCutsGrow(trims, transitions, duration);
    var mid := ShotMarginCuts(trims, transitions, duration);
    SegmentTailCutsShape(mid, segs, duration);
    var r := RawCuts(duration, shots, segs);
    PrefixTrans(r, mid, trims);
    if duration >= TRIM_HEAD_SEC {
      assert r[0] == r[..|trims|][0] && r[1] == r[..|trims|][1];
    }
    forall k | 1 <= k < |shots| && WindowInside(shots[k], duration) ensures ShotWindow(shots[k]) in r {
      assert transitions[k - 1] == shots[k];
      ShotMarginCutsHas(trims, transitions, duration, k - 1);
      InPrefix(r, mid, ShotWindow(shots[k]));
    }
  }

  /** An interval clamped into [0, duration]. */
  function ClampInterval(iv: Interval, duration: real): Interval
  {
    Interval(Clamp(iv.s, duration), Clamp(iv.e, duration))
  }

  /** The candidates, in order, each clamped and kept when longer than EPS. */
  function ClampAll(xs: seq<Interval>, duration: real): seq<Interval>
  {
    if xs == [] then [] else AddInterval([], xs[0].s, xs[0].e, duration) + ClampAll(xs[1..], duration)
  }

  /** The candidate transition windows, one per shot. */
  function Windows(shots: seq<Shot>): (r: seq<Interval>)
    ensures |r| == |shots| && forall k :: 0 <= k < |shots| ==> r[k] == ShotWindow(shots[k])
  {
    seq(|shots|, k requires 0 <= k < |shots| => ShotWindow(shots[k]))
  }

  /** The candidate tail cuts, one per long segment, in segment order. */
  function Tails(segs: seq<Segment>): seq<Interval>
  {
    if segs == [] then [] else TailOf(segs[0]) + Tails(segs[1..])
  }

  function TailOf(seg: Segment): seq<Interval>
  {
    if LongSegment(seg) then [TailInterval(seg)] else []
  }

  function TrimPair(duration: real): seq<Interval>
  {
    [Interval(0.0, TRIM_HEAD_SEC), Interval(duration - TRIM_TAIL_SEC, duration)]
  }

  /** A clamped candidate is in the list exactly when it is longer than EPS. */
  lemma {:induction false} ClampAllMembers(xs: seq<Interval>, duration: real, iv: Interval)
    ensures iv in ClampAll(xs, duration) <==>
      exists k :: 0 <= k < |xs| && iv == ClampInterval(xs[k], duration) && Len(iv) > EPS
  {
    if xs != [] {
      var head := AddInterval([], xs[0].s, xs[0].e, duration);
      ClampAllMembers(xs[1..], duration, iv);
      assert ClampAll(xs, duration) == head + ClampAll(xs[1..], duration);
      assert head == [] || head == [ClampInterval(xs[0], duration)];
      if exists k :: 0 <= k < |xs| && iv == ClampInterval(xs[k], duration) && Len(iv) > EPS {
        var k :| 0 <= k < |xs| && iv == ClampInterval(xs[k], duration) && Len(iv) > EPS;
        if k > 0 {
          assert xs[1..][k - 1] == xs[k];
        }
      }
      if exists k :: 0 <= k < |xs| - 1 && iv == ClampInterval(xs[1..][k], duration) && Len(iv) > EPS {
        var k :| 0 <= k < |xs| - 1 && iv == ClampInterval(xs[1..][k], duration) && Len(iv) > EPS;
        assert xs[1..][k] == xs[k + 1];
      }
    }
  }

  lemma ClampAllCons(x: Interval, xs: seq<Interval>, duration: real)
    ensures ClampAll([x] + xs, duration) == AddInterval([], x.s, x.e, duration) + ClampAll(xs, duration)
  {
    assert ([x] + xs)[1..] == xs;
  }

  /** Adding to a list is adding to the empty list and appending the result. */
  lemma AddIntervalSplit(acc: seq<Interval>, s: real, e: real, duration: real)
    ensures AddInterval(acc, s, e, duration) == acc + AddInterval([], s, e, duration)
  {
    assert acc + [] == acc;
  }

  /** One step of either loop, on the candidate list. */
  lemma AddIntervalStep(acc: seq<Interval>, x: Interval, rest: seq<Interval>, duration: real)
    ensures AddInterval(acc, x.s, x.e, duration) + ClampAll(rest, duration)
         == acc + ClampAll([x] + rest, duration)
  {
    var ci, later := ClampInterval(x, duration), ClampAll(rest, duration);
    ClampAllCons(x, rest, duration);
    if Len(ci) > EPS {
      assert AddInterval(acc, x.s, x.e, duration) == acc + [ci];
      assert AddInterval([], x.s, x.e, duration) == [ci];
      assert (acc + [ci]) + later == acc + ([ci] + later);
    } else {
      assert AddInterval(acc, x.s, x.e, duration) == acc;
      assert AddInterval([], x.s, x.e, duration) == [];
      assert [] + later == later;
    }
  }

  lemma {:induction false} ShotMarginCutsAll(acc: seq<Interval>, shots: seq<Shot>, duration: real)
    ensures ShotMarginCuts(acc, shots, duration) == acc + ClampAll(Windows(shots), duration)
    decreases |shots|
  {
    if shots == [] {
      assert acc + [] == acc;
    } else {
      ShotMarginCutsAll(ShotCut(acc, shots[0], duration), shots[1..], duration);
      AddIntervalStep(acc, ShotWindow(shots[0]), Windows(shots[1..]), duration);
      assert Windows(shots) == [ShotWindow(shots[0])] + Windows(shots[1..]);
    }
  }

  lemma {:induction false} SegmentTailCutsAll(acc: seq<Interval>, segs: seq<Segment>, duration: real)
    ensures SegmentTailCuts(acc, segs, duration) == acc + ClampAll(Tails(segs), duration)
    decreases |segs|
  {
    if segs == [] {
      assert acc + [] == acc;
    } else {
      SegmentTailCutsAll(TailCut(acc, segs[0], duration), segs[1..], duration);
      if LongSegment(segs[0]) {
        AddIntervalStep(acc, TailInterval(segs[0]), Tails(segs[1..]), duration);
      } else {
        assert Tails(segs) == [] + Tails(segs[1..]) == Tails(segs[1..]);
        assert TailCut(acc, segs[0], duration) == acc;
      }
    }
  }

  /** The raw cuts are exactly, and in this order: the clamped trims, the
      clamped windows of the shots after the first, in shot order, and the
      clamped tails of the long segments, in segment order; each kept only
      when longer than EPS. */
  lemma RawCutsExact(duration: real, shots: seq<Shot>, segs: seq<Segment>)
    ensures var transitions := if shots == [] then [] else shots[1..];
      RawCuts(duration, shots, segs)
        == ClampAll(TrimPair(duration), duration)
         + ClampAll(Windows(transitions), duration)
         + ClampAll(Tails(segs), duration)
  {
    var transitions := if shots == [] then [] else shots[1..];
    var head, tail := Interval(0.0, TRIM_HEAD_SEC), Interval(duration - TRIM_TAIL_SEC, duration);
    ClampAllCons(tail, [], duration);
    ClampAllCons(head, [tail], duration);
    AddIntervalSplit(AddInterval([], head.s, head.e, duration), tail.s, tail.e, duration);
    var trims := TrimCuts(duration);
    assert ClampAll(TrimPair(duration), duration) == trims;
    ShotMarginCutsAll(trims, transitions, duration);
    SegmentTailCutsAll(ShotMarginCuts(trims, transitions, duration), segs, duration);
  }

  /** Both directions: an interval is a raw cut exactly when it is the
      clamp, longer than EPS, of a trim, of the window of a shot after the
      first, or of the tail of a long segment. */
  lemma RawCutsMembers(duration: real, shots: seq<Shot>, segs: seq<Segment>, iv: Interval)
    ensures var transitions := if shots == [] then [] else shots[1..];
      iv in RawCuts(duration, shots, segs) <==>
        || (exists k :: 0 <= k < 2 && iv == ClampInterval(TrimPair(duration)[k], duration) && Len(iv) > EPS)
        || (exists k :: 0 <= k < |transitions| && iv == ClampInterval(Windows(transitions)[k], duration) && Len(iv) > EPS)
        || (exists k :: 0 <= k < |Tails(segs)| && iv == ClampInterval(Tails(segs)[k], duration) && Len(iv) > EPS)
  {
    var transitions := if shots == [] then [] else shots[1..];
    RawCutsExact(duration, shots, segs);
    ClampAllMembers(TrimPair(duration), duration, iv);
    ClampAllMembers(Windows(transitions), duration, iv);
    ClampAllMembers(Tails(segs), duration, iv);
  }

  /** The tail candidates are the tails of exactly the long segments. */
  lemma {:induction false} TailsMembers(segs: seq<Segment>, iv: Interval)
    ensures iv in Tails(segs) <==>
      exists k :: 0 <= k < |segs| && LongSegment(segs[k]) && iv == TailInterval(segs[k])
  {
    if segs != [] {
      TailsMembers(segs[1..], iv);
      assert Tails(segs) == TailOf(segs[0]) + Tails(segs[1..]);
      if exists k :: 0 <= k < |segs| && LongSegment(segs[k]) && iv == TailInterval(segs[k]) {
        var k :| 0 <= k < |segs| && LongSegment(segs[k]) && iv == TailInterval(segs[k]);
        if k > 0 {
          assert segs[1..][k - 1] == segs[k];
        }
      }
    }
  }

  /** The raw cuts always merge successfully (each is longer than EPS), into
      a cut set inside [0, duration]. */
  lemma MergedRawCuts(duration: real, shots: seq<Shot>, segs: seq<Segment>)
    requires duration > 0.0
    ensures Merge(RawCuts(duration, shots, segs)).Ok?
    ensures CutSet(Merge(RawCuts(duration, shots, segs)).value, duration)
  {
    var raw := RawCuts(duration, shots, segs);
    RawCutsShape(duration, shots, segs);
    MergeResult(raw);
    if raw != [] {
      assert Nondegenerate(raw[0]);
    }
    MergeInside(raw, 0.0, duration);
  }

  /** The loop over the shots after the first. */
  method AddShotMargins(cuts0: seq<Interval>, shots: seq<Shot>, duration: real) returns (cuts: seq<Interval>)
    ensures cuts == ShotMarginCuts(cuts0, if shots == [] then [] else shots[1..], duration)
  {
    cuts := cuts0;
    if shots == [] {
      return;
    }
    ghost var all := ShotMarginCuts(cuts0, shots[1..], duration);
    var i := 1;
    while i < |shots|
      invariant 1 <= i <= |shots|
      invariant ShotMarginCuts(cuts, shots[i..], duration) == all
    {
      var t := shots[i].start;
      assert shots[i..][1..] == shots[i + 1..];
      assert ShotMarginCuts(cuts, shots[i..], duration) == ShotMarginCuts(ShotCut(cuts, shots[i], duration), shots[i + 1..], duration);
      cuts := AddInterval(cuts, t - SHOT_MARGIN_SEC, t + SHOT_MARGIN_SEC, duration);
      i := i + 1;
    }
    assert shots[i..] == [];
  }

  /** The loop over the segments. */
  method AddSegmentTails(cuts0: seq<Interval>, segments: seq<Segment>, duration: real) returns (cuts: seq<Interval>)
    ensures cuts == SegmentTailCuts(cuts0, segments, duration)
  {
    cuts := cuts0;
    var j := 0;
    while j < |segments|
      invariant 0 <= j <= |segments|
      invariant SegmentTailCuts(cuts, segments[j..], duration) == SegmentTailCuts(cuts0, segments, duration)
    {
      var seg := segments[j];
      assert segments[j..][1..] == segments[j + 1..];
      if seg.start.Some? && seg.end.Some? {
        var s, e := seg.start.value, seg.end.value;
        if e > s && e - s >= LONG_SEG_THRESH_SEC {
          cuts := AddInterval(cuts, e - SEG_TAIL_CUT_SEC, e, duration);
        }
      }
      j := j + 1;
    }
    assert segments[j..] == [];
  }

  datatype CutPlan = CutPlan(cuts: seq<Interval>, keeps: seq<Interval>, duration: real)

  /** The merged cut list for a document with positive duration. */
  function PlannedCuts(duration: real, table: ShotTable): seq<Interval>
  {
    var m := Merge(RawCuts(duration, CollectShots(table), CollectSegments(table)));
    if m.Ok? then m.value else []
  }

  /** `compute_cut_and_keep_intervals` for a document with the given
      `video.duration` and "shots" table. */
  method ComputeCutAndKeepIntervals(duration: real, table: ShotTable) returns (r: Result<CutPlan>)
    ensures duration <= 0.0 ==> r == Err(NonPositiveDuration(duration))
    ensures duration > 0.0 ==> r.Ok?
    ensures r.Ok? ==>
      var raw := RawCuts(duration, CollectShots(table), CollectSegments(table));
      && Merge(raw) == Ok(r.value.cuts)
      && r.value.keeps == Keeps(r.value.cuts, duration)
      && r.value.duration == duration
      && CutSet(r.value.cuts, duration)
  {
    if duration <= 0.0 {
      return Err(NonPositiveDuration(duration));
    }
    var shots := CollectShots(table);
    var segments := CollectSegments(table);

    var cuts: seq<Interval> := [];
    cuts := AddInterval(cuts, 0.0, TRIM_HEAD_SEC, duration);
    cuts := AddInterval(cuts, duration - TRIM_TAIL_SEC, duration, duration);
    cuts := AddShotMargins(cuts, shots, duration);
    cuts := AddSegmentTails(cuts, segments, duration);
    assert cuts == RawCuts(duration, shots, segments);

    MergedRawCuts(duration, shots, segments);
    var merged := MergeIntervals(cuts);
    var keeps := BuildKeeps(merged.value, duration);
    return Ok(CutPlan(merged.value, keeps, duration));
  }
}
