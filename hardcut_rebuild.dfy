/** `rebuild_json_with_shots` of hardcut.py and the step of its `main` that
    ties it to the cut: the transcript segments are laid end to end on a
    fresh timeline (squeezed to the cut video's length when they overrun
    it), the shots are rebuilt from the part of each that survived the cut,
    and every segment is re-attached to one shot by its midpoint. The stored
    times are rounded to 2 or 3 decimals and frame indices are derived from
    them in the source; the model keeps exact times. */
module HardcutRebuild {
  import opened Common
  import opened HardcutIntervals

  /** Segments no longer than this are dropped from the new timeline. */
  const MIN_SEG_LEN: real := 0.01
  /** The timeline is rescaled only when it overruns the cut video by more. */
  const RESCALE_SLACK: real := 0.001
  /** Tolerance of the midpoint test when re-attaching segments. */
  const ATTACH_TOL: real := 0.000001

  /** A segment on the new timeline, with its original times beside it. */
  datatype Placed = Placed(seg: Segment, origStart: real, origEnd: real, start: real, end: real)

  /** A rebuilt shot. */
  datatype NewShot = NewShot(start: real, end: real, probability: real, segments: seq<Placed>)

  /** The original times as the source reads them: an unparsable start is
      0.0, an unparsable end is the start. */
  function OrigStart(seg: Segment): real { if seg.start.Some? then seg.start.value else 0.0 }
  function OrigEnd(seg: Segment): real { if seg.end.Some? then seg.end.value else OrigStart(seg) }
  function SegLen(seg: Segment): real { Max(OrigEnd(seg) - OrigStart(seg), 0.0) }

  // ------------------------------------------------------ segment timeline

  /** The segments that keep a place on the new timeline. */
  function Survivors(segs: seq<Segment>): seq<Segment>
  {
    if segs == [] then []
    else if SegLen(segs[0]) > MIN_SEG_LEN then [segs[0]] + Survivors(segs[1..])
    else Survivors(segs[1..])
  }

  function SumSegLen(segs: seq<Segment>): real
  {
    if segs == [] then 0.0 else SegLen(segs[0]) + SumSegLen(segs[1..])
  }

  function SegsOf(ps: seq<Placed>): seq<Segment>
  {
    if ps == [] then [] else [ps[0].seg] + SegsOf(ps[1..])
  }

  /** The segments laid end to end from `t`, each keeping its length. */
  function Layout(segs: seq<Segment>, t: real): seq<Placed>
  {
    if segs == [] then []
    else
      var s, e := OrigStart(segs[0]), OrigEnd(segs[0]);
      var length := Max(e - s, 0.0);
      if length <= MIN_SEG_LEN then Layout(segs[1..], t)
      else [Placed(segs[0], s, e, t, t + length)] + Layout(segs[1..], t + length)
  }

  lemma LayoutUnfold(segs: seq<Segment>, t: real)
    requires segs != []
    ensures SegLen(segs[0]) <= MIN_SEG_LEN ==> Layout(segs, t) == Layout(segs[1..], t)
    ensures SegLen(segs[0]) > MIN_SEG_LEN ==>
      Layout(segs, t) == [Placed(segs[0], OrigStart(segs[0]), OrigEnd(segs[0]), t, t + SegLen(segs[0]))]
                         + Layout(segs[1..], t + SegLen(segs[0]))
  {
  }

  /** Where a timeline starting at `t` ends. */
  function EndOf(ps: seq<Placed>, t: real): real { if ps == [] then t else ps[|ps| - 1].end }

  /** Each placed segment starts where the previous one ended, the first at `t`. */
  ghost predicate Contiguous(ps: seq<Placed>, t: real)
  {
    (ps != [] ==> ps[0].start == t)
    && forall k :: 0 < k < |ps| ==> ps[k].start == ps[k - 1].end
  }

  lemma ContiguousTail(ps: seq<Placed>, t: real)
    requires ps != [] && Contiguous(ps, t)
    ensures Contiguous(ps[1..], ps[0].end) && EndOf(ps[1..], ps[0].end) == EndOf(ps, t)
  {
    var rest := ps[1..];
    forall k | 0 < k < |rest| ensures rest[k].start == rest[k - 1].end {
      assert rest[k] == ps[k + 1] && rest[k - 1] == ps[k];
    }
  }

  lemma {:induction false} LayoutContiguous(segs: seq<Segment>, t: real)
    ensures Contiguous(Layout(segs, t), t)
    decreases |segs|
  {
    if segs != [] {
      var length := SegLen(segs[0]);
      if length <= MIN_SEG_LEN {
        LayoutContiguous(segs[1..], t);
      } else {
        LayoutContiguous(segs[1..], t + length);
        var rest := Layout(segs[1..], t + length);
        var ps := Layout(segs, t);
        assert ps == [Placed(segs[0], OrigStart(segs[0]), OrigEnd(segs[0]), t, t + length)] + rest;
        forall k | 0 < k < |ps| ensures ps[k].start == ps[k - 1].end {
          assert ps[k] == rest[k - 1];
          if k > 1 {
            assert ps[k - 1] == rest[k - 2];
          }
        }
      }
    }
  }

  /** Every placed segment keeps its original times and length. */
  lemma {:induction false} LayoutLengths(segs: seq<Segment>, t: real)
    ensures var ps := Layout(segs, t);
      forall k :: 0 <= k < |ps| ==>
        ps[k].origStart == OrigStart(ps[k].seg) && ps[k].origEnd == OrigEnd(ps[k].seg)
        && ps[k].end - ps[k].start == ps[k].origEnd - ps[k].origStart > MIN_SEG_LEN
    decreases |segs|
  {
    if segs != [] {
      var length := SegLen(segs[0]);
      LayoutUnfold(segs, t);
      if length <= MIN_SEG_LEN {
        LayoutLengths(segs[1..], t);
      } else {
        LayoutLengths(segs[1..], t + length);
        var rest := Layout(segs[1..], t + length);
        var ps := Layout(segs, t);
        forall k | 0 <= k < |ps|
          ensures ps[k].origStart == OrigStart(ps[k].seg) && ps[k].origEnd == OrigEnd(ps[k].seg)
          ensures ps[k].end - ps[k].start == ps[k].origEnd - ps[k].origStart > MIN_SEG_LEN
        {
          if k > 0 {
            assert ps[k] == rest[k - 1];
          }
        }
      }
    }
  }

  /** The placed segments are exactly the segments longer than 0.01 s, in
      their original order. */
  lemma {:induction false} LayoutKeepsSurvivors(segs: seq<Segment>, t: real)
    ensures SegsOf(Layout(segs, t)) == Survivors(segs)
    decreases |segs|
  {
    if segs != [] {
      var length := SegLen(segs[0]);
      if length <= MIN_SEG_LEN {
        LayoutKeepsSurvivors(segs[1..], t);
      } else {
        LayoutKeepsSurvivors(segs[1..], t + length);
        var rest := Layout(segs[1..], t + length);
        var ps := Layout(segs, t);
        assert ps == [Placed(segs[0], OrigStart(segs[0]), OrigEnd(segs[0]), t, t + length)] + rest;
        assert ps[1..] == rest;
      }
    }
  }

  /** The timeline laid from `t` ends after the sum of the surviving
      segments' lengths. */
  lemma {:induction false} LayoutEnd(segs: seq<Segment>, t: real)
    ensures EndOf(Layout(segs, t), t) == t + SumSegLen(Survivors(segs))
    decreases |segs|
  {
    if segs != [] {
      var length := SegLen(segs[0]);
      if length <= MIN_SEG_LEN {
        LayoutEnd(segs[1..], t);
      } else {
        LayoutEnd(segs[1..], t + length);
        var rest := Layout(segs[1..], t + length);
        var ps := Layout(segs, t);
        assert ps == [Placed(segs[0], OrigStart(segs[0]), OrigEnd(segs[0]), t, t + length)] + rest;
        assert Survivors(segs) == [segs[0]] + Survivors(segs[1..]);
        assert ([segs[0]] + Survivors(segs[1..]))[1..] == Survivors(segs[1..]);
      }
    }
  }

  /** One step of the remap loop, at position `i` of the flat list. */
  lemma LayoutStep(segs: seq<Segment>, i: nat, t: real)
    requires i < |segs|
    ensures SegLen(segs[i]) <= MIN_SEG_LEN ==> Layout(segs[i..], t) == Layout(segs[i + 1..], t)
    ensures SegLen(segs[i]) > MIN_SEG_LEN ==>
      Layout(segs[i..], t) == [Placed(segs[i], OrigStart(segs[i]), OrigEnd(segs[i]), t, t + SegLen(segs[i]))]
                              + Layout(segs[i + 1..], t + SegLen(segs[i]))
  {
    assert segs[i..][1..] == segs[i + 1..];
    LayoutUnfold(segs[i..], t);
  }

  /** `remap`: the first loop of the rebuild. */
  method RemapSegments(flat: seq<Segment>) returns (ps: seq<Placed>, logical: real)
    ensures ps == Layout(flat, 0.0) && logical == EndOf(ps, 0.0)
  {
    ghost var all := Layout(flat, 0.0);
    ps := [];
    var t := 0.0;
    var i := 0;
    while i < |flat|
      invariant 0 <= i <= |flat|
      invariant ps + Layout(flat[i..], t) == all
      invariant t == EndOf(ps, 0.0)
    {
      ps, t := PlaceSegment(ps, t, flat, i, all);
      i := i + 1;
    }
    assert flat[i..] == [];
    logical := t;
  }

  /** One pass of the remap loop: segment `i` is placed at `t` when it is
      long enough. */
  method PlaceSegment(ps0: seq<Placed>, t0: real, flat: seq<Segment>, i: nat, ghost all: seq<Placed>)
      returns (ps: seq<Placed>, t: real)
    requires i < |flat| && ps0 + Layout(flat[i..], t0) == all && t0 == EndOf(ps0, 0.0)
    ensures ps + Layout(flat[i + 1..], t) == all && t == EndOf(ps, 0.0)
  {
    ps, t := ps0, t0;
    var seg := flat[i];
    var s, e := OrigStart(seg), OrigEnd(seg);
    var length := Max(e - s, 0.0);
    assert length == SegLen(flat[i]);
    LayoutStep(flat, i, t);
    if length > MIN_SEG_LEN {
      var p := Placed(seg, s, e, t, t + length);
      ghost var later := Layout(flat[i + 1..], t + length);
      assert ps + ([p] + later) == (ps + [p]) + later;
      assert (ps + [p])[|ps|] == p;
      ps := ps + [p];
      t := t + length;
    }
  }

  /** The length of a placed segment multiplied by `ratio`. */
  function ScaledLen(p: Placed, ratio: real): real { (p.end - p.start) * ratio }

  /** The timeline squeezed by `ratio`, laid again from `t`. */
  function Rescale(ps: seq<Placed>, ratio: real, t: real): seq<Placed>
  {
    if ps == [] then []
    else
      var newLen := ScaledLen(ps[0], ratio);
      [ps[0].(start := t, end := t + newLen)] + Rescale(ps[1..], ratio, t + newLen)
  }

  lemma RescaleUnfold(ps: seq<Placed>, ratio: real, t: real)
    requires ps != []
    ensures var newLen := ScaledLen(ps[0], ratio);
      Rescale(ps, ratio, t) == [ps[0].(start := t, end := t + newLen)] + Rescale(ps[1..], ratio, t + newLen)
  {
  }

  /** `q` is `p` moved on the timeline with its length multiplied by
      `ratio`. */
  predicate ScaledFrom(q: Placed, p: Placed, ratio: real)
  {
    && q.seg == p.seg && q.origStart == p.origStart && q.origEnd == p.origEnd
    && q.end - q.start == (p.end - p.start) * ratio
  }

  /** Rescaling keeps the segments, their order and their original times,
      and multiplies every length by `ratio`. */
  lemma {:induction false} RescaleLengths(ps: seq<Placed>, ratio: real, t: real)
    ensures var r := Rescale(ps, ratio, t);
      |r| == |ps| && forall k :: 0 <= k < |r| ==> ScaledFrom(r[k], ps[k], ratio)
    decreases |ps|
  {
    if ps != [] {
      var t1 := t + ScaledLen(ps[0], ratio);
      RescaleUnfold(ps, ratio, t);
      RescaleLengths(ps[1..], ratio, t1);
      ScaledCons(ps[0].(start := t, end := t1), Rescale(ps[1..], ratio, t1), ps, ratio);
    }
  }

  lemma ScaledCons(x: Placed, rest: seq<Placed>, ps: seq<Placed>, ratio: real)
    requires ps != [] && ScaledFrom(x, ps[0], ratio) && |rest| == |ps| - 1
    requires forall k :: 0 <= k < |rest| ==> ScaledFrom(rest[k], ps[1..][k], ratio)
    ensures forall k :: 0 <= k < |ps| ==> ScaledFrom(([x] + rest)[k], ps[k], ratio)
  {
    forall k | 0 < k < |ps| ensures ScaledFrom(([x] + rest)[k], ps[k], ratio) {
      assert ([x] + rest)[k] == rest[k - 1] && ps[k] == ps[1..][k - 1];
    }
  }

  /** A rescaled timeline is contiguous from its new origin. */
  lemma {:induction false} RescaleContiguous(ps: seq<Placed>, ratio: real, t: real)
    ensures Contiguous(Rescale(ps, ratio, t), t)
    decreases |ps|
  {
    if ps != [] {
      var t1 := t + ScaledLen(ps[0], ratio);
      RescaleUnfold(ps, ratio, t);
      RescaleContiguous(ps[1..], ratio, t1);
      var rest := Rescale(ps[1..], ratio, t1);
      var r := Rescale(ps, ratio, t);
      forall k | 0 < k < |r| ensures r[k].start == r[k - 1].end {
        assert r[k] == rest[k - 1];
        if k > 1 {
          assert r[k - 1] == rest[k - 2];
        }
      }
    }
  }

  /** Rescaling a contiguous timeline multiplies its length by `ratio`. */
  lemma {:induction false} RescaleEnd(ps: seq<Placed>, ratio: real, t0: real, t: real)
    requires Contiguous(ps, t0)
    ensures EndOf(Rescale(ps, ratio, t), t) == t + ratio * (EndOf(ps, t0) - t0)
    decreases |ps|
  {
    if ps != [] {
      var len0 := ps[0].end - ps[0].start;
      var t1 := t + ScaledLen(ps[0], ratio);
      ContiguousTail(ps, t0);
      RescaleUnfold(ps, ratio, t);
      RescaleEnd(ps[1..], ratio, ps[0].end, t1);
      var rest := Rescale(ps[1..], ratio, t1);
      assert Rescale(ps, ratio, t) == [ps[0].(start := t, end := t1)] + rest;
      EndOfCons(ps[0].(start := t, end := t1), rest, t, t1);
      assert ps[0].start == t0;
      Distribute(ratio, len0, EndOf(ps, t0) - ps[0].end, EndOf(ps, t0) - t0);
    }
  }

  /** The end of a list whose first element ends at `t1` and whose rest is
      laid from `t1`. */
  lemma EndOfCons(x: Placed, rest: seq<Placed>, t: real, t1: real)
    requires x.end == t1
    ensures EndOf([x] + rest, t) == EndOf(rest, t1)
  {
    if rest != [] {
      assert ([x] + rest)[|rest|] == rest[|rest| - 1];
    }
  }

  lemma Distribute(ratio: real, a: real, b: real, c: real)
    requires a + b == c
    ensures a * ratio + ratio * b == ratio * c
  {
  }

  /** Whether the timeline is squeezed: only when the cut video has a
      positive length and the timeline overruns it by more than 1 ms. */
  predicate Overruns(logical: real, hardcutDuration: real)
  {
    hardcutDuration > 0.0 && logical > hardcutDuration + RESCALE_SLACK
  }

  /** The second loop of the rebuild. */
  method RescaleToFit(ps: seq<Placed>, logical: real, hardcutDuration: real)
    returns (qs: seq<Placed>, newLogical: real)
    ensures Overruns(logical, hardcutDuration) ==>
      qs == Rescale(ps, hardcutDuration / logical, 0.0) && newLogical == EndOf(qs, 0.0)
    ensures !Overruns(logical, hardcutDuration) ==> qs == ps && newLogical == logical
  {
    if !Overruns(logical, hardcutDuration) {
      return ps, logical;
    }
    var ratio := hardcutDuration / logical;
    qs := [];
    var t := 0.0;
    var i := 0;
    while i < |ps|
      invariant 0 <= i <= |ps|
      invariant qs + Rescale(ps[i..], ratio, t) == Rescale(ps, ratio, 0.0)
      invariant t == EndOf(qs, 0.0)
    {
      var p := ps[i];
      var newLen := (p.end - p.start) * ratio;
      assert ps[i..][0] == p && ps[i..][1..] == ps[i + 1..];
      RescaleUnfold(ps[i..], ratio, t);
      assert ScaledLen(p, ratio) == newLen;
      var x := p.(start := t, end := t + newLen);
      assert Rescale(ps[i..], ratio, t) == [x] + Rescale(ps[i + 1..], ratio, t + newLen);
      assert qs + ([x] + Rescale(ps[i + 1..], ratio, t + newLen))
        == (qs + [x]) + Rescale(ps[i + 1..], ratio, t + newLen);
      qs := qs + [p.(start := t, end := t + newLen)];
      t := t + newLen;
      i := i + 1;
    }
    assert ps[i..] == [];
    newLogical := t;
  }

  /** The segment timeline of the rebuild. */
  function Timeline(flat: seq<Segment>, hardcutDuration: real): seq<Placed>
  {
    var laid := Layout(flat, 0.0);
    var logical := EndOf(laid, 0.0);
    if Overruns(logical, hardcutDuration) then Rescale(laid, hardcutDuration / logical, 0.0) else laid
  }

  /** The rebuilt timeline is contiguous from 0 and holds exactly the
      surviving segments, in order. */
  lemma TimelineSegments(flat: seq<Segment>, hardcutDuration: real)
    ensures var ps := Timeline(flat, hardcutDuration);
      && Contiguous(ps, 0.0)
      && |ps| == |Survivors(flat)|
      && (forall k :: 0 <= k < |ps| ==> ps[k].seg == Survivors(flat)[k])
  {
    var laid := Layout(flat, 0.0);
    var logical := EndOf(laid, 0.0);
    LayoutContiguous(flat, 0.0);
    LayoutKeepsSurvivors(flat, 0.0);
    SegsOfIndex(laid);
    if Overruns(logical, hardcutDuration) {
      var ratio := hardcutDuration / logical;
      RescaleLengths(laid, ratio, 0.0);
      RescaleContiguous(laid, ratio, 0.0);
    }
  }

  /** A squeezed timeline ends exactly at the cut video's length, so the
      timeline never overruns a positive cut length by more than 1 ms. */
  lemma TimelineFits(flat: seq<Segment>, hardcutDuration: real)
    ensures var ps := Timeline(flat, hardcutDuration);
      && (Overruns(EndOf(Layout(flat, 0.0), 0.0), hardcutDuration) ==> EndOf(ps, 0.0) == hardcutDuration)
      && (hardcutDuration > 0.0 ==> EndOf(ps, 0.0) <= hardcutDuration + RESCALE_SLACK)
  {
    var laid := Layout(flat, 0.0);
    var logical := EndOf(laid, 0.0);
    LayoutContiguous(flat, 0.0);
    if Overruns(logical, hardcutDuration) {
      var ratio := hardcutDuration / logical;
      RescaleEnd(laid, ratio, 0.0, 0.0);
      assert ratio * logical == hardcutDuration;
    }
  }

  lemma {:induction false} SegsOfIndex(ps: seq<Placed>)
    ensures |SegsOf(ps)| == |ps| && forall k :: 0 <= k < |ps| ==> SegsOf(ps)[k] == ps[k].seg
  {
    if ps != [] {
      SegsOfIndex(ps[1..]);
      forall k | 0 < k < |ps| ensures SegsOf(ps)[k] == ps[k].seg {
        assert ps[1..][k - 1] == ps[k];
      }
    }
  }

  // ------------------------------------------------------------- new shots

  /** The part of [s0, e0] that overlaps keep `k`. */
  function Overlap(s0: real, e0: real, k: Interval): real { Min(e0, k.e) - Max(s0, k.s) }

  /** `kept_len`: the overlaps longer than EPS with the keeps, summed. */
  function KeptLen(s0: real, e0: real, keeps: seq<Interval>): real
  {
    if keeps == [] then 0.0
    else
      var o := Overlap(s0, e0, keeps[0]);
      (if o > EPS then o else 0.0) + KeptLen(s0, e0, keeps[1..])
  }

  /** The inner loop over the keeps. */
  method ShotKeptLength(s0: real, e0: real, keeps: seq<Interval>) returns (kept: real)
    ensures kept == KeptLen(s0, e0, keeps)
  {
    kept := 0.0;
    var i := 0;
    while i < |keeps|
      invariant 0 <= i <= |keeps|
      invariant kept + KeptLen(s0, e0, keeps[i..]) == KeptLen(s0, e0, keeps)
    {
      var interS := Max(s0, keeps[i].s);
      var interE := Min(e0, keeps[i].e);
      assert keeps[i..][1..] == keeps[i + 1..];
      if interE - interS > EPS {
        kept := kept + (interE - interS);
      }
      i := i + 1;
    }
    assert keeps[i..] == [];
  }

  lemma {:induction false} KeptLenShift(lo: real, c: real, hi: real, ks: seq<Interval>)
    requires forall k :: 0 <= k < |ks| ==> c <= ks[k].s
    ensures KeptLen(lo, hi, ks) == KeptLen(Max(lo, c), hi, ks)
    decreases |ks|
  {
    if ks != [] {
      KeptLenShift(lo, c, hi, ks[1..]);
    }
  }

  /** Against disjoint, ordered keeps, a shot never keeps more than its own
      length. */
  lemma {:induction false} KeptLenBound(s0: real, e0: real, keeps: seq<Interval>)
    requires Separated(keeps)
    ensures 0.0 <= KeptLen(s0, e0, keeps) <= Max(0.0, e0 - s0)
    decreases |keeps|
  {
    if keeps != [] {
      var k := keeps[0];
      var rest := keeps[1..];
      SeparatedSorted(keeps);
      assert Separated(rest);
      forall j | 0 <= j < |rest| ensures k.e <= rest[j].s {
        assert rest[j] == keeps[j + 1];
      }
      KeptLenShift(s0, k.e, e0, rest);
      KeptLenBound(Max(s0, k.e), e0, rest);
    }
  }

  /** The shots whose kept length exceeds EPS, in order. */
  function KeptShots(shots: seq<Shot>, keeps: seq<Interval>): seq<Shot>
  {
    if shots == [] then []
    else if KeptLen(shots[0].start, shots[0].end, keeps) > EPS then [shots[0]] + KeptShots(shots[1..], keeps)
    else KeptShots(shots[1..], keeps)
  }

  /** The new shots, laid end to end from `cur` with their kept lengths. */
  function LayShots(shots: seq<Shot>, keeps: seq<Interval>, cur: real): seq<NewShot>
  {
    if shots == [] then []
    else
      var kept := KeptLen(shots[0].start, shots[0].end, keeps);
      if kept <= EPS then LayShots(shots[1..], keeps, cur)
      else [NewShot(cur, cur + kept, shots[0].probability, [])] + LayShots(shots[1..], keeps, cur + kept)
  }

  ghost predicate ShotsContiguous(ns: seq<NewShot>, t: real)
  {
    (ns != [] ==> ns[0].start == t)
    && forall k :: 0 < k < |ns| ==> ns[k].start == ns[k - 1].end
  }

  /** One new shot per shot that kept more than EPS, in order, with that
      shot's probability and its kept length, starting empty; the new shots
      are contiguous from `cur`. */
  lemma {:induction false} LayShotsShape(shots: seq<Shot>, keeps: seq<Interval>, cur: real)
    ensures var ns := LayShots(shots, keeps, cur);
      var kept := KeptShots(shots, keeps);
      && |ns| == |kept| <= |shots|
      && ShotsContiguous(ns, cur)
      && forall k :: 0 <= k < |ns| ==>
           ns[k].probability == kept[k].probability && ns[k].segments == []
           && ns[k].end - ns[k].start == KeptLen(kept[k].start, kept[k].end, keeps) > EPS
    decreases |shots|
  {
    if shots != [] {
      var kept := KeptLen(shots[0].start, shots[0].end, keeps);
      if kept > EPS {
        LayShotsShape(shots[1..], keeps, cur + kept);
        var rest := LayShots(shots[1..], keeps, cur + kept);
        var ns := LayShots(shots, keeps, cur);
        var ks := KeptShots(shots, keeps);
        assert ns == [NewShot(cur, cur + kept, shots[0].probability, [])] + rest;
        assert ks == [shots[0]] + KeptShots(shots[1..], keeps);
        forall k | 0 < k < |ns| ensures ns[k].start == ns[k - 1].end {
          assert ns[k] == rest[k - 1];
          if k > 1 {
            assert ns[k - 1] == rest[k - 2];
          }
        }
        forall k | 0 < k < |ns|
          ensures ns[k].probability == ks[k].probability && ns[k].segments == []
          ensures ns[k].end - ns[k].start == KeptLen(ks[k].start, ks[k].end, keeps) > EPS
        {
          assert ns[k] == rest[k - 1] && ks[k] == KeptShots(shots[1..], keeps)[k - 1];
        }
      } else {
        LayShotsShape(shots[1..], keeps, cur);
      }
    }
  }

  /** The shot-info and new-shot loops. */
  method BuildNewShots(shots: seq<Shot>, keeps: seq<Interval>) returns (ns: seq<NewShot>)
    ensures ns == LayShots(shots, keeps, 0.0)
  {
    var kepts: seq<real> := [];
    var i := 0;
    while i < |shots|
      invariant 0 <= i <= |shots| && |kepts| == i
      invariant forall j :: 0 <= j < i ==> kepts[j] == KeptLen(shots[j].start, shots[j].end, keeps)
    {
      var kept := ShotKeptLength(shots[i].start, shots[i].end, keeps);
      kepts := kepts + [kept];
      i := i + 1;
    }

    ns := [];
    var cur := 0.0;
    i := 0;
    while i < |shots|
      invariant 0 <= i <= |shots|
      invariant ns + LayShots(shots[i..], keeps, cur) == LayShots(shots, keeps, 0.0)
    {
      assert shots[i..][1..] == shots[i + 1..];
      if kepts[i] > EPS {
        ns := ns + [NewShot(cur, cur + kepts[i], shots[i].probability, [])];
        cur := cur + kepts[i];
      }
      i := i + 1;
    }
    assert shots[i..] == [];
  }

  /** The new shots, or when none kept anything, one shot over the whole
      timeline with probability 1. */
  function BaseShots(shots: seq<Shot>, keeps: seq<Interval>, logical: real): (r: seq<NewShot>)
    ensures r != []
  {
    var ns := LayShots(shots, keeps, 0.0);
    if ns == [] then [NewShot(0.0, logical, 1.0, [])] else ns
  }

  // ------------------------------------------------------------ attachment

  function Mid(p: Placed): real { 0.5 * (p.start + p.end) }

  predicate Holds(sh: NewShot, mid: real)
  {
    sh.start - ATTACH_TOL <= mid <= sh.end + ATTACH_TOL
  }

  function FirstHoldingFrom(ns: seq<NewShot>, mid: real, k: nat): (r: nat)
    requires k < |ns|
    ensures k <= r < |ns|
    ensures forall j :: k <= j < r ==> !Holds(ns[j], mid)
    ensures Holds(ns[r], mid) || r == |ns| - 1
    decreases |ns| - k
  {
    if k == |ns| - 1 || Holds(ns[k], mid) then k else FirstHoldingFrom(ns, mid, k + 1)
  }

  /** The shot a midpoint goes to: the first whose widened span holds it,
      else the last. */
  function AttachIndex(ns: seq<NewShot>, mid: real): (r: nat)
    requires ns != []
    ensures r < |ns|
    ensures forall j :: 0 <= j < r ==> !Holds(ns[j], mid)
    ensures (exists j :: 0 <= j < |ns| && Holds(ns[j], mid)) ==> Holds(ns[r], mid)
    ensures (forall j :: 0 <= j < |ns| ==> !Holds(ns[j], mid)) ==> r == |ns| - 1
  {
    FirstHoldingFrom(ns, mid, 0)
  }

  /** The inner search loop with its `break`. */
  method FindShot(ns: seq<NewShot>, mid: real) returns (idx: nat)
    requires ns != []
    ensures idx == AttachIndex(ns, mid)
  {
    var i := 0;
    while i < |ns| && !Holds(ns[i], mid)
      invariant 0 <= i <= |ns|
      invariant forall j :: 0 <= j < i ==> !Holds(ns[j], mid)
    {
      i := i + 1;
    }
    if i == |ns| {
      idx := |ns| - 1;
    } else {
      idx := i;
    }
  }

  /** The placed segments that go to shot `k`, in order. */
  function AttachedTo(ps: seq<Placed>, ns: seq<NewShot>, k: nat): seq<Placed>
    requires ns != []
  {
    if ps == [] then []
    else
      var last := ps[|ps| - 1];
      AttachedTo(ps[..|ps| - 1], ns, k) + (if AttachIndex(ns, Mid(last)) == k then [last] else [])
  }

  /** The attachment loop: appends each segment to its shot's list. */
  method AttachSegments(ns: seq<NewShot>, ps: seq<Placed>) returns (out: seq<NewShot>)
    requires ns != []
    ensures |out| == |ns|
    ensures forall k :: 0 <= k < |ns| ==>
      out[k] == ns[k].(segments := ns[k].segments + AttachedTo(ps, ns, k))
  {
    out := ns;
    var j := 0;
    while j < |ps|
      invariant 0 <= j <= |ps| && |out| == |ns|
      invariant forall k :: 0 <= k < |ns| ==>
        out[k] == ns[k].(segments := ns[k].segments + AttachedTo(ps[..j], ns, k))
    {
      out := AttachOne(out, ns, ps, j);
      j := j + 1;
    }
    assert ps[..j] == ps;
  }

  /** One pass of the attachment loop: segment `j` joins its shot. */
  method AttachOne(out0: seq<NewShot>, ns: seq<NewShot>, ps: seq<Placed>, j: nat) returns (out: seq<NewShot>)
    requires ns != [] && j < |ps| && |out0| == |ns|
    requires forall k :: 0 <= k < |ns| ==>
      out0[k] == ns[k].(segments := ns[k].segments + AttachedTo(ps[..j], ns, k))
    ensures |out| == |ns|
    ensures forall k :: 0 <= k < |ns| ==>
      out[k] == ns[k].(segments := ns[k].segments + AttachedTo(ps[..j + 1], ns, k))
  {
    var p := ps[j];
    var idx := FindShot(ns, Mid(p));
    AttachedToSnoc(ps, ns, j);
    out := out0[idx := out0[idx].(segments := out0[idx].segments + [p])];
    forall k | 0 <= k < |ns|
      ensures out[k] == ns[k].(segments := ns[k].segments + AttachedTo(ps[..j + 1], ns, k))
    {
      if k == idx {
        assert ns[k].segments + AttachedTo(ps[..j], ns, k) + [p]
          == ns[k].segments + (AttachedTo(ps[..j], ns, k) + [p]);
      } else {
        assert out[k] == out0[k];
        assert AttachedTo(ps[..j], ns, k) + [] == AttachedTo(ps[..j], ns, k);
      }
    }
  }

  /** Taking one more segment adds it to its shot's list and no other. */
  lemma AttachedToSnoc(ps: seq<Placed>, ns: seq<NewShot>, j: nat)
    requires ns != [] && j < |ps|
    ensures forall k :: AttachedTo(ps[..j + 1], ns, k)
                        == AttachedTo(ps[..j], ns, k) + (if AttachIndex(ns, Mid(ps[j])) == k then [ps[j]] else [])
  {
    assert ps[..j + 1][..j] == ps[..j];
  }

  /** The number of segments attached to shots 0 .. n-1. */
  function CountAttached(ps: seq<Placed>, ns: seq<NewShot>, n: nat): nat
    requires ns != []
  {
    if n == 0 then 0 else CountAttached(ps, ns, n - 1) + |AttachedTo(ps, ns, n - 1)|
  }

  lemma {:induction false} CountAttachedNone(ns: seq<NewShot>, n: nat)
    requires ns != []
    ensures CountAttached([], ns, n) == 0
  {
    if n > 0 {
      CountAttachedNone(ns, n - 1);
    }
  }

  lemma {:induction false} CountAttachedStep(ps: seq<Placed>, ns: seq<NewShot>, n: nat)
    requires ns != [] && ps != []
    ensures var last := ps[|ps| - 1];
      CountAttached(ps, ns, n)
      == CountAttached(ps[..|ps| - 1], ns, n) + (if AttachIndex(ns, Mid(last)) < n then 1 else 0)
  {
    if n > 0 {
      CountAttachedStep(ps, ns, n - 1);
    }
  }

  /** Every segment is attached to exactly one shot: the lists of all shots
      together hold as many segments as were placed ... */
  lemma {:induction false} AttachCountsAll(ps: seq<Placed>, ns: seq<NewShot>)
    requires ns != []
    ensures CountAttached(ps, ns, |ns|) == |ps|
    decreases |ps|
  {
    if ps == [] {
      CountAttachedNone(ns, |ns|);
    } else {
      var init := ps[..|ps| - 1];
      AttachCountsAll(init, ns);
      CountAttachedStep(ps, ns, |ns|);
      assert AttachIndex(ns, Mid(ps[|ps| - 1])) < |ns|;
    }
  }

  /** ... and each segment is in the list of the shot `AttachIndex` names. */
  lemma {:induction false} AttachedToChosen(ps: seq<Placed>, ns: seq<NewShot>)
    requires ns != []
    ensures forall i :: 0 <= i < |ps| ==> ps[i] in AttachedTo(ps, ns, AttachIndex(ns, Mid(ps[i])))
    decreases |ps|
  {
    if ps != [] {
      var init := ps[..|ps| - 1];
      AttachedToChosen(init, ns);
      forall i | 0 <= i < |ps| ensures ps[i] in AttachedTo(ps, ns, AttachIndex(ns, Mid(ps[i]))) {
        if i < |ps| - 1 {
          assert ps[i] == init[i];
        }
      }
    }
  }

  // ---------------------------------------------------------------- rebuild

  /** What the rebuild writes back: the new shots and segments, the logical
      (segment timeline) length, the new and the original video duration,
      and `whisper.num_segments`. */
  datatype Rebuilt = Rebuilt(
    shots: seq<NewShot>,
    segments: seq<Placed>,
    logicalDuration: real,
    duration: real,
    origDuration: real,
    numSegments: nat)

  /** `rebuild_json_with_shots`. `videoDuration` is the document's
      `video.duration` when present. */
  method RebuildJsonWithShots(table: ShotTable, videoDuration: Option<real>, keeps: seq<Interval>,
                              hardcutDuration: real) returns (r: Rebuilt)
    ensures var shots := CollectShots(table);
      var placed := Timeline(ShotSegments(shots), hardcutDuration);
      var base := BaseShots(shots, keeps, EndOf(placed, 0.0));
      && r.segments == placed
      && r.logicalDuration == EndOf(placed, 0.0)
      && |r.shots| == |base|
      && (forall k :: 0 <= k < |base| ==> r.shots[k] == base[k].(segments := AttachedTo(placed, base, k)))
      && r.duration == hardcutDuration
      && r.origDuration == (if videoDuration.Some? then videoDuration.value else hardcutDuration)
      && r.numSegments == |placed|
  {
    var shots := CollectShots(table);
    var placed, newLogical := BuildTimeline(ShotSegments(shots), hardcutDuration);
    var ns := BuildBaseShots(shots, keeps, newLogical);
    var attached := AttachSegments(ns, placed);
    BaseShotsBare(shots, keeps, newLogical);
    forall k | 0 <= k < |ns| ensures attached[k] == ns[k].(segments := AttachedTo(placed, ns, k)) {
      assert [] + AttachedTo(placed, ns, k) == AttachedTo(placed, ns, k);
    }
    var orig := if videoDuration.Some? then videoDuration.value else hardcutDuration;
    r := Rebuilt(attached, placed, newLogical, hardcutDuration, orig, |placed|);
  }

  /** The two segment loops: remap, then rescale when the timeline overruns. */
  method BuildTimeline(flat: seq<Segment>, hardcutDuration: real) returns (placed: seq<Placed>, logical: real)
    ensures placed == Timeline(flat, hardcutDuration) && logical == EndOf(placed, 0.0)
  {
    var laid, logical0 := RemapSegments(flat);
    placed, logical := RescaleToFit(laid, logical0, hardcutDuration);
  }

  /** The shot loop, with the single whole-timeline shot when no shot
      survives. */
  method BuildBaseShots(shots: seq<Shot>, keeps: seq<Interval>, logical: real) returns (ns: seq<NewShot>)
    ensures ns == BaseShots(shots, keeps, logical)
  {
    ns := BuildNewShots(shots, keeps);
    if ns == [] {
      ns := [NewShot(0.0, logical, 1.0, [])];
    }
  }

  /** The shots start with no segments attached. */
  lemma BaseShotsBare(shots: seq<Shot>, keeps: seq<Interval>, logical: real)
    ensures var ns := BaseShots(shots, keeps, logical);
      forall k :: 0 <= k < |ns| ==> ns[k].segments == []
  {
    if LayShots(shots, keeps, 0.0) != [] {
      LayShotsShape(shots, keeps, 0.0);
    }
  }

  /** The cut-then-rebuild step of hardcut.py's `main`: compute the cuts and
      keeps, stop when nothing is kept, otherwise rebuild against the total
      kept length, which lies in [0, duration]. */
  method RunHardcut(duration: real, table: ShotTable) returns (r: Result<Rebuilt>)
    ensures duration <= 0.0 ==> r == Err(NonPositiveDuration(duration))
    ensures duration > 0.0 ==>
      var keeps := Keeps(PlannedCuts(duration, table), duration);
      && (r == Err(NoEditableContent) <==> keeps == [])
      && (r.Ok? ==> r.value.duration == SumLen(keeps) && 0.0 <= r.value.duration <= duration)
      && (r.Ok? ==>
            var shots := CollectShots(table);
            var placed := Timeline(ShotSegments(shots), SumLen(keeps));
            var base := BaseShots(shots, keeps, EndOf(placed, 0.0));
            && r.value.segments == placed
            && r.value.logicalDuration == EndOf(placed, 0.0)
            && |r.value.shots| == |base|
            && (forall k :: 0 <= k < |base| ==>
                  r.value.shots[k] == base[k].(segments := AttachedTo(placed, base, k)))
            && r.value.origDuration == duration
            && r.value.numSegments == |placed|)
  {
    var plan := ComputeCutAndKeepIntervals(duration, table);
    if plan.Err? {
      return Err(plan.error);
    }
    var keeps := plan.value.keeps;
    if keeps == [] {
      return Err(NoEditableContent);
    }
    var offsets, total := ComputeOffsets(keeps);
    KeepsComplementCuts(plan.value.cuts, duration);
    var rebuilt := RebuildJsonWithShots(table, Some(duration), keeps, total);
    return Ok(rebuilt);
  }
}
