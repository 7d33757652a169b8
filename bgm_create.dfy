/** bgm_create.py: the shots of the cut video are grouped greedily into
    background-music windows of at least `min_window` seconds; for each
    window the overlapping transcript segments, weighted by overlap, decide
    a mood (emotion mix, tempo, texture) and the length of the music to
    request. The prompt prose and the music service call are not modelled:
    the mood is kept as the decisions that choose the prose. */
module BgmCreate {
  import opened Common

  const MIN_BGM_WINDOW_SEC: real := 15.0
  const BGM_MARGIN_SEC: real := 1.5
  const MIN_BGM_LEN_SEC: real := 4.0
  const DEFAULT_BPM: real := 100.0

  // ------------------------------------------------------------ grouping

  /** The sweep of `_build_bgm_groups` over the shots after the first, with
      the running group [curS, curE]: the groups it closes, then the running
      group. */
  function GroupSweep(curS: real, curE: real, rest: seq<Shot>, minWindow: real): seq<Interval>
    decreases |rest|
  {
    if rest == [] then [Interval(curS, curE)]
    else
      var s, e := rest[0].start, rest[0].end;
      var end := if s > curE then s else curE;
      if end - curS < minWindow then GroupSweep(curS, e, rest[1..], minWindow)
      else [Interval(curS, end)] + GroupSweep(s, e, rest[1..], minWindow)
  }

  /** A short last group is merged into the one before it. */
  function FoldShortLast(groups: seq<Interval>, minWindow: real): seq<Interval>
  {
    if |groups| >= 2 && Len(groups[|groups| - 1]) < minWindow
    then groups[..|groups| - 2] + [Interval(groups[|groups| - 2].s, groups[|groups| - 1].e)]
    else groups
  }

  function BgmGroups(shots: seq<Shot>, minWindow: real): seq<Interval>
  {
    if shots == [] then []
    else FoldShortLast(GroupSweep(shots[0].start, shots[0].end, shots[1..], minWindow), minWindow)
  }

  /** The sweep loop of `_build_bgm_groups` and its final append. */
  method SweepGroups(shots: seq<Shot>, minWindow: real) returns (groups: seq<Interval>)
    requires shots != []
    ensures groups == GroupSweep(shots[0].start, shots[0].end, shots[1..], minWindow)
  {
    groups := [];
    var curStart, curEnd := shots[0].start, shots[0].end;
    var i := 1;
    while i < |shots|
      invariant 1 <= i <= |shots|
      invariant groups + GroupSweep(curStart, curEnd, shots[i..], minWindow)
        == GroupSweep(shots[0].start, shots[0].end, shots[1..], minWindow)
    {
      var s, e := shots[i].start, shots[i].end;
      assert shots[i..][0] == shots[i] && shots[i..][1..] == shots[i + 1..];
      ghost var prevEnd := curEnd;
      if s > curEnd {
        curEnd := s;
      }
      var curLen := curEnd - curStart;
      if curLen < minWindow {
        assert GroupSweep(curStart, prevEnd, shots[i..], minWindow) == GroupSweep(curStart, e, shots[i + 1..], minWindow);
        curEnd := e;
      } else {
        assert GroupSweep(curStart, prevEnd, shots[i..], minWindow)
          == [Interval(curStart, curEnd)] + GroupSweep(s, e, shots[i + 1..], minWindow);
        assert groups + GroupSweep(curStart, prevEnd, shots[i..], minWindow)
          == (groups + [Interval(curStart, curEnd)]) + GroupSweep(s, e, shots[i + 1..], minWindow);
        groups := groups + [Interval(curStart, curEnd)];
        curStart, curEnd := s, e;
      }
      i := i + 1;
    }
    assert shots[i..] == [];
    groups := groups + [Interval(curStart, curEnd)];
  }

  /** `_build_bgm_groups`. */
  method BuildBgmGroups(shots: seq<Shot>, minWindow: real) returns (groups: seq<Interval>)
    ensures groups == BgmGroups(shots, minWindow)
  {
    if shots == [] {
      return [];
    }
    groups := SweepGroups(shots, minWindow);
    if |groups| >= 2 {
      var last := groups[|groups| - 1];
      if last.e - last.s < minWindow {
        var prev := groups[|groups| - 2];
        groups := groups[|groups| - 2 := Interval(prev.s, last.e)];
        groups := groups[..|groups| - 1];
      }
    }
  }

  /** There are never more groups than shots, and there is a group exactly
      when there is a shot; every group but the last is at least
      `minWindow` long. */
  lemma GroupsCount(shots: seq<Shot>, minWindow: real)
    ensures var g := BgmGroups(shots, minWindow);
      && |g| <= |shots|
      && (g == [] <==> shots == [])
      && forall k :: 0 <= k < |g| - 1 ==> Len(g[k]) >= minWindow
  {
    if shots != [] {
      SweepShape(shots[0].start, shots[0].end, shots[1..], minWindow);
      var r := GroupSweep(shots[0].start, shots[0].end, shots[1..], minWindow);
      if |r| >= 2 && Len(r[|r| - 1]) < minWindow {
        var g := BgmGroups(shots, minWindow);
        assert forall k :: 0 <= k < |g| - 1 ==> g[k] == r[k];
      }
    }
  }

  /** The sweep yields at least one and at most one group per shot, its
      first group starts at the running start, and every group it closes is
      at least `minWindow` long. */
  lemma {:induction false} SweepShape(curS: real, curE: real, rest: seq<Shot>, minWindow: real)
    ensures var r := GroupSweep(curS, curE, rest, minWindow);
      && 1 <= |r| <= |rest| + 1 && r[0].s == curS
      && forall k :: 0 <= k < |r| - 1 ==> Len(r[k]) >= minWindow
    decreases |rest|
  {
    if rest != [] {
      var s, e := rest[0].start, rest[0].end;
      var end := if s > curE then s else curE;
      if end - curS < minWindow {
        SweepShape(curS, e, rest[1..], minWindow);
      } else {
        SweepShape(s, e, rest[1..], minWindow);
        var tail := GroupSweep(s, e, rest[1..], minWindow);
        var r := GroupSweep(curS, curE, rest, minWindow);
        assert r == [Interval(curS, end)] + tail;
        forall k | 0 < k < |r| - 1 ensures Len(r[k]) >= minWindow {
          assert r[k] == tail[k - 1];
        }
      }
    }
  }

  /** Shots as the detector and the cut produce them: each starts no later
      than it ends and no earlier than the previous one ends. */
  ghost predicate WellFormedShots(shots: seq<Shot>)
  {
    (forall i :: 0 <= i < |shots| ==> shots[i].start <= shots[i].end)
    && forall i :: 0 < i < |shots| ==> shots[i - 1].end <= shots[i].start
  }

  ghost predicate Tiles(groups: seq<Interval>)
  {
    forall k :: 0 < k < |groups| ==> groups[k].s == groups[k - 1].e
  }

  lemma WellFormedTail(shots: seq<Shot>)
    requires |shots| >= 2 && WellFormedShots(shots)
    ensures WellFormedShots(shots[1..])
  {
    var rest := shots[1..];
    forall i | 0 < i < |rest| ensures rest[i - 1].end <= rest[i].start {
      assert rest[i - 1] == shots[i] && rest[i] == shots[i + 1];
    }
  }

  /** On well-formed shots the sweep closes each group at the next shot's
      start, so its groups tile [curS, last shot's end] and the running
      group never ends before it starts. */
  lemma {:induction false} SweepTiles(curS: real, curE: real, rest: seq<Shot>, minWindow: real)
    requires curS <= curE && WellFormedShots(rest)
    requires rest != [] ==> curE <= rest[0].start
    ensures var r := GroupSweep(curS, curE, rest, minWindow);
      && |r| >= 1 && Tiles(r)
      && r[|r| - 1].e == (if rest == [] then curE else rest[|rest| - 1].end)
      && r[|r| - 1].s <= r[|r| - 1].e
    decreases |rest|
  {
    SweepShape(curS, curE, rest, minWindow);
    if rest != [] {
      var s, e := rest[0].start, rest[0].end;
      if |rest| >= 2 {
        WellFormedTail(rest);
        assert rest[1..][0] == rest[1];
      }
      assert rest[1..] != [] ==> rest[1..][|rest[1..]| - 1] == rest[|rest| - 1];
      if s - curS < minWindow {
        SweepTiles(curS, e, rest[1..], minWindow);
      } else {
        SweepTiles(s, e, rest[1..], minWindow);
        SweepShape(s, e, rest[1..], minWindow);
        var tail := GroupSweep(s, e, rest[1..], minWindow);
        var r := GroupSweep(curS, curE, rest, minWindow);
        assert r == [Interval(curS, s)] + tail;
        forall k | 0 < k < |r| ensures r[k].s == r[k - 1].e {
          assert r[k] == tail[k - 1];
          if k > 1 {
            assert r[k - 1] == tail[k - 2];
          }
        }
      }
    }
  }

  /** Folding a short last group into the one before keeps a tiling
      tiling and makes every group reach `minWindow` once there are two. */
  lemma FoldTiles(r: seq<Interval>, minWindow: real)
    requires r != [] && Tiles(r) && r[|r| - 1].s <= r[|r| - 1].e
    requires forall k :: 0 <= k < |r| - 1 ==> Len(r[k]) >= minWindow
    ensures var g := FoldShortLast(r, minWindow);
      && g != [] && Tiles(g) && g[0].s == r[0].s && g[|g| - 1].e == r[|r| - 1].e
      && (|g| >= 2 ==> forall k :: 0 <= k < |g| ==> Len(g[k]) >= minWindow)
  {
    var g := FoldShortLast(r, minWindow);
    var n := |r|;
    if n >= 2 && Len(r[n - 1]) < minWindow {
      assert g == r[..n - 2] + [Interval(r[n - 2].s, r[n - 1].e)];
      assert forall k :: 0 <= k < n - 2 ==> g[k] == r[k];
      assert Len(g[n - 2]) >= minWindow by {
        assert r[n - 1].s == r[n - 2].e;
        assert Len(r[n - 2]) >= minWindow;
      }
      forall k | 0 < k < |g| ensures g[k].s == g[k - 1].e {
        assert g[k - 1] == r[k - 1];
        if k < n - 2 {
          assert g[k] == r[k];
        }
      }
    }
  }

  /** On well-formed shots the groups tile [first start, last end], and when
      there are two or more every one of them, the last included, is at
      least `minWindow` long. */
  lemma GroupsTile(shots: seq<Shot>, minWindow: real)
    requires shots != [] && WellFormedShots(shots)
    ensures var g := BgmGroups(shots, minWindow);
      && g != [] && Tiles(g)
      && g[0].s == shots[0].start && g[|g| - 1].e == shots[|shots| - 1].end
      && (|g| >= 2 ==> forall k :: 0 <= k < |g| ==> Len(g[k]) >= minWindow)
  {
    var rest := shots[1..];
    if |shots| >= 2 {
      WellFormedTail(shots);
      assert rest[0] == shots[1];
      assert rest[|rest| - 1] == shots[|shots| - 1];
    }
    SweepTiles(shots[0].start, shots[0].end, rest, minWindow);
    SweepShape(shots[0].start, shots[0].end, rest, minWindow);
    FoldTiles(GroupSweep(shots[0].start, shots[0].end, rest, minWindow), minWindow);
  }

  /** Overlapping shots break the "every group reaches `minWindow`" promise:
      the first shot closes a group, the short second one is folded into it
      and the fold keeps only the second shot's end. */
  lemma OverlappingShotsShortGroup(shots: seq<Shot>)
    requires shots == [Shot(0.0, 20.0, 1.0, []), Shot(5.0, 6.0, 1.0, [])]
    ensures BgmGroups(shots, MIN_BGM_WINDOW_SEC) == [Interval(0.0, 6.0)]
  {
    assert GroupSweep(0.0, 20.0, shots[1..], MIN_BGM_WINDOW_SEC)
      == [Interval(0.0, 20.0), Interval(5.0, 6.0)];
  }

  /** With a 15 s window, shots (0,5), (5,8), (8,20) form the single group
      (0,20): the running group grows until the last shot and is never
      closed. */
  lemma SingleGroupScenario(shots: seq<Shot>)
    requires shots == [Shot(0.0, 5.0, 1.0, []), Shot(5.0, 8.0, 1.0, []), Shot(8.0, 20.0, 1.0, [])]
    ensures BgmGroups(shots, MIN_BGM_WINDOW_SEC) == [Interval(0.0, 20.0)]
  {
    assert shots[1..][1..] == [shots[2]];
    assert GroupSweep(0.0, 8.0, [shots[2]], MIN_BGM_WINDOW_SEC) == [Interval(0.0, 20.0)];
  }

  // ------------------------------------------------- segments of a group

  /** A segment with the length of its overlap with the group. */
  datatype Weighted = Weighted(seg: Segment, weight: real)

  function OverlapWith(seg: Segment, gStart: real, gEnd: real): real
    requires seg.start.Some? && seg.end.Some?
  {
    Min(seg.end.value, gEnd) - Max(seg.start.value, gStart)
  }

  /** Whether the source keeps the segment for the group: its times parse,
      it does not end by the group's start nor start at or after its end,
      and the overlap is positive. */
  predicate InGroup(seg: Segment, gStart: real, gEnd: real)
  {
    seg.start.Some? && seg.end.Some?
    && !(seg.end.value <= gStart || seg.start.value >= gEnd)
    && OverlapWith(seg, gStart, gEnd) > 0.0
  }

  function GroupWeights(segs: seq<Segment>, gStart: real, gEnd: real): seq<Weighted>
  {
    if segs == [] then []
    else
      var last := segs[|segs| - 1];
      GroupWeights(segs[..|segs| - 1], gStart, gEnd)
      + (if InGroup(last, gStart, gEnd) then [Weighted(last, OverlapWith(last, gStart, gEnd))] else [])
  }

  /** `_collect_segments_for_group`: the nested loop over the shots and
      their segments. */
  method CollectSegmentsForGroup(shots: seq<Shot>, gStart: real, gEnd: real) returns (ws: seq<Weighted>)
    ensures ws == GroupWeights(ShotSegments(shots), gStart, gEnd)
  {
    ws := [];
    var i := 0;
    while i < |shots|
      invariant 0 <= i <= |shots|
      invariant ws == GroupWeights(ShotSegments(shots[..i]), gStart, gEnd)
    {
      assert shots[..i + 1][..i] == shots[..i];
      ws := CollectFromShot(ws, ShotSegments(shots[..i]), shots[i].segments, gStart, gEnd);
      i := i + 1;
    }
    assert shots[..i] == shots;
  }

  /** The inner loop, over the segments of one shot. */
  method CollectFromShot(ws0: seq<Weighted>, ghost before: seq<Segment>, segs: seq<Segment>, gStart: real, gEnd: real)
      returns (ws: seq<Weighted>)
    requires ws0 == GroupWeights(before, gStart, gEnd)
    ensures ws == GroupWeights(before + segs, gStart, gEnd)
  {
    ws := ws0;
    var j := 0;
    assert before + segs[..0] == before;
    while j < |segs|
      invariant 0 <= j <= |segs|
      invariant ws == GroupWeights(before + segs[..j], gStart, gEnd)
    {
      var seg := segs[j];
      assert (before + segs[..j + 1])[..|before + segs[..j + 1]| - 1] == before + segs[..j];
      if seg.start.Some? && seg.end.Some? {
        var s, e := seg.start.value, seg.end.value;
        if !(e <= gStart || s >= gEnd) {
          var overlap := Min(e, gEnd) - Max(s, gStart);
          if overlap > 0.0 {
            ws := ws + [Weighted(seg, overlap)];
          }
        }
      }
      j := j + 1;
    }
    assert segs[..j] == segs;
  }

  /** The source's two tests amount to one: a segment with parsed times is
      kept exactly when its overlap with the group is positive. */
  lemma InGroupIffOverlap(seg: Segment, gStart: real, gEnd: real)
    requires seg.start.Some? && seg.end.Some?
    ensures InGroup(seg, gStart, gEnd) <==> OverlapWith(seg, gStart, gEnd) > 0.0
  {
  }

  /** The kept segments come from the input, each with its overlap as
      weight, which is positive and no longer than either the segment or
      the group; every segment that overlaps the group is kept. */
  lemma {:induction false} GroupWeightsShape(segs: seq<Segment>, gStart: real, gEnd: real)
    ensures var ws := GroupWeights(segs, gStart, gEnd);
      && |ws| <= |segs|
      && forall k :: 0 <= k < |ws| ==>
           ws[k].seg in segs && InGroup(ws[k].seg, gStart, gEnd)
           && ws[k].weight == OverlapWith(ws[k].seg, gStart, gEnd)
           && 0.0 < ws[k].weight
           && ws[k].weight <= ws[k].seg.end.value - ws[k].seg.start.value
           && ws[k].weight <= gEnd - gStart
    ensures forall k :: 0 <= k < |segs| && InGroup(segs[k], gStart, gEnd) ==>
      Weighted(segs[k], OverlapWith(segs[k], gStart, gEnd)) in GroupWeights(segs, gStart, gEnd)
    decreases |segs|
  {
    if segs != [] {
      var init := segs[..|segs| - 1];
      GroupWeightsShape(init, gStart, gEnd);
      var ws := GroupWeights(segs, gStart, gEnd);
      var wi := GroupWeights(init, gStart, gEnd);
      forall k | 0 <= k < |ws| ensures ws[k].seg in segs {
        if k < |wi| {
          assert ws[k] == wi[k];
          assert wi[k].seg in init;
        }
      }
      forall k | 0 <= k < |segs| && InGroup(segs[k], gStart, gEnd)
        ensures Weighted(segs[k], OverlapWith(segs[k], gStart, gEnd)) in ws
      {
        if k < |segs| - 1 {
          assert segs[k] == init[k];
          assert Weighted(segs[k], OverlapWith(segs[k], gStart, gEnd)) in wi;
        } else {
          assert ws[|ws| - 1] == Weighted(segs[k], OverlapWith(segs[k], gStart, gEnd));
        }
      }
    }
  }

  // ------------------------------------------------------------------ mood

  datatype EmoKey = Hap | Ang | Sad | Neu | Other

  /** The position of a bucket in the emotion table, which is also the
      order `max` scans it in. */
  function Rank(k: EmoKey): nat
  {
    match k
    case Hap => 0
    case Ang => 1
    case Sad => 2
    case Neu => 3
    case Other => 4
  }

  /** The bucket of an emotion label: its lower-cased prefix. */
  function Bucket(emotion: Option<string>): EmoKey
  {
    var name := if emotion.Some? then Lower(emotion.value) else "";
    if StartsWith(name, "hap") then Hap
    else if StartsWith(name, "ang") then Ang
    else if StartsWith(name, "sad") then Sad
    else if StartsWith(name, "neu") then Neu
    else Other
  }

  /** Seconds of each emotion bucket. */
  datatype EmoDur = EmoDur(hap: real, ang: real, sad: real, neu: real, other: real)

  function Dur(d: EmoDur, k: EmoKey): real
  {
    match k
    case Hap => d.hap
    case Ang => d.ang
    case Sad => d.sad
    case Neu => d.neu
    case Other => d.other
  }

  function AddDur(d: EmoDur, k: EmoKey, w: real): (r: EmoDur)
    ensures Dur(r, k) == Dur(d, k) + w
    ensures forall j :: j != k ==> Dur(r, j) == Dur(d, j)
  {
    match k
    case Hap => d.(hap := d.hap + w)
    case Ang => d.(ang := d.ang + w)
    case Sad => d.(sad := d.sad + w)
    case Neu => d.(neu := d.neu + w)
    case Other => d.(other := d.other + w)
  }

  function EmoTotals(ws: seq<Weighted>): EmoDur
  {
    if ws == [] then EmoDur(0.0, 0.0, 0.0, 0.0, 0.0)
    else
      var last := ws[|ws| - 1];
      AddDur(EmoTotals(ws[..|ws| - 1]), Bucket(last.seg.emotion), last.weight)
  }

  function Total(d: EmoDur): real { d.hap + d.ang + d.sad + d.neu + d.other }

  /** The positive "bpm_est" feature of a segment, if it has one. */
  function PositiveBpm(seg: Segment): Option<real>
  {
    if "bpm_est" in seg.features && seg.features["bpm_est"].Num? && seg.features["bpm_est"].n > 0.0
    then Some(seg.features["bpm_est"].n)
    else None
  }

  /** The weighted sum of positive tempos and the weight behind it. */
  function BpmSum(ws: seq<Weighted>): real
  {
    if ws == [] then 0.0
    else
      var last := ws[|ws| - 1];
      var b := PositiveBpm(last.seg);
      BpmSum(ws[..|ws| - 1]) + (if b.Some? then b.value * last.weight else 0.0)
  }

  function BpmWeight(ws: seq<Weighted>): real
  {
    if ws == [] then 0.0
    else
      var last := ws[|ws| - 1];
      BpmWeight(ws[..|ws| - 1]) + (if PositiveBpm(last.seg).Some? then last.weight else 0.0)
  }

  /** A tag counter, in the insertion order of its keys. */
  type Counter = seq<(string, real)>

  function Bump(counter: Counter, key: string, w: real): (r: Counter)
    ensures |r| == |counter| || r == counter + [(key, w)]
    ensures forall i :: 0 <= i < |counter| ==> r[i].0 == counter[i].0
  {
    if counter == [] then [(key, w)]
    else if counter[0].0 == key then [(key, counter[0].1 + w)] + counter[1..]
    else [counter[0]] + Bump(counter[1..], key, w)
  }

  /** A non-empty text tag stored under `tagKey`. */
  function TextTag(seg: Segment, tagKey: string): Option<string>
  {
    if tagKey in seg.features && seg.features[tagKey].Text? && seg.features[tagKey].t != ""
    then Some(seg.features[tagKey].t)
    else None
  }

  function TagCounts(ws: seq<Weighted>, tagKey: string): Counter
  {
    if ws == [] then []
    else
      var last := ws[|ws| - 1];
      var tag := TextTag(last.seg, tagKey);
      var c := TagCounts(ws[..|ws| - 1], tagKey);
      if tag.Some? then Bump(c, tag.value, last.weight) else c
  }

  function ArgMaxFrom(counter: Counter, best: nat, i: nat): (r: nat)
    requires best < |counter| && best < i <= |counter|
    ensures r < |counter|
    decreases |counter| - i
  {
    if i == |counter| then best
    else if counter[i].1 > counter[best].1 then ArgMaxFrom(counter, i, i + 1)
    else ArgMaxFrom(counter, best, i + 1)
  }

  /** The label with the largest weight; the first such on ties. */
  function TopLabel(counter: Counter): Option<string>
  {
    if counter == [] then None else Some(counter[ArgMaxFrom(counter, 0, 1)].0)
  }

  lemma {:induction false} ArgMaxFromIsFirstMax(counter: Counter, best: nat, i: nat)
    requires best < |counter| && best < i <= |counter|
    requires forall j :: 0 <= j < i ==> counter[j].1 <= counter[best].1
    requires forall j :: 0 <= j < best ==> counter[j].1 < counter[best].1
    ensures var r := ArgMaxFrom(counter, best, i);
      && (forall j :: 0 <= j < |counter| ==> counter[j].1 <= counter[r].1)
      && (forall j :: 0 <= j < r ==> counter[j].1 < counter[r].1)
    decreases |counter| - i
  {
    if i < |counter| {
      if counter[i].1 > counter[best].1 {
        ArgMaxFromIsFirstMax(counter, i, i + 1);
      } else {
        ArgMaxFromIsFirstMax(counter, best, i + 1);
      }
    }
  }

  /** `_pick_top_label`: no label for an empty counter; otherwise a label
      whose weight is the largest and strictly larger than every label
      inserted before it. */
  lemma TopLabelIsFirstMax(counter: Counter)
    ensures TopLabel(counter).None? <==> counter == []
    ensures counter != [] ==> exists r :: (0 <= r < |counter| && TopLabel(counter) == Some(counter[r].0)
      && (forall j :: 0 <= j < |counter| ==> counter[j].1 <= counter[r].1)
      && (forall j :: 0 <= j < r ==> counter[j].1 < counter[r].1))
  {
    if counter != [] {
      ArgMaxFromIsFirstMax(counter, 0, 1);
      var r := ArgMaxFrom(counter, 0, 1);
      assert TopLabel(counter) == Some(counter[r].0);
    }
  }

  /** `primary`: the first bucket, in table order, with the largest time. */
  function Primary(d: EmoDur): (r: EmoKey)
    ensures forall k :: Dur(d, k) <= Dur(d, r)
    ensures forall k :: Rank(k) < Rank(r) ==> Dur(d, k) < Dur(d, r)
  {
    if d.hap >= d.ang && d.hap >= d.sad && d.hap >= d.neu && d.hap >= d.other then Hap
    else if d.ang >= d.sad && d.ang >= d.neu && d.ang >= d.other then Ang
    else if d.sad >= d.neu && d.sad >= d.other then Sad
    else if d.neu >= d.other then Neu
    else Other
  }

  datatype MoodCore = Uplifting | Hopeful | Steady | Unobtrusive | Serious | Somber
  datatype Nuance = TensionGentle | TensionSubtle | WarmthQuiet | PositiveLight | Reflective | Melancholy
  datatype Tempo = Upbeat | MidTempo | Slower

  /** The decisions behind a group's prompt. */
  datatype Mood = Mood(
    core: MoodCore,
    nuance: seq<Nuance>,
    tempo: Tempo,
    avgBpm: real,
    arrangement: Option<string>,
    rhythm: Option<string>)

  /** The emotion ratios: the bucket times over their total, which counts
      as 1 when it is zero. */
  function Ratio(d: EmoDur, k: EmoKey): real
  {
    var total := if Total(d) == 0.0 then 1.0 else Total(d);
    Dur(d, k) / total
  }

  function Bright(d: EmoDur): real { Ratio(d, Hap) + Ratio(d, Neu) * 0.7 }

  function CoreOf(d: EmoDur): MoodCore
  {
    var bright := Bright(d);
    var neg := Max(Ratio(d, Ang), Ratio(d, Sad));
    if neg >= 0.6 then Serious
    else if neg >= 0.4 && bright < 0.5 then Somber
    else if bright >= 0.65 then Uplifting
    else if bright >= 0.45 then Hopeful
    else if bright >= 0.25 then Steady
    else Unobtrusive
  }

  function NuanceOf(d: EmoDur): seq<Nuance>
  {
    var primary := Primary(d);
    var ang, hap, sad := Ratio(d, Ang), Ratio(d, Hap), Ratio(d, Sad);
    (if ang > 0.15 && primary != Ang then [if ang >= 0.3 then TensionGentle else TensionSubtle] else [])
    + (if hap > 0.15 && primary != Hap then [if hap >= 0.3 then WarmthQuiet else PositiveLight] else [])
    + (if sad > 0.15 && primary != Sad then [if sad >= 0.3 then Reflective else Melancholy] else [])
  }

  function TempoOf(d: EmoDur): Tempo
  {
    var bright := Bright(d);
    if bright >= 0.55 then Upbeat else if bright >= 0.35 then MidTempo else Slower
  }

  function AvgBpm(sum: real, weight: real): real
  {
    if weight > 0.0 then sum / weight else DEFAULT_BPM
  }

  /** The mood decided from a group's weighted segments. */
  function MoodOf(ws: seq<Weighted>): Mood
  {
    var d := EmoTotals(ws);
    Mood(CoreOf(d), NuanceOf(d), TempoOf(d), AvgBpm(BpmSum(ws), BpmWeight(ws)),
         TopLabel(TagCounts(ws, "arrangement_tag")), TopLabel(TagCounts(ws, "rhythm_tag")))
  }

  /** `_analyze_mood`: one accumulation loop over the weighted segments, then
      the decisions. */
  method AnalyzeMood(ws: seq<Weighted>) returns (m: Mood)
    ensures m == MoodOf(ws)
  {
    var emo := EmoDur(0.0, 0.0, 0.0, 0.0, 0.0);
    var bpmSum, bpmW := 0.0, 0.0;
    var arrCounts: Counter := [];
    var rhythmCounts: Counter := [];
    var i := 0;
    while i < |ws|
      invariant 0 <= i <= |ws|
      invariant emo == EmoTotals(ws[..i])
      invariant bpmSum == BpmSum(ws[..i]) && bpmW == BpmWeight(ws[..i])
      invariant arrCounts == TagCounts(ws[..i], "arrangement_tag")
      invariant rhythmCounts == TagCounts(ws[..i], "rhythm_tag")
    {
      var seg, w := ws[i].seg, ws[i].weight;
      assert ws[..i + 1][..i] == ws[..i];
      emo := AddDur(emo, Bucket(seg.emotion), w);
      var bpm := PositiveBpm(seg);
      if bpm.Some? {
        bpmSum := bpmSum + bpm.value * w;
        bpmW := bpmW + w;
      }
      var arr := TextTag(seg, "arrangement_tag");
      if arr.Some? {
        arrCounts := Bump(arrCounts, arr.value, w);
      }
      var rhythm := TextTag(seg, "rhythm_tag");
      if rhythm.Some? {
        rhythmCounts := Bump(rhythmCounts, rhythm.value, w);
      }
      i := i + 1;
    }
    assert ws[..i] == ws;
    m := MoodOf(ws);
  }

  /** A dominant negative emotion always wins: when anger or sadness holds at
      least 60% of the weighted time the core mood is the serious one, and
      the somber one exactly when the stronger of the two holds 40-60% and
      the bright share is under one half. */
  lemma NegativeOverride(d: EmoDur)
    ensures Max(Ratio(d, Ang), Ratio(d, Sad)) >= 0.6 ==> CoreOf(d) == Serious
    ensures CoreOf(d) == Somber <==>
      0.4 <= Max(Ratio(d, Ang), Ratio(d, Sad)) < 0.6 && Bright(d) < 0.5
    ensures CoreOf(d) == Serious <==> Max(Ratio(d, Ang), Ratio(d, Sad)) >= 0.6
  {
  }

  /** With positive weights the bucket times add up to the weighted time,
      and the ratios to 1. */
  lemma {:induction false} EmoTotalsSum(ws: seq<Weighted>)
    ensures Total(EmoTotals(ws)) == SumWeights(ws)
    decreases |ws|
  {
    if ws != [] {
      var last := ws[|ws| - 1];
      EmoTotalsSum(ws[..|ws| - 1]);
      TotalAddDur(EmoTotals(ws[..|ws| - 1]), Bucket(last.seg.emotion), last.weight);
    }
  }

  lemma TotalAddDur(d: EmoDur, k: EmoKey, w: real)
    ensures Total(AddDur(d, k, w)) == Total(d) + w
  {
  }

  function SumWeights(ws: seq<Weighted>): real
  {
    if ws == [] then 0.0 else SumWeights(ws[..|ws| - 1]) + ws[|ws| - 1].weight
  }

  lemma RatiosSumToOne(d: EmoDur)
    requires Total(d) != 0.0
    ensures Ratio(d, Hap) + Ratio(d, Ang) + Ratio(d, Sad) + Ratio(d, Neu) + Ratio(d, Other) == 1.0
  {
    var t := Total(d);
    assert d.hap / t + d.ang / t + d.sad / t + d.neu / t + d.other / t == (d.hap + d.ang + d.sad + d.neu + d.other) / t;
  }

  /** Every positive tempo of the group lies in [lo, hi]. */
  ghost predicate BpmsWithin(ws: seq<Weighted>, lo: real, hi: real)
  {
    forall k :: 0 <= k < |ws| && PositiveBpm(ws[k].seg).Some? ==>
      lo <= PositiveBpm(ws[k].seg).value <= hi
  }

  lemma MulMono(a: real, b: real, w: real)
    requires a <= b && w >= 0.0
    ensures a * w <= b * w
  {
  }

  /** A weighted sum of values in [lo, hi] lies between lo and hi times the
      total weight. */
  predicate WeightedWithin(sum: real, weight: real, lo: real, hi: real)
  {
    lo * weight <= sum <= hi * weight
  }

  lemma BpmStep(si: real, wi: real, b: real, w: real, lo: real, hi: real)
    requires wi >= 0.0 && lo * wi <= si <= hi * wi
    requires lo <= b <= hi && w > 0.0
    ensures lo * (wi + w) <= si + b * w <= hi * (wi + w)
  {
    MulMono(lo, b, w);
    MulMono(b, hi, w);
    assert lo * (wi + w) == lo * wi + lo * w;
    assert hi * (wi + w) == hi * wi + hi * w;
  }

  lemma {:induction false} BpmSumBounds(ws: seq<Weighted>, lo: real, hi: real)
    requires forall k :: 0 <= k < |ws| ==> ws[k].weight > 0.0
    requires BpmsWithin(ws, lo, hi)
    ensures BpmWeight(ws) >= 0.0
    ensures WeightedWithin(BpmSum(ws), BpmWeight(ws), lo, hi)
    decreases |ws|
  {
    if ws != [] {
      var init := ws[..|ws| - 1];
      var last := ws[|ws| - 1];
      assert forall k :: 0 <= k < |init| ==> init[k] == ws[k];
      BpmSumBounds(init, lo, hi);
      if PositiveBpm(last.seg).Some? {
        BpmStep(BpmSum(init), BpmWeight(init), PositiveBpm(last.seg).value, last.weight, lo, hi);
      }
    }
  }

  lemma MulStrict(a: real, b: real, w: real)
    requires a < b && w > 0.0
    ensures a * w < b * w
  {
  }

  lemma DivBounds(s: real, w: real, lo: real, hi: real)
    requires w > 0.0 && lo * w <= s <= hi * w
    ensures lo <= s / w <= hi
  {
    var q := s / w;
    assert q * w == s;
    if q < lo {
      MulStrict(q, lo, w);
    }
    if hi < q {
      MulStrict(hi, q, w);
    }
  }

  lemma AvgBpmBounds(sum: real, weight: real, lo: real, hi: real)
    requires weight > 0.0 && WeightedWithin(sum, weight, lo, hi)
    ensures lo <= AvgBpm(sum, weight) <= hi
  {
    DivBounds(sum, weight, lo, hi);
  }

  /** `avg_bpm` is 100 when no segment carries a positive tempo ... */
  lemma AvgBpmDefault(ws: seq<Weighted>)
    requires BpmWeight(ws) == 0.0
    ensures MoodOf(ws).avgBpm == DEFAULT_BPM
  {
  }

  /** ... and otherwise a weighted mean of those tempos, so it lies between
      the smallest and the largest of them. */
  lemma AvgBpmIsWeightedMean(ws: seq<Weighted>, lo: real, hi: real)
    requires forall k :: 0 <= k < |ws| ==> ws[k].weight > 0.0
    requires BpmsWithin(ws, lo, hi)
    requires BpmWeight(ws) > 0.0
    ensures lo <= AvgBpm(BpmSum(ws), BpmWeight(ws)) <= hi
  {
    BpmSumBounds(ws, lo, hi);
    AvgBpmBounds(BpmSum(ws), BpmWeight(ws), lo, hi);
  }

  // --------------------------------------------------------- per group plan

  /** `max(group length - margin, 4)`: the music length requested for a
      group, never under 4 seconds. */
  function TargetLength(gStart: real, gEnd: real): (r: real)
    ensures r >= MIN_BGM_LEN_SEC && r >= gEnd - gStart - BGM_MARGIN_SEC
    ensures r == MIN_BGM_LEN_SEC || r == gEnd - gStart - BGM_MARGIN_SEC
  {
    Max(gEnd - gStart - BGM_MARGIN_SEC, MIN_BGM_LEN_SEC)
  }

  /** The placeholder used for a group without segments. */
  function DummySegment(): Segment
  {
    Segment(None, None, "", None, Some("neu"), None, map[])
  }

  /** A group with no overlapping segment is scored as one neutral segment
      of the group's length: a positive-length group then gets the
      uplifting core mood, no nuance, the upbeat tempo and 100 BPM. */
  lemma EmptyGroupMood(ws: seq<Weighted>, gStart: real, gEnd: real)
    requires gEnd > gStart && ws == [Weighted(DummySegment(), gEnd - gStart)]
    ensures MoodOf(ws) == Mood(Uplifting, [], Upbeat, DEFAULT_BPM, None, None)
  {
    assert ws[..|ws| - 1] == [];
    assert !StartsWith("neu", "hap") && !StartsWith("neu", "ang") && !StartsWith("neu", "sad") by {
      assert "neu"[..3][0] == 'n';
    }
    assert StartsWith("neu", "neu");
    assert Bucket(Some("neu")) == Neu;
    var zero := EmoDur(0.0, 0.0, 0.0, 0.0, 0.0);
    assert EmoTotals([]) == zero;
    var d := EmoTotals(ws);
    assert d == AddDur(EmoTotals(ws[..|ws| - 1]), Bucket(ws[|ws| - 1].seg.emotion), ws[|ws| - 1].weight);
    var g := gEnd - gStart;
    assert d == EmoDur(0.0, 0.0, 0.0, g, 0.0);
    assert Total(d) == g;
    assert Ratio(d, Neu) == g / g == 1.0;
    assert Ratio(d, Hap) == Ratio(d, Ang) == Ratio(d, Sad) == 0.0;
    assert Bright(d) == 0.7;
    assert PositiveBpm(ws[0].seg).None?;
    assert BpmWeight(ws) == 0.0;
    assert TextTag(ws[0].seg, "arrangement_tag").None? && TextTag(ws[0].seg, "rhythm_tag").None?;
    assert TagCounts(ws, "arrangement_tag") == TagCounts([], "arrangement_tag") == [];
    assert TagCounts(ws, "rhythm_tag") == TagCounts([], "rhythm_tag") == [];
  }

  datatype GroupPlan = GroupPlan(group: Interval, mood: Mood, targetLength: real)

  /** The plan for one group: its mood from the overlapping segments (or
      the neutral placeholder when there are none) and its music length. */
  function PlanFor(shots: seq<Shot>, g: Interval): GroupPlan
  {
    GroupPlan(g, MoodOf(MoodInput(shots, g)), TargetLength(g.s, g.e))
  }

  /** The weighted segments a group's mood is scored on: those overlapping
      it, or one neutral placeholder over the whole group when none does. */
  function MoodInput(shots: seq<Shot>, g: Interval): seq<Weighted>
  {
    var ws := GroupWeights(ShotSegments(shots), g.s, g.e);
    if ws == [] then [Weighted(DummySegment(), g.e - g.s)] else ws
  }

  /** The plans of a list of groups, group by group. */
  function PlansFor(shots: seq<Shot>, groups: seq<Interval>): seq<GroupPlan>
  {
    seq(|groups|, k requires 0 <= k < |groups| => PlanFor(shots, groups[k]))
  }

  lemma PlansForSnoc(shots: seq<Shot>, groups: seq<Interval>, i: nat)
    requires i < |groups|
    ensures PlansFor(shots, groups[..i + 1]) == PlansFor(shots, groups[..i]) + [PlanFor(shots, groups[i])]
  {
    var a, b := PlansFor(shots, groups[..i + 1]), PlansFor(shots, groups[..i]) + [PlanFor(shots, groups[i])];
    assert forall k :: 0 <= k < i + 1 ==> a[k] == b[k];
  }

  /** The planning of `main`: group the shots, then plan every group. */
  method PlanBgm(table: ShotTable) returns (plans: seq<GroupPlan>)
    ensures plans == PlansFor(CollectShots(table), BgmGroups(CollectShots(table), MIN_BGM_WINDOW_SEC))
  {
    var shots := CollectShots(table);
    var groups := BuildBgmGroups(shots, MIN_BGM_WINDOW_SEC);
    plans := PlanGroups(shots, groups);
  }

  /** The loop over the groups, deciding each group's mood and music
      length. */
  method PlanGroups(shots: seq<Shot>, groups: seq<Interval>) returns (plans: seq<GroupPlan>)
    ensures plans == PlansFor(shots, groups)
  {
    plans := [];
    var i := 0;
    while i < |groups|
      invariant 0 <= i <= |groups|
      invariant plans == PlansFor(shots, groups[..i])
    {
      var p := PlanGroup(shots, groups[i]);
      PlansForSnoc(shots, groups, i);
      plans := plans + [p];
      i := i + 1;
    }
    assert groups[..i] == groups;
  }

  /** One pass of the planning loop: collect the group's segments, score
      the mood and size the music. */
  method PlanGroup(shots: seq<Shot>, g: Interval) returns (p: GroupPlan)
    ensures p == PlanFor(shots, g)
  {
    var found := CollectSegmentsForGroup(shots, g.s, g.e);
    var ws := if found == [] then [Weighted(DummySegment(), g.e - g.s)] else found;
    assert ws == MoodInput(shots, g);
    var mood := AnalyzeMood(ws);
    var targetLen := Max((g.e - g.s) - BGM_MARGIN_SEC, MIN_BGM_LEN_SEC);
    assert targetLen == TargetLength(g.s, g.e);
    p := GroupPlan(g, mood, targetLen);
  }
}
