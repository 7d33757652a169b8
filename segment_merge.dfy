/** main.py, `_merge_segments_into_shots`: the transcript segments are
    attached to the shots of the analysis document. Each segment with valid
    times goes to the first shot, in key order, whose span contains its
    midpoint; a segment no shot contains is dropped. The document also gets
    a summary of the transcription. */
module SegmentMerge {
  import opened Common

  /** The "whisper" summary written into the document. */
  datatype WhisperInfo = WhisperInfo(fullText: string, language: string, numSegments: nat)

  /** The times of a segment the merge keeps: both parse and end > start. */
  function ValidTimes(seg: Segment): Option<(real, real)>
  {
    if seg.start.Some? && seg.end.Some? && seg.end.value > seg.start.value
    then Some((seg.start.value, seg.end.value))
    else None
  }

  function Midpoint(s: real, e: real): real { 0.5 * (s + e) }

  predicate ContainsMid(table: ShotTable, k: nat, mid: real)
    requires k < |table|
  {
    table[k].Some? && table[k].value.start <= mid <= table[k].value.end
  }

  /** The first shot, from key `from` on, whose span contains `mid`. */
  function TargetFrom(table: ShotTable, mid: real, from: nat): (r: Option<nat>)
    requires from <= |table|
    ensures r.Some? ==>
      && from <= r.value < |table| && ContainsMid(table, r.value, mid)
      && forall j :: from <= j < r.value ==> !ContainsMid(table, j, mid)
    ensures r.None? ==> forall j :: from <= j < |table| ==> !ContainsMid(table, j, mid)
    decreases |table| - from
  {
    if from == |table| then None
    else if ContainsMid(table, from, mid) then Some(from)
    else TargetFrom(table, mid, from + 1)
  }

  /** The shot a segment is attached to, if any. */
  function Target(table: ShotTable, seg: Segment): Option<nat>
  {
    var t := ValidTimes(seg);
    if t.None? then None else TargetFrom(table, Midpoint(t.value.0, t.value.1), 0)
  }

  /** The entry stored in the shot: the segment's fields, its language
      defaulting to the overall one. */
  function Entry(seg: Segment, language: string): Segment
  {
    seg.(language := if seg.language.Some? then seg.language else Some(language))
  }

  /** Two tables with the same shot spans (segments may differ). */
  ghost predicate SameSpans(a: ShotTable, b: ShotTable)
  {
    |a| == |b| &&
    forall k :: 0 <= k < |a| ==>
      a[k].Some? == b[k].Some? &&
      (a[k].Some? ==>
         && a[k].value.start == b[k].value.start && a[k].value.end == b[k].value.end
         && a[k].value.probability == b[k].value.probability)
  }

  /** The document's shots after the first segments have been merged. */
  function Merged(table: ShotTable, segs: seq<Segment>, language: string): seq<Option<Shot>>
  {
    if segs == [] then table
    else
      var t := Merged(table, segs[..|segs| - 1], language);
      var seg := segs[|segs| - 1];
      var k := Target(table, seg);
      if k.Some? && k.value < |t| && t[k.value].Some? then
        t[k.value := Some(t[k.value].value.(segments := t[k.value].value.segments + [Entry(seg, language)]))]
      else t
  }

  /** The segments that end up under shot `k`, in input order. */
  function AttachedTo(table: ShotTable, segs: seq<Segment>, language: string, k: nat): seq<Segment>
  {
    if segs == [] then []
    else
      var seg := segs[|segs| - 1];
      AttachedTo(table, segs[..|segs| - 1], language, k)
        + (if Target(table, seg) == Some(k) then [Entry(seg, language)] else [])
  }

  class ShotMeta {
    var shots: ShotTable
    var whisper: Option<WhisperInfo>

    constructor(shots: ShotTable)
      ensures this.shots == shots && whisper == None
    {
      this.shots := shots;
      whisper := None;
    }

    /** `_merge_segments_into_shots`. */
    method MergeSegments(segments: seq<Segment>, fullText: string, language: string)
      modifies this
      ensures shots == Merged(old(shots), segments, language)
      ensures whisper == Some(WhisperInfo(fullText, language, |segments|))
    {
      ghost var table := shots;
      var i := 0;
      while i < |segments|
        invariant 0 <= i <= |segments|
        invariant shots == Merged(table, segments[..i], language)
        invariant SameSpans(table, shots)
      {
        var seg := segments[i];
        assert segments[..i + 1][..i] == segments[..i];
        MergedSpans(table, segments[..i + 1], language);
        i := i + 1;
        if seg.start.None? || seg.end.None? {
          continue;
        }
        var s, e := seg.start.value, seg.end.value;
        if e <= s {
          continue;
        }
        var mid := 0.5 * (s + e);
        var k := 0;
        while k < |shots|
          invariant 0 <= k <= |shots| && SameSpans(table, shots)
          invariant forall j :: 0 <= j < k ==> !ContainsMid(table, j, mid)
        {
          if shots[k].Some? {
            var shot := shots[k].value;
            if shot.start <= mid <= shot.end {
              assert TargetFrom(table, mid, k) == Some(k);
              shots := shots[k := Some(shot.(segments := shot.segments + [Entry(seg, language)]))];
              break;
            }
          }
          k := k + 1;
        }
      }
      assert segments[..i] == segments;
      whisper := Some(WhisperInfo(fullText, language, |segments|));
    }
  }

  lemma {:induction false} TargetFromSkips(table: ShotTable, mid: real, k: nat)
    requires k <= |table|
    requires forall j :: 0 <= j < k ==> !ContainsMid(table, j, mid)
    ensures TargetFrom(table, mid, 0) == TargetFrom(table, mid, k)
    decreases k
  {
    if k > 0 {
      TargetFromSkips(table, mid, k - 1);
    }
  }

  /** Merging never adds, removes or moves a shot. */
  lemma {:induction false} MergedSpans(table: ShotTable, segs: seq<Segment>, language: string)
    ensures SameSpans(table, Merged(table, segs, language))
    decreases |segs|
  {
    if segs != [] {
      MergedSpans(table, segs[..|segs| - 1], language);
    }
  }

  /** Every shot ends up with its own segments followed by exactly the
      segments attached to it, in input order. */
  lemma {:induction false} MergedSegments(table: ShotTable, segs: seq<Segment>, language: string, k: nat)
    requires k < |table| && table[k].Some?
    ensures |Merged(table, segs, language)| == |table|
    ensures Merged(table, segs, language)[k].Some?
    ensures Merged(table, segs, language)[k].value.segments
      == table[k].value.segments + AttachedTo(table, segs, language, k)
    decreases |segs|
  {
    MergedSpans(table, segs, language);
    if segs != [] {
      var init := segs[..|segs| - 1];
      MergedSegments(table, init, language, k);
      MergedSpans(table, init, language);
    }
  }

  /** The attachment rule: a segment goes to shot k exactly when its times
      are valid, shot k contains its midpoint and no earlier shot does; so
      it goes to at most one shot, and a segment whose midpoint no shot
      contains goes nowhere. */
  lemma TargetSpec(table: ShotTable, seg: Segment, k: nat)
    requires k < |table|
    ensures Target(table, seg) == Some(k) <==>
      && ValidTimes(seg).Some?
      && var mid := Midpoint(ValidTimes(seg).value.0, ValidTimes(seg).value.1);
         ContainsMid(table, k, mid) && forall j :: 0 <= j < k ==> !ContainsMid(table, j, mid)
  {
    if ValidTimes(seg).Some? {
      var mid := Midpoint(ValidTimes(seg).value.0, ValidTimes(seg).value.1);
      if ContainsMid(table, k, mid) && forall j :: 0 <= j < k ==> !ContainsMid(table, j, mid) {
        TargetFromSkips(table, mid, k);
      }
    }
  }

  /** The number of segments that have a target shot. */
  function TargetedCount(table: ShotTable, segs: seq<Segment>): nat
  {
    if segs == [] then 0
    else TargetedCount(table, segs[..|segs| - 1]) + (if Target(table, segs[|segs| - 1]).Some? then 1 else 0)
  }

  /** The number of entries attached to the shots before key `n`. */
  function AttachedTotal(table: ShotTable, segs: seq<Segment>, language: string, n: nat): nat
  {
    if n == 0 then 0 else AttachedTotal(table, segs, language, n - 1) + |AttachedTo(table, segs, language, n - 1)|
  }

  lemma {:induction false} AttachedTotalStep(table: ShotTable, segs: seq<Segment>, language: string, n: nat)
    requires segs != []
    ensures var last := Target(table, segs[|segs| - 1]);
      AttachedTotal(table, segs, language, n)
        == AttachedTotal(table, segs[..|segs| - 1], language, n) + (if last.Some? && last.value < n then 1 else 0)
  {
    if n > 0 {
      var init := segs[..|segs| - 1];
      var t := Target(table, segs[|segs| - 1]);
      AttachedTotalStep(table, segs, language, n - 1);
      assert |AttachedTo(table, segs, language, n - 1)|
        == |AttachedTo(table, init, language, n - 1)| + (if t == Some(n - 1) then 1 else 0);
    }
  }

  /** Every segment with a target is attached exactly once: the shots
      receive as many entries in total as there are such segments. */
  lemma {:induction false} EachAttachedOnce(table: ShotTable, segs: seq<Segment>, language: string)
    ensures AttachedTotal(table, segs, language, |table|) == TargetedCount(table, segs)
    decreases |segs|
  {
    if segs != [] {
      EachAttachedOnce(table, segs[..|segs| - 1], language);
      AttachedTotalStep(table, segs, language, |table|);
    } else {
      AttachedTotalEmpty(table, language, |table|);
    }
  }

  lemma {:induction false} AttachedTotalEmpty(table: ShotTable, language: string, n: nat)
    ensures AttachedTotal(table, [], language, n) == 0
  {
    if n > 0 {
      AttachedTotalEmpty(table, language, n - 1);
    }
  }

  /** Every attached entry is the entry of an input segment that targets
      the shot. */
  lemma {:induction false} AttachedFrom(table: ShotTable, segs: seq<Segment>, language: string, k: nat, x: Segment)
    requires x in AttachedTo(table, segs, language, k)
    ensures exists j :: 0 <= j < |segs| && Entry(segs[j], language) == x && Target(table, segs[j]) == Some(k)
    decreases |segs|
  {
    var init := segs[..|segs| - 1];
    if x in AttachedTo(table, init, language, k) {
      AttachedFrom(table, init, language, k, x);
      var j :| 0 <= j < |init| && Entry(init[j], language) == x && Target(table, init[j]) == Some(k);
      assert segs[j] == init[j];
    }
  }
}
