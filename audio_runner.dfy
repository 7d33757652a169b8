/** audio_librosa_runner.py: every transcript segment long enough to
    measure gets the audio features of its own window of the recording,
    together with its speech rate in words per second. The audio samples
    and the measuring of a window are not modelled: a window is a pair of
    sample indices and `measure` gives its statistics. */
module AudioRunner {
  import opened Common
  import AudioFeatures

  /** Python's `int()` on a float: truncation toward zero. */
  function Trunc(x: real): int
  {
    if x >= 0.0 then x.Floor else -((-x).Floor)
  }

  // ------------------------------------------------------- speech rate

  /** A word of `str.split()` starts at `i`. */
  predicate WordStart(s: string, i: nat)
    requires i < |s|
  {
    !IsSpace(s[i]) && (i == 0 || IsSpace(s[i - 1]))
  }

  /** `len(s.split())`: the number of maximal runs of non-space
      characters. */
  function Words(s: string): nat
  {
    if s == [] then 0
    else Words(s[..|s| - 1]) + (if WordStart(s, |s| - 1) then 1 else 0)
  }

  /** `_words_per_sec`. */
  function WordsPerSec(text: string, duration: real): real
  {
    if duration <= 0.0 then 0.0
    else if Strip(text) == [] then 0.0
    else Words(Strip(text)) as real / duration
  }

  /** A text has no word exactly when it is all whitespace. */
  lemma {:induction false} WordsZero(s: string)
    ensures Words(s) == 0 <==> forall i :: 0 <= i < |s| ==> IsSpace(s[i])
    decreases |s|
  {
    if s != [] {
      var init := s[..|s| - 1];
      WordsZero(init);
      assert forall i :: 0 <= i < |init| ==> init[i] == s[i];
      if !IsSpace(s[|s| - 1]) && Words(init) != 0 {
        var i :| 0 <= i < |init| && !IsSpace(init[i]);
        assert !IsSpace(s[i]);
      }
    }
  }

  /** Words are separated by whitespace, so there are at most half as many
      (rounded up) as characters. */
  lemma {:induction false} WordsBound(s: string)
    ensures 2 * Words(s) <= |s| + 1
    ensures s != [] && IsSpace(s[|s| - 1]) ==> 2 * Words(s) <= |s|
    decreases |s|
  {
    if s != [] {
      var init := s[..|s| - 1];
      WordsBound(init);
      if |s| >= 2 {
        assert init[|init| - 1] == s[|s| - 2];
      }
    }
  }

  /** The rate is zero for a non-positive duration or a blank text, and
      otherwise the positive word count over the duration. */
  lemma WordsPerSecSpec(text: string, duration: real)
    ensures WordsPerSec(text, duration) >= 0.0
    ensures duration <= 0.0 || Strip(text) == [] <==> WordsPerSec(text, duration) == 0.0
    ensures duration > 0.0 && Strip(text) != [] ==>
      Words(Strip(text)) >= 1 && WordsPerSec(text, duration) * duration == Words(Strip(text)) as real
  {
    if duration > 0.0 && Strip(text) != [] {
      WordsZero(Strip(text));
      var w := Words(Strip(text)) as real;
      assert w / duration > 0.0;
      assert (w / duration) * duration == w;
    }
  }

  // ------------------------------------------------------------ windows

  /** `int(max(s * sr, 0))`: the first sample of a window. */
  function StartIndex(s: real, sr: int): int
  {
    Trunc(Max(s * sr as real, 0.0))
  }

  /** `int(min(e * sr, len(y)))`: the sample after a window. */
  function EndIndex(e: real, sr: int, audioLen: nat): int
  {
    Trunc(Min(e * sr as real, audioLen as real))
  }

  /** The sample window `[startIdx, endIdx)` of a segment, or `None` where
      the loop skips it: unparsable times, `end <= start`, an empty window
      after clamping to the audio, or fewer samples than the minimum. */
  function Window(seg: Segment, audioLen: nat, sr: int, minSamples: int): Option<(int, int)>
  {
    if seg.start.None? || seg.end.None? then None
    else
      var s, e := seg.start.value, seg.end.value;
      if e <= s then None
      else
        var startIdx := StartIndex(s, sr);
        var endIdx := EndIndex(e, sr, audioLen);
        if endIdx <= startIdx then None
        else if endIdx - startIdx < minSamples then None
        else Some((startIdx, endIdx))
  }

  /** The features of one measured segment: its window's statistics and
      tags, given its speech rate over at least a microsecond and its
      emotion score. */
  function SegmentFeatures(seg: Segment, w: (int, int), sr: int, measure: (int, int) -> AudioFeatures.Measurements)
    : map<string, Feature>
    requires seg.start.Some? && seg.end.Some?
  {
    var duration := Max(seg.end.value - seg.start.value, 0.000001);
    AudioFeatures.ExtractAudioFeatures(measure(w.0, w.1), sr, Some(WordsPerSec(seg.text, duration)), seg.emotionScore)
  }

  /** A segment after the loop: its features replaced when it has a
      window, untouched otherwise. */
  function Updated(seg: Segment, audioLen: nat, sr: int, minSamples: int,
                   measure: (int, int) -> AudioFeatures.Measurements): Segment
  {
    var w := Window(seg, audioLen, sr, minSamples);
    if w.None? then seg else seg.(features := SegmentFeatures(seg, w.value, sr, measure))
  }

  /** The list `attach_audio_features_to_segments` returns. */
  function Attached(segs: seq<Segment>, audioLen: nat, sr: int, minSegSec: real,
                    measure: (int, int) -> AudioFeatures.Measurements): seq<Segment>
  {
    if audioLen == 0 then segs
    else seq(|segs|, k requires 0 <= k < |segs| => Updated(segs[k], audioLen, sr, Trunc(minSegSec * sr as real), measure))
  }

  /** The number of segments with a window. */
  function UsedCount(segs: seq<Segment>, audioLen: nat, sr: int, minSamples: int): nat
  {
    if segs == [] then 0
    else
      var used := Window(segs[|segs| - 1], audioLen, sr, minSamples).Some?;
      UsedCount(segs[..|segs| - 1], audioLen, sr, minSamples) + (if used then 1 else 0)
  }

  /** `attach_audio_features_to_segments` after loading the audio: the
      segment dictionaries are updated in place and the number updated is
      returned for the log line. */
  method AttachAudioFeatures(segments: array<Segment>, audioLen: nat, sr: int, minSegSec: real,
                             measure: (int, int) -> AudioFeatures.Measurements)
      returns (nUsed: nat)
    modifies segments
    ensures segments[..] == Attached(old(segments[..]), audioLen, sr, minSegSec, measure)
    ensures nUsed == if audioLen == 0 then 0 else UsedCount(old(segments[..]), audioLen, sr, Trunc(minSegSec * sr as real))
  {
    if audioLen == 0 {
      return 0;
    }
    ghost var segs := segments[..];
    ghost var target := Attached(segs, audioLen, sr, minSegSec, measure);
    nUsed := 0;
    var minSamples := Trunc(minSegSec * sr as real);
    var i := 0;
    while i < segments.Length
      invariant 0 <= i <= segments.Length
      invariant forall k :: 0 <= k < i ==> segments[k] == target[k]
      invariant forall k :: i <= k < segments.Length ==> segments[k] == segs[k]
      invariant nUsed == UsedCount(segs[..i], audioLen, sr, minSamples)
    {
      var seg, used := MeasureSegment(segments[i], audioLen, sr, minSamples, measure);
      TargetAt(segs, audioLen, sr, minSegSec, measure, i, seg);
      UsedCountSnoc(segs, audioLen, sr, minSamples, i, used);
      segments[i] := seg;
      if used {
        nUsed := nUsed + 1;
      }
      i := i + 1;
    }
    assert segs[..i] == segs;
  }

  lemma TargetAt(segs: seq<Segment>, audioLen: nat, sr: int, minSegSec: real,
                 measure: (int, int) -> AudioFeatures.Measurements, i: nat, seg: Segment)
    requires audioLen != 0 && i < |segs|
    requires seg == Updated(segs[i], audioLen, sr, Trunc(minSegSec * sr as real), measure)
    ensures seg == Attached(segs, audioLen, sr, minSegSec, measure)[i]
  {
  }

  lemma UsedCountSnoc(segs: seq<Segment>, audioLen: nat, sr: int, minSamples: int, i: nat, used: bool)
    requires i < |segs| && used == Window(segs[i], audioLen, sr, minSamples).Some?
    ensures UsedCount(segs[..i + 1], audioLen, sr, minSamples)
            == UsedCount(segs[..i], audioLen, sr, minSamples) + (if used then 1 else 0)
  {
    assert segs[..i + 1][..i] == segs[..i];
  }

  /** One pass of the loop: the segment as updated, and whether it was. */
  method MeasureSegment(seg: Segment, audioLen: nat, sr: int, minSamples: int,
                        measure: (int, int) -> AudioFeatures.Measurements)
      returns (updated: Segment, used: bool)
    ensures updated == Updated(seg, audioLen, sr, minSamples, measure)
    ensures used == Window(seg, audioLen, sr, minSamples).Some?
  {
    updated, used := seg, false;
    if seg.start.None? || seg.end.None? {
      return;
    }
    var s, e := seg.start.value, seg.end.value;
    if e <= s {
      return;
    }
    var startIdx := StartIndex(s, sr);
    var endIdx := EndIndex(e, sr, audioLen);
    if endIdx <= startIdx {
      return;
    }
    if endIdx - startIdx < minSamples {
      return;
    }
    var feats := SegmentFeatures(seg, (startIdx, endIdx), sr, measure);
    updated, used := seg.(features := feats), true;
  }

  /** A window lies inside the audio, is non-empty and holds at least the
      minimum number of samples; it exists exactly when the times parse,
      end after start, and the clamped window is long enough. */
  lemma WindowSpec(seg: Segment, audioLen: nat, sr: int, minSamples: int)
    ensures var w := Window(seg, audioLen, sr, minSamples);
      w.Some? ==> 0 <= w.value.0 < w.value.1 <= audioLen && w.value.1 - w.value.0 >= minSamples
    ensures Window(seg, audioLen, sr, minSamples).Some? <==>
      && seg.start.Some? && seg.end.Some? && seg.end.value > seg.start.value
      && var startIdx := StartIndex(seg.start.value, sr);
         var endIdx := EndIndex(seg.end.value, sr, audioLen);
         startIdx < endIdx && endIdx - startIdx >= minSamples
  {
    var w := Window(seg, audioLen, sr, minSamples);
    if w.Some? {
      var x := Min(seg.end.value * sr as real, audioLen as real);
      TruncBelow(x, audioLen);
      TruncNonneg(Max(seg.start.value * sr as real, 0.0));
    }
  }

  lemma TruncNonneg(x: real)
    requires x >= 0.0
    ensures Trunc(x) >= 0
  {
  }

  lemma TruncBelow(x: real, n: nat)
    requires x <= n as real
    ensures Trunc(x) <= n
  {
    if x >= 0.0 {
      assert x.Floor as real <= x;
    }
  }

  /** With no audio no segment has a window, so the early return gives the
      same list the loop would. */
  lemma EmptyAudioNoWindow(seg: Segment, sr: int, minSamples: int)
    ensures Window(seg, 0, sr, minSamples).None?
  {
    WindowSpec(seg, 0, sr, minSamples);
  }

  /** The loop changes nothing but features: a segment without a window is
      returned as it was, and one with a window keeps every other field
      and gets exactly its window's features. */
  lemma AttachedSpec(segs: seq<Segment>, audioLen: nat, sr: int, minSegSec: real,
                     measure: (int, int) -> AudioFeatures.Measurements, k: nat)
    requires k < |segs|
    ensures var r := Attached(segs, audioLen, sr, minSegSec, measure);
      var w := Window(segs[k], audioLen, sr, Trunc(minSegSec * sr as real));
      && |r| == |segs|
      && r[k] == segs[k].(features := r[k].features)
      && (w.None? ==> r[k] == segs[k])
      && (w.Some? ==> r[k].features == SegmentFeatures(segs[k], w.value, sr, measure))
  {
    if audioLen == 0 {
      EmptyAudioNoWindow(segs[k], sr, Trunc(minSegSec * sr as real));
    }
  }

  /** The count is at most the number of segments, and zero with no
      audio. */
  lemma {:induction false} UsedCountBound(segs: seq<Segment>, audioLen: nat, sr: int, minSamples: int)
    ensures UsedCount(segs, audioLen, sr, minSamples) <= |segs|
    ensures audioLen == 0 ==> UsedCount(segs, audioLen, sr, minSamples) == 0
    decreases |segs|
  {
    if segs != [] {
      UsedCountBound(segs[..|segs| - 1], audioLen, sr, minSamples);
      if audioLen == 0 {
        EmptyAudioNoWindow(segs[|segs| - 1], sr, minSamples);
      }
    }
  }
}
