/** subtitle.py: every transcript segment of the cut video becomes one
    ffmpeg `drawtext` filter, with its text escaped for the filter syntax,
    a colour and font size chosen from the segment's emotion, loudness and
    tone, and a visible window trimmed by small margins and shifted by a
    global delay. The filter string itself, the font path and the ffmpeg
    run are not modelled: a filter is kept as the values it is built from. */
module Subtitle {
  import opened Common

  const SUB_START_MARGIN: real := 0.08
  const SUB_END_MARGIN: real := 0.08
  const SUB_MIN_DURATION: real := 0.30
  const SUB_GLOBAL_DELAY: real := 2.5
  /** Segments shorter than this are skipped. */
  const MIN_SEGMENT_SEC: real := 0.05

  // ------------------------------------------------------------- escaping

  /** `str.replace` of a single character by a string. */
  function Replace(s: string, c: char, rep: string): string
  {
    if s == [] then []
    else (if s[0] == c then rep else [s[0]]) + Replace(s[1..], c, rep)
  }

  /** The six replacements of `_ffmpeg_escape_text`, in their order. */
  function EscapePasses(t: string): string
  {
    var t1 := Replace(t, '\\', "\\\\");
    var t2 := Replace(t1, '"', "\\\"");
    var t3 := Replace(t2, ':', "\\:");
    var t4 := Replace(t3, ',', "\\,");
    var t5 := Replace(t4, '\'', "");
    Replace(t5, '\n', " ")
  }

  /** `_ffmpeg_escape_text`: `None` gives the empty string. */
  function EscapeText(text: Option<string>): string
  {
    if text.None? then "" else EscapePasses(text.value)
  }

  /** What one input character becomes: a backslash is doubled, a double
      quote, colon or comma gets a backslash in front, a single quote is
      dropped, a newline becomes a space, anything else is kept. */
  function EscapeChar(c: char): string
  {
    if c == '\\' || c == '"' || c == ':' || c == ',' then ['\\', c]
    else if c == '\'' then ""
    else if c == '\n' then " "
    else [c]
  }

  /** The escaping as one left-to-right pass over the characters. */
  function EscapeEach(t: string): string
  {
    if t == [] then [] else EscapeChar(t[0]) + EscapeEach(t[1..])
  }

  lemma {:induction false} ReplaceConcat(a: string, b: string, c: char, rep: string)
    ensures Replace(a + b, c, rep) == Replace(a, c, rep) + Replace(b, c, rep)
    decreases |a|
  {
    if a != [] {
      assert (a + b)[1..] == a[1..] + b;
      ReplaceConcat(a[1..], b, c, rep);
    } else {
      assert a + b == b;
    }
  }

  lemma EscapePassesConcat(a: string, b: string)
    ensures EscapePasses(a + b) == EscapePasses(a) + EscapePasses(b)
  {
    ReplaceConcat(a, b, '\\', "\\\\");
    var a1, b1 := Replace(a, '\\', "\\\\"), Replace(b, '\\', "\\\\");
    ReplaceConcat(a1, b1, '"', "\\\"");
    var a2, b2 := Replace(a1, '"', "\\\""), Replace(b1, '"', "\\\"");
    ReplaceConcat(a2, b2, ':', "\\:");
    var a3, b3 := Replace(a2, ':', "\\:"), Replace(b2, ':', "\\:");
    ReplaceConcat(a3, b3, ',', "\\,");
    var a4, b4 := Replace(a3, ',', "\\,"), Replace(b3, ',', "\\,");
    ReplaceConcat(a4, b4, '\'', "");
    var a5, b5 := Replace(a4, '\'', ""), Replace(b4, '\'', "");
    ReplaceConcat(a5, b5, '\n', " ");
  }

  /** On a single character the six passes do what `EscapeChar` says:
      a backslash inserted by an earlier pass is never touched again. */
  lemma EscapePassesChar(c: char)
    ensures EscapePasses([c]) == EscapeChar(c)
  {
    ReplaceOne(c, '\\', "\\\\");
    if c == '\\' {
      var t := "\\\\";
      ReplaceAbsent(t, '"', "\\\"");
      ReplaceAbsent(t, ':', "\\:");
      ReplaceAbsent(t, ',', "\\,");
      ReplaceAbsent(t, '\'', "");
      ReplaceAbsent(t, '\n', " ");
    } else if c == '"' || c == ':' || c == ',' {
      var t := ['\\', c];
      ReplaceOne(c, '"', "\\\"");
      if c == '"' {
        ReplaceAbsent(t, ':', "\\:");
      } else {
        ReplaceOne(c, ':', "\\:");
      }
      if c == ',' {
        ReplaceOne(c, ',', "\\,");
      } else {
        ReplaceAbsent(t, ',', "\\,");
      }
      ReplaceAbsent(t, '\'', "");
      ReplaceAbsent(t, '\n', " ");
    } else {
      ReplaceOne(c, '"', "\\\"");
      ReplaceOne(c, ':', "\\:");
      ReplaceOne(c, ',', "\\,");
      ReplaceOne(c, '\'', "");
      if c == '\'' {
        assert Replace([], '\n', " ") == [];
      } else {
        ReplaceOne(c, '\n', " ");
      }
    }
  }

  lemma ReplaceOne(x: char, c: char, rep: string)
    ensures Replace([x], c, rep) == if x == c then rep else [x]
  {
    assert [x][1..] == [];
  }

  /** A pass whose character does not occur changes nothing. */
  lemma {:induction false} ReplaceAbsent(s: string, c: char, rep: string)
    requires c !in s
    ensures Replace(s, c, rep) == s
    decreases |s|
  {
    if s != [] {
      assert s[0] in s;
      ReplaceAbsent(s[1..], c, rep);
    }
  }

  /** The six passes equal the single character-by-character escaping. */
  lemma {:induction false} EscapeIsCharwise(t: string)
    ensures EscapePasses(t) == EscapeEach(t)
    decreases |t|
  {
    if t != [] {
      assert t == [t[0]] + t[1..];
      EscapePassesConcat([t[0]], t[1..]);
      EscapePassesChar(t[0]);
      EscapeIsCharwise(t[1..]);
    } else {
      assert Replace([], '\n', " ") == [];
    }
  }

  /** Escaped text never contains a single quote or a newline. */
  lemma {:induction false} EscapeEachClean(t: string)
    ensures '\'' !in EscapeEach(t) && '\n' !in EscapeEach(t)
    decreases |t|
  {
    if t != [] {
      EscapeEachClean(t[1..]);
    }
  }

  /** Reading the filter text back: a backslash makes the next character
      literal. */
  function Unescape(s: string): string
  {
    if s == [] then []
    else if s[0] == '\\' && |s| >= 2 then [s[1]] + Unescape(s[2..])
    else [s[0]] + Unescape(s[1..])
  }

  /** The text with the two lossy changes applied: single quotes removed
      and newlines turned into spaces. */
  function Cleaned(t: string): string
  {
    if t == [] then []
    else (if t[0] == '\'' then "" else if t[0] == '\n' then " " else [t[0]]) + Cleaned(t[1..])
  }

  /** The escaping loses nothing but quotes and newlines: un-escaping the
      result gives the cleaned text back. */
  lemma {:induction false} UnescapeEscape(t: string)
    ensures Unescape(EscapeEach(t)) == Cleaned(t)
    decreases |t|
  {
    if t != [] {
      var c, rest := t[0], EscapeEach(t[1..]);
      UnescapeEscape(t[1..]);
      var s := EscapeChar(c) + rest;
      if c == '\\' || c == '"' || c == ':' || c == ',' {
        assert s[0] == '\\' && s[1] == c && s[2..] == rest;
      } else if c == '\'' {
        assert s == rest;
      } else {
        assert s[0] != '\\' && s[1..] == rest;
      }
    }
  }

  /** `_ffmpeg_escape_text` summed up: `None` gives "", and otherwise the
      result has no quote or newline and un-escapes to the cleaned text. */
  lemma EscapeTextSpec(text: Option<string>)
    ensures text.None? ==> EscapeText(text) == ""
    ensures text.Some? ==>
      && EscapeText(text) == EscapeEach(text.value)
      && '\'' !in EscapeText(text) && '\n' !in EscapeText(text)
      && Unescape(EscapeText(text)) == Cleaned(text.value)
  {
    if text.Some? {
      EscapeIsCharwise(text.value);
      EscapeEachClean(text.value);
      UnescapeEscape(text.value);
    }
  }

  /** The escaped text is empty exactly when the input holds nothing but
      single quotes. */
  lemma {:induction false} EscapeEachEmpty(t: string)
    ensures EscapeEach(t) == [] <==> forall i :: 0 <= i < |t| ==> t[i] == '\''
    decreases |t|
  {
    if t != [] {
      EscapeEachEmpty(t[1..]);
      assert forall i :: 1 <= i < |t| ==> t[i] == t[1..][i - 1];
    }
  }

  // ---------------------------------------------------------------- style

  datatype Color = White | Red | DeepSkyBlue | Yellow | LightBlue | OrangeRed

  datatype Style = Style(color: Color, size: int)

  /** `float(features.get("rms_db"))`, when it succeeds on a number. */
  function RmsDb(features: map<string, Feature>): Option<real>
  {
    if "rms_db" in features && features["rms_db"].Num? then Some(features["rms_db"].n) else None
  }

  /** `(features.get("tone_tag") or "").lower()`. */
  function ToneTag(features: map<string, Feature>): string
  {
    if "tone_tag" in features && features["tone_tag"].Text? then Lower(features["tone_tag"].t) else ""
  }

  /** The style of the emotion alone. */
  function BaseStyle(emo: string): Style
  {
    if emo == "ang" || emo == "anger" then Style(Red, 54)
    else if emo == "sad" || emo == "sadness" then Style(DeepSkyBlue, 48)
    else if emo == "hap" || emo == "joy" then Style(Yellow, 50)
    else Style(White, 42)
  }

  /** The loudness adjustment of the font size. */
  function SizeShift(rms: Option<real>): int
  {
    if rms.None? then 0
    else if rms.value > -25.0 then 6
    else if rms.value < -35.0 then -4
    else 0
  }

  /** The colour after the tone override. */
  function ToneColor(base: Color, tone: string, emo: string): Color
  {
    if tone == "" then base
    else if Contains(tone, "bright") then Yellow
    else if Contains(tone, "warm") && (emo == "sad" || emo == "sadness") then LightBlue
    else if Contains(tone, "dark") && (emo == "angry" || emo == "anger") then OrangeRed
    else base
  }

  function ClampSize(size: int): (r: int)
    ensures 32 <= r <= 64
    ensures 32 <= size <= 64 ==> r == size
  {
    if size < 32 then 32 else if size > 64 then 64 else size
  }

  /** `_decide_style`. */
  function DecideStyle(seg: Segment): Style
  {
    var emo := if seg.emotion.Some? then Lower(seg.emotion.value) else "";
    var base := BaseStyle(emo);
    Style(ToneColor(base.color, ToneTag(seg.features), emo),
          ClampSize(base.size + SizeShift(RmsDb(seg.features))))
  }

  /** The font size is the emotion's size moved by the loudness shift, and
      never leaves [38, 60], so the final clamp to [32, 64] never binds. */
  lemma StyleSize(seg: Segment)
    ensures var emo := if seg.emotion.Some? then Lower(seg.emotion.value) else "";
      DecideStyle(seg).size == BaseStyle(emo).size + SizeShift(RmsDb(seg.features))
    ensures 38 <= DecideStyle(seg).size <= 60
  {
  }

  /** The colour rules: a tone containing "bright" always gives yellow; with
      no tone the emotion's colour stays; the "dark" override never fires
      for the short label "ang", which stays red. */
  lemma StyleColor(seg: Segment)
    ensures var emo := if seg.emotion.Some? then Lower(seg.emotion.value) else "";
      var tone := ToneTag(seg.features);
      && (Contains(tone, "bright") ==> DecideStyle(seg).color == Yellow)
      && (tone == "" ==> DecideStyle(seg).color == BaseStyle(emo).color)
      && (emo == "ang" ==> DecideStyle(seg).color in {Red, Yellow})
      && (DecideStyle(seg).color == OrangeRed ==> emo == "angry" || emo == "anger")
  {
    var emo := if seg.emotion.Some? then Lower(seg.emotion.value) else "";
    var tone := ToneTag(seg.features);
    if Contains(tone, "bright") {
      assert tone != "";
    }
  }

  // ------------------------------------------------------------- filters

  /** What one `drawtext` filter is built from. */
  datatype Drawtext = Drawtext(text: string, color: Color, size: int, visStart: real, visEnd: real)

  /** The visible window of a segment [s, e]: trimmed by the margins
      unless that leaves under 0.30 s, then delayed. */
  function VisibleWindow(s: real, e: real): (real, real)
  {
    var vs := s + SUB_START_MARGIN;
    var ve := e - SUB_END_MARGIN;
    if ve - vs < SUB_MIN_DURATION then (s + SUB_GLOBAL_DELAY, e + SUB_GLOBAL_DELAY)
    else (vs + SUB_GLOBAL_DELAY, ve + SUB_GLOBAL_DELAY)
  }

  /** The filter for one segment, or `None` where the loop skips it. */
  function FilterFor(seg: Segment): Option<Drawtext>
  {
    if seg.start.None? || seg.end.None? then None
    else
      var s, e := seg.start.value, seg.end.value;
      if e <= s || e - s < MIN_SEGMENT_SEC then None
      else
        var (vs, ve) := VisibleWindow(s, e);
        if ve <= vs then None
        else TextFilterFor(seg, vs, ve)
  }

  function TextFilterFor(seg: Segment, vs: real, ve: real): Option<Drawtext>
  {
    var safe := EscapeText(Some(Strip(seg.text)));
    if safe == [] then None
    else
      var style := DecideStyle(seg);
      Some(Drawtext(safe, style.color, style.size, vs, ve))
  }

  function Filters(segs: seq<Segment>): seq<Drawtext>
  {
    if segs == [] then []
    else
      var f := FilterFor(segs[|segs| - 1]);
      Filters(segs[..|segs| - 1]) + (if f.Some? then [f.value] else [])
  }

  /** `_build_drawtext_filters`: an error when no segment yields a filter. */
  function DrawtextFilters(segs: seq<Segment>): Result<seq<Drawtext>>
  {
    var fs := Filters(segs);
    if fs == [] then Err(NoFilters) else Ok(fs)
  }

  method BuildDrawtextFilters(segs: seq<Segment>) returns (r: Result<seq<Drawtext>>)
    ensures r == DrawtextFilters(segs)
  {
    var filters: seq<Drawtext> := [];
    var idx := 0;
    while idx < |segs|
      invariant 0 <= idx <= |segs|
      invariant filters == Filters(segs[..idx])
    {
      assert segs[..idx + 1][..idx] == segs[..idx];
      var f := BuildFilter(segs[idx]);
      if f.Some? {
        filters := filters + [f.value];
      }
      idx := idx + 1;
    }
    assert segs[..idx] == segs;
    if filters == [] {
      return Err(NoFilters);
    }
    r := Ok(filters);
  }

  /** One pass of the filter loop; `None` where the loop continues. */
  method BuildFilter(seg: Segment) returns (f: Option<Drawtext>)
    ensures f == FilterFor(seg)
  {
    if seg.start.None? || seg.end.None? {
      return None;
    }
    var s, e := seg.start.value, seg.end.value;
    if e <= s || e - s < MIN_SEGMENT_SEC {
      return None;
    }
    var visS := s + SUB_START_MARGIN;
    var visE := e - SUB_END_MARGIN;
    if visE - visS < SUB_MIN_DURATION {
      visS, visE := s, e;
    }
    visS := visS + SUB_GLOBAL_DELAY;
    visE := visE + SUB_GLOBAL_DELAY;
    assert (visS, visE) == VisibleWindow(s, e);
    if visE <= visS {
      return None;
    }
    f := TextFilter(seg, visS, visE);
  }

  /** The end of the loop pass, once the window is known: escape the
      stripped text and pick the style. */
  method TextFilter(seg: Segment, visS: real, visE: real) returns (f: Option<Drawtext>)
    ensures f == TextFilterFor(seg, visS, visE)
  {
    var stripped := Strip(seg.text);
    var safeText := EscapeText(Some(stripped));
    if safeText == [] {
      return None;
    }
    var style := DecideStyle(seg);
    f := Some(Drawtext(safeText, style.color, style.size, visS, visE));
  }

  /** The visible window of a segment that passes the length test is never
      empty (so the loop's `vis_e <= vis_s` test never fires), lies inside
      the delayed segment, and is either at least 0.30 s long or the whole
      delayed segment. */
  lemma WindowShape(s: real, e: real)
    requires e > s && e - s >= MIN_SEGMENT_SEC
    ensures var (vs, ve) := VisibleWindow(s, e);
      && vs < ve
      && s + SUB_GLOBAL_DELAY <= vs && ve <= e + SUB_GLOBAL_DELAY
      && (ve - vs >= SUB_MIN_DURATION || (vs, ve) == (s + SUB_GLOBAL_DELAY, e + SUB_GLOBAL_DELAY))
  {
  }

  /** A segment gets a filter exactly when its times parse, it is at least
      0.05 s long and its stripped text is not made of single quotes only;
      the filter carries the escaped text and the segment's style. */
  lemma FilterForSpec(seg: Segment)
    ensures FilterFor(seg).Some? <==>
      && seg.start.Some? && seg.end.Some?
      && seg.end.value > seg.start.value
      && seg.end.value - seg.start.value >= MIN_SEGMENT_SEC
      && exists i :: 0 <= i < |Strip(seg.text)| && Strip(seg.text)[i] != '\''
    ensures FilterFor(seg).Some? ==>
      && FilterFor(seg).value.text == EscapeEach(Strip(seg.text))
      && FilterFor(seg).value.color == DecideStyle(seg).color
      && FilterFor(seg).value.size == DecideStyle(seg).size
      && (FilterFor(seg).value.visStart, FilterFor(seg).value.visEnd)
           == VisibleWindow(seg.start.value, seg.end.value)
  {
    EscapeIsCharwise(Strip(seg.text));
    EscapeEachEmpty(Strip(seg.text));
    if seg.start.Some? && seg.end.Some? {
      var s, e := seg.start.value, seg.end.value;
      if e > s && e - s >= MIN_SEGMENT_SEC {
        WindowShape(s, e);
      }
    }
  }

  /** Filters keep the segment order and one filter comes from one
      segment: there are never more filters than segments, and every
      filter is the filter of some segment. */
  lemma {:induction false} FiltersFromSegments(segs: seq<Segment>)
    ensures |Filters(segs)| <= |segs|
    ensures forall f :: f in Filters(segs) ==> exists k :: 0 <= k < |segs| && FilterFor(segs[k]) == Some(f)
    decreases |segs|
  {
    if segs != [] {
      var init := segs[..|segs| - 1];
      FiltersFromSegments(init);
      forall f | f in Filters(segs)
        ensures exists k :: 0 <= k < |segs| && FilterFor(segs[k]) == Some(f)
      {
        if f in Filters(init) {
          var k :| 0 <= k < |init| && FilterFor(init[k]) == Some(f);
          assert segs[k] == init[k];
        } else {
          assert FilterFor(segs[|segs| - 1]) == Some(f);
        }
      }
    }
  }

  /** The positions of the segments that yield a filter, in order. */
  function FilterKeys(segs: seq<Segment>): (idx: seq<nat>)
    ensures forall i :: 0 <= i < |idx| ==> idx[i] < |segs|
    ensures forall i, j :: 0 <= i < j < |idx| ==> idx[i] < idx[j]
  {
    if segs == [] then []
    else
      var n := |segs| - 1;
      FilterKeys(segs[..n]) + (if FilterFor(segs[n]).Some? then [n] else [])
  }

  /** The filters are exactly the filters of the segments that yield one,
      one per such segment and in segment order. */
  lemma {:induction false} FiltersIndexed(segs: seq<Segment>)
    ensures var idx, fs := FilterKeys(segs), Filters(segs);
      && |idx| == |fs|
      && (forall i :: 0 <= i < |idx| ==> FilterFor(segs[idx[i]]) == Some(fs[i]))
      && (forall k :: 0 <= k < |segs| && FilterFor(segs[k]).Some? ==> k in idx)
    decreases |segs|
  {
    if segs != [] {
      var n := |segs| - 1;
      var init := segs[..n];
      FiltersIndexed(init);
      var idx0, fs0 := FilterKeys(init), Filters(init);
      forall i | 0 <= i < |idx0| ensures segs[idx0[i]] == init[idx0[i]] {
      }
      forall k | 0 <= k < n && FilterFor(segs[k]).Some? ensures k in idx0 {
        assert segs[k] == init[k];
      }
    }
  }
}
