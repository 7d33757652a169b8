/** whisper_stt.py: the timestamped chunks returned by the speech
    recogniser are filtered into transcript segments (the first two seconds
    of the video are skipped), long Korean segments are split after each
    formal sentence ending with time shared out by character count, and the
    segments are numbered in order. The recogniser itself is not modelled:
    its result is an input. */
module WhisperStt {
  import opened Common

  const SKIP_HEAD_SEC: real := 2.0
  /** Children shorter than this fraction of the minimum length do not
      justify a split. */
  const CHILD_MIN_FRACTION: real := 0.4

  /** A recogniser chunk: its timestamp list, if it has one, with each
      element converted by `float` where that succeeds, and its text. */
  datatype Chunk = Chunk(timestamp: Option<seq<Option<real>>>, text: string)

  /** What the recogniser returns. */
  datatype AsrResult = AsrResult(text: string, language: string, chunks: seq<Chunk>)

  /** A transcript segment; split children carry no id until numbering. */
  datatype TSeg = TSeg(id: Option<nat>, start: real, end: real, text: string, language: string)

  datatype Transcript = Transcript(text: string, segments: seq<TSeg>, language: string)

  // -------------------------------------------------------- chunk filter

  /** The segment made from chunk `idx`, or `None` where the loop of
      `run_whisper` skips it. */
  function ChunkSegment(idx: nat, ch: Chunk, language: string, minSeg: real): Option<TSeg>
  {
    if ch.timestamp.None? || |ch.timestamp.value| < 2 then None
    else
      var ts := ch.timestamp.value;
      if ts[0].None? || ts[1].None? then None
      else
        var s, e := ts[0].value, ts[1].value;
        if e <= s || e <= SKIP_HEAD_SEC then None
        else
          var s' := if s < SKIP_HEAD_SEC then SKIP_HEAD_SEC else s;
          if e - s' < minSeg then None
          else
            var text := Strip(ch.text);
            if text == [] then None
            else Some(TSeg(Some(idx), s', e, text, language))
  }

  function ChunkSegments(chunks: seq<Chunk>, language: string, minSeg: real): seq<TSeg>
  {
    if chunks == [] then []
    else
      var idx := |chunks| - 1;
      var seg := ChunkSegment(idx, chunks[idx], language, minSeg);
      ChunkSegments(chunks[..idx], language, minSeg) + (if seg.Some? then [seg.value] else [])
  }

  method FilterChunks(chunks: seq<Chunk>, language: string, minSeg: real) returns (segments: seq<TSeg>)
    ensures segments == ChunkSegments(chunks, language, minSeg)
  {
    segments := [];
    var idx := 0;
    while idx < |chunks|
      invariant 0 <= idx <= |chunks|
      invariant segments == ChunkSegments(chunks[..idx], language, minSeg)
    {
      var ch := chunks[idx];
      assert chunks[..idx + 1][..idx] == chunks[..idx];
      assert forall j :: 0 <= j < idx ==> chunks[..idx + 1][j] == chunks[j];
      idx := idx + 1;
      if ch.timestamp.None? || |ch.timestamp.value| < 2 {
        continue;
      }
      var ts := ch.timestamp.value;
      if ts[0].None? || ts[1].None? {
        continue;
      }
      var s, e := ts[0].value, ts[1].value;
      if e <= s {
        continue;
      }
      if e <= SKIP_HEAD_SEC {
        continue;
      }
      if s < SKIP_HEAD_SEC {
        s := SKIP_HEAD_SEC;
      }
      if e - s < minSeg {
        continue;
      }
      var text := Strip(ch.text);
      if text == [] {
        continue;
      }
      segments := segments + [TSeg(Some(idx - 1), s, e, text, language)];
    }
    assert chunks[..idx] == chunks;
  }

  /** A chunk is kept exactly when both times parse, it ends after 2 s and
      after its start, what is left after clamping its start up to 2 s is at
      least `minSeg` long, and its stripped text is not empty; the kept
      segment starts no earlier than 2 s and ends after it starts. */
  lemma ChunkSegmentSpec(idx: nat, ch: Chunk, language: string, minSeg: real)
    ensures ChunkSegment(idx, ch, language, minSeg).Some? <==>
      && ch.timestamp.Some? && |ch.timestamp.value| >= 2
      && ch.timestamp.value[0].Some? && ch.timestamp.value[1].Some?
      && var s, e := ch.timestamp.value[0].value, ch.timestamp.value[1].value;
         && e > s && e > SKIP_HEAD_SEC
         && e - Max(s, SKIP_HEAD_SEC) >= minSeg
         && Strip(ch.text) != []
    ensures ChunkSegment(idx, ch, language, minSeg).Some? ==>
      var seg := ChunkSegment(idx, ch, language, minSeg).value;
      && seg.start == Max(ch.timestamp.value[0].value, SKIP_HEAD_SEC)
      && seg.end == ch.timestamp.value[1].value
      && SKIP_HEAD_SEC <= seg.start < seg.end
      && seg.end - seg.start >= minSeg
      && seg.text == Strip(ch.text) && seg.language == language && seg.id == Some(idx)
  {
  }

  /** Every segment has the id of a chunk below `n` and is what that chunk
      yields. */
  ghost predicate FromChunks(segs: seq<TSeg>, chunks: seq<Chunk>, n: nat, language: string, minSeg: real)
    requires n <= |chunks|
  {
    forall k :: 0 <= k < |segs| ==>
      && segs[k].id.Some? && segs[k].id.value < n
      && ChunkSegment(segs[k].id.value, chunks[segs[k].id.value], language, minSeg) == Some(segs[k])
  }

  /** Ids strictly increase along the list. */
  ghost predicate IdsIncrease(segs: seq<TSeg>)
  {
    forall a, b :: 0 <= a < b < |segs| ==> segs[a].id.Some? && segs[b].id.Some? && segs[a].id.value < segs[b].id.value
  }

  /** Every kept segment comes from a chunk, in chunk order, and ids are the
      chunk positions, so they increase. */
  lemma {:induction false} ChunkSegmentsShape(chunks: seq<Chunk>, language: string, minSeg: real)
    ensures var segs := ChunkSegments(chunks, language, minSeg);
      && |segs| <= |chunks|
      && FromChunks(segs, chunks, |chunks|, language, minSeg)
      && IdsIncrease(segs)
    decreases |chunks|
  {
    if chunks != [] {
      var idx := |chunks| - 1;
      var init := chunks[..idx];
      ChunkSegmentsShape(init, language, minSeg);
      FromChunksWiden(ChunkSegments(init, language, minSeg), init, chunks, language, minSeg);
      var seg := ChunkSegment(idx, chunks[idx], language, minSeg);
      if seg.Some? {
        AppendChunk(ChunkSegments(init, language, minSeg), chunks, idx, language, minSeg);
      }
    }
  }

  /** Conversely, every chunk the loop keeps appears in the list. */
  lemma {:induction false} ChunkSegmentsComplete(chunks: seq<Chunk>, language: string, minSeg: real)
    ensures forall k :: 0 <= k < |chunks| && ChunkSegment(k, chunks[k], language, minSeg).Some? ==>
      ChunkSegment(k, chunks[k], language, minSeg).value in ChunkSegments(chunks, language, minSeg)
    decreases |chunks|
  {
    if chunks != [] {
      var idx := |chunks| - 1;
      var init := chunks[..idx];
      ChunkSegmentsComplete(init, language, minSeg);
      forall k | 0 <= k < idx ensures chunks[k] == init[k] {
      }
    }
  }

  /** What is true of the segments of a prefix of the chunks stays true
      of the whole list. */
  lemma FromChunksWiden(segs: seq<TSeg>, init: seq<Chunk>, chunks: seq<Chunk>, language: string, minSeg: real)
    requires |init| <= |chunks| && init == chunks[..|init|]
    requires FromChunks(segs, init, |init|, language, minSeg)
    ensures FromChunks(segs, chunks, |init|, language, minSeg)
  {
    forall k | 0 <= k < |segs|
      ensures ChunkSegment(segs[k].id.value, chunks[segs[k].id.value], language, minSeg) == Some(segs[k])
    {
      assert chunks[segs[k].id.value] == init[segs[k].id.value];
    }
  }

  /** Appending the segment of chunk `idx` to the segments of the chunks
      before it keeps both properties. */
  lemma AppendChunk(segs: seq<TSeg>, chunks: seq<Chunk>, idx: nat, language: string, minSeg: real)
    requires idx < |chunks| && FromChunks(segs, chunks, idx, language, minSeg) && IdsIncrease(segs)
    requires ChunkSegment(idx, chunks[idx], language, minSeg).Some?
    ensures var r := segs + [ChunkSegment(idx, chunks[idx], language, minSeg).value];
      FromChunks(r, chunks, idx + 1, language, minSeg) && IdsIncrease(r)
  {
    ChunkSegmentSpec(idx, chunks[idx], language, minSeg);
  }

  // ------------------------------------------------------ sentence parts

  /** One of the two formal sentence endings the splitter looks for,
      "입니다" or "합니다", starts at `i`. */
  predicate EndingAt(text: string, i: nat)
  {
    i + 3 <= |text| && (text[i] == '입' || text[i] == '합') && text[i + 1] == '니' && text[i + 2] == '다'
  }

  predicate IsSentencePunct(c: char) { c == '.' || c == '!' || c == '?' }

  /** The first ending at or after `from`: where the lazy `.*?` of the
      pattern stops. */
  function NextEnding(text: string, from: nat): (r: Option<nat>)
    requires from <= |text|
    ensures r.Some? ==>
      && from <= r.value && EndingAt(text, r.value)
      && forall j :: from <= j < r.value ==> !EndingAt(text, j)
    ensures r.None? ==> forall j :: from <= j <= |text| ==> !EndingAt(text, j)
    decreases |text| - from
  {
    if EndingAt(text, from) then Some(from)
    else if from == |text| then None
    else NextEnding(text, from + 1)
  }

  /** The end of the match whose ending starts at `i`: after the ending and
      one optional sentence mark. */
  function MatchEnd(text: string, i: nat): (r: nat)
    requires EndingAt(text, i)
    ensures i + 3 <= r <= |text|
  {
    if i + 3 < |text| && IsSentencePunct(text[i + 3]) then i + 4 else i + 3
  }

  /** The parts found from position `pos` on: one stripped part per match
      of `(.*?(?:입니다|합니다)[.!?]?)`, then the stripped rest when it is
      not empty. */
  function PartsFrom(text: string, pos: nat): seq<string>
    requires pos <= |text|
    decreases |text| - pos
  {
    var next := NextEnding(text, pos);
    if next.None? then
      var tail := Strip(text[pos..]);
      if tail != [] then [tail] else []
    else
      var end := MatchEnd(text, next.value);
      [Strip(text[pos..end])] + PartsFrom(text, end)
  }

  /** The match-and-tail loop of `_split_korean_ends` over one text. */
  method SplitParts(text: string) returns (parts: seq<string>)
    ensures parts == PartsFrom(text, 0)
  {
    ghost var all := PartsFrom(text, 0);
    parts := [];
    var lastEnd := 0;
    var next := NextEnding(text, 0);
    while next.Some?
      invariant lastEnd <= |text|
      invariant next == NextEnding(text, lastEnd)
      invariant all == parts + PartsFrom(text, lastEnd)
      decreases |text| - lastEnd
    {
      var part, end := NextPart(text, lastEnd, next.value);
      parts := parts + [part];
      lastEnd := end;
      next := NextEnding(text, lastEnd);
    }
    var tail := TailPart(text, lastEnd);
    parts := parts + tail;
  }

  /** After the last match: the stripped rest, when there is a non-empty
      one. */
  method TailPart(text: string, lastEnd: nat) returns (tail: seq<string>)
    requires lastEnd <= |text| && NextEnding(text, lastEnd).None?
    ensures tail == PartsFrom(text, lastEnd)
  {
    tail := [];
    if lastEnd < |text| {
      var rest := Strip(text[lastEnd..]);
      if rest != [] {
        tail := [rest];
      }
    } else {
      assert Strip(text[lastEnd..]) == [];
    }
  }

  /** One match of the loop, ending at `at`: its stripped text and where
      the search goes on. */
  method NextPart(text: string, lastEnd: nat, at: nat) returns (part: string, end: nat)
    requires lastEnd <= |text| && NextEnding(text, lastEnd) == Some(at)
    ensures lastEnd < end <= |text|
    ensures PartsFrom(text, lastEnd) == [part] + PartsFrom(text, end)
  {
    end := MatchEnd(text, at);
    part := Strip(text[lastEnd..end]);
  }

  /** A part made from a match ends with one of the two endings, possibly
      followed by one sentence mark. */
  ghost predicate EndsSentence(p: string)
  {
    (|p| >= 3 && EndingAt(p, |p| - 3))
    || (|p| >= 4 && EndingAt(p, |p| - 4) && IsSentencePunct(p[|p| - 1]))
  }

  /** A part holding neither ending anywhere. */
  ghost predicate NoEnding(p: string)
  {
    forall j :: 0 <= j < |p| ==> !EndingAt(p, j)
  }

  /** `str.strip` returns a slice of its input. */
  lemma StripIsSlice(s: string) returns (k: nat)
    ensures k + |Strip(s)| <= |s| && Strip(s) == s[k..k + |Strip(s)|]
  {
    k := SkipSpaces(s, 0);
  }

  /** A piece whose last character and some character `j` are not spaces
      strips to one of its suffixes, starting no later than `j`. */
  lemma StripToSuffix(piece: string, j: nat) returns (k: nat)
    requires j < |piece| && !IsSpace(piece[j]) && !IsSpace(piece[|piece| - 1])
    ensures k <= j && Strip(piece) == piece[k..]
  {
    k := SkipSpaces(piece, 0);
    assert TrimEnd(piece, k, |piece|) == |piece|;
  }

  /** Any slice from before an ending to the end of its match ends a
      sentence. */
  lemma SliceEndsSentence(t: string, a: nat, i: nat)
    requires a <= i && EndingAt(t, i)
    ensures EndsSentence(t[a..MatchEnd(t, i)])
  {
    var end := MatchEnd(t, i);
    var p := t[a..end];
    var q := |p| - (end - i);
    assert p[q] == t[i] && p[q + 1] == t[i + 1] && p[q + 2] == t[i + 2];
    if end == i + 4 {
      assert p[|p| - 1] == t[i + 3];
    }
  }

  /** Stripping a piece that ends in a sentence ending keeps the ending. */
  lemma StripKeepsEnding(t: string, pos: nat, i: nat)
    requires pos <= i && EndingAt(t, i)
    ensures var r := Strip(t[pos..MatchEnd(t, i)]); r != [] && EndsSentence(r)
  {
    var end := MatchEnd(t, i);
    var piece := t[pos..end];
    assert piece[i - pos] == t[i];
    assert piece[|piece| - 1] == t[end - 1];
    var k := StripToSuffix(piece, i - pos);
    assert piece[k..] == t[pos + k..end];
    SliceEndsSentence(t, pos + k, i);
  }

  /** A slice of a text holding no ending from `from` on holds none either. */
  lemma NoEndingSlice(t: string, from: nat, a: nat, b: nat)
    requires from <= a <= b <= |t|
    requires forall j :: from <= j <= |t| ==> !EndingAt(t, j)
    ensures NoEnding(t[a..b])
  {
    var p := t[a..b];
    forall j | 0 <= j < |p| ensures !EndingAt(p, j) {
      if EndingAt(p, j) {
        assert EndingAt(t, a + j);
      }
    }
  }

  /** Every part is non-empty; every part but the last ends a sentence,
      and the last one either ends a sentence or holds no ending at all. */
  ghost predicate WellSplit(ps: seq<string>)
  {
    && (forall k :: 0 <= k < |ps| ==> ps[k] != [])
    && (forall k :: 0 <= k < |ps| - 1 ==> EndsSentence(ps[k]))
    && (ps != [] ==> EndsSentence(ps[|ps| - 1]) || NoEnding(ps[|ps| - 1]))
  }

  lemma WellSplitCons(p: string, rest: seq<string>)
    requires p != [] && EndsSentence(p) && WellSplit(rest)
    ensures WellSplit([p] + rest)
  {
    var ps := [p] + rest;
    assert forall k :: 1 <= k < |ps| ==> ps[k] == rest[k - 1];
  }

  /** The tail after the last match holds no ending. */
  lemma TailNoEnding(text: string, pos: nat)
    requires pos <= |text| && NextEnding(text, pos).None?
    ensures NoEnding(Strip(text[pos..]))
  {
    NoEndingSlice(text, pos, pos, |text|);
    assert text[pos..|text|] == text[pos..];
    StripNoEnding(text[pos..]);
  }

  /** Stripping a text holding no ending leaves one holding none. */
  lemma StripNoEnding(p: string)
    requires NoEnding(p)
    ensures NoEnding(Strip(p))
  {
    var k := StripIsSlice(p);
    NoEndingSub(p, k, k + |Strip(p)|);
  }

  /** A slice of a text holding no ending holds none either. */
  lemma NoEndingSub(p: string, a: nat, b: nat)
    requires a <= b <= |p| && NoEnding(p)
    ensures NoEnding(p[a..b])
  {
    var q := p[a..b];
    forall j | 0 <= j < |q| ensures !EndingAt(q, j) {
      if EndingAt(q, j) {
        assert EndingAt(p, a + j);
      }
    }
  }

  lemma {:induction false} PartsShape(text: string, pos: nat)
    requires pos <= |text|
    ensures WellSplit(PartsFrom(text, pos))
    decreases |text| - pos
  {
    var next := NextEnding(text, pos);
    if next.Some? {
      var end := MatchEnd(text, next.value);
      StripKeepsEnding(text, pos, next.value);
      PartsShape(text, end);
      WellSplitCons(Strip(text[pos..end]), PartsFrom(text, end));
    } else {
      TailNoEnding(text, pos);
    }
  }

  /** A part holds at most one ending, and only as its closing words: any
      ending in it starts three characters before its end, or four when a
      sentence mark closes it. */
  ghost predicate SingleEnding(p: string)
  {
    forall j :: 0 <= j < |p| && EndingAt(p, j) ==>
      j + 3 == |p| || (j + 4 == |p| && IsSentencePunct(p[|p| - 1]))
  }

  /** The stripped text of a match holds no ending but its closing one:
      the lazy `.*?` stops at the first ending, and the optional mark that
      follows cannot start another. */
  lemma MatchSingleEnding(t: string, pos: nat, i: nat)
    requires pos <= |t| && NextEnding(t, pos) == Some(i)
    ensures SingleEnding(Strip(t[pos..MatchEnd(t, i)]))
  {
    var end := MatchEnd(t, i);
    var piece := t[pos..end];
    assert piece[i - pos] == t[i];
    assert piece[|piece| - 1] == t[end - 1];
    var k := StripToSuffix(piece, i - pos);
    assert Strip(piece) == t[pos + k..end];
    MatchSuffixSingleEnding(t, pos, i, pos + k);
  }

  /** Any suffix of a match that still holds its ending holds no other. */
  lemma MatchSuffixSingleEnding(t: string, pos: nat, i: nat, a: nat)
    requires pos <= |t| && NextEnding(t, pos) == Some(i) && pos <= a <= i
    ensures SingleEnding(t[a..MatchEnd(t, i)])
  {
    var end := MatchEnd(t, i);
    var part := t[a..end];
    assert |part| == end - a && part[|part| - 1] == t[end - 1];
    forall j | 0 <= j < |part| && EndingAt(part, j)
      ensures j + 3 == |part| || (j + 4 == |part| && IsSentencePunct(part[|part| - 1]))
    {
      EndingInSlice(t, a, end, j);
      OnlyEndingOfMatch(t, pos, i, a + j);
    }
  }

  /** An ending inside a slice is an ending of the text. */
  lemma EndingInSlice(t: string, a: nat, b: nat, j: nat)
    requires a <= b <= |t| && EndingAt(t[a..b], j)
    ensures EndingAt(t, a + j) && a + j + 3 <= b
  {
    var p := t[a..b];
    assert p[j] == t[a + j] && p[j + 1] == t[a + j + 1] && p[j + 2] == t[a + j + 2];
  }

  /** Within a match from `pos`, the only ending is the one the match stops
      at. */
  lemma OnlyEndingOfMatch(t: string, pos: nat, i: nat, at: nat)
    requires pos <= |t| && NextEnding(t, pos) == Some(i)
    requires pos <= at && EndingAt(t, at) && at + 3 <= MatchEnd(t, i)
    ensures at == i
    ensures at + 3 == MatchEnd(t, i) || (at + 4 == MatchEnd(t, i) && IsSentencePunct(t[at + 3]))
  {
    assert at >= i;
    assert t[i + 1] == '니';
  }

  ghost predicate AllSingleEnding(ps: seq<string>)
  {
    forall k :: 0 <= k < |ps| ==> SingleEnding(ps[k])
  }

  lemma AllSingleEndingCons(p: string, rest: seq<string>)
    requires SingleEnding(p) && AllSingleEnding(rest)
    ensures AllSingleEnding([p] + rest)
  {
    var ps := [p] + rest;
    assert forall k :: 1 <= k < |ps| ==> ps[k] == rest[k - 1];
  }

  /** Every part holds at most one ending, as its closing words. */
  lemma {:induction false} PartsSingleEnding(text: string, pos: nat)
    requires pos <= |text|
    ensures AllSingleEnding(PartsFrom(text, pos))
    decreases |text| - pos
  {
    var next := NextEnding(text, pos);
    if next.Some? {
      var end := MatchEnd(text, next.value);
      MatchSingleEnding(text, pos, next.value);
      PartsSingleEnding(text, end);
      AllSingleEndingCons(Strip(text[pos..end]), PartsFrom(text, end));
    } else {
      TailNoEnding(text, pos);
    }
  }

  /** A text with its whitespace removed. */
  function Squeeze(s: string): string
  {
    if s == [] then [] else (if IsSpace(s[0]) then [] else [s[0]]) + Squeeze(s[1..])
  }

  /** The parts written one after another. */
  function Joined(ps: seq<string>): string
  {
    if ps == [] then [] else ps[0] + Joined(ps[1..])
  }

  lemma {:induction false} SqueezeConcat(a: string, b: string)
    ensures Squeeze(a + b) == Squeeze(a) + Squeeze(b)
  {
    if a == [] {
      assert a + b == b;
    } else {
      assert (a + b)[1..] == a[1..] + b;
      SqueezeConcat(a[1..], b);
    }
  }

  lemma {:induction false} SqueezeSpaces(s: string)
    requires forall i :: 0 <= i < |s| ==> IsSpace(s[i])
    ensures Squeeze(s) == []
  {
    if s != [] {
      SqueezeSpaces(s[1..]);
    }
  }

  /** `str.strip` only removes whitespace. */
  lemma SqueezeStrip(s: string)
    ensures Squeeze(Strip(s)) == Squeeze(s)
  {
    var a := SkipSpaces(s, 0);
    SqueezeTrim(s, a, TrimEnd(s, a, |s|));
  }

  /** Dropping whitespace from both ends of a text keeps it up to
      whitespace. */
  lemma SqueezeTrim(s: string, a: nat, b: nat)
    requires a <= b <= |s|
    requires forall i :: 0 <= i < a ==> IsSpace(s[i])
    requires forall i :: b <= i < |s| ==> IsSpace(s[i])
    ensures Squeeze(s[a..b]) == Squeeze(s)
  {
    var front := s[..b];
    SqueezeDropBack(s, b);
    assert forall i :: 0 <= i < a ==> front[i] == s[i];
    SqueezeDropFront(front, a);
    assert front[a..] == s[a..b];
  }

  lemma SqueezeDropFront(s: string, a: nat)
    requires a <= |s| && forall i :: 0 <= i < a ==> IsSpace(s[i])
    ensures Squeeze(s[a..]) == Squeeze(s)
  {
    assert s == s[..a] + s[a..];
    SqueezeConcat(s[..a], s[a..]);
    SqueezeSpaces(s[..a]);
  }

  lemma SqueezeDropBack(s: string, b: nat)
    requires b <= |s| && forall i :: b <= i < |s| ==> IsSpace(s[i])
    ensures Squeeze(s[..b]) == Squeeze(s)
  {
    var p, q := s[..b], s[b..];
    SqueezeSpaces(q);
    SqueezeConcat(p, q);
    assert Squeeze(p) + [] == Squeeze(p);
    assert p + q == s;
  }

  /** One match of the loop keeps the text up to whitespace. */
  lemma JoinStep(piece: string, after: string, rest: seq<string>)
    requires Squeeze(Joined(rest)) == Squeeze(after)
    ensures Squeeze(Joined([Strip(piece)] + rest)) == Squeeze(piece + after)
  {
    assert Joined([Strip(piece)] + rest) == Strip(piece) + Joined(rest);
    SqueezeConcat(Strip(piece), Joined(rest));
    SqueezeStrip(piece);
    SqueezeConcat(piece, after);
  }

  /** No character but whitespace is lost or added: the parts, written
      one after another, are the text once whitespace is removed from
      both. */
  lemma {:induction false} PartsKeepText(text: string, pos: nat)
    requires pos <= |text|
    ensures Squeeze(Joined(PartsFrom(text, pos))) == Squeeze(text[pos..])
    decreases |text| - pos
  {
    var next := NextEnding(text, pos);
    if next.Some? {
      var end := MatchEnd(text, next.value);
      PartsKeepText(text, end);
      JoinStep(text[pos..end], text[end..], PartsFrom(text, end));
      assert text[pos..] == text[pos..end] + text[end..];
    } else {
      TailKeepsText(text, pos);
    }
  }

  /** The rest after the last match keeps the text up to whitespace. */
  lemma TailKeepsText(text: string, pos: nat)
    requires pos <= |text| && NextEnding(text, pos).None?
    ensures Squeeze(Joined(PartsFrom(text, pos))) == Squeeze(text[pos..])
  {
    var tail := Strip(text[pos..]);
    SqueezeStrip(text[pos..]);
    if tail != [] {
      assert PartsFrom(text, pos) == [tail];
      assert [tail][1..] == [] && Joined([]) == [];
      assert Joined([tail]) == tail;
    } else {
      assert PartsFrom(text, pos) == [];
    }
  }

  // ------------------------------------------------------------ children

  function CharSum(parts: seq<string>): nat
  {
    if parts == [] then 0 else |parts[0]| + CharSum(parts[1..])
  }

  /** The children laid from `cur`: each lasts `dur` times its share of the
      characters. */
  function Children(parts: seq<string>, cur: real, dur: real, total: real, language: string): seq<TSeg>
    requires total > 0.0
  {
    if parts == [] then []
    else
      var partEnd := cur + dur * (|parts[0]| as real / total);
      [TSeg(None, cur, partEnd, parts[0], language)] + Children(parts[1..], partEnd, dur, total, language)
  }

  method BuildChildren(parts: seq<string>, s: real, dur: real, total: real, language: string)
      returns (children: seq<TSeg>)
    requires total > 0.0
    ensures children == Children(parts, s, dur, total, language)
  {
    children := [];
    var cur := s;
    var i := 0;
    while i < |parts|
      invariant 0 <= i <= |parts|
      invariant children + Children(parts[i..], cur, dur, total, language) == Children(parts, s, dur, total, language)
    {
      var p := parts[i];
      var ratio := |p| as real / total;
      var partDur := dur * ratio;
      var partEnd := cur + partDur;
      assert parts[i..][1..] == parts[i + 1..];
      assert Children(parts[i..], cur, dur, total, language)
        == [TSeg(None, cur, partEnd, p, language)] + Children(parts[i + 1..], partEnd, dur, total, language);
      children := children + [TSeg(None, cur, partEnd, p, language)];
      cur := partEnd;
      i := i + 1;
    }
  }

  lemma ShareAdd(dur: real, x: real, y: real, total: real)
    requires total > 0.0
    ensures dur * (x / total) + dur * (y / total) == dur * ((x + y) / total)
  {
    assert x / total + y / total == (x + y) / total;
  }

  /** Segments laid end to end from `cur`. */
  ghost predicate Tiled(cs: seq<TSeg>, cur: real)
  {
    && (cs != [] ==> cs[0].start == cur)
    && (forall k :: 0 <= k < |cs| - 1 ==> cs[k].end == cs[k + 1].start)
  }

  /** Segment `k` carries part `k` and lasts `dur` times its share of
      `total` characters. */
  ghost predicate Shares(cs: seq<TSeg>, parts: seq<string>, dur: real, total: real)
    requires total > 0.0
  {
    && |cs| == |parts|
    && (forall k :: 0 <= k < |cs| ==>
          cs[k].text == parts[k] && cs[k].end - cs[k].start == dur * (|parts[k]| as real / total))
  }

  /** The children are contiguous from `cur`. */
  lemma {:induction false} ChildrenTiled(parts: seq<string>, cur: real, dur: real, total: real, language: string)
    requires total > 0.0
    ensures Tiled(Children(parts, cur, dur, total, language), cur)
    decreases |parts|
  {
    if parts != [] {
      var partEnd := cur + dur * (|parts[0]| as real / total);
      var rest := Children(parts[1..], partEnd, dur, total, language);
      ChildrenTiled(parts[1..], partEnd, dur, total, language);
      var cs := [TSeg(None, cur, partEnd, parts[0], language)] + rest;
      assert forall k :: 1 <= k < |cs| ==> cs[k] == rest[k - 1];
    }
  }

  /** The children carry the parts in order, each lasting its share. */
  lemma {:induction false} ChildrenShares(parts: seq<string>, cur: real, dur: real, total: real, language: string)
    requires total > 0.0
    ensures Shares(Children(parts, cur, dur, total, language), parts, dur, total)
    decreases |parts|
  {
    if parts != [] {
      var partEnd := cur + dur * (|parts[0]| as real / total);
      var rest := Children(parts[1..], partEnd, dur, total, language);
      ChildrenShares(parts[1..], partEnd, dur, total, language);
      SharesCons(TSeg(None, cur, partEnd, parts[0], language), rest, parts, dur, total);
    }
  }

  lemma SharesCons(c: TSeg, rest: seq<TSeg>, parts: seq<string>, dur: real, total: real)
    requires total > 0.0 && parts != [] && Shares(rest, parts[1..], dur, total)
    requires c.text == parts[0] && c.end - c.start == dur * (|parts[0]| as real / total)
    ensures Shares([c] + rest, parts, dur, total)
  {
    var cs := [c] + rest;
    forall k | 1 <= k < |cs|
      ensures cs[k].text == parts[k] && cs[k].end - cs[k].start == dur * (|parts[k]| as real / total)
    {
      assert cs[k] == rest[k - 1] && parts[k] == parts[1..][k - 1];
    }
  }

  /** Together the children last `dur` times the parts' share of all
      characters. */
  lemma {:induction false} ChildrenEnd(parts: seq<string>, cur: real, dur: real, total: real, language: string)
    requires total > 0.0 && parts != []
    ensures var cs := Children(parts, cur, dur, total, language);
      cs != [] && cs[|cs| - 1].end == cur + dur * (CharSum(parts) as real / total)
    decreases |parts|
  {
    var partEnd := cur + dur * (|parts[0]| as real / total);
    if |parts| > 1 {
      ChildrenEnd(parts[1..], partEnd, dur, total, language);
      ShareAdd(dur, |parts[0]| as real, CharSum(parts[1..]) as real, total);
    } else {
      assert CharSum(parts[1..]) == 0;
    }
  }

  /** Children whose every duration is under 0.4 times the minimum. */
  predicate AllShort(children: seq<TSeg>, minSeg: real)
  {
    forall k :: 0 <= k < |children| ==> children[k].end - children[k].start < minSeg * CHILD_MIN_FRACTION
  }

  /** The character count the durations are shared by (1 when the parts
      hold no character, so the division is always defined). */
  function Total(parts: seq<string>): (r: real)
    ensures r > 0.0
  {
    if CharSum(parts) == 0 then 1.0 else CharSum(parts) as real
  }

  /** The stripped parts of a segment's text. */
  function Parts(seg: TSeg): seq<string>
  {
    PartsFrom(Strip(seg.text), 0)
  }

  /** The parts of a segment's text: each non-empty, each holding one
      ending as its closing words except that the last may hold none, and
      together the whole text up to whitespace. */
  lemma PartsOfSegment(seg: TSeg)
    ensures WellSplit(Parts(seg)) && AllSingleEnding(Parts(seg))
    ensures Squeeze(Joined(Parts(seg))) == Squeeze(seg.text)
  {
    var text := Strip(seg.text);
    PartsShape(text, 0);
    PartsSingleEnding(text, 0);
    PartsKeepText(text, 0);
    assert text[0..] == text;
    SqueezeStrip(seg.text);
  }

  /** What `_split_korean_ends` makes of one segment. The clamped
      duration `max(e - s, 0)` is positive exactly when `e > s`, and then it
      is `e - s`. */
  function SplitSegment(seg: TSeg, minSeg: real): seq<TSeg>
  {
    if seg.end <= seg.start || Strip(seg.text) == [] then []
    else SplitInto(seg, Parts(seg), seg.end - seg.start, minSeg)
  }

  /** A segment with time and text, given its parts and duration: whole
      when it has one part or its children would all be too short, its
      children otherwise. */
  function SplitInto(seg: TSeg, parts: seq<string>, dur: real, minSeg: real): seq<TSeg>
  {
    if |parts| <= 1 then [seg]
    else
      var children := Children(parts, seg.start, dur, Total(parts), seg.language);
      if AllShort(children, minSeg) then [seg] else children
  }

  function SplitAll(segs: seq<TSeg>, minSeg: real): seq<TSeg>
  {
    if segs == [] then [] else SplitAll(segs[..|segs| - 1], minSeg) + SplitSegment(segs[|segs| - 1], minSeg)
  }

  /** `_split_korean_ends`. */
  method SplitKoreanEnds(segments: seq<TSeg>, minSeg: real) returns (newSegments: seq<TSeg>)
    ensures newSegments == SplitAll(segments, minSeg)
  {
    newSegments := [];
    var i := 0;
    while i < |segments|
      invariant 0 <= i <= |segments|
      invariant newSegments == SplitAll(segments[..i], minSeg)
    {
      assert segments[..i + 1][..i] == segments[..i];
      var pieces := SplitOne(segments[i], minSeg);
      newSegments := newSegments + pieces;
      i := i + 1;
    }
    assert segments[..i] == segments;
  }

  /** One pass of the splitting loop. */
  method SplitOne(seg: TSeg, minSeg: real) returns (pieces: seq<TSeg>)
    ensures pieces == SplitSegment(seg, minSeg)
  {
    var text := Strip(seg.text);
    var s, e := seg.start, seg.end;
    var dur := Max(e - s, 0.0);
    if dur <= 0.0 || |text| == 0 {
      pieces := [];
    } else {
      assert dur == e - s;
      var parts := SplitParts(text);
      assert parts == Parts(seg);
      pieces := SplitByParts(seg, parts, dur, minSeg);
    }
  }

  /** The rest of the pass, once the parts are known: keep the segment
      whole or replace it by its children. */
  method SplitByParts(seg: TSeg, parts: seq<string>, dur: real, minSeg: real) returns (pieces: seq<TSeg>)
    ensures pieces == SplitInto(seg, parts, dur, minSeg)
  {
    if |parts| <= 1 {
      return [seg];
    }
    var sum := CharSum(parts);
    var total := if sum == 0 then 1.0 else sum as real;
    var children := BuildChildren(parts, seg.start, dur, total, seg.language);
    if AllShort(children, minSeg) {
      pieces := [seg];
    } else {
      pieces := children;
    }
  }

  /** When a segment is split, it becomes the children of its parts. */
  lemma SplitIsChildren(seg: TSeg, minSeg: real)
    requires seg.end > seg.start && Strip(seg.text) != [] && |Parts(seg)| >= 2
    requires !AllShort(Children(Parts(seg), seg.start, seg.end - seg.start, Total(Parts(seg)), seg.language), minSeg)
    ensures SplitSegment(seg, minSeg)
      == Children(Parts(seg), seg.start, seg.end - seg.start, Total(Parts(seg)), seg.language)
  {
    SplitSegmentUnfold(seg, minSeg);
    SplitIntoChildren(seg, Parts(seg), seg.end - seg.start, minSeg);
  }

  lemma SplitSegmentUnfold(seg: TSeg, minSeg: real)
    requires seg.end > seg.start && Strip(seg.text) != []
    ensures SplitSegment(seg, minSeg) == SplitInto(seg, Parts(seg), seg.end - seg.start, minSeg)
  {
  }

  lemma SplitIntoChildren(seg: TSeg, parts: seq<string>, dur: real, minSeg: real)
    requires |parts| >= 2 && !AllShort(Children(parts, seg.start, dur, Total(parts), seg.language), minSeg)
    ensures SplitInto(seg, parts, dur, minSeg) == Children(parts, seg.start, dur, Total(parts), seg.language)
  {
  }

  /** A split replaces a segment by children that tile it exactly: the
      first starts at its start, each starts where the previous ended, the
      last ends at its end, and each lasts its share of the characters. */
  lemma SplitTiles(seg: TSeg, minSeg: real)
    requires seg.end > seg.start && Strip(seg.text) != [] && |Parts(seg)| >= 2
    requires !AllShort(Children(Parts(seg), seg.start, seg.end - seg.start, Total(Parts(seg)), seg.language), minSeg)
    ensures CharSum(Parts(seg)) > 0 && Total(Parts(seg)) == CharSum(Parts(seg)) as real
    ensures var cs := SplitSegment(seg, minSeg);
      && cs != [] && cs[|cs| - 1].end == seg.end
      && Tiled(cs, seg.start)
      && Shares(cs, Parts(seg), seg.end - seg.start, Total(Parts(seg)))
  {
    var parts := Parts(seg);
    FirstPartNonEmpty(seg);
    CharSumPositive(parts);
    SplitIsChildren(seg, minSeg);
    ChildrenCover(parts, seg.start, seg.end - seg.start, seg.language);
  }

  lemma FirstPartNonEmpty(seg: TSeg)
    requires Parts(seg) != []
    ensures Parts(seg)[0] != []
  {
    PartsShape(Strip(seg.text), 0);
  }

  /** Children sharing out all the parts' characters cover `dur` exactly. */
  lemma ChildrenCover(parts: seq<string>, cur: real, dur: real, language: string)
    requires parts != [] && CharSum(parts) > 0
    ensures var cs := Children(parts, cur, dur, CharSum(parts) as real, language);
      && cs != [] && cs[|cs| - 1].end == cur + dur
      && Tiled(cs, cur)
      && Shares(cs, parts, dur, CharSum(parts) as real)
  {
    var total := CharSum(parts) as real;
    ChildrenTiled(parts, cur, dur, total, language);
    ChildrenShares(parts, cur, dur, total, language);
    ChildrenEnd(parts, cur, dur, total, language);
    WholeShare(dur, total);
  }

  lemma WholeShare(dur: real, total: real)
    requires total > 0.0
    ensures dur * (total / total) == dur
  {
    assert total / total == 1.0;
  }

  lemma {:induction false} CharSumPositive(parts: seq<string>)
    requires parts != [] && |parts[0]| > 0
    ensures CharSum(parts) > 0
  {
  }

  /** The cases where a segment survives whole: it yields a single part,
      or all its children would be too short. A segment with no time or
      no text is dropped. */
  lemma SplitKeepsWhole(seg: TSeg, minSeg: real)
    ensures seg.end <= seg.start || Strip(seg.text) == [] ==> SplitSegment(seg, minSeg) == []
    ensures seg.end > seg.start && Strip(seg.text) != [] && |Parts(seg)| <= 1
      ==> SplitSegment(seg, minSeg) == [seg]
  {
  }

  // ----------------------------------------------------------- numbering

  /** The list after the final renumbering loop. */
  function Numbered(segs: seq<TSeg>): (r: seq<TSeg>)
  {
    seq(|segs|, k requires 0 <= k < |segs| => segs[k].(id := Some(k)))
  }

  method Renumber(segs: seq<TSeg>) returns (r: seq<TSeg>)
    ensures r == Numbered(segs)
  {
    r := segs;
    var newId := 0;
    while newId < |r|
      invariant 0 <= newId <= |r| == |segs|
      invariant forall k :: 0 <= k < newId ==> r[k] == segs[k].(id := Some(k))
      invariant forall k :: newId <= k < |r| ==> r[k] == segs[k]
    {
      r := r[newId := r[newId].(id := Some(newId))];
      newId := newId + 1;
    }
  }

  /** Numbering gives ids 0..n-1 in order and changes nothing else. */
  lemma NumberedSpec(segs: seq<TSeg>)
    ensures |Numbered(segs)| == |segs|
    ensures forall k :: 0 <= k < |segs| ==>
      Numbered(segs)[k].id == Some(k)
      && Numbered(segs)[k] == segs[k].(id := Numbered(segs)[k].id)
  {
  }

  /** `run_whisper` after the recogniser call. */
  function Transcribed(result: AsrResult, minSeg: real): Transcript
  {
    Transcript(Strip(result.text),
               Numbered(SplitAll(ChunkSegments(result.chunks, result.language, minSeg), minSeg)),
               result.language)
  }

  method RunWhisper(result: AsrResult, minSeg: real) returns (t: Transcript)
    ensures t == Transcribed(result, minSeg)
  {
    var textFull := Strip(result.text);
    var segments := FilterChunks(result.chunks, result.language, minSeg);
    segments := SplitKoreanEnds(segments, minSeg);
    segments := Renumber(segments);
    t := Transcript(textFull, segments, result.language);
  }
}
