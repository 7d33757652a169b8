/** Shared value types of the editing pipeline: optional values, errors,
    time intervals, transcript segments and shots, and the few string
    helpers (ASCII whitespace stripping, lower-casing, substring search)
    that several stages use. */
module Common {
  import opened Sorting

  datatype Option<+T> = None | Some(value: T)

  /** The exceptions the pipeline raises, by kind. */
  datatype Error =
    | NonPositiveDuration(duration: real)  // ValueError on video.duration <= 0
    | IndexError                           // intervals[0] on an empty list
    | NoEditableContent                    // empty keep list after cutting
    | NoFilters                            // RuntimeError: no drawtext filter produced

  datatype Result<+T> = Ok(value: T) | Err(error: Error)

  /** A closed time span in seconds. Nothing forces start <= end: the merger
      accepts inverted pairs and normalises them itself. */
  datatype Interval = Interval(s: real, e: real)

  function Len(iv: Interval): real { iv.e - iv.s }

  function Max(a: real, b: real): real { if a >= b then a else b }
  function Min(a: real, b: real): real { if a <= b then a else b }

  /** A value stored under a key of a segment's "features" mapping. */
  datatype Feature = Num(n: real) | Text(t: string)

  /** A transcript segment as stored in the analysis document. A time that
      `float()` cannot convert is `None`; a missing key has already been
      replaced by the default 0.0. */
  datatype Segment = Segment(
    start: Option<real>,
    end: Option<real>,
    text: string,
    language: Option<string>,
    emotion: Option<string>,
    emotionScore: Option<real>,
    features: map<string, Feature>)

  /** A shot: the first element of a shot key's list in the document. */
  datatype Shot = Shot(start: real, end: real, probability: real, segments: seq<Segment>)

  /** The values of the document's "shots" dictionary, in key order; an
      empty list is `None`. */
  type ShotTable = seq<Option<Shot>>

  function ShotStart(s: Shot): real { s.start }

  /** The first shot of every non-empty key, in key order. */
  function PresentShots(table: ShotTable): (r: seq<Shot>)
    ensures |r| <= |table|
    ensures forall k :: 0 <= k < |table| && table[k].Some? ==> table[k].value in r
    ensures forall sh :: sh in r ==> Some(sh) in table
  {
    if table == [] then []
    else
      var rest := PresentShots(table[1..]);
      assert forall k :: 1 <= k < |table| ==> table[k] == table[1..][k - 1];
      match table[0]
      case None => rest
      case Some(sh) => [sh] + rest
  }

  /** The positions of the non-empty keys, in key order. */
  function PresentKeys(table: ShotTable): (idx: seq<nat>)
    ensures forall i :: 0 <= i < |idx| ==> idx[i] < |table|
    ensures forall i, j :: 0 <= i < j < |idx| ==> idx[i] < idx[j]
  {
    if table == [] then []
    else
      var rest := PresentKeys(table[1..]);
      var shifted := Shift(rest);
      if table[0].Some? then [0] + shifted else shifted
  }

  function Shift(xs: seq<nat>): (r: seq<nat>)
    ensures |r| == |xs| && forall i :: 0 <= i < |xs| ==> r[i] == xs[i] + 1
  {
    seq(|xs|, i requires 0 <= i < |xs| => xs[i] + 1)
  }

  lemma {:induction false} PresentKeysSelect(table: ShotTable)
    ensures var idx, r := PresentKeys(table), PresentShots(table);
      |idx| == |r| && forall i :: 0 <= i < |idx| ==> table[idx[i]] == Some(r[i])
  {
    if table != [] {
      var tail := table[1..];
      PresentKeysSelect(tail);
      var rest, rs := PresentKeys(tail), PresentShots(tail);
      var shifted := Shift(rest);
      forall i | 0 <= i < |rest| ensures table[shifted[i]] == Some(rs[i]) {
        assert table[shifted[i]] == tail[rest[i]];
      }
      match table[0]
      case None =>
        assert PresentKeys(table) == shifted && PresentShots(table) == rs;
      case Some(sh) =>
        var idx, r := [0] + shifted, [sh] + rs;
        assert PresentKeys(table) == idx && PresentShots(table) == r;
        forall i | 1 <= i < |idx| ensures table[idx[i]] == Some(r[i]) {
          assert idx[i] == shifted[i - 1] && r[i] == rs[i - 1];
        }
    }
  }

  lemma {:induction false} PresentKeysCover(table: ShotTable)
    ensures forall k :: 0 <= k < |table| && table[k].Some? ==> k in PresentKeys(table)
  {
    if table != [] {
      var tail := table[1..];
      PresentKeysCover(tail);
      var rest := PresentKeys(tail);
      var shifted := Shift(rest);
      assert PresentKeys(table) == (if table[0].Some? then [0] + shifted else shifted);
      forall k | 1 <= k < |table| && table[k].Some? ensures k in shifted {
        assert tail[k - 1] == table[k];
        var i :| 0 <= i < |rest| && rest[i] == k - 1;
        assert shifted[i] == k;
      }
    }
  }

  /** The present shots are exactly the entries of the non-empty keys, one
      per key and in key order. */
  lemma PresentShotsIndexed(table: ShotTable)
    ensures var idx, r := PresentKeys(table), PresentShots(table);
      && |idx| == |r|
      && (forall i, j :: 0 <= i < j < |idx| ==> idx[i] < idx[j])
      && (forall i :: 0 <= i < |idx| ==> idx[i] < |table| && table[idx[i]] == Some(r[i]))
      && (forall k :: 0 <= k < |table| && table[k].Some? ==> k in idx)
  {
    PresentKeysSelect(table);
    PresentKeysCover(table);
  }

  /** `_collect_shots` (the same function is written out in hardcut.py and
      final_mapping.py, and `_extract_shots` of bgm_create.py keeps the same
      list): the present shots, stably sorted by start. */
  function CollectShots(table: ShotTable): (r: seq<Shot>)
    ensures SortedBy(r, ShotStart) && multiset(r) == multiset(PresentShots(table))
  {
    SortBy(PresentShots(table), ShotStart)
  }

  /** `_collect_segments`: every present shot's segments, in key order. */
  function CollectSegments(table: ShotTable): seq<Segment>
  {
    if table == [] then []
    else
      match table[0]
      case None => CollectSegments(table[1..])
      case Some(sh) => sh.segments + CollectSegments(table[1..])
  }

  /** The segments of the shots, shot after shot. */
  function ShotSegments(shots: seq<Shot>): seq<Segment>
  {
    if shots == [] then [] else ShotSegments(shots[..|shots| - 1]) + shots[|shots| - 1].segments
  }

  lemma {:induction false} ShotSegmentsConcat(a: seq<Shot>, b: seq<Shot>)
    ensures ShotSegments(a + b) == ShotSegments(a) + ShotSegments(b)
    decreases |b|
  {
    if b == [] {
      assert a + b == a;
    } else {
      var n := |b| - 1;
      assert (a + b)[..|a + b| - 1] == a + b[..n];
      ShotSegmentsConcat(a, b[..n]);
    }
  }

  /** `_collect_segments` walks the shots in key order: its result is the
      segments of the present shots, shot after shot. */
  lemma {:induction false} CollectSegmentsInKeyOrder(table: ShotTable)
    ensures CollectSegments(table) == ShotSegments(PresentShots(table))
  {
    if table != [] {
      CollectSegmentsInKeyOrder(table[1..]);
      var rest := PresentShots(table[1..]);
      match table[0]
      case None =>
        assert PresentShots(table) == rest;
      case Some(sh) =>
        assert PresentShots(table) == [sh] + rest;
        assert CollectSegments(table) == sh.segments + ShotSegments(rest);
        ShotSegmentsConcat([sh], rest);
        assert ShotSegments([sh]) == ShotSegments([]) + sh.segments;
    }
  }

  /** Where the last element of `xs` sits in a permutation `ys` of it, and
      what is left of both once it is taken out. */
  lemma MatchLast<T>(xs: seq<T>, ys: seq<T>) returns (j: nat)
    requires xs != [] && multiset(xs) == multiset(ys)
    ensures j < |ys| && ys[j] == xs[|xs| - 1]
    ensures ys == ys[..j] + ([ys[j]] + ys[j + 1..])
    ensures multiset(xs[..|xs| - 1]) == multiset(ys[..j] + ys[j + 1..])
  {
    var n := |xs| - 1;
    assert xs == xs[..n] + [xs[n]];
    assert xs[n] in multiset(ys);
    j :| 0 <= j < |ys| && ys[j] == xs[n];
    assert ys[j..] == [ys[j]] + ys[j + 1..];
    assert ys == ys[..j] + ys[j..];
    var a, b := multiset(xs[..n]), multiset(ys[..j] + ys[j + 1..]);
    assert a + multiset{xs[n]} == b + multiset{xs[n]};
    assert a == a + multiset{xs[n]} - multiset{xs[n]};
  }

  lemma ShotSegmentsSplit(pre: seq<Shot>, x: Shot, post: seq<Shot>)
    ensures multiset(ShotSegments(pre + ([x] + post)))
         == multiset(ShotSegments(pre + post)) + multiset(x.segments)
  {
    ShotSegmentsConcat(pre, [x] + post);
    ShotSegmentsConcat([x], post);
    ShotSegmentsConcat(pre, post);
    assert ShotSegments([x]) == ShotSegments([]) + x.segments;
  }

  /** Reordering the shots reorders the flat segment list but keeps its
      contents. */
  lemma {:induction false} ShotSegmentsPermutation(xs: seq<Shot>, ys: seq<Shot>)
    requires multiset(xs) == multiset(ys)
    ensures multiset(ShotSegments(xs)) == multiset(ShotSegments(ys))
    decreases |xs|
  {
    if xs == [] {
      assert |ys| == |multiset(ys)| == 0;
    } else {
      var n := |xs| - 1;
      var x := xs[n];
      assert xs == xs[..n] + [x];
      var j := MatchLast(xs, ys);
      var pre, post := ys[..j], ys[j + 1..];
      ShotSegmentsPermutation(xs[..n], pre + post);
      ShotSegmentsSplit(pre, x, post);
    }
  }

  /** hardcut.py derives its cut plan from the segments in key order and
      its timeline from the segments in start order: the two lists hold the
      same segments. */
  lemma CollectSegmentsSameBag(table: ShotTable)
    ensures multiset(CollectSegments(table)) == multiset(ShotSegments(CollectShots(table)))
  {
    CollectSegmentsInKeyOrder(table);
    ShotSegmentsPermutation(PresentShots(table), CollectShots(table));
  }

  /** The total length of a list of intervals. */
  function SumLen(ivs: seq<Interval>): real
  {
    if ivs == [] then 0.0 else Len(ivs[0]) + SumLen(ivs[1..])
  }

  lemma {:induction false} SumLenAppend(ivs: seq<Interval>, iv: Interval)
    ensures SumLen(ivs + [iv]) == SumLen(ivs) + Len(iv)
  {
    if ivs != [] {
      assert (ivs + [iv])[1..] == ivs[1..] + [iv];
      SumLenAppend(ivs[1..], iv);
    }
  }

  lemma {:induction false} SumLenConcat(a: seq<Interval>, b: seq<Interval>)
    ensures SumLen(a + b) == SumLen(a) + SumLen(b)
  {
    if a != [] {
      assert (a + b)[1..] == a[1..] + b;
      SumLenConcat(a[1..], b);
    } else {
      assert a + b == b;
    }
  }

  lemma {:induction false} SumLenNonneg(ivs: seq<Interval>)
    requires forall k :: 0 <= k < |ivs| ==> Len(ivs[k]) >= 0.0
    ensures SumLen(ivs) >= 0.0
  {
    if ivs != [] {
      assert forall k :: 0 <= k < |ivs| - 1 ==> ivs[1..][k] == ivs[k + 1];
      SumLenNonneg(ivs[1..]);
    }
  }

  // ---------------------------------------------------------------- strings

  /** The ASCII whitespace characters Python's `str.strip` and `str.split`
      remove. */
  predicate IsSpace(c: char)
  {
    c == ' ' || c == '\t' || c == '\n' || c == '\r' || c == '\U{B}' || c == '\U{C}'
  }

  /** The first position at or after `i` that does not hold whitespace,
      or `|s|` when there is none. */
  function SkipSpaces(s: string, i: nat): (r: nat)
    requires i <= |s|
    ensures i <= r <= |s|
    ensures r < |s| ==> !IsSpace(s[r])
    ensures forall k :: i <= k < r ==> IsSpace(s[k])
    decreases |s| - i
  {
    if i == |s| || !IsSpace(s[i]) then i else SkipSpaces(s, i + 1)
  }

  /** The end of `s[lo..hi]` once its trailing whitespace is dropped. */
  function TrimEnd(s: string, lo: nat, hi: nat): (r: nat)
    requires lo <= hi <= |s|
    ensures lo <= r <= hi
    ensures r > lo ==> !IsSpace(s[r - 1])
    ensures forall k :: r <= k < hi ==> IsSpace(s[k])
    decreases hi
  {
    if hi == lo || !IsSpace(s[hi - 1]) then hi else TrimEnd(s, lo, hi - 1)
  }

  /** `str.strip()`: drop leading and trailing whitespace. */
  function Strip(s: string): (r: string)
    ensures r != [] ==> !IsSpace(r[0]) && !IsSpace(r[|r| - 1])
    ensures r == [] <==> forall i :: 0 <= i < |s| ==> IsSpace(s[i])
  {
    var a := SkipSpaces(s, 0);
    s[a..TrimEnd(s, a, |s|)]
  }

  /** What `str.strip` removes is whitespace at the two ends, and only
      that: the result is one slice of the text, with nothing but
      whitespace before and after it. */
  lemma StripSlice(s: string)
    ensures exists a, b :: 0 <= a <= b <= |s| && Strip(s) == s[a..b]
                           && (forall i :: 0 <= i < a ==> IsSpace(s[i]))
                           && (forall i :: b <= i < |s| ==> IsSpace(s[i]))
  {
    var a := SkipSpaces(s, 0);
    var b := TrimEnd(s, a, |s|);
    assert Strip(s) == s[a..b];
  }

  function LowerChar(c: char): char
  {
    if 'A' <= c <= 'Z' then (c as int + 32) as char else c
  }

  /** `str.lower()` on ASCII letters. */
  function Lower(s: string): (r: string)
    ensures |r| == |s| && forall i :: 0 <= i < |s| ==> r[i] == LowerChar(s[i])
  {
    seq(|s|, i requires 0 <= i < |s| => LowerChar(s[i]))
  }

  predicate StartsWith(s: string, prefix: string)
  {
    |prefix| <= |s| && s[..|prefix|] == prefix
  }

  /** Python's `sub in s`. */
  predicate Contains(s: string, sub: string)
  {
    exists i :: 0 <= i <= |s| - |sub| && OccursAt(s, sub, i)
  }

  predicate OccursAt(s: string, sub: string, i: int)
  {
    0 <= i <= |s| - |sub| && s[i..i + |sub|] == sub
  }
}
