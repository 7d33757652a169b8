/** final_mapping.py: the cut video's timeline [0, duration] is split into
    background-music groups at shot boundaries, keeping every group at least
    `min_bgm_sec` long, and the groups are paired with the generated music
    files by position. The ffmpeg padding, concatenation and mixing are not
    modelled; what is kept is which group gets which file and how long its
    clip is. */
module FinalMapping {
  import opened Common
  import opened Sorting

  const MIN_BGM_SEC: real := 15.0
  /** Groups and clips no longer than this are dropped. */
  const MIN_GROUP_SEC: real := 0.1

  // ---------------------------------------------------------- boundaries

  function Id(t: real): real { t }

  /** The starts of `shots` lying strictly inside (0, duration), in order. */
  function Candidates(shots: seq<Shot>, duration: real): (r: seq<real>)
    ensures |r| <= |shots|
  {
    if shots == [] then []
    else
      var t := shots[|shots| - 1].start;
      Candidates(shots[..|shots| - 1], duration) + (if 0.0 < t < duration then [t] else [])
  }

  /** The candidate boundaries: the starts of the shots after the first,
      strictly inside the video, sorted. */
  function Boundaries(shots: seq<Shot>, duration: real): seq<real>
  {
    if shots == [] then [] else SortBy(Candidates(shots[1..], duration), Id)
  }

  method CollectBoundaries(shots: seq<Shot>, duration: real) returns (bs: seq<real>)
    requires shots != []
    ensures bs == Boundaries(shots, duration)
  {
    var rest := shots[1..];
    var found: seq<real> := [];
    var i := 0;
    while i < |rest|
      invariant 0 <= i <= |rest|
      invariant found == Candidates(rest[..i], duration)
    {
      var t := rest[i].start;
      assert rest[..i + 1][..i] == rest[..i];
      if 0.0 < t && t < duration {
        found := found + [t];
      }
      i := i + 1;
    }
    assert rest[..i] == rest;
    bs := SortBy(found, Id);
  }

  lemma {:induction false} CandidatesMembers(shots: seq<Shot>, duration: real)
    ensures forall t :: t in Candidates(shots, duration) <==>
      (0.0 < t < duration && exists k :: 0 <= k < |shots| && shots[k].start == t)
    decreases |shots|
  {
    if shots != [] {
      var init := shots[..|shots| - 1];
      CandidatesMembers(init, duration);
      assert forall k :: 0 <= k < |init| ==> init[k] == shots[k];
      forall t | 0.0 < t < duration && (exists k :: 0 <= k < |shots| && shots[k].start == t)
        ensures t in Candidates(shots, duration)
      {
        var k :| 0 <= k < |shots| && shots[k].start == t;
        if k < |init| {
          assert init[k].start == t;
        }
      }
    }
  }

  /** The boundaries are sorted, lie strictly inside (0, duration), and are
      exactly the starts of the shots after the first that do. */
  lemma BoundariesShape(shots: seq<Shot>, duration: real)
    ensures var bs := Boundaries(shots, duration);
      && (forall i, j :: 0 <= i < j < |bs| ==> bs[i] <= bs[j])
      && |bs| <= |shots|
      && forall t :: t in bs <==>
           (0.0 < t < duration && exists k :: 1 <= k < |shots| && shots[k].start == t)
  {
    if shots != [] {
      var rest := shots[1..];
      var cs := Candidates(rest, duration);
      var bs := SortBy(cs, Id);
      CandidatesMembers(rest, duration);
      forall t ensures t in bs <==> t in cs {
        assert t in bs <==> t in multiset(bs);
        assert t in cs <==> t in multiset(cs);
      }
      assert forall k :: 1 <= k < |shots| ==> shots[k] == rest[k - 1];
    }
  }

  // -------------------------------------------------------------- groups

  /** The acceptance sweep from the running group start `cur`: a boundary
      is taken when it leaves at least `minBgm` seconds on both sides; the
      final group [cur, duration] closes the sweep when it is longer than
      0.1 s. */
  function GroupsFrom(cur: real, bs: seq<real>, duration: real, minBgm: real): seq<Interval>
    decreases |bs|
  {
    if bs == [] then
      (if duration - cur > MIN_GROUP_SEC then [Interval(cur, duration)] else [])
    else
      var t := bs[0];
      if t - cur >= minBgm && duration - t >= minBgm then
        [Interval(cur, t)] + GroupsFrom(t, bs[1..], duration, minBgm)
      else GroupsFrom(cur, bs[1..], duration, minBgm)
  }

  /** `compute_bgm_groups`. */
  function ComputedGroups(duration: real, table: ShotTable, minBgm: real): Result<seq<Interval>>
  {
    if duration <= 0.0 then Err(NonPositiveDuration(duration))
    else
      var shots := CollectShots(table);
      if shots == [] then Ok([Interval(0.0, duration)])
      else Ok(GroupsFrom(0.0, Boundaries(shots, duration), duration, minBgm))
  }

  method ComputeBgmGroups(duration: real, table: ShotTable, minBgm: real) returns (r: Result<seq<Interval>>)
    ensures r == ComputedGroups(duration, table, minBgm)
  {
    if duration <= 0.0 {
      return Err(NonPositiveDuration(duration));
    }
    var shots := CollectShots(table);
    if shots == [] {
      return Ok([Interval(0.0, duration)]);
    }
    var bs := CollectBoundaries(shots, duration);
    var groups := AcceptBoundaries(bs, duration, minBgm);
    r := Ok(groups);
  }

  /** The acceptance loop of `compute_bgm_groups` over the sorted
      boundaries, then the final group. */
  method AcceptBoundaries(bs: seq<real>, duration: real, minBgm: real) returns (groups: seq<Interval>)
    ensures groups == GroupsFrom(0.0, bs, duration, minBgm)
  {
    groups := [];
    var cur := 0.0;
    var i := 0;
    while i < |bs|
      invariant 0 <= i <= |bs|
      invariant groups + GroupsFrom(cur, bs[i..], duration, minBgm) == GroupsFrom(0.0, bs, duration, minBgm)
    {
      var t := bs[i];
      assert bs[i..][1..] == bs[i + 1..];
      if t - cur >= minBgm && duration - t >= minBgm {
        groups := groups + [Interval(cur, t)];
        cur := t;
      }
      i := i + 1;
    }
    if duration - cur > MIN_GROUP_SEC {
      groups := groups + [Interval(cur, duration)];
    }
  }

  /** Consecutive groups share their boundary. */
  ghost predicate Contiguous(gs: seq<Interval>)
  {
    forall k :: 0 <= k < |gs| - 1 ==> gs[k].e == gs[k + 1].s
  }

  /** With a minimum longer than 0.1 s, the sweep from `cur` yields nothing
      exactly when at most 0.1 s is left; otherwise its groups run
      contiguously from `cur` to the end of the video, each ends at an
      accepted boundary or at the end, and a single group is the whole
      rest. */
  lemma {:induction false} GroupsFromTile(cur: real, bs: seq<real>, duration: real, minBgm: real)
    requires minBgm > MIN_GROUP_SEC
    ensures var r := GroupsFrom(cur, bs, duration, minBgm);
      && (r == [] <==> duration - cur <= MIN_GROUP_SEC)
      && (r != [] ==> r[0].s == cur && r[|r| - 1].e == duration)
      && Contiguous(r)
      && (forall k :: 0 <= k < |r| - 1 ==> r[k].e in bs)
      && (|r| == 1 ==> r == [Interval(cur, duration)])
    decreases |bs|
  {
    if bs != [] {
      var t := bs[0];
      var rest := GroupsFrom(t, bs[1..], duration, minBgm);
      GroupsFromTile(t, bs[1..], duration, minBgm);
      GroupsFromTile(cur, bs[1..], duration, minBgm);
      if t - cur >= minBgm && duration - t >= minBgm {
        var r := [Interval(cur, t)] + rest;
        assert rest != [];
        assert forall k :: 1 <= k < |r| ==> r[k] == rest[k - 1];
      }
    }
  }

  /** Once a boundary has been accepted, every group, the last one
      included, is at least `minBgm` long. */
  lemma {:induction false} GroupsFromLong(cur: real, bs: seq<real>, duration: real, minBgm: real)
    requires minBgm > MIN_GROUP_SEC && duration - cur >= minBgm
    ensures forall g :: g in GroupsFrom(cur, bs, duration, minBgm) ==> Len(g) >= minBgm
    decreases |bs|
  {
    if bs != [] {
      var t := bs[0];
      if t - cur >= minBgm && duration - t >= minBgm {
        GroupsFromLong(t, bs[1..], duration, minBgm);
        var rest := GroupsFrom(t, bs[1..], duration, minBgm);
        var r := [Interval(cur, t)] + rest;
        assert r == GroupsFrom(cur, bs, duration, minBgm);
      } else {
        GroupsFromLong(cur, bs[1..], duration, minBgm);
      }
    }
  }

  lemma {:induction false} GroupsFromSplit(cur: real, bs: seq<real>, duration: real, minBgm: real)
    requires minBgm > MIN_GROUP_SEC
    requires |GroupsFrom(cur, bs, duration, minBgm)| >= 2
    ensures forall g :: g in GroupsFrom(cur, bs, duration, minBgm) ==> Len(g) >= minBgm
    decreases |bs|
  {
    var t := bs[0];
    if t - cur >= minBgm && duration - t >= minBgm {
      GroupsFromLong(cur, bs, duration, minBgm);
    } else {
      GroupsFromSplit(cur, bs[1..], duration, minBgm);
    }
  }

  /** `compute_bgm_groups`' promises: an error for a non-positive duration;
      otherwise groups that start at 0, run contiguously to the end of the
      video (or no group at all when the video is at most 0.1 s long and has
      shots), each ending at the end or at a shot start; and when there is
      more than one group, every group is at least `minBgm` long. */
  lemma GroupsCoverVideo(duration: real, table: ShotTable, minBgm: real)
    requires minBgm > MIN_GROUP_SEC
    ensures duration <= 0.0 <==> ComputedGroups(duration, table, minBgm).Err?
    ensures ComputedGroups(duration, table, minBgm).Ok? ==>
      var gs := ComputedGroups(duration, table, minBgm).value;
      && (gs != [] ==> gs[0].s == 0.0 && gs[|gs| - 1].e == duration)
      && (gs == [] ==> duration <= MIN_GROUP_SEC)
      && Contiguous(gs)
      && (forall k :: 0 <= k < |gs| - 1 ==>
            exists j :: 1 <= j < |CollectShots(table)| && CollectShots(table)[j].start == gs[k].e)
      && (|gs| >= 2 ==> forall k :: 0 <= k < |gs| ==> Len(gs[k]) >= minBgm)
  {
    if duration > 0.0 {
      var shots := CollectShots(table);
      if shots != [] {
        var bs := Boundaries(shots, duration);
        GroupsFromTile(0.0, bs, duration, minBgm);
        BoundariesShape(shots, duration);
        if |GroupsFrom(0.0, bs, duration, minBgm)| >= 2 {
          GroupsFromSplit(0.0, bs, duration, minBgm);
        }
      }
    }
  }

  /** With no shot boundary far enough from both ends, the whole video is
      one group. */
  lemma NoBoundaryOneGroup(duration: real, table: ShotTable)
    requires duration > MIN_GROUP_SEC
    requires duration < 2.0 * MIN_BGM_SEC
    ensures ComputedGroups(duration, table, MIN_BGM_SEC) == Ok([Interval(0.0, duration)])
  {
    var shots := CollectShots(table);
    if shots != [] {
      var bs := Boundaries(shots, duration);
      NoneAccepted(bs, duration);
    }
  }

  lemma {:induction false} NoneAccepted(bs: seq<real>, duration: real)
    requires MIN_GROUP_SEC < duration < 2.0 * MIN_BGM_SEC
    ensures GroupsFrom(0.0, bs, duration, MIN_BGM_SEC) == [Interval(0.0, duration)]
    decreases |bs|
  {
    if bs != [] {
      NoneAccepted(bs[1..], duration);
    }
  }

  // ------------------------------------------------------------- pairing

  /** A padded music clip: the group (and file) position and its length. */
  datatype Clip = Clip(index: nat, length: real)

  function GroupLen(g: Interval): real { Max(g.e - g.s, 0.0) }

  /** The clips made from the first `n` group/file pairs: a pair is skipped
      when its group is at most 0.1 s long or its file does not exist. */
  function ClipsUpTo(groups: seq<Interval>, present: seq<bool>, n: nat): seq<Clip>
    requires n <= |groups| && n <= |present|
  {
    if n == 0 then []
    else
      var i := n - 1;
      ClipsUpTo(groups, present, i)
        + (if GroupLen(groups[i]) > MIN_GROUP_SEC && present[i] then [Clip(i, GroupLen(groups[i]))] else [])
  }

  function PairCount(groups: seq<Interval>, present: seq<bool>): nat
  {
    if |groups| <= |present| then |groups| else |present|
  }

  /** The clips of `build_full_bgm_track`, or `None` where it returns
      False before mixing: no music files, no pair, or every pair skipped. */
  function PaddedClips(groups: seq<Interval>, present: seq<bool>): Option<seq<Clip>>
  {
    if present == [] then None
    else
      var clips := ClipsUpTo(groups, present, PairCount(groups, present));
      if clips == [] then None else Some(clips)
  }

  method PadClips(groups: seq<Interval>, present: seq<bool>) returns (r: Option<seq<Clip>>)
    ensures r == PaddedClips(groups, present)
  {
    if present == [] {
      return None;
    }
    var n := if |groups| <= |present| then |groups| else |present|;
    if n == 0 {
      return None;
    }
    var clips: seq<Clip> := [];
    var i := 0;
    while i < n
      invariant 0 <= i <= n
      invariant clips == ClipsUpTo(groups, present, i)
    {
      var groupLen := Max(groups[i].e - groups[i].s, 0.0);
      if groupLen > MIN_GROUP_SEC && present[i] {
        clips := clips + [Clip(i, groupLen)];
      }
      i := i + 1;
    }
    if clips == [] {
      return None;
    }
    r := Some(clips);
  }

  /** Group i gets a clip exactly when it is among the first
      min(|groups|, |files|), is longer than 0.1 s and its file exists; the
      clip has the group's length, and clips keep the group order. */
  lemma {:induction false} ClipsChosen(groups: seq<Interval>, present: seq<bool>, n: nat)
    requires n <= |groups| && n <= |present|
    ensures var cs := ClipsUpTo(groups, present, n);
      && (forall c :: c in cs ==>
            c.index < n && present[c.index] && c.length == GroupLen(groups[c.index]) && c.length > MIN_GROUP_SEC)
      && (forall i :: 0 <= i < n && present[i] && GroupLen(groups[i]) > MIN_GROUP_SEC ==>
            Clip(i, GroupLen(groups[i])) in cs)
      && (forall a, b :: 0 <= a < b < |cs| ==> cs[a].index < cs[b].index)
  {
    if n > 0 {
      ClipsChosen(groups, present, n - 1);
    }
  }

  /** No music file, or no group, means no track. */
  lemma NoPairNoTrack(groups: seq<Interval>, present: seq<bool>)
    ensures present == [] || groups == [] ==> PaddedClips(groups, present) == None
    ensures PaddedClips(groups, present).Some? ==>
      |PaddedClips(groups, present).value| <= PairCount(groups, present)
  {
    if present != [] {
      ClipsLength(groups, present, PairCount(groups, present));
    }
  }

  lemma {:induction false} ClipsLength(groups: seq<Interval>, present: seq<bool>, n: nat)
    requires n <= |groups| && n <= |present|
    ensures |ClipsUpTo(groups, present, n)| <= n
  {
    if n > 0 {
      ClipsLength(groups, present, n - 1);
    }
  }
}
