/** Audio_Features.py: the bucketing that turns a segment's measured audio
    statistics into the descriptive tags the music prompt and the subtitle
    style read (tone, volume, arrangement density, rhythm), and the snapping
    of an estimated tempo to a multiple of ten between 60 and 130. The signal
    processing that produces the statistics is not modelled: its numbers are
    inputs. */
module AudioFeatures {
  import opened Common

  /** `d.get(key, default)` on a dictionary of numbers. */
  function Get(d: map<string, real>, key: string, default: real): real
  {
    if key in d then d[key] else default
  }

  // ------------------------------------------------------------------ tone

  datatype Tone = Dark | Warm | Neutral | Bright

  /** The value stored under "tone_tag". */
  function ToneName(t: Tone): string
  {
    match t
    case Dark => "dark"
    case Warm => "warm"
    case Neutral => "neutral"
    case Bright => "bright"
  }

  /** The tones from darkest (0) to brightest (3). */
  function Level(t: Tone): (r: nat)
    ensures r <= 3
  {
    match t
    case Dark => 0
    case Warm => 1
    case Neutral => 2
    case Bright => 3
  }

  /** The frequency scale: the sample rate, or 16 kHz when none (or a
      non-positive one) is given. */
  function Scale(sr: Option<int>): (r: real)
    ensures r > 0.0
  {
    if sr.None? || sr.value <= 0 then 16000.0 else sr.value as real
  }

  /** A threshold given in hertz at 16 kHz, moved to the scale. */
  function Scaled(hz: real, scale: real): real
  {
    hz * (scale / 16000.0)
  }

  /** The tone the spectral centroid alone gives. */
  function BaseTone(centroid: real, scale: real): Tone
  {
    if centroid < Scaled(1500.0, scale) then Dark
    else if centroid < Scaled(2500.0, scale) then Warm
    else if centroid < Scaled(3500.0, scale) then Neutral
    else Bright
  }

  /** One level darker; dark stays dark. */
  function Darker(t: Tone): Tone
  {
    match t
    case Bright => Neutral
    case Neutral => Warm
    case Warm => Dark
    case Dark => Dark
  }

  /** One level brighter; bright stays bright. */
  function Brighter(t: Tone): Tone
  {
    match t
    case Dark => Warm
    case Warm => Neutral
    case Neutral => Bright
    case Bright => Bright
  }

  /** A low rolloff or little high-frequency energy darkens the tone. */
  predicate Dulled(rolloff: real, hf: real, scale: real)
  {
    rolloff < Scaled(3000.0, scale) || hf < 0.12
  }

  /** A high rolloff or much high-frequency energy brightens it. */
  predicate Brightened(rolloff: real, hf: real, scale: real)
  {
    rolloff > Scaled(5000.0, scale) || hf > 0.25
  }

  function ToneOf(centroid: real, rolloff: real, hf: real, scale: real): Tone
  {
    var t := BaseTone(centroid, scale);
    var t' := if Dulled(rolloff, hf, scale) then Darker(t) else t;
    if Brightened(rolloff, hf, scale) then Brighter(t') else t'
  }

  /** `bucketize_tone`: missing statistics read as 0. */
  function BucketizeTone(spectral: map<string, real>, sr: Option<int>): Tone
  {
    ToneOf(Get(spectral, "centroid_hz", 0.0), Get(spectral, "rolloff_hz", 0.0),
           Get(spectral, "hf_ratio", 0.0), Scale(sr))
  }

  function Clamp3(n: int): nat
  {
    if n < 0 then 0 else if n > 3 then 3 else n
  }

  /** The tone is the centroid's band, one level down when dulled, then one
      level up when brightened, clamped to the four tones at each step. */
  lemma ToneLevel(centroid: real, rolloff: real, hf: real, scale: real)
    requires scale > 0.0
    ensures var base := if centroid < Scaled(1500.0, scale) then 0
                        else if centroid < Scaled(2500.0, scale) then 1
                        else if centroid < Scaled(3500.0, scale) then 2
                        else 3;
      var down := if Dulled(rolloff, hf, scale) then 1 else 0;
      var up := if Brightened(rolloff, hf, scale) then 1 else 0;
      Level(ToneOf(centroid, rolloff, hf, scale)) == Clamp3(Clamp3(base - down) + up)
  {
  }

  lemma BaseToneMonotone(c1: real, c2: real, scale: real)
    requires scale > 0.0 && c1 <= c2
    ensures Level(BaseTone(c1, scale)) <= Level(BaseTone(c2, scale))
  {
  }

  /** With the rolloff and high-frequency ratio fixed, a higher centroid
      never gives a darker tone. */
  lemma ToneMonotone(c1: real, c2: real, rolloff: real, hf: real, scale: real)
    requires scale > 0.0 && c1 <= c2
    ensures Level(ToneOf(c1, rolloff, hf, scale)) <= Level(ToneOf(c2, rolloff, hf, scale))
  {
    BaseToneMonotone(c1, c2, scale);
  }

  lemma ScaledCompare(x: real, hz: real, scale: real)
    requires scale > 0.0
    ensures x < Scaled(hz, scale) <==> x * (16000.0 / scale) < hz
    ensures x > Scaled(hz, scale) <==> x * (16000.0 / scale) > hz
  {
    var f := 16000.0 / scale;
    assert f > 0.0;
    assert Scaled(hz, scale) * f == hz;
  }

  /** Only frequencies relative to the sample rate matter: bucketing at
      any scale is bucketing at 16 kHz of the frequencies moved to 16 kHz. */
  lemma ToneScaleFree(centroid: real, rolloff: real, hf: real, scale: real)
    requires scale > 0.0
    ensures ToneOf(centroid, rolloff, hf, scale)
         == ToneOf(centroid * (16000.0 / scale), rolloff * (16000.0 / scale), hf, 16000.0)
  {
    ScaledCompare(centroid, 1500.0, scale);
    ScaledCompare(centroid, 2500.0, scale);
    ScaledCompare(centroid, 3500.0, scale);
    ScaledCompare(rolloff, 3000.0, scale);
    ScaledCompare(rolloff, 5000.0, scale);
  }

  // ----------------------------------------------- arrangement and volume

  datatype Volume = VeryGentle | Gentle | ModerateBackground | Noticeable
  datatype Arrangement = Thin | Light | Fuller
  datatype Rhythm = Minimal | Simple | ModerateRhythm

  function VolumeHint(v: Volume): string
  {
    match v
    case VeryGentle => "very gentle background"
    case Gentle => "gentle background"
    case ModerateBackground => "moderate background"
    case Noticeable => "noticeable but controlled"
  }

  function ArrangementTag(a: Arrangement): string
  {
    match a
    case Thin => "thin arrangement"
    case Light => "light arrangement"
    case Fuller => "fuller arrangement"
  }

  function RhythmTag(r: Rhythm): string
  {
    match r
    case Minimal => "minimal rhythm, low syncopation"
    case Simple => "simple rhythm"
    case ModerateRhythm => "moderate rhythm"
  }

  /** Volume from quietest (0) to loudest (3). */
  function Loudness(v: Volume): nat
  {
    match v
    case VeryGentle => 0
    case Gentle => 1
    case ModerateBackground => 2
    case Noticeable => 3
  }

  /** Rhythm from sparsest (0) to busiest (2). */
  function Busyness(r: Rhythm): nat
  {
    match r
    case Minimal => 0
    case Simple => 1
    case ModerateRhythm => 2
  }

  datatype Density = Density(arrangement: Arrangement, rhythm: Rhythm, volume: Volume)

  function VolumeBand(rmsDb: real): Volume
  {
    if rmsDb <= -24.0 then VeryGentle
    else if rmsDb <= -20.0 then Gentle
    else if rmsDb <= -16.0 then ModerateBackground
    else Noticeable
  }

  /** Dense speech: the voice covers most of the window, or the words come
      fast. */
  predicate Crowded(vad: real, wps: Option<real>)
  {
    vad >= 0.7 || (wps.Some? && wps.value >= 3.5)
  }

  function BaseArrangement(vad: real, wps: Option<real>): Arrangement
  {
    if Crowded(vad, wps) then Thin
    else if vad >= 0.4 then Light
    else Fuller
  }

  function RhythmOf(zcr: real, vad: real, wps: Option<real>): Rhythm
  {
    if wps.Some? then
      if wps.value >= 3.5 then Minimal
      else if wps.value >= 2.0 then Simple
      else ModerateRhythm
    else if vad >= 0.6 || zcr <= 0.05 then Minimal
    else if vad >= 0.3 then Simple
    else ModerateRhythm
  }

  predicate LowEmotion(emo: Option<real>) { emo.Some? && emo.value < 0.4 }
  predicate HighEmotion(emo: Option<real>) { emo.Some? && emo.value > 0.75 }

  function DensityOf(rmsDb: real, zcr: real, vad: real, wps: Option<real>, emo: Option<real>): Density
  {
    var volume := VolumeBand(rmsDb);
    var arrangement := BaseArrangement(vad, wps);
    var rhythm := RhythmOf(zcr, vad, wps);
    if LowEmotion(emo) then Density(Thin, rhythm, VeryGentle)
    else if HighEmotion(emo) && arrangement != Fuller then Density(Light, rhythm, volume)
    else Density(arrangement, rhythm, volume)
  }

  /** `bucketize_arrangement_density`: a missing rms level reads as -80 dB,
      a missing zero-crossing rate or voice ratio as 0. */
  function BucketizeDensity(basic: map<string, real>, wps: Option<real>, emo: Option<real>): Density
  {
    DensityOf(Get(basic, "rms_db", -80.0), Get(basic, "zcr", 0.0), Get(basic, "vad_ratio", 0.0), wps, emo)
  }

  /** The arrangement: thin under a low emotion score, or for crowded
      speech unless a high score lightens it; light for moderately voiced
      windows, or a high score on anything not fuller; fuller otherwise. */
  lemma ArrangementSpec(rmsDb: real, zcr: real, vad: real, wps: Option<real>, emo: Option<real>)
    ensures var a := DensityOf(rmsDb, zcr, vad, wps, emo).arrangement;
      && (a == Thin <==> LowEmotion(emo) || (Crowded(vad, wps) && !HighEmotion(emo)))
      && (a == Fuller <==> !LowEmotion(emo) && !Crowded(vad, wps) && vad < 0.4)
      && (a == Light <==>
            !LowEmotion(emo) && (vad >= 0.4 || Crowded(vad, wps)) && (HighEmotion(emo) || !Crowded(vad, wps)))
  {
  }

  /** The volume: very gentle under a low emotion score, otherwise the
      band of the rms level; louder windows never get a quieter hint. */
  lemma VolumeSpec(rmsDb: real, zcr: real, vad: real, wps: Option<real>, emo: Option<real>)
    ensures var v := DensityOf(rmsDb, zcr, vad, wps, emo).volume;
      && (v == VeryGentle <==> LowEmotion(emo) || rmsDb <= -24.0)
      && (!LowEmotion(emo) ==> v == VolumeBand(rmsDb))
  {
  }

  lemma VolumeMonotone(db1: real, db2: real)
    requires db1 <= db2
    ensures Loudness(VolumeBand(db1)) <= Loudness(VolumeBand(db2))
  {
  }

  /** The rhythm ignores the emotion score; given a speech rate it depends
      on that alone, and faster speech never gets a busier rhythm. */
  lemma RhythmSpec(zcr: real, vad: real, wps: Option<real>, emo: Option<real>, zcr': real, vad': real, rmsDb: real)
    ensures DensityOf(rmsDb, zcr, vad, wps, emo).rhythm == RhythmOf(zcr, vad, wps)
    ensures wps.Some? ==> RhythmOf(zcr, vad, wps) == RhythmOf(zcr', vad', wps)
  {
  }

  lemma RhythmMonotone(w1: real, w2: real, zcr: real, vad: real)
    requires w1 <= w2
    ensures Busyness(RhythmOf(zcr, vad, Some(w2))) <= Busyness(RhythmOf(zcr, vad, Some(w1)))
  {
  }

  // ----------------------------------------------------------------- tempo

  /** The tempi a positive estimate is snapped to. */
  const CHOICES: seq<real> := [60.0, 70.0, 80.0, 90.0, 100.0, 110.0, 120.0, 130.0]

  function Abs(x: real): real { if x < 0.0 then -x else x }

  function Dist(bpm: real, i: nat): real
    requires i < |CHOICES|
  {
    Abs(CHOICES[i] - bpm)
  }

  /** `i` is the first index of a nearest choice (what `argmin` returns). */
  predicate FirstNearest(bpm: real, i: nat)
  {
    && i < |CHOICES|
    && (forall j :: 0 <= j < |CHOICES| ==> Dist(bpm, i) <= Dist(bpm, j))
    && (forall j :: 0 <= j < i ==> Dist(bpm, j) > Dist(bpm, i))
  }

  /** The scan of `argmin` from index `i`, the best so far being `best`. */
  function ArgMinFrom(bpm: real, i: nat, best: nat): (r: nat)
    requires best < i <= |CHOICES|
    requires forall j :: 0 <= j < i ==> Dist(bpm, best) <= Dist(bpm, j)
    requires forall j :: 0 <= j < best ==> Dist(bpm, j) > Dist(bpm, best)
    ensures FirstNearest(bpm, r)
    decreases |CHOICES| - i
  {
    if i == |CHOICES| then best
    else if Dist(bpm, i) < Dist(bpm, best) then ArgMinFrom(bpm, i + 1, i)
    else ArgMinFrom(bpm, i + 1, best)
  }

  /** The tempo step of `estimate_tempo`: a positive estimate becomes the
      nearest choice, ties going to the lower one; 0 stays 0. */
  function SnapBpm(bpm: real): real
  {
    if bpm > 0.0 then CHOICES[ArgMinFrom(bpm, 1, 0)] else bpm
  }

  /** `estimate_tempo`: 0 for empty audio, else the snapped median. */
  function EstimateTempo(audioEmpty: bool, median: real): real
  {
    if audioEmpty then 0.0 else SnapBpm(median)
  }

  lemma FirstNearestUnique(bpm: real, a: nat, b: nat)
    requires FirstNearest(bpm, a) && FirstNearest(bpm, b)
    ensures a == b
  {
    assert Dist(bpm, a) <= Dist(bpm, b) && Dist(bpm, b) <= Dist(bpm, a);
  }

  /** The snapped tempo is one of the choices, no other choice is nearer,
      and every lower choice is strictly farther. */
  lemma SnapNearest(bpm: real)
    requires bpm > 0.0
    ensures exists i :: 0 <= i < |CHOICES| && FirstNearest(bpm, i) && SnapBpm(bpm) == CHOICES[i]
  {
    var i := ArgMinFrom(bpm, 1, 0);
    assert FirstNearest(bpm, i) && SnapBpm(bpm) == CHOICES[i];
  }

  /** The same step as a table of half-way points. */
  function SnapTable(bpm: real): real
  {
    if bpm <= 65.0 then 60.0
    else if bpm <= 75.0 then 70.0
    else if bpm <= 85.0 then 80.0
    else if bpm <= 95.0 then 90.0
    else if bpm <= 105.0 then 100.0
    else if bpm <= 115.0 then 110.0
    else if bpm <= 125.0 then 120.0
    else 130.0
  }

  lemma {:induction false} SnapIsTable(bpm: real)
    requires bpm > 0.0
    ensures SnapBpm(bpm) == SnapTable(bpm)
  {
    var t := if bpm <= 65.0 then 0 else if bpm <= 75.0 then 1 else if bpm <= 85.0 then 2
             else if bpm <= 95.0 then 3 else if bpm <= 105.0 then 4 else if bpm <= 115.0 then 5
             else if bpm <= 125.0 then 6 else 7;
    assert FirstNearest(bpm, t);
    FirstNearestUnique(bpm, t, ArgMinFrom(bpm, 1, 0));
  }

  /** Snapping is idempotent and leaves non-positive values alone. */
  lemma SnapIdempotent(bpm: real)
    ensures bpm <= 0.0 ==> SnapBpm(bpm) == bpm
    ensures SnapBpm(SnapBpm(bpm)) == SnapBpm(bpm)
  {
    if bpm > 0.0 {
      SnapIsTable(bpm);
      SnapIsTable(SnapBpm(bpm));
    }
  }

  // -------------------------------------------------------- all features

  /** The measured statistics of a window: `compute_basic_stats`,
      `compute_spectral` and the median tempo before snapping. */
  datatype Measurements = Measurements(basic: map<string, real>, spectral: map<string, real>, medianBpm: real, empty: bool)

  function Nums(d: map<string, real>): map<string, Feature>
  {
    map k | k in d :: Num(d[k])
  }

  /** `extract_audio_features`: the statistics, the tempo and the tags in
      one dictionary, later entries winning on a shared key. */
  function ExtractAudioFeatures(m: Measurements, sr: int, wps: Option<real>, emo: Option<real>): map<string, Feature>
  {
    Nums(m.basic) + Nums(m.spectral) + Tags(m, sr, wps, emo)
  }

  /** The entries `extract_audio_features` adds after the statistics. */
  function Tags(m: Measurements, sr: int, wps: Option<real>, emo: Option<real>): map<string, Feature>
  {
    var density := BucketizeDensity(m.basic, wps, emo);
    map["bpm_est" := Num(EstimateTempo(m.empty, m.medianBpm)),
        "tone_tag" := Text(ToneName(BucketizeTone(m.spectral, Some(sr)))),
        "arrangement_tag" := Text(ArrangementTag(density.arrangement)),
        "rhythm_tag" := Text(RhythmTag(density.rhythm)),
        "volume_hint" := Text(VolumeHint(density.volume))]
  }

  /** The tags sit under their keys, the tempo is a choice or 0, and a
      rms level measured by the basic statistics is kept as a number for
      the subtitle style. */
  lemma ExtractedKeys(m: Measurements, sr: int, wps: Option<real>, emo: Option<real>)
    requires m.medianBpm >= 0.0
    ensures var f := ExtractAudioFeatures(m, sr, wps, emo);
      && "tone_tag" in f && f["tone_tag"].Text?
      && f["tone_tag"].t in {"dark", "warm", "neutral", "bright"}
      && "bpm_est" in f && f["bpm_est"].Num?
      && (f["bpm_est"].n == 0.0 || f["bpm_est"].n in CHOICES)
      && ("rms_db" in m.basic && "rms_db" !in m.spectral ==> "rms_db" in f && f["rms_db"] == Num(m.basic["rms_db"]))
  {
    var t := Tags(m, sr, wps, emo);
    TagsShape(m, sr, wps, emo);
    var f := ExtractAudioFeatures(m, sr, wps, emo);
    assert f["tone_tag"] == t["tone_tag"] && f["bpm_est"] == t["bpm_est"];
  }

  /** The tone tag and the tempo among the tags, and no "rms_db" there. */
  lemma TagsShape(m: Measurements, sr: int, wps: Option<real>, emo: Option<real>)
    requires m.medianBpm >= 0.0
    ensures var t := Tags(m, sr, wps, emo);
      && "tone_tag" in t && t["tone_tag"].Text?
      && t["tone_tag"].t in {"dark", "warm", "neutral", "bright"}
      && "bpm_est" in t && t["bpm_est"].Num?
      && (t["bpm_est"].n == 0.0 || t["bpm_est"].n in CHOICES)
      && "rms_db" !in t
  {
    var tone := ToneName(BucketizeTone(m.spectral, Some(sr)));
    var bpm := EstimateTempo(m.empty, m.medianBpm);
    ToneNameIn(BucketizeTone(m.spectral, Some(sr)));
    TempoIsChoice(m.empty, m.medianBpm);
    var density := BucketizeDensity(m.basic, wps, emo);
    var t := Tags(m, sr, wps, emo);
    assert t == map["bpm_est" := Num(bpm), "tone_tag" := Text(tone),
                    "arrangement_tag" := Text(ArrangementTag(density.arrangement)),
                    "rhythm_tag" := Text(RhythmTag(density.rhythm)),
                    "volume_hint" := Text(VolumeHint(density.volume))];
  }

  lemma ToneNameIn(tone: Tone)
    ensures ToneName(tone) in {"dark", "warm", "neutral", "bright"}
  {
  }

  /** The tempo is 0 for empty audio and a table entry otherwise. */
  lemma TempoIsChoice(audioEmpty: bool, median: real)
    requires median >= 0.0
    ensures EstimateTempo(audioEmpty, median) == 0.0 || EstimateTempo(audioEmpty, median) in CHOICES
  {
    if !audioEmpty && median > 0.0 {
      SnapIsTable(median);
    }
  }
}
