/** The transform settings of the video thread and what they do to a frame:
    the effect chosen by display name, the rotation that cycles in steps of 90
    degrees with the label of its button, and the per-frame pipeline of `run`
    (mirror, flip, rotation, effect, then conversion for display). Frames are
    terms over the OpenCV calls that produce them, with the calls' constant
    arguments kept, so that which calls are made, and in which order, is
    checked; what the calls do to pixels is not modelled. */
module Transforms {
  import opened Text

  // ---------------------------------------------------------------------------
  // Frames
  // ---------------------------------------------------------------------------

  datatype RotateCode = Rotate90Clockwise | Rotate180 | Rotate90Counterclockwise
  datatype ColorConversion = BgrToGray | GrayToBgr | BgrToRgb
  datatype AdaptiveMethod = AdaptiveThreshMeanC
  datatype ThresholdType = ThreshBinary

  /** A frame, as the sequence of OpenCV calls applied to a captured image. */
  datatype Frame =
    | Captured(id: nat)
    | Flip(src: Frame, flipCode: int)
    | Rotate(src: Frame, code: RotateCode)
    | CvtColor(src: Frame, conversion: ColorConversion)
    | GaussianBlur(src: Frame, kernelWidth: nat, kernelHeight: nat, sigma: int)
    | Canny(src: Frame, threshold1: int, threshold2: int)
    | MedianBlur(src: Frame, kernelSize: nat)
    | AdaptiveThreshold(src: Frame, maxValue: int, adaptiveMethod: AdaptiveMethod, thresholdType: ThresholdType, blockSize: nat, c: int)
    | BilateralFilter(src: Frame, diameter: nat, sigmaColor: int, sigmaSpace: int)
    | BitwiseAndMasked(src1: Frame, src2: Frame, mask: Frame)
    | Transform(src: Frame, matrix: seq<seq<real>>)
    | BitwiseNot(src: Frame)
    | Filter2D(src: Frame, depth: int, kernel: seq<seq<int>>)
    | AddScalar(src: Frame, amount: int)

  const SepiaKernel: seq<seq<real>> :=
    [[0.272, 0.534, 0.131], [0.349, 0.686, 0.168], [0.393, 0.769, 0.189]]
  const EmbossKernel: seq<seq<int>> := [[0, -1, -1], [1, 0, -1], [1, 1, 0]]
  const SharpenKernel: seq<seq<int>> := [[0, -1, 0], [-1, 5, -1], [0, -1, 0]]

  // ---------------------------------------------------------------------------
  // Effects
  // ---------------------------------------------------------------------------

  /** The effect tags that change the frame; any other tag, `none` included,
      leaves it as it is. */
  const TransformingEffects: set<string> :=
    {"blur", "edge", "cartoon", "sepia", "negative", "grayscale", "emboss", "sharpen"}

  /** `apply_effect`: the frame after the effect named by `effect`. */
  function ApplyEffect(effect: string, frame: Frame): (r: Frame)
    ensures effect !in TransformingEffects ==> r == frame
  {
    if effect == "none" then frame
    else if effect == "blur" then GaussianBlur(frame, 15, 15, 0)
    else if effect == "edge" then
      CvtColor(Canny(CvtColor(frame, BgrToGray), 100, 200), GrayToBgr)
    else if effect == "cartoon" then
      var gray := MedianBlur(CvtColor(frame, BgrToGray), 5);
      var edges := AdaptiveThreshold(gray, 255, AdaptiveThreshMeanC, ThreshBinary, 9, 9);
      var color := BilateralFilter(frame, 9, 300, 300);
      BitwiseAndMasked(color, color, edges)
    else if effect == "sepia" then Transform(frame, SepiaKernel)
    else if effect == "negative" then BitwiseNot(frame)
    else if effect == "grayscale" then CvtColor(CvtColor(frame, BgrToGray), GrayToBgr)
    else if effect == "emboss" then AddScalar(Filter2D(frame, -1, EmbossKernel), 128)
    else if effect == "sharpen" then Filter2D(frame, -1, SharpenKernel)
    else frame
  }

  /** The frame comes back untouched exactly for `none` and for tags the
      effect chain does not know. */
  lemma ApplyEffectIdentity(effect: string, frame: Frame)
    ensures ApplyEffect(effect, frame) == frame <==> effect !in TransformingEffects
  {
    var r := ApplyEffect(effect, frame);
    if effect == "none" {
    } else if effect == "blur" {
      assert frame < r;
    } else if effect == "edge" {
      assert frame < r.src.src;
    } else if effect == "cartoon" {
      assert frame < r.src1;
    } else if effect == "sepia" {
      assert frame < r;
    } else if effect == "negative" {
      assert frame < r;
    } else if effect == "grayscale" {
      assert frame < r.src;
    } else if effect == "emboss" {
      assert frame < r.src;
    } else if effect == "sharpen" {
      assert frame < r;
    }
  }

  /** The effect drop-down's display names and the tags they select. */
  const EffectNames: map<string, string> := map[
    "None" := "none", "Blur" := "blur", "Edge Detection" := "edge",
    "Cartoon" := "cartoon", "Sepia" := "sepia", "Negative" := "negative",
    "Grayscale" := "grayscale", "Emboss" := "emboss", "Sharpen" := "sharpen"]

  /** `effect_map.get(effect_name, 'none')`. */
  function EffectTag(displayName: string): (tag: string)
    ensures tag == "none" || tag in TransformingEffects
  {
    if displayName in EffectNames then EffectNames[displayName] else "none"
  }

  /** Every display name but `None` selects an effect that changes the frame,
      and no two select the same one; any other name selects `none`. */
  lemma EffectTagChoices(displayName: string)
    ensures EffectTag(displayName) in TransformingEffects <==> displayName in EffectNames && displayName != "None"
    ensures EffectTag(displayName) !in TransformingEffects ==> EffectTag(displayName) == "none"
  {
  }

  lemma EffectTagInjective(a: string, b: string)
    requires a in EffectNames && b in EffectNames && EffectTag(a) == EffectTag(b)
    ensures a == b
  {
  }

  // ---------------------------------------------------------------------------
  // Rotation
  // ---------------------------------------------------------------------------

  /** The rotations the button cycles through. */
  predicate IsRotation(r: int) {
    r == 0 || r == 90 || r == 180 || r == 270
  }

  /** `(rotate + 90) % 360`; Python's `%` and Dafny's agree for a positive
      modulus. */
  function NextRotation(r: int): (next: int)
    ensures 0 <= next < 360
  {
    (r + 90) % 360
  }

  lemma NextRotationCycles(r: int)
    requires IsRotation(r)
    ensures IsRotation(NextRotation(r))
    ensures NextRotation(NextRotation(NextRotation(NextRotation(r)))) == r
    ensures NextRotation(r) != r
  {
  }

  /** The rotation after `n` presses, starting from `r`. */
  function RotationAfter(r: int, n: nat): int
    decreases n
  {
    if n == 0 then r else NextRotation(RotationAfter(r, n - 1))
  }

  /** From the initial 0, `n` presses leave the rotation at `90 (n mod 4)`
      degrees: one of the four the button cycles through, back at 0 after
      every fourth press. */
  lemma {:induction false} RotationAfterPresses(n: nat)
    ensures RotationAfter(0, n) == 90 * (n % 4)
    ensures IsRotation(RotationAfter(0, n))
  {
    if n > 0 {
      RotationAfterPresses(n - 1);
      assert n % 4 == if (n - 1) % 4 == 3 then 0 else (n - 1) % 4 + 1;
    }
  }

  const RotateBase := "↻ Rotate 90°"

  /** The rotate button's text after a press. */
  function RotateLabel(r: int): (text: string)
    ensures r == 0 ==> text == RotateBase
    ensures r != 0 ==> |text| > |RotateBase|
  {
    if r != 0 then RotateBase + " (" + ShowInt(r) + "°)" else RotateBase
  }

  /** The label shows the rotation exactly when it is not 0, and different
      rotations give different labels. */
  lemma RotateLabelShowsRotation(r: int)
    ensures RotateLabel(r) == RotateBase <==> r == 0
    ensures r != 0 ==> RotateLabel(r)[..|RotateBase|] == RotateBase
    ensures r != 0 ==> RotateLabel(r)[|RotateBase|..] == " (" + ShowInt(r) + "°)"
  {
    if r != 0 {
      assert |RotateLabel(r)| > |RotateBase|;
    }
  }

  lemma RotateLabelInjective(a: int, b: int)
    requires RotateLabel(a) == RotateLabel(b)
    ensures a == b
  {
    RotateLabelShowsRotation(a);
    RotateLabelShowsRotation(b);
    if a != 0 && b != 0 {
      var la, lb := RotateLabel(a), RotateLabel(b);
      var n := |RotateBase| + 2;
      assert ShowInt(a) == la[n..|la| - 2];
      assert ShowInt(b) == lb[n..|lb| - 2];
      ShowIntInjective(a, b);
    }
  }

  // ---------------------------------------------------------------------------
  // The per-frame pipeline
  // ---------------------------------------------------------------------------

  /** The fields of the video thread a frame is processed with. */
  datatype Settings = Settings(mirror: bool, flip: bool, rotate: int, effect: string)

  const InitialSettings := Settings(false, false, 0, "none")

  /** One step of the per-frame pipeline. */
  datatype Stage = MirrorStage | FlipStage | RotateStage(code: RotateCode) | EffectStage(effect: string) | ToRgbStage

  /** The rotation call for a rotation, if any: only 90, 180 and 270 rotate. */
  function RotationCode(r: int): Option<RotateCode> {
    if r == 90 then Some(Rotate90Clockwise)
    else if r == 180 then Some(Rotate180)
    else if r == 270 then Some(Rotate90Counterclockwise)
    else None
  }

  /** The stages `run` applies to each frame under settings `s`, in order. */
  function Stages(s: Settings): (st: seq<Stage>)
    ensures 2 <= |st| <= 5
  {
    MirrorStages(s) + FlipStages(s) + RotateStages(s) + [EffectStage(s.effect), ToRgbStage]
  }

  function MirrorStages(s: Settings): seq<Stage> {
    if s.mirror then [MirrorStage] else []
  }

  function FlipStages(s: Settings): seq<Stage> {
    if s.flip then [FlipStage] else []
  }

  function RotateStages(s: Settings): seq<Stage> {
    match RotationCode(s.rotate) case Some(c) => [RotateStage(c)] case None => []
  }

  function ApplyStage(st: Stage, f: Frame): Frame {
    match st
    case MirrorStage => Flip(f, 1)
    case FlipStage => Flip(f, 0)
    case RotateStage(c) => Rotate(f, c)
    case EffectStage(e) => ApplyEffect(e, f)
    case ToRgbStage => CvtColor(f, BgrToRgb)
  }

  /** The stages applied one after another, the first innermost. */
  function ApplyStages(stages: seq<Stage>, f: Frame): Frame
    decreases |stages|
  {
    if stages == [] then f else ApplyStages(stages[1..], ApplyStage(stages[0], f))
  }

  /** Applying two runs of stages one after the other is applying them
      joined. */
  lemma {:induction false} ApplyStagesAppend(a: seq<Stage>, b: seq<Stage>, f: Frame)
    ensures ApplyStages(a + b, f) == ApplyStages(b, ApplyStages(a, f))
    decreases |a|
  {
    if a != [] {
      assert (a + b)[0] == a[0] && (a + b)[1..] == a[1..] + b;
      ApplyStagesAppend(a[1..], b, ApplyStage(a[0], f));
    } else {
      assert a + b == b;
    }
  }

  /** The frame a capture becomes, written as the nested calls of `run`. */
  function Processed(s: Settings, f: Frame): Frame {
    CvtColor(ApplyEffect(s.effect, Turned(s, f)), BgrToRgb)
  }

  /** The frame after the mirror, flip and rotation calls. */
  function Turned(s: Settings, f: Frame): Frame {
    var mirrored := if s.mirror then Flip(f, 1) else f;
    var flipped := if s.flip then Flip(mirrored, 0) else mirrored;
    match RotationCode(s.rotate) case Some(c) => Rotate(flipped, c) case None => flipped
  }

  /** The nested calls are the stages applied in order. */
  lemma ProcessedIsStages(s: Settings, f: Frame)
    ensures Processed(s, f) == ApplyStages(Stages(s), f)
  {
    var turns := MirrorStages(s) + FlipStages(s) + RotateStages(s);
    var tail := [EffectStage(s.effect), ToRgbStage];
    assert Stages(s) == turns + tail;
    ApplyStagesAppend(turns, tail, f);
    TurnedIsStages(s, f);
    ApplyTail(s.effect, Turned(s, f));
  }

  lemma TurnedIsStages(s: Settings, f: Frame)
    ensures ApplyStages(MirrorStages(s) + FlipStages(s) + RotateStages(s), f) == Turned(s, f)
  {
    var m, fl, r := MirrorStages(s), FlipStages(s), RotateStages(s);
    ApplyStagesAppend(m + fl, r, f);
    ApplyStagesAppend(m, fl, f);
    ApplyStagesSingle(m, f);
    var f1 := ApplyStages(m, f);
    ApplyStagesSingle(fl, f1);
    ApplyStagesSingle(r, ApplyStages(fl, f1));
  }

  lemma ApplyTail(e: string, f: Frame)
    ensures ApplyStages([EffectStage(e), ToRgbStage], f) == CvtColor(ApplyEffect(e, f), BgrToRgb)
  {
    ApplyStagesAppend([EffectStage(e)], [ToRgbStage], f);
    assert [EffectStage(e), ToRgbStage] == [EffectStage(e)] + [ToRgbStage];
    ApplyStagesSingle([EffectStage(e)], f);
    ApplyStagesSingle([ToRgbStage], ApplyEffect(e, f));
  }

  /** No stage leaves the frame as it is; one stage applies it. */
  lemma ApplyStagesSingle(st: seq<Stage>, f: Frame)
    requires |st| <= 1
    ensures ApplyStages(st, f) == if st == [] then f else ApplyStage(st[0], f)
  {
    if st != [] {
      assert st[1..] == [];
    }
  }

  /** The stages always end with the effect and the conversion for display,
      the effect after any mirror, flip or rotation; mirror comes before flip
      and flip before rotation. */
  lemma StagesOrder(s: Settings)
    ensures |Stages(s)| >= 2
    ensures Stages(s)[|Stages(s)| - 2..] == [EffectStage(s.effect), ToRgbStage]
    ensures s.mirror <==> MirrorStage in Stages(s)
    ensures s.flip <==> FlipStage in Stages(s)
    ensures s.mirror ==> Stages(s)[0] == MirrorStage
    ensures s.flip ==> Stages(s)[if s.mirror then 1 else 0] == FlipStage
    ensures RotationCode(s.rotate).Some? <==> exists c :: RotateStage(c) in Stages(s)
  {
    var st := Stages(s);
    var m, fl, r := MirrorStages(s), FlipStages(s), RotateStages(s);
    var tail := [EffectStage(s.effect), ToRgbStage];
    assert st == m + fl + r + tail;
    assert s.mirror <==> MirrorStage in st by {
      assert MirrorStage in st <==> MirrorStage in m;
    }
    assert s.flip <==> FlipStage in st by {
      assert FlipStage in st <==> FlipStage in fl;
    }
    if RotationCode(s.rotate).Some? {
      var i := |m| + |fl|;
      assert st[i] == RotateStage(RotationCode(s.rotate).value);
    }
    forall c | RotateStage(c) in st ensures RotationCode(s.rotate) == Some(c) {
      assert RotateStage(c) in r;
    }
  }

  /** With the initial settings a frame is only converted for display. */
  lemma InitialPipeline(f: Frame)
    ensures ApplyStages(Stages(InitialSettings), f) == CvtColor(f, BgrToRgb)
  {
    var stages := Stages(InitialSettings);
    assert stages == [EffectStage("none"), ToRgbStage];
    assert ApplyStages(stages, f) == ApplyStages(stages[1..], f);
    assert ApplyStages(stages[1..], f) == ApplyStages([], CvtColor(f, BgrToRgb));
  }

}
