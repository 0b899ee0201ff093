/** The shared vocabulary of the app: the aspect ratios and resolution presets
    a user can pick, the editor tabs, and the shape of a history entry. */
module HistoryTypes {
  import opened Wrappers

  /** Which editor produced an entry: text-to-image or image-to-image. */
  datatype EditorTab = T2I | I2I

  /** The ten selectable aspect ratios. */
  datatype AspectRatio =
    | Ratio1x1 | Ratio16x9 | Ratio9x16 | Ratio2x3 | Ratio3x4
    | Ratio1x2 | Ratio2x1 | Ratio4x5 | Ratio3x2 | Ratio4x3

  /** The `'W:H'` string literal of each ratio. */
  function AspectRatioText(a: AspectRatio): string {
    match a
    case Ratio1x1 => "1:1"
    case Ratio16x9 => "16:9"
    case Ratio9x16 => "9:16"
    case Ratio2x3 => "2:3"
    case Ratio3x4 => "3:4"
    case Ratio1x2 => "1:2"
    case Ratio2x1 => "2:1"
    case Ratio4x5 => "4:5"
    case Ratio3x2 => "3:2"
    case Ratio4x3 => "4:3"
  }

  datatype ResolutionPreset = Res480p | Res720p

  function ResolutionText(r: ResolutionPreset): string {
    match r
    case Res480p => "480p"
    case Res720p => "720p"
  }

  /** The order in which the ratio picker lists the ratios. */
  const ASPECT_RATIO_OPTIONS: seq<AspectRatio> := [
    Ratio1x1, Ratio16x9, Ratio9x16, Ratio2x3, Ratio3x4,
    Ratio1x2, Ratio2x1, Ratio4x5, Ratio3x2, Ratio4x3
  ]

  const RESOLUTION_OPTIONS: seq<ResolutionPreset> := [Res480p, Res720p]

  /** Where each ratio sits in the picker. */
  function OptionIndex(a: AspectRatio): nat {
    match a
    case Ratio1x1 => 0
    case Ratio16x9 => 1
    case Ratio9x16 => 2
    case Ratio2x3 => 3
    case Ratio3x4 => 4
    case Ratio1x2 => 5
    case Ratio2x1 => 6
    case Ratio4x5 => 7
    case Ratio3x2 => 8
    case Ratio4x3 => 9
  }

  /** The picker offers every ratio, each exactly once. */
  lemma AspectRatioOptionsComplete()
    ensures forall a: AspectRatio :: a in ASPECT_RATIO_OPTIONS
    ensures |ASPECT_RATIO_OPTIONS| == 10
    ensures forall i, j :: 0 <= i < j < |ASPECT_RATIO_OPTIONS| ==> ASPECT_RATIO_OPTIONS[i] != ASPECT_RATIO_OPTIONS[j]
  {
    forall a: AspectRatio ensures a in ASPECT_RATIO_OPTIONS {
      assert ASPECT_RATIO_OPTIONS[OptionIndex(a)] == a;
    }
    forall i, j | 0 <= i < j < |ASPECT_RATIO_OPTIONS|
      ensures ASPECT_RATIO_OPTIONS[i] != ASPECT_RATIO_OPTIONS[j]
    {
      assert OptionIndex(ASPECT_RATIO_OPTIONS[i]) == i;
      assert OptionIndex(ASPECT_RATIO_OPTIONS[j]) == j;
    }
  }

  /** Distinct ratios have distinct literals, so the list's strings are distinct too. */
  lemma AspectRatioTextInjective(a: AspectRatio, b: AspectRatio)
    requires AspectRatioText(a) == AspectRatioText(b)
    ensures a == b
  {
  }

  lemma ResolutionOptionsComplete()
    ensures forall r: ResolutionPreset :: r in RESOLUTION_OPTIONS
    ensures |RESOLUTION_OPTIONS| == 2 && RESOLUTION_OPTIONS[0] != RESOLUTION_OPTIONS[1]
  {
    forall r: ResolutionPreset ensures r in RESOLUTION_OPTIONS {
      assert RESOLUTION_OPTIONS[if r == Res480p then 0 else 1] == r;
    }
  }

  datatype SequentialMode = Disabled | Enabled

  function SequentialText(m: SequentialMode): string {
    match m
    case Disabled => "disabled"
    case Enabled => "enabled"
  }

  /** The parameters a history entry records. Watermark, stream and the
      sequential mode are required; seed, steps and guidance are optional. */
  datatype HistoryParams = HistoryParams(
    aspectRatio: AspectRatio,
    resolution: ResolutionPreset,
    width: int,
    height: int,
    seed: Option<int>,
    steps: Option<int>,
    guidance: Option<int>,
    watermark: bool,
    stream: bool,
    sequentialImageGeneration: SequentialMode)

  datatype HistoryItem = HistoryItem(
    id: string,
    createdAt: int,
    source: EditorTab,
    promptRaw: string,
    promptEnhanced: Option<string>,
    params: HistoryParams,
    thumb: Option<string>,
    url: Option<string>)

  /** One generated image as a provider reports it. */
  datatype GeneratedImage = GeneratedImage(url: string, size: string)
}
