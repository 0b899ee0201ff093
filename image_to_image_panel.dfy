/** The image-to-image editor: one source image, up to eight ordered
    reference images, the prompt and the generation settings. Each React
    `useState` is a field of `Panel`; an awaited request is split into the
    part that runs before the `await` (`Start…`) and the part that runs when
    it settles (`Finish…`), with the settled outcome passed in. Ids and clock
    readings are parameters. */
module ImageToImagePanel {
  import opened Wrappers
  import opened Seqs
  import opened HistoryTypes
  import opened Images
  import opened Generation
  import Api
  import Values
  import ImageSizing
  import HistoryStore
  import AppStore

  const REFERENCE_LIMIT: nat := 8
  const DEFAULT_STEPS: int := 30
  const DEFAULT_GUIDANCE: int := 7
  const NO_PROMPT: string := "Please provide a prompt."
  const NO_SOURCE: string := "Please upload a source image."
  const GENERATE_FAILED: string := "Failed to generate images."
  const ENHANCE_FAILED: string := "Failed to enhance prompt."

  // ---------------------------------------------------------------------
  // Reference list reducers
  // ---------------------------------------------------------------------

  /** `findIndex((item) => item.id === id)`, with `None` for -1: the first
      position holding `id`. */
  function FindIndex(images: seq<ImageAsset>, id: string): (r: Option<nat>)
    ensures r.Some? ==> r.value < |images| && images[r.value].id == id
    ensures r.Some? ==> forall j :: 0 <= j < r.value ==> images[j].id != id
    ensures r.None? ==> forall j :: 0 <= j < |images| ==> images[j].id != id
  {
    if images == [] then None
    else if images[0].id == id then Some(0)
    else match FindIndex(images[1..], id)
      case None => None
      case Some(k) => Some(k + 1)
  }

  /** The list after `splice(from, 1)` and then `splice(to, 0, item)`:
      the element at `from` taken out and put back in at `to`. */
  function Spliced<T>(s: seq<T>, from: nat, to: nat): (r: seq<T>)
    requires from < |s| && to < |s|
    ensures |r| == |s|
    ensures multiset(r) == multiset(s)
  {
    var rest := s[..from] + s[from + 1..];
    assert s == s[..from] + [s[from]] + s[from + 1..];
    assert multiset(s) == multiset(s[..from]) + multiset([s[from]]) + multiset(s[from + 1..]);
    assert rest == rest[..to] + rest[to..];
    assert multiset(rest) == multiset(s[..from]) + multiset(s[from + 1..]);
    assert multiset(rest) == multiset(rest[..to]) + multiset(rest[to..]);
    assert multiset(rest[..to] + [s[from]] + rest[to..]) == multiset(rest) + multiset([s[from]]);
    rest[..to] + [s[from]] + rest[to..]
  }

  /** Position by position: the moved element lands at `to`, the ones in
      between shift by one towards `from`, the rest stay. */
  lemma SplicedAt<T>(s: seq<T>, from: nat, to: nat, k: nat)
    requires from < |s| && to < |s| && k < |s|
    ensures Spliced(s, from, to)[k] ==
      if k == to then s[from]
      else if from < to && from <= k < to then s[k + 1]
      else if to < from && to < k <= from then s[k - 1]
      else s[k]
  {
    var rest := s[..from] + s[from + 1..];
    var r := Spliced(s, from, to);
    assert r == rest[..to] + [s[from]] + rest[to..];
    if k < to {
      assert r[k] == rest[k];
    } else if k > to {
      assert r[k] == rest[k - 1];
    }
  }

  /** The two `splice` calls done in place on the copy: the elements between
      `from` and `to` shift by one, then the saved element is written at
      `to`. */
  method SpliceMove<T>(a: array<T>, from: nat, to: nat)
    requires from < a.Length && to < a.Length
    modifies a
    ensures a[..] == Spliced(old(a[..]), from, to)
  {
    ghost var s := a[..];
    var item := a[from];
    if from < to {
      var i := from;
      while i < to
        invariant from <= i <= to
        invariant forall k :: 0 <= k < from ==> a[k] == s[k]
        invariant forall k :: from <= k < i ==> a[k] == s[k + 1]
        invariant forall k :: i <= k < a.Length ==> a[k] == s[k]
      {
        a[i] := a[i + 1];
        i := i + 1;
      }
    } else {
      var i := from;
      while i > to
        invariant to <= i <= from
        invariant forall k :: 0 <= k <= i ==> a[k] == s[k]
        invariant forall k :: i < k <= from ==> a[k] == s[k - 1]
        invariant forall k :: from < k < a.Length ==> a[k] == s[k]
      {
        a[i] := a[i - 1];
        i := i - 1;
      }
    }
    a[to] := item;
    forall k | 0 <= k < a.Length
      ensures a[k] == Spliced(s, from, to)[k]
    {
      SplicedAt(s, from, to, k);
    }
  }

  /** `moveReference`'s updater: the list unchanged for an unknown id or a
      target outside the list, else the item spliced to its new index. */
  function Moved(images: seq<ImageAsset>, id: string, direction: int): (r: seq<ImageAsset>)
    requires direction == -1 || direction == 1
    ensures |r| == |images| && multiset(r) == multiset(images)
    ensures (forall j :: 0 <= j < |images| ==> images[j].id != id) ==> r == images
  {
    match FindIndex(images, id)
    case None => images
    case Some(index) =>
      var newIndex := index + direction;
      if newIndex < 0 || newIndex >= |images| then images
      else Spliced(images, index, newIndex)
  }

  /** The first position holding `id` is the one the search finds. */
  lemma {:induction false} FindIndexFirst(images: seq<ImageAsset>, id: string, i: nat)
    requires i < |images| && images[i].id == id
    requires forall j :: 0 <= j < i ==> images[j].id != id
    ensures FindIndex(images, id) == Some(i)
  {
    if i > 0 {
      FindIndexFirst(images[1..], id, i - 1);
    }
  }

  /** With `i` the first position holding `id`: at the ends of the list
      nothing moves, otherwise the item and its neighbour trade places and
      every other position keeps its item. */
  lemma MoveSwapsNeighbours(images: seq<ImageAsset>, id: string, direction: int, i: nat)
    requires direction == -1 || direction == 1
    requires i < |images| && images[i].id == id
    requires forall j :: 0 <= j < i ==> images[j].id != id
    ensures var r := Moved(images, id, direction);
      !(0 <= i + direction < |images|) ==> r == images
    ensures var r := Moved(images, id, direction);
      0 <= i + direction < |images| ==>
        && r[i] == images[i + direction] && r[i + direction] == images[i]
        && forall k :: 0 <= k < |images| && k != i && k != i + direction ==> r[k] == images[k]
  {
    FindIndexFirst(images, id, i);
    if 0 <= i + direction < |images| {
      assert Moved(images, id, direction) == Spliced(images, i, i + direction);
      SplicedNeighbours(images, i, i + direction);
    }
  }

  /** Splicing an item to a neighbouring index trades the two places and
      keeps every other one. */
  lemma SplicedNeighbours<T>(s: seq<T>, from: nat, to: nat)
    requires from < |s| && to < |s| && (to == from + 1 || from == to + 1)
    ensures var r := Spliced(s, from, to);
      && r[from] == s[to] && r[to] == s[from]
      && forall k :: 0 <= k < |s| && k != from && k != to ==> r[k] == s[k]
  {
    var r := Spliced(s, from, to);
    SplicedAt(s, from, to, from);
    SplicedAt(s, from, to, to);
    forall k | 0 <= k < |s| && k != from && k != to
      ensures r[k] == s[k]
    {
      SplicedAt(s, from, to, k);
    }
  }

  /** No two references share an id. */
  predicate UniqueRefIds(images: seq<ImageAsset>) {
    forall i, j :: 0 <= i < j < |images| ==> images[i].id != images[j].id
  }

  /** With distinct ids, moving an item back the other way undoes a move
      that took place. (At an end of the list the first move does nothing
      and the second one may move the item, so that case is excluded.) */
  lemma MoveUndone(images: seq<ImageAsset>, id: string, direction: int, i: nat)
    requires direction == -1 || direction == 1
    requires UniqueRefIds(images)
    requires i < |images| && images[i].id == id && 0 <= i + direction < |images|
    ensures Moved(Moved(images, id, direction), id, -direction) == images
  {
    var n := i + direction;
    forall j | 0 <= j < i
      ensures images[j].id != id
    {
    }
    MoveSwapsNeighbours(images, id, direction, i);
    var r := Moved(images, id, direction);
    forall j | 0 <= j < n
      ensures r[j].id != id
    {
      if j == i {
        assert r[j] == images[n];
      } else {
        assert r[j] == images[j];
      }
    }
    MoveSwapsNeighbours(r, id, -direction, n);
    var back := Moved(r, id, -direction);
    forall k | 0 <= k < |images|
      ensures back[k] == images[k]
    {
      if k != i && k != n {
        assert back[k] == r[k];
      }
    }
  }

  /** `images.filter((item) => item.id !== id)`. */
  function WithoutReference(images: seq<ImageAsset>, id: string): (r: seq<ImageAsset>)
    ensures forall x :: x in r <==> x in images && x.id != id
    ensures IsSubsequence(r, images)
    ensures |r| <= |images|
  {
    var keep := (x: ImageAsset) => x.id != id;
    FilterIsSubsequence(images, keep);
    Filter(images, keep)
  }

  // ---------------------------------------------------------------------
  // Preparing chosen reference files
  // ---------------------------------------------------------------------

  /** The assets prepared from a run of files, and the validation error
      that stopped the run, if one did. */
  datatype Batch = Batch(assets: seq<ImageAsset>, error: Option<ValidationError>)

  /** `files[k..]` prepared one after another, stopping at the first file
      that fails validation. The file at position `i` gets the id `idOf(i)`. */
  function PrepareFrom(files: seq<ImageFile>, idOf: nat -> string, k: nat): (b: Batch)
    requires k <= |files|
    ensures k + |b.assets| <= |files|
    ensures forall j :: 0 <= j < |b.assets| ==> PrepareImageAsset(files[k + j], idOf(k + j)) == Ok(b.assets[j])
    ensures b.error.None? ==> k + |b.assets| == |files|
    ensures b.error.Some? ==> k + |b.assets| < |files| && ValidateImageFile(files[k + |b.assets|]) == b.error
    decreases |files| - k
  {
    if k == |files| then Batch([], None)
    else match PrepareImageAsset(files[k], idOf(k))
      case Err(e) => Batch([], Some(e))
      case Ok(a) =>
        var rest := PrepareFrom(files, idOf, k + 1);
        Batch([a] + rest.assets, rest.error)
  }

  /** The loop of `handleReferenceChange`: each file is prepared in turn,
      its asset pushed, and the loop left at the first failure, whose error
      is returned. */
  method PrepareAll(files: seq<ImageFile>, idOf: nat -> string) returns (newAssets: seq<ImageAsset>, error: Option<ValidationError>)
    ensures Batch(newAssets, error) == PrepareFrom(files, idOf, 0)
  {
    ghost var b := PrepareFrom(files, idOf, 0);
    newAssets := [];
    error := None;
    var i := 0;
    while i < |files|
      invariant 0 <= i <= |files|
      invariant newAssets + PrepareFrom(files, idOf, i).assets == b.assets
      invariant PrepareFrom(files, idOf, i).error == b.error
      invariant error == None
    {
      match PrepareImageAsset(files[i], idOf(i))
      case Ok(asset) =>
        ghost var rest := PrepareFrom(files, idOf, i + 1);
        assert PrepareFrom(files, idOf, i) == Batch([asset] + rest.assets, rest.error);
        assert (newAssets + [asset]) + rest.assets == newAssets + ([asset] + rest.assets);
        newAssets := newAssets + [asset];
        i := i + 1;
      case Err(e) =>
        assert PrepareFrom(files, idOf, i) == Batch([], Some(e));
        assert newAssets == b.assets;
        error := Some(e);
        return;
    }
    assert PrepareFrom(files, idOf, i) == Batch([], None);
    assert newAssets == b.assets;
  }

  /** Once a file has failed, files chosen after it play no part. */
  lemma {:induction false} LaterFilesIgnored(files: seq<ImageFile>, more: seq<ImageFile>, idOf: nat -> string, k: nat)
    requires k <= |files|
    requires PrepareFrom(files, idOf, k).error.Some?
    ensures PrepareFrom(files + more, idOf, k) == PrepareFrom(files, idOf, k)
    decreases |files| - k
  {
    assert (files + more)[k] == files[k];
    if PrepareImageAsset(files[k], idOf(k)).Ok? {
      LaterFilesIgnored(files, more, idOf, k + 1);
    }
  }

  /** The references after a pick: the current list untouched in front, then
      at most the free slots' worth of new assets, so never more than eight. */
  lemma ReferenceCap(current: seq<ImageAsset>, fileList: seq<ImageFile>, idOf: nat -> string)
    requires |current| <= REFERENCE_LIMIT
    ensures var b := PrepareFrom(SliceTo(fileList, REFERENCE_LIMIT - |current|), idOf, 0);
      && |b.assets| <= REFERENCE_LIMIT - |current|
      && |current + b.assets| <= REFERENCE_LIMIT
      && (current + b.assets)[..|current|] == current
  {
    var files := SliceTo(fileList, REFERENCE_LIMIT - |current|);
    assert |files| <= REFERENCE_LIMIT - |current|;
  }

  /** `references.map((item) => item.dataUrl)`. */
  function DataUrls(references: seq<ImageAsset>): (urls: seq<string>)
    ensures |urls| == |references|
    ensures forall i :: 0 <= i < |references| ==> urls[i] == references[i].dataUrl
  {
    seq(|references|, i requires 0 <= i < |references| => references[i].dataUrl)
  }

  // ---------------------------------------------------------------------
  // Settings, payload and history entry
  // ---------------------------------------------------------------------

  /** The form state a history entry can restore. */
  datatype Settings = Settings(
    rawPrompt: string,
    enhancedPrompt: string,
    aspectRatio: AspectRatio,
    resolution: ResolutionPreset,
    seed: Option<int>,
    steps: int,
    guidance: int,
    watermark: bool,
    stream: bool,
    sequential: SequentialMode)

  /** The request `handleGenerate` builds from the settings, the source
      image and the references in display order. */
  function Payload(s: Settings, source: ImageAsset, references: seq<ImageAsset>): Api.SeedreamRequest {
    var d := PanelDimensions(s.aspectRatio, s.resolution);
    Api.SeedreamRequest(
      model := None,
      prompt := SelectedPrompt(s.enhancedPrompt, s.rawPrompt),
      responseFormat := None,
      stream := Some(s.stream),
      watermark := Some(s.watermark),
      sequentialImageGeneration := Some(SequentialText(s.sequential)),
      sequentialImageGenerationOptions := None,
      seed := s.seed,
      steps := Some(s.steps),
      guidanceScale := Some(s.guidance),
      aspectRatio := None,
      size := None,
      width := Some(d.width),
      height := Some(d.height),
      image := Values.OneImage(source.dataUrl),
      references := Some(DataUrls(references)))
  }

  /** Reading the request's sequential mode back, `'disabled'` when absent. */
  function SequentialOf(mode: Option<string>): SequentialMode {
    if mode == Some("enabled") then Enabled else Disabled
  }

  /** A request in flight: its controller, what was sent, and the settings
      the panel had when the request started, which the history entry uses. */
  datatype Run = Run(controller: nat, payload: Api.SeedreamRequest, settings: Settings)

  /** The entry `runGeneration` records for a successful run. */
  function HistoryEntry(run: Run, data: seq<GeneratedImage>, id: string, now: int): HistoryItem {
    var s := run.settings;
    var p := run.payload;
    var d := PanelDimensions(s.aspectRatio, s.resolution);
    var first := if data == [] then None else Some(data[0].url);
    HistoryItem(
      id := id,
      createdAt := now,
      source := I2I,
      promptRaw := s.rawPrompt,
      promptEnhanced := if s.enhancedPrompt == "" then None else Some(s.enhancedPrompt),
      params := HistoryParams(
        aspectRatio := s.aspectRatio,
        resolution := s.resolution,
        width := p.width.GetOr(d.width),
        height := p.height.GetOr(d.height),
        seed := p.seed,
        steps := p.steps,
        guidance := p.guidanceScale,
        watermark := p.watermark.GetOr(true),
        stream := p.stream.GetOr(false),
        sequentialImageGeneration := SequentialOf(p.sequentialImageGeneration)),
      thumb := first,
      url := first)
  }

  /** What the restore effect sets from a history entry. */
  function Restored(item: HistoryItem): Settings {
    Settings(
      item.promptRaw,
      item.promptEnhanced.GetOr(""),
      item.params.aspectRatio,
      item.params.resolution,
      item.params.seed,
      item.params.steps.GetOr(DEFAULT_STEPS),
      item.params.guidance.GetOr(DEFAULT_GUIDANCE),
      item.params.watermark,
      item.params.stream,
      item.params.sequentialImageGeneration)
  }

  /** Restoring the entry a generation recorded gives back the settings it
      was generated with; the entry's size is the one sent, which is that
      of the chosen preset, and its thumbnail is the first result. */
  lemma HistoryRestoresSettings(s: Settings, source: ImageAsset, references: seq<ImageAsset>,
                                c: nat, data: seq<GeneratedImage>, id: string, now: int)
    ensures var item := HistoryEntry(Run(c, Payload(s, source, references), s), data, id, now);
      && Restored(item) == s
      && item.source == I2I
      && ImageSizing.Dimensions(item.params.width, item.params.height) == PanelDimensions(s.aspectRatio, s.resolution)
      && item.thumb == item.url
      && (data != [] ==> item.url == Some(data[0].url))
  {
    assert SequentialOf(Some(SequentialText(s.sequential))) == s.sequential;
  }

  /** The source image and every reference reach the provider, in display
      order: with at most eight references the ten-image cap drops none. */
  lemma PayloadSendsAllImages(s: Settings, source: ImageAsset, references: seq<ImageAsset>)
    requires |references| <= REFERENCE_LIMIT
    requires source.dataUrl != ""
    requires forall r :: r in references ==> r.dataUrl != ""
    ensures var p := Payload(s, source, references);
      Api.BuildImageField(p.image, p.references)
        == Some([Api.NormalizeDataUrl(source.dataUrl)] + Api.NormalizeAll(DataUrls(references)))
  {
    var urls := DataUrls(references);
    forall x | x in urls
      ensures x != ""
    {
      var i :| 0 <= i < |urls| && urls[i] == x;
      assert references[i] in references;
    }
    SourceLeadsReferences(source.dataUrl, urls);
  }

  /** One non-empty source image and at most eight non-empty references:
      the source first, then every reference, all normalised. */
  lemma SourceLeadsReferences(url: string, urls: seq<string>)
    requires url != "" && |urls| <= REFERENCE_LIMIT
    requires forall x :: x in urls ==> x != ""
    ensures Api.BuildImageField(Values.OneImage(url), Some(urls))
      == Some([Api.NormalizeDataUrl(url)] + Api.NormalizeAll(urls))
  {
    FilterKeepsAll(urls, (x: string) => x != "");
    assert Api.NormalizedRefs(Some(urls)) == Api.NormalizeAll(urls);
  }

  // ---------------------------------------------------------------------
  // The panel
  // ---------------------------------------------------------------------

  class Panel {
    var sourceImage: Option<ImageAsset>
    var referenceImages: seq<ImageAsset>
    /** The form: prompt, enhanced prompt, ratio, preset, seed, steps,
        guidance, watermark, streaming and sequential mode, one `useState`
        each in the component, held together because they are read together
        and restored together. */
    var settings: Settings
    var uploadError: Option<string>
    var images: seq<GeneratedImage>
    var isGenerating: bool
    var generateError: Option<string>
    var enhancing: bool
    var enhancementError: Option<string>
    var lastRequest: Option<Api.SeedreamRequest>
    const generateController: ControllerRef
    const enhanceController: ControllerRef

    /** The two controller refs are distinct and consistent, and the panel
        never holds more than eight references. */
    ghost predicate Valid()
      reads this, generateController, enhanceController
    {
      && generateController != enhanceController
      && generateController.Valid() && enhanceController.Valid()
      && |referenceImages| <= REFERENCE_LIMIT
    }

    /** The initial state: 1:1 at 720p, 30 steps, guidance 7, watermark on,
        no streaming, sequential generation disabled, nothing uploaded. */
    constructor()
      ensures Valid() && fresh(generateController) && fresh(enhanceController)
      ensures settings == Settings("", "", Ratio1x1, Res720p, None, DEFAULT_STEPS, DEFAULT_GUIDANCE, true, false, Disabled)
      ensures sourceImage == None && referenceImages == [] && uploadError == None
      ensures images == [] && !isGenerating && generateError == None
      ensures !enhancing && enhancementError == None && lastRequest == None
      ensures generateController.current == None && enhanceController.current == None
    {
      sourceImage := None;
      referenceImages := [];
      settings := Settings("", "", Ratio1x1, Res720p, None, DEFAULT_STEPS, DEFAULT_GUIDANCE, true, false, Disabled);
      uploadError := None;
      images := [];
      isGenerating := false;
      generateError := None;
      enhancing := false;
      enhancementError := None;
      lastRequest := None;
      generateController := new ControllerRef();
      enhanceController := new ControllerRef();
    }

    /** The restore effect: an `i2i` entry waiting in the app store is
        copied into the form, the images, uploads and last request are
        cleared, and the entry is taken out of the store. Any other
        pending state is left alone. */
    method ApplyPendingHistory(app: AppStore.AppState)
      requires Valid()
      modifies this`settings, this`images, this`sourceImage, this`referenceImages, this`lastRequest, app
      ensures Valid()
      ensures var pending := old(app.pendingHistory);
        pending.Some? && pending.value.source == I2I ==>
          && settings == Restored(pending.value)
          && images == [] && sourceImage == None && referenceImages == [] && lastRequest == None
          && app.pendingHistory == None
          && app.activeTab == old(app.activeTab) && app.historyOpen == old(app.historyOpen)
          && app.theme == old(app.theme) && app.storage == old(app.storage)
      ensures var pending := old(app.pendingHistory);
        !(pending.Some? && pending.value.source == I2I) ==> unchanged(this) && unchanged(app)
    {
      var pending := app.pendingHistory;
      if pending.None? || pending.value.source != I2I {
        return;
      }
      Restore(pending.value);
      app.SetPendingHistory(None);
    }

    /** The setters the restore effect calls for one entry. */
    method Restore(item: HistoryItem)
      requires Valid()
      modifies this`settings, this`images, this`sourceImage, this`referenceImages, this`lastRequest
      ensures Valid()
      ensures settings == Restored(item)
      ensures images == [] && sourceImage == None && referenceImages == [] && lastRequest == None
    {
      settings := Restored(item);
      images := [];
      sourceImage := None;
      referenceImages := [];
      lastRequest := None;
    }

    /** The unmount clean-ups: both in-flight requests are aborted. */
    method AbortOnUnmount()
      requires Valid()
      modifies generateController, enhanceController
      ensures Valid()
      ensures generateController.aborted == old(generateController.aborted) + (if generateController.current.Some? then {generateController.current.value} else {})
      ensures enhanceController.aborted == old(enhanceController.aborted) + (if enhanceController.current.Some? then {enhanceController.current.value} else {})
    {
      generateController.AbortCurrent();
      enhanceController.AbortCurrent();
    }

    /** The part of `handleEnhance` before the `await`: nothing for a blank
        raw prompt; otherwise the previous enhancement is aborted, the flag
        raised and the old error cleared, and the raw prompt, untrimmed, is
        what is sent. */
    method StartEnhance() returns (call: Option<EnhanceCall>)
      requires Valid()
      modifies this`enhancing, this`enhancementError, enhanceController
      ensures Valid()
      ensures call.None? <==> Strings.IsBlank(settings.rawPrompt)
      ensures call.None? ==> unchanged(this) && unchanged(enhanceController)
      ensures call.Some? ==>
        && call.value.prompt == settings.rawPrompt && call.value.mode == I2I
        && enhanceController.current == Some(call.value.controller)
        && call.value.controller !in enhanceController.aborted
        && (old(enhanceController.current).Some? ==> old(enhanceController.current).value in enhanceController.aborted)
        && enhancing && enhancementError == None
    {
      if Strings.IsBlank(settings.rawPrompt) {
        return None;
      }
      var controller := enhanceController.Replace();
      enhancing := true;
      enhancementError := None;
      call := Some(EnhanceCall(controller, settings.rawPrompt, I2I));
    }

    /** The part of `handleEnhance` after the `await`: the enhanced prompt on
        success, an error message on failure, nothing on abort, and the flag
        lowered in every case. */
    method FinishEnhance(outcome: Outcome<string>)
      modifies this`settings, this`enhancementError, this`enhancing
      ensures !enhancing
      ensures settings == (if outcome.Succeeded? then old(settings).(enhancedPrompt := outcome.value) else old(settings))
      ensures enhancementError == (if outcome.Failed? then ErrorAfter(outcome, ENHANCE_FAILED) else old(enhancementError))
    {
      match outcome {
        case Succeeded(enhanced) =>
          settings := settings.(enhancedPrompt := enhanced);
        case Aborted =>
        case Failed(_) =>
          enhancementError := ErrorAfter(outcome, ENHANCE_FAILED);
      }
      enhancing := false;
    }

    /** `handleFileError`: show the message (its four-second timer is not
        modelled). */
    method HandleFileError(message: string)
      modifies this`uploadError
      ensures uploadError == Some(message)
    {
      uploadError := Some(message);
    }

    /** `handleSourceChange`: the first chosen file becomes the source image
        when it passes validation, clearing the upload error; otherwise the
        error is shown and the source stays. An empty pick does nothing. */
    method HandleSourceChange(fileList: seq<ImageFile>, id: string)
      modifies this`sourceImage, this`uploadError
      ensures fileList == [] ==> unchanged(this)
      ensures fileList != [] ==> match PrepareImageAsset(fileList[0], id)
        case Ok(asset) => sourceImage == Some(asset) && uploadError == None
        case Err(e) => sourceImage == old(sourceImage) && uploadError == Some(e.message)
    {
      if fileList == [] {
        return;
      }
      match PrepareImageAsset(fileList[0], id)
      case Ok(asset) =>
        sourceImage := Some(asset);
        uploadError := None;
      case Err(e) =>
        HandleFileError(e.message);
    }

    /** `handleReferenceChange`: the files that fit in the free slots are
        prepared in order and appended; the first failure shows its error
        and ends the pick, keeping what was prepared before it. */
    method HandleReferenceChange(fileList: seq<ImageFile>, idOf: nat -> string)
      requires Valid()
      modifies this`referenceImages, this`uploadError
      ensures Valid()
      ensures var b := PrepareFrom(SliceTo(fileList, REFERENCE_LIMIT - |old(referenceImages)|), idOf, 0);
        && referenceImages == old(referenceImages) + b.assets
        && uploadError == (if b.error.Some? then Some(b.error.value.message) else old(uploadError))
    {
      if fileList == [] {
        return;
      }
      var current := referenceImages;
      var files := SliceTo(fileList, REFERENCE_LIMIT - |current|);
      var newAssets, error := PrepareAll(files, idOf);
      if error.Some? {
        HandleFileError(error.value.message);
      }
      ReferenceCap(current, fileList, idOf);
      referenceImages := current + newAssets;
    }

    /** `removeReference`. */
    method RemoveReference(id: string)
      requires Valid()
      modifies this`referenceImages
      ensures Valid()
      ensures referenceImages == WithoutReference(old(referenceImages), id)
    {
      referenceImages := WithoutReference(referenceImages, id);
    }

    /** `moveReference`: the list is copied into a fresh array, the item is
        spliced to its new index there, and the copy replaces the list. */
    method MoveReference(id: string, direction: int)
      requires Valid()
      requires direction == -1 || direction == 1
      modifies this`referenceImages
      ensures Valid()
      ensures referenceImages == Moved(old(referenceImages), id, direction)
    {
      var current := referenceImages;
      var index := FindIndex(current, id);
      if index.None? {
        return;
      }
      var newIndex := index.value + direction;
      if newIndex < 0 || newIndex >= |current| {
        return;
      }
      var updated := new ImageAsset[|current|](i requires 0 <= i < |current| => current[i]);
      assert updated[..] == current;
      SpliceMove(updated, index.value, newIndex);
      referenceImages := updated[..];
    }

    /** The part of `runGeneration` before the `await`: the previous request
        is aborted, a new controller installed, the flag raised and the old
        error cleared. The run remembers the settings of this moment. */
    method StartGeneration(payload: Api.SeedreamRequest) returns (run: Run)
      requires Valid()
      modifies this`isGenerating, this`generateError, generateController
      ensures Valid()
      ensures run.payload == payload && run.settings == settings
      ensures isGenerating && generateError == None
      ensures generateController.current == Some(run.controller) && run.controller !in generateController.aborted
      ensures old(generateController.current).Some? ==> old(generateController.current).value in generateController.aborted
    {
      var controller := generateController.Replace();
      isGenerating := true;
      generateError := None;
      run := Run(controller, payload, settings);
    }

    /** The part of `runGeneration` after the `await`. Success shows the
        images, remembers the request and records a history entry; failure
        shows the error's message or the default; an abort sets nothing. The
        flag is lowered in every case, even when a later run is still in
        flight. */
    method FinishGeneration(run: Run, outcome: Outcome<seq<GeneratedImage>>, history: HistoryStore.Store, id: string, now: int)
      modifies this`images, this`lastRequest, this`generateError, this`isGenerating, history
      ensures !isGenerating
      ensures outcome.Succeeded? ==>
        && images == outcome.value && lastRequest == Some(run.payload)
        && history.items == HistoryStore.Upserted(old(history.items), HistoryEntry(run, outcome.value, id, now))
        && generateError == old(generateError)
      ensures !outcome.Succeeded? ==>
        && images == old(images) && lastRequest == old(lastRequest) && history.items == old(history.items)
        && generateError == (if outcome.Failed? then ErrorAfter(outcome, GENERATE_FAILED) else old(generateError))
    {
      match outcome {
        case Succeeded(data) =>
          images := data;
          lastRequest := Some(run.payload);
          history.AddItem(HistoryEntry(run, data, id, now));
        case Aborted =>
        case Failed(_) =>
          generateError := ErrorAfter(outcome, GENERATE_FAILED);
      }
      isGenerating := false;
    }

    /** `handleGenerate`: a blank selected prompt, and then a missing source
        image, each set their error and start nothing; otherwise the payload
        built from the current settings, source and references is sent. */
    method HandleGenerate() returns (run: Option<Run>)
      requires Valid()
      modifies this`isGenerating, this`generateError, generateController
      ensures Valid()
      ensures PromptMissing(settings.enhancedPrompt, settings.rawPrompt) ==> run.None? && generateError == Some(NO_PROMPT)
      ensures !PromptMissing(settings.enhancedPrompt, settings.rawPrompt) && sourceImage.None? ==> run.None? && generateError == Some(NO_SOURCE)
      ensures run.None? ==> isGenerating == old(isGenerating) && unchanged(generateController)
      ensures !PromptMissing(settings.enhancedPrompt, settings.rawPrompt) && sourceImage.Some? ==>
        && run.Some? && run.value.payload == Payload(settings, sourceImage.value, referenceImages)
        && run.value.settings == settings
        && isGenerating && generateError == None
        && generateController.current == Some(run.value.controller)
    {
      if PromptMissing(settings.enhancedPrompt, settings.rawPrompt) {
        generateError := Some(NO_PROMPT);
        return None;
      }
      if sourceImage.None? {
        generateError := Some(NO_SOURCE);
        return None;
      }
      var r := StartGeneration(Payload(settings, sourceImage.value, referenceImages));
      run := Some(r);
    }

    /** `handleRegenerate`: resend the last successful request when there is
        one, otherwise generate afresh. */
    method HandleRegenerate() returns (run: Option<Run>)
      requires Valid()
      modifies this`isGenerating, this`generateError, generateController
      ensures Valid()
      ensures old(lastRequest).Some? ==>
        && run.Some? && run.value.payload == old(lastRequest).value
        && run.value.settings == settings
        && isGenerating && generateError == None
        && generateController.current == Some(run.value.controller)
      ensures old(lastRequest).None? && !PromptMissing(settings.enhancedPrompt, settings.rawPrompt) && sourceImage.Some? ==>
        run.Some? && run.value.payload == Payload(settings, sourceImage.value, referenceImages)
      ensures old(lastRequest).None? && PromptMissing(settings.enhancedPrompt, settings.rawPrompt) ==>
        run.None? && generateError == Some(NO_PROMPT)
      ensures old(lastRequest).None? && !PromptMissing(settings.enhancedPrompt, settings.rawPrompt) && sourceImage.None? ==>
        run.None? && generateError == Some(NO_SOURCE)
    {
      if lastRequest.Some? {
        var r := StartGeneration(lastRequest.value);
        run := Some(r);
      } else {
        run := HandleGenerate();
      }
    }
  }

  /** A request superseded by a newer one is aborted and, when it settles
      with its AbortError, lowers the generating flag although the newer
      request is still in flight; nothing else changes. */
  method SupersededRunClearsFlag(panel: Panel, first: Api.SeedreamRequest, second: Api.SeedreamRequest,
                                 history: HistoryStore.Store)
    requires panel.Valid()
    modifies panel, panel.generateController, history
    ensures !panel.isGenerating && panel.generateError == None
    ensures panel.generateController.current.Some?
    ensures history.items == old(history.items)
  {
    var a := panel.StartGeneration(first);
    var b := panel.StartGeneration(second);
    assert a.controller in panel.generateController.aborted;
    panel.FinishGeneration(a, Aborted, history, "", 0);
  }
}
