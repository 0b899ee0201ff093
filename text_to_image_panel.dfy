/** The text-to-image editor: a prompt, its enhanced version, an aspect ratio
    and a resolution preset, sent together with the model the app has
    selected. As in the image-to-image editor, each awaited request is split
    into a `Start…` part and a `Finish…` part that receives the settled
    outcome, and ids and clock readings are parameters. */
module TextToImagePanel {
  import opened Wrappers
  import opened Strings
  import opened HistoryTypes
  import opened Generation
  import Api
  import Values
  import ImageSizing
  import GenerateImage
  import HistoryStore
  import AppStore

  /** "Please enter a prompt." */
  const NO_PROMPT: string := "\U{D504}\U{B86C}\U{D504}\U{D2B8}\U{B97C} \U{C785}\U{B825}\U{D574}\U{C8FC}\U{C138}\U{C694}."
  /** "Image generation failed." */
  const GENERATE_FAILED: string := "\U{C774}\U{BBF8}\U{C9C0} \U{C0DD}\U{C131}\U{C5D0} \U{C2E4}\U{D328}\U{D588}\U{C2B5}\U{B2C8}\U{B2E4}."
  /** "Prompt enhancement failed." */
  const ENHANCE_FAILED: string := "\U{D504}\U{B86C}\U{D504}\U{D2B8} \U{AC15}\U{D654}\U{C5D0} \U{C2E4}\U{D328}\U{D588}\U{C2B5}\U{B2C8}\U{B2E4}."
  /** Models whose name starts with this return base64 data, which the
      history does not keep. */
  const NANO_PREFIX: string := "nano-banana"

  /** The form state a history entry can restore. */
  datatype Settings = Settings(
    rawPrompt: string,
    enhancedPrompt: string,
    aspectRatio: AspectRatio,
    resolution: ResolutionPreset)

  // ---------------------------------------------------------------------
  // The size string
  // ---------------------------------------------------------------------

  /** `` `${width}x${height}` ``. */
  function SizeText(d: ImageSizing.Dimensions): string
    requires d.width >= 0 && d.height >= 0
  {
    NatToString(d.width) + "x" + NatToString(d.height)
  }

  /** A side between 100 and 9999 prints with three or four digits. */
  lemma SideDigits(n: nat)
    requires 100 <= n < 10000
    ensures 3 <= |NatToString(n)| <= 4
  {
    var a := n / 10;
    var b := a / 10;
    assert |NatToString(n)| == |NatToString(a)| + 1;
    assert |NatToString(a)| == |NatToString(b)| + 1;
    if b >= 10 {
      assert |NatToString(b)| == |NatToString(b / 10)| + 1;
    }
  }

  /** The size a selected preset sends is `WxH` with digits that read back
      as the width and the height, so the proxy's size normalisation keeps
      it exactly as sent. */
  lemma {:induction false} SizeTextAccepted(d: ImageSizing.Dimensions)
    requires ImageSizing.OnGrid(d.width) && ImageSizing.OnGrid(d.height)
    ensures var f := SizeText(d);
      var i := |NatToString(d.width)|;
      && i < |f| && f[i] == 'x'
      && ParseDecimal(f[..i]) == d.width && ParseDecimal(f[i + 1..]) == d.height
    ensures GenerateImage.NormalizeSizeString(SizeText(d)) == Some(SizeText(d))
  {
    var w := NatToString(d.width);
    var h := NatToString(d.height);
    var f := SizeText(d);
    var i := |w|;
    SideDigits(d.width);
    SideDigits(d.height);
    assert f[..i] == w && f[i + 1..] == h && f[i] == 'x';
    ParseNatToString(d.width);
    ParseNatToString(d.height);
    assert GenerateImage.IsSide(f[..i]) && GenerateImage.IsSide(f[i + 1..]);
    assert GenerateImage.IsWxH(f);
    assert GenerateImage.MULTIPLICATION_SIGN !in f by {
      assert GenerateImage.MULTIPLICATION_SIGN !in w && GenerateImage.MULTIPLICATION_SIGN !in h;
      assert f == w + "x" + h;
    }
    GenerateImage.WxHStable(f);
  }

  // ---------------------------------------------------------------------
  // Payload and history entry
  // ---------------------------------------------------------------------

  /** The request `handleGenerate` builds: the model, the trimmed prompt,
      the preset's width and height, the ratio, the `WxH` size and the
      watermark off. */
  function Payload(model: string, s: Settings): Api.SeedreamRequest {
    var d := PanelDimensions(s.aspectRatio, s.resolution);
    Api.SeedreamRequest(
      model := Some(model),
      prompt := SelectedPrompt(s.enhancedPrompt, s.rawPrompt),
      responseFormat := None,
      stream := None,
      watermark := Some(false),
      sequentialImageGeneration := None,
      sequentialImageGenerationOptions := None,
      seed := None,
      steps := None,
      guidanceScale := None,
      aspectRatio := Some(s.aspectRatio),
      size := Some(SizeText(d)),
      width := Some(d.width),
      height := Some(d.height),
      image := Values.NoImage,
      references := None)
  }

  /** `model.startsWith("nano-banana")`. */
  predicate IsNano(model: string) {
    NANO_PREFIX <= model
  }

  /** A request in flight: its controller, what was sent, and the settings
      the panel had when the request started. */
  datatype Run = Run(controller: nat, payload: Api.SeedreamRequest, settings: Settings)

  /** The entry `runGeneration` records for a successful run. The entry
      keeps only ratio, preset and size: the other parameters are recorded
      as their defaults (no seed, steps or guidance; watermark and streaming
      off; sequential generation disabled). A nano model's results are
      not kept. */
  function HistoryEntry(run: Run, data: seq<GeneratedImage>, model: string, id: string, now: int): HistoryItem {
    var s := run.settings;
    var p := run.payload;
    var d := PanelDimensions(s.aspectRatio, s.resolution);
    var first := if IsNano(model) || data == [] then None else Some(data[0].url);
    HistoryItem(
      id := id,
      createdAt := now,
      source := T2I,
      promptRaw := s.rawPrompt,
      promptEnhanced := if s.enhancedPrompt == "" then None else Some(s.enhancedPrompt),
      params := HistoryParams(
        aspectRatio := s.aspectRatio,
        resolution := s.resolution,
        width := p.width.GetOr(d.width),
        height := p.height.GetOr(d.height),
        seed := None,
        steps := None,
        guidance := None,
        watermark := false,
        stream := false,
        sequentialImageGeneration := Disabled),
      thumb := first,
      url := first)
  }

  /** What the restore effect sets from a history entry. */
  function Restored(item: HistoryItem): Settings {
    Settings(item.promptRaw, item.promptEnhanced.GetOr(""), item.params.aspectRatio, item.params.resolution)
  }

  /** Restoring the entry a generation recorded gives back the settings it
      was generated with, and the entry's size is the preset's, the one that
      was sent. */
  lemma HistoryRestoresSettings(model: string, s: Settings, c: nat, data: seq<GeneratedImage>, id: string, now: int)
    ensures var item := HistoryEntry(Run(c, Payload(model, s), s), data, model, id, now);
      && Restored(item) == s
      && item.source == T2I
      && ImageSizing.Dimensions(item.params.width, item.params.height) == PanelDimensions(s.aspectRatio, s.resolution)
      && Payload(model, s).size == Some(SizeText(ImageSizing.Dimensions(item.params.width, item.params.height)))
  {
  }

  /** A nano model's entry holds neither thumbnail nor URL; any other
      model's holds the first result's URL as both. */
  lemma NanoEntriesKeepNoImage(run: Run, data: seq<GeneratedImage>, model: string, id: string, now: int)
    ensures var item := HistoryEntry(run, data, model, id, now);
      && (IsNano(model) ==> item.thumb.None? && item.url.None?)
      && (!IsNano(model) && data != [] ==> item.thumb == item.url == Some(data[0].url))
      && (model == GenerateImage.NANO_MODEL ==> item.url.None?)
  {
  }

  // ---------------------------------------------------------------------
  // The panel
  // ---------------------------------------------------------------------

  class Panel {
    /** The form: four `useState`s in the component, held together. */
    var settings: Settings
    var images: seq<GeneratedImage>
    var isGenerating: bool
    var generateError: Option<string>
    var enhancing: bool
    var enhancementError: Option<string>
    var lastRequest: Option<Api.SeedreamRequest>
    /** The selected model's name. The source reads it from an app-store
        field that does not exist; here it is given to the constructor. */
    const model: string
    const generateController: ControllerRef
    const enhanceController: ControllerRef

    /** The two controller refs are distinct and consistent. */
    ghost predicate Valid()
      reads this, generateController, enhanceController
    {
      && generateController != enhanceController
      && generateController.Valid() && enhanceController.Valid()
    }

    /** The initial state: empty prompts, 16:9 at 720p, nothing generated. */
    constructor(model: string)
      ensures Valid() && fresh(generateController) && fresh(enhanceController)
      ensures this.model == model
      ensures settings == Settings("", "", Ratio16x9, Res720p)
      ensures images == [] && !isGenerating && generateError == None
      ensures !enhancing && enhancementError == None && lastRequest == None
      ensures generateController.current == None && enhanceController.current == None
    {
      this.model := model;
      settings := Settings("", "", Ratio16x9, Res720p);
      images := [];
      isGenerating := false;
      generateError := None;
      enhancing := false;
      enhancementError := None;
      lastRequest := None;
      generateController := new ControllerRef();
      enhanceController := new ControllerRef();
    }

    /** The restore effect: a `t2i` entry waiting in the app store is
        copied into the form, the last request and the images are cleared,
        and the entry is taken out of the store. Any other pending state is
        left alone. */
    method ApplyPendingHistory(app: AppStore.AppState)
      requires Valid()
      modifies this`settings, this`images, this`lastRequest, app
      ensures Valid()
      ensures var pending := old(app.pendingHistory);
        pending.Some? && pending.value.source == T2I ==>
          && settings == Restored(pending.value)
          && images == [] && lastRequest == None
          && app.pendingHistory == None
          && app.activeTab == old(app.activeTab) && app.historyOpen == old(app.historyOpen)
          && app.theme == old(app.theme) && app.storage == old(app.storage)
      ensures var pending := old(app.pendingHistory);
        !(pending.Some? && pending.value.source == T2I) ==> unchanged(this) && unchanged(app)
    {
      var pending := app.pendingHistory;
      if pending.None? || pending.value.source != T2I {
        return;
      }
      settings := Restored(pending.value);
      lastRequest := None;
      images := [];
      app.SetPendingHistory(None);
    }

    /** The unmount clean-ups: both in-flight requests are aborted. */
    method AbortOnUnmount()
      requires Valid()
      modifies generateController, enhanceController
      ensures Valid()
      ensures generateController.aborted == old(generateController.aborted) + (if generateController.current.Some? then {generateController.current.value} else {})
      ensures enhanceController.aborted == old(enhanceController.aborted) + (if enhanceController.current.Some? then {enhanceController.current.value} else {})
    {
      generateController.AbortCurrent();
      enhanceController.AbortCurrent();
    }

    /** The part of `handleEnhance` before the `await`: nothing for a blank
        raw prompt; otherwise the previous enhancement is aborted, the flag
        raised and the old error cleared, and the raw prompt, untrimmed, is
        what is sent. */
    method StartEnhance() returns (call: Option<EnhanceCall>)
      requires Valid()
      modifies this`enhancing, this`enhancementError, enhanceController
      ensures Valid()
      ensures call.None? <==> IsBlank(settings.rawPrompt)
      ensures call.None? ==> unchanged(this) && unchanged(enhanceController)
      ensures call.Some? ==>
        && call.value.prompt == settings.rawPrompt && call.value.mode == T2I
        && enhanceController.current == Some(call.value.controller)
        && call.value.controller !in enhanceController.aborted
        && (old(enhanceController.current).Some? ==> old(enhanceController.current).value in enhanceController.aborted)
        && enhancing && enhancementError == None
    {
      if IsBlank(settings.rawPrompt) {
        return None;
      }
      var controller := enhanceController.Replace();
      enhancing := true;
      enhancementError := None;
      call := Some(EnhanceCall(controller, settings.rawPrompt, T2I));
    }

    /** The part of `handleEnhance` after the `await`: the enhanced prompt on
        success, an error message on failure, nothing on abort, and the flag
        lowered in every case. */
    method FinishEnhance(outcome: Outcome<string>)
      modifies this`settings, this`enhancementError, this`enhancing
      ensures !enhancing
      ensures settings == (if outcome.Succeeded? then old(settings).(enhancedPrompt := outcome.value) else old(settings))
      ensures enhancementError == (if outcome.Failed? then ErrorAfter(outcome, ENHANCE_FAILED) else old(enhancementError))
    {
      match outcome {
        case Succeeded(enhanced) =>
          settings := settings.(enhancedPrompt := enhanced);
        case Aborted =>
        case Failed(_) =>
          enhancementError := ErrorAfter(outcome, ENHANCE_FAILED);
      }
      enhancing := false;
    }

    /** The part of `runGeneration` before the `await`: the previous request
        is aborted, a new controller installed, the flag raised and the old
        error cleared. The run remembers the settings of this moment. */
    method StartGeneration(payload: Api.SeedreamRequest) returns (run: Run)
      requires Valid()
      modifies this`isGenerating, this`generateError, generateController
      ensures Valid()
      ensures run.payload == payload && run.settings == settings
      ensures isGenerating && generateError == None
      ensures generateController.current == Some(run.controller) && run.controller !in generateController.aborted
      ensures old(generateController.current).Some? ==> old(generateController.current).value in generateController.aborted
    {
      var controller := generateController.Replace();
      isGenerating := true;
      generateError := None;
      run := Run(controller, payload, settings);
    }

    /** The part of `runGeneration` after the `await`. Success shows the
        images, remembers the request and records a history entry; failure
        shows the error's message or the default; an abort sets nothing. The
        flag is lowered in every case. */
    method FinishGeneration(run: Run, outcome: Outcome<seq<GeneratedImage>>, history: HistoryStore.Store, id: string, now: int)
      modifies this`images, this`lastRequest, this`generateError, this`isGenerating, history
      ensures !isGenerating
      ensures outcome.Succeeded? ==>
        && images == outcome.value && lastRequest == Some(run.payload)
        && history.items == HistoryStore.Upserted(old(history.items), HistoryEntry(run, outcome.value, model, id, now))
        && generateError == old(generateError)
      ensures !outcome.Succeeded? ==>
        && images == old(images) && lastRequest == old(lastRequest) && history.items == old(history.items)
        && generateError == (if outcome.Failed? then ErrorAfter(outcome, GENERATE_FAILED) else old(generateError))
    {
      match outcome {
        case Succeeded(data) =>
          images := data;
          lastRequest := Some(run.payload);
          history.AddItem(HistoryEntry(run, data, model, id, now));
        case Aborted =>
        case Failed(_) =>
          generateError := ErrorAfter(outcome, GENERATE_FAILED);
      }
      isGenerating := false;
    }

    /** `handleGenerate`: a blank selected prompt sets the error and starts
        nothing; otherwise the payload built from the current settings is
        sent. */
    method HandleGenerate() returns (run: Option<Run>)
      requires Valid()
      modifies this`isGenerating, this`generateError, generateController
      ensures Valid()
      ensures PromptMissing(settings.enhancedPrompt, settings.rawPrompt) ==>
        && run.None? && generateError == Some(NO_PROMPT)
        && isGenerating == old(isGenerating) && unchanged(generateController)
      ensures !PromptMissing(settings.enhancedPrompt, settings.rawPrompt) ==>
        && run.Some? && run.value.payload == Payload(model, settings)
        && run.value.settings == settings
        && isGenerating && generateError == None
        && generateController.current == Some(run.value.controller)
    {
      if PromptMissing(settings.enhancedPrompt, settings.rawPrompt) {
        generateError := Some(NO_PROMPT);
        return None;
      }
      var r := StartGeneration(Payload(model, settings));
      run := Some(r);
    }

    /** `handleRegenerate`: resend the last successful request when there is
        one, otherwise generate afresh. */
    method HandleRegenerate() returns (run: Option<Run>)
      requires Valid()
      modifies this`isGenerating, this`generateError, generateController
      ensures Valid()
      ensures old(lastRequest).Some? ==>
        && run.Some? && run.value.payload == old(lastRequest).value
        && run.value.settings == settings
        && isGenerating && generateError == None
        && generateController.current == Some(run.value.controller)
      ensures old(lastRequest).None? && !PromptMissing(settings.enhancedPrompt, settings.rawPrompt) ==>
        run.Some? && run.value.payload == Payload(model, settings)
      ensures old(lastRequest).None? && PromptMissing(settings.enhancedPrompt, settings.rawPrompt) ==>
        run.None? && generateError == Some(NO_PROMPT)
    {
      if lastRequest.Some? {
        var r := StartGeneration(lastRequest.value);
        run := Some(r);
      } else {
        run := HandleGenerate();
      }
    }
  }
}
