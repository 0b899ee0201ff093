/** What the two editor panels share: picking the prompt to send, the
    dimensions of a selected preset, how a finished request ends (with data,
    aborted, or failed), and the reference to the in-flight request's
    abort controller, which a new request aborts first. */
module Generation {
  import opened Wrappers
  import opened Strings
  import opened HistoryTypes
  import ImageSizing

  /** `enhancedPrompt || rawPrompt`: a non-empty enhanced prompt wins, even
      one that is only white space. */
  function PromptSource(enhanced: string, raw: string): string {
    if enhanced != "" then enhanced else raw
  }

  /** The panels' `!prompt` test on the trimmed selection. */
  predicate PromptMissing(enhanced: string, raw: string) {
    IsBlank(PromptSource(enhanced, raw))
  }

  /** `(enhancedPrompt || rawPrompt).trim()`: empty exactly when the chosen
      prompt is blank, and otherwise starting and ending with a visible
      character. */
  function SelectedPrompt(enhanced: string, raw: string): (p: string)
    ensures p == "" <==> PromptMissing(enhanced, raw)
    ensures p != "" ==> !IsWhitespace(p[0]) && !IsWhitespace(p[|p| - 1])
  {
    Trim(PromptSource(enhanced, raw))
  }

  /** A white-space enhanced prompt shadows the raw one: nothing is sent,
      whatever the raw prompt says. */
  lemma BlankEnhancedShadowsRaw(enhanced: string, raw: string)
    requires enhanced != "" && IsBlank(enhanced)
    ensures SelectedPrompt(enhanced, raw) == ""
    ensures PromptMissing(enhanced, raw)
  {
  }

  /** With no enhanced prompt the raw prompt is sent trimmed; selecting
      again changes nothing. */
  lemma SelectedPromptTrimmed(enhanced: string, raw: string)
    ensures enhanced == "" ==> SelectedPrompt(enhanced, raw) == Trim(raw)
    ensures SelectedPrompt("", SelectedPrompt(enhanced, raw)) == SelectedPrompt(enhanced, raw)
  {
    TrimIdempotent(PromptSource(enhanced, raw));
  }

  /** `computeDimensions` on a selected preset. */
  function PanelDimensions(a: AspectRatio, resolution: ResolutionPreset): (d: ImageSizing.Dimensions)
    ensures ImageSizing.OnGrid(d.width) && ImageSizing.OnGrid(d.height)
  {
    var terms := ImageSizing.RatioTerms(a);
    assert terms.width > 0 && terms.height > 0;
    ImageSizing.DimensionsForRatio(terms, resolution)
  }

  /** A selected preset never fails to parse. */
  lemma PanelDimensionsComputed(a: AspectRatio, resolution: ResolutionPreset)
    ensures ImageSizing.ComputeDimensions(AspectRatioText(a), resolution) == Ok(PanelDimensions(a, resolution))
  {
    ImageSizing.SelectableDimensions(a, resolution);
  }

  /** How an awaited request ends: with its data, with an AbortError, or
      with another error, whose `message` may be missing. */
  datatype Outcome<T> = Succeeded(value: T) | Aborted | Failed(message: Option<string>)

  /** The `enhancePrompt` call a panel makes: the controller whose signal
      it carries, the raw prompt as typed, and the editor's mode. */
  datatype EnhanceCall = EnhanceCall(controller: nat, prompt: string, mode: EditorTab)

  /** The error a panel shows once a request has ended: none after success or
      an abort, else the error's message or the panel's default text. */
  function ErrorAfter<T>(outcome: Outcome<T>, default: string): (e: Option<string>)
    ensures e.Some? <==> outcome.Failed?
    ensures outcome.Failed? && outcome.message.Some? ==> e == outcome.message
    ensures outcome.Failed? && outcome.message.None? ==> e == Some(default)
  {
    match outcome
    case Failed(message) => Some(message.GetOr(default))
    case _ => None
  }

  /** A `useRef<AbortController | null>`: controllers are numbered in the
      order they are created; `current` is the one the ref holds and
      `aborted` those whose `abort()` has been called. */
  class ControllerRef {
    var current: Option<nat>
    var aborted: set<nat>
    var issued: nat

    /** Every controller mentioned has been created. */
    ghost predicate Valid()
      reads this
    {
      && (current.Some? ==> current.value < issued)
      && forall c :: c in aborted ==> c < issued
    }

    constructor()
      ensures Valid() && current == None && aborted == {} && issued == 0
    {
      current := None;
      aborted := {};
      issued := 0;
    }

    /** `ref.current?.abort(); const controller = new AbortController();
        ref.current = controller;` */
    method Replace() returns (controller: nat)
      requires Valid()
      modifies this
      ensures Valid()
      ensures aborted == old(aborted) + (if old(current).Some? then {old(current).value} else {})
      ensures controller == old(issued) && issued == old(issued) + 1
      ensures current == Some(controller) && controller !in aborted
    {
      if current.Some? {
        aborted := aborted + {current.value};
      }
      controller := issued;
      issued := issued + 1;
      current := Some(controller);
    }

    /** The unmount clean-up `() => ref.current?.abort()`. */
    method AbortCurrent()
      requires Valid()
      modifies this
      ensures Valid()
      ensures aborted == old(aborted) + (if current.Some? then {current.value} else {})
      ensures current == old(current) && issued == old(issued)
    {
      if current.Some? {
        aborted := aborted + {current.value};
      }
    }
  }

  /** Two requests started one after the other: the first one's controller
      is aborted when the second starts, and the second's is live. */
  method SingleFlight(ref: ControllerRef) returns (first: nat, second: nat)
    requires ref.Valid()
    modifies ref
    ensures first in ref.aborted && second !in ref.aborted && ref.current == Some(second)
    ensures first != second
  {
    first := ref.Replace();
    second := ref.Replace();
  }
}
