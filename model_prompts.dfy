/** Prompt adjustment for the Gemini-backed model, which has no size
    parameter: the requested aspect ratio is written into the prompt text. */
module ModelPrompts {
  import opened Strings
  import opened HistoryTypes

  const NANO_MODEL := "nano-banana"
  /** The Korean word for "ratio". */
  const RATIO_WORD := "\U{BE44}\U{C728}"
  const ENGLISH_RATIO_PHRASE := " with an aspect ratio of "

  /** The text has a character of the Hangul Syllables block, U+AC00 to U+D7AF. */
  predicate HasHangul(s: string) {
    exists i :: 0 <= i < |s| && '\U{AC00}' <= s[i] <= '\U{D7AF}'
  }

  /** The trimmed prompt with the ratio appended: after a comma with the
      Korean word when the prompt has Hangul, else as an English phrase. */
  function WithRatio(trimmedPrompt: string, ratio: string): (r: string)
    requires ratio != []
    ensures trimmedPrompt <= r && Contains(r, ratio)
    ensures r[|r| - 1] == (if HasHangul(trimmedPrompt) then RATIO_WORD[1] else ratio[|ratio| - 1])
  {
    if HasHangul(trimmedPrompt) then
      ContainsMiddle(trimmedPrompt + ", ", ratio, " " + RATIO_WORD);
      assert trimmedPrompt + ", " + ratio + (" " + RATIO_WORD) == trimmedPrompt + ", " + ratio + " " + RATIO_WORD;
      trimmedPrompt + ", " + ratio + " " + RATIO_WORD
    else
      ContainsMiddle(trimmedPrompt + ENGLISH_RATIO_PHRASE, ratio, []);
      assert trimmedPrompt + ENGLISH_RATIO_PHRASE + ratio + [] == trimmedPrompt + ENGLISH_RATIO_PHRASE + ratio;
      trimmedPrompt + ENGLISH_RATIO_PHRASE + ratio
  }

  /** `injectAspectRatioIntoPrompt`: other models get the prompt as it is; a
      blank prompt is returned untrimmed; otherwise the trimmed prompt, with
      the trimmed ratio appended in Korean or English unless it is blank or
      already mentioned. */
  function InjectAspectRatio(model: string, prompt: string, aspectRatio: string): (r: string)
    ensures model != NANO_MODEL ==> r == prompt
    ensures IsBlank(prompt) ==> r == prompt
    ensures model == NANO_MODEL && !IsBlank(prompt) ==>
      && Trim(prompt) <= r
      && (IsBlank(aspectRatio) || Contains(Trim(prompt), Trim(aspectRatio)) ==> r == Trim(prompt))
      && Contains(r, Trim(aspectRatio))
    ensures model == NANO_MODEL && !IsBlank(prompt) && !IsBlank(aspectRatio)
            && !Contains(Trim(prompt), Trim(aspectRatio)) ==>
      r == (if HasHangul(Trim(prompt)) then Trim(prompt) + ", " + Trim(aspectRatio) + " " + RATIO_WORD
            else Trim(prompt) + ENGLISH_RATIO_PHRASE + Trim(aspectRatio))
  {
    if model != NANO_MODEL then prompt
    else
      var trimmedPrompt := Trim(prompt);
      if trimmedPrompt == [] then prompt
      else
        var ratio := Trim(aspectRatio);
        if ratio == [] then
          assert OccursAt(trimmedPrompt, ratio, 0);
          trimmedPrompt
        else if Contains(trimmedPrompt, ratio) then trimmedPrompt
        else WithRatio(trimmedPrompt, ratio)
  }

  /** The appended form has no blank at either end and names the ratio. */
  lemma WithRatioIsFixed(trimmedPrompt: string, ratio: string)
    requires trimmedPrompt != [] && !IsWhitespace(trimmedPrompt[0])
    requires ratio != [] && !IsWhitespace(ratio[|ratio| - 1])
    ensures Trim(WithRatio(trimmedPrompt, ratio)) == WithRatio(trimmedPrompt, ratio)
    ensures !IsBlank(WithRatio(trimmedPrompt, ratio))
  {
    var r := WithRatio(trimmedPrompt, ratio);
    assert r[0] == trimmedPrompt[0];
    TrimmedIsFixed(r);
  }

  /** A prompt that already went through the injection comes back unchanged. */
  lemma InjectIdempotent(model: string, prompt: string, aspectRatio: string)
    ensures InjectAspectRatio(model, InjectAspectRatio(model, prompt, aspectRatio), aspectRatio)
         == InjectAspectRatio(model, prompt, aspectRatio)
  {
    if model == NANO_MODEL && !IsBlank(prompt) {
      var t := Trim(prompt);
      assert t != [] && !IsWhitespace(t[0]);
      var ratio := Trim(aspectRatio);
      if ratio == [] || Contains(t, ratio) {
        TrimIdempotent(prompt);
        assert InjectAspectRatio(model, prompt, aspectRatio) == t;
      } else {
        assert !IsWhitespace(ratio[|ratio| - 1]);
        WithRatioIsFixed(t, ratio);
        assert InjectAspectRatio(model, prompt, aspectRatio) == WithRatio(t, ratio);
      }
    }
  }

  /** For a non-blank prompt, every selectable aspect ratio ends up named in
      the prompt sent to the Gemini-backed model. */
  lemma SelectableRatioMentioned(prompt: string, a: AspectRatio)
    requires !IsBlank(prompt)
    ensures Contains(InjectAspectRatio(NANO_MODEL, prompt, AspectRatioText(a)), AspectRatioText(a))
  {
    SelectableRatioTrimmed(a);
  }

  /** Every selectable ratio's text starts and ends with a digit, so
      trimming leaves it as it is and it is not blank. */
  lemma SelectableRatioTrimmed(a: AspectRatio)
    ensures var t := AspectRatioText(a); !IsBlank(t) && Trim(t) == t
  {
    var t := AspectRatioText(a);
    assert |t| >= 3 && '0' <= t[0] <= '9' && '0' <= t[|t| - 1] <= '9' by {
      match a
      case Ratio1x1 =>
      case Ratio16x9 =>
      case Ratio9x16 =>
      case Ratio2x3 =>
      case Ratio3x4 =>
      case Ratio1x2 =>
      case Ratio2x1 =>
      case Ratio4x5 =>
      case Ratio3x2 =>
      case Ratio4x3 =>
    }
    assert !IsWhitespace(t[0]);
    TrimmedIsFixed(t);
  }

  /** A non-blank prompt without Hangul that does not name the non-blank
      ratio gets the English phrase; both are trimmed first. */
  lemma EnglishForm(p: string, a: string)
    requires !IsBlank(p) && !IsBlank(a)
    requires !Contains(Trim(p), Trim(a)) && !HasHangul(Trim(p))
    ensures InjectAspectRatio(NANO_MODEL, p, a) == Trim(p) + ENGLISH_RATIO_PHRASE + Trim(a)
  {
  }

  /** A non-blank prompt with Hangul that does not name the non-blank ratio
      gets the ratio after a comma, followed by the Korean word; both are
      trimmed first. */
  lemma KoreanForm(p: string, a: string)
    requires !IsBlank(p) && !IsBlank(a)
    requires !Contains(Trim(p), Trim(a)) && HasHangul(Trim(p))
    ensures InjectAspectRatio(NANO_MODEL, p, a) == Trim(p) + ", " + Trim(a) + " " + RATIO_WORD
  {
  }

  /** A prompt with Hangul gets the ratio followed by the Korean word. */
  lemma KoreanExample()
    ensures InjectAspectRatio(NANO_MODEL, "\U{ACE0}\U{C591}\U{C774}", "1:1")
         == "\U{ACE0}\U{C591}\U{C774}, 1:1 " + RATIO_WORD
  {
    var p, a := "\U{ACE0}\U{C591}\U{C774}", "1:1";
    assert p + ", " + a + " " == "\U{ACE0}\U{C591}\U{C774}, 1:1 ";
    assert InjectAspectRatio(NANO_MODEL, p, a) == p + ", " + a + " " + RATIO_WORD by {
      assert HasHangul(p) by {
        assert '\U{AC00}' <= p[0] <= '\U{D7AF}';
      }
      assert !Contains(p, a) by {
        forall i | 0 <= i <= |p| - |a|
          ensures !OccursAt(p, a, i)
        {
          assert p[i..i + |a|][0] == p[0] != a[0];
        }
      }
      TrimmedIsFixed(p);
      TrimmedIsFixed(a);
      KoreanForm(p, a);
    }
  }
}
