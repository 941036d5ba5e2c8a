/**
 * The spell text box (frontend/src/components/SpellInput.js): the `spellText`
 * and `charCount` state cells, the 500-character cap and the guarded
 * submit-and-clear. `isLoading` and `disabled` are the component's props and
 * are passed to each handler; a cast is returned instead of calling `onSpellCast`.
 */
module SpellInput {

  import opened Wrappers
  import opened JsText
  import SpellRoutes

  const MaxChars := 500

  /** `spellText.trim() && !isLoading && !disabled`, and what `onSpellCast` then receives. */
  function Submission(text: string, isLoading: bool, disabled: bool): (r: Option<string>)
    ensures r.Some? <==> !AllWhitespace(text) && !isLoading && !disabled
    ensures r.Some? ==> r.value == Trim(text)
  {
    TrimEmptyIffAllWhitespace(text);
    if Trim(text) != [] && !isLoading && !disabled then Some(Trim(text)) else None
  }

  /** The cast button's `disabled` attribute. */
  predicate CastButtonDisabled(text: string, isLoading: bool, disabled: bool) {
    Trim(text) == [] || isLoading || disabled
  }

  /** The button is enabled exactly when submitting would cast a spell. */
  lemma ButtonEnabledIffSubmits(text: string, isLoading: bool, disabled: bool)
    ensures !CastButtonDisabled(text, isLoading, disabled) <==> Submission(text, isLoading, disabled).Some?
  {
    TrimEmptyIffAllWhitespace(text);
  }

  /** A spell cast from a box within its cap always passes the backend's text
      checks: it is not blank and has at most 500 characters. */
  lemma SubmittedSpellPassesGate(text: string, isLoading: bool, disabled: bool)
    requires |text| <= MaxChars
    requires Submission(text, isLoading, disabled).Some?
    ensures SpellRoutes.SpellTextError(Submission(text, isLoading, disabled)).None?
  {
    var t := Trim(text);
    TrimIdempotent(text);
    TrimEmptyIffAllWhitespace(text);
    TrimEmptyIffAllWhitespace(t);
  }

  class InputBox {
    var spellText: string
    var charCount: int

    /** The counter shows the length of the text, which never exceeds the cap. */
    predicate Valid()
      reads this
    {
      charCount == |spellText| <= MaxChars
    }

    constructor ()
      ensures Valid() && spellText == [] && charCount == 0
    {
      spellText := [];
      charCount := 0;
    }

    /** `handleInputChange`: accept the new text only when it fits the cap. */
    method HandleInputChange(text: string)
      requires Valid()
      modifies this
      ensures Valid()
      ensures |text| <= MaxChars ==> spellText == text && charCount == |text|
      ensures |text| > MaxChars ==> spellText == old(spellText) && charCount == old(charCount)
    {
      if |text| <= MaxChars {
        spellText := text;
        charCount := |text|;
      }
    }

    /** `handleSubmit`: cast the trimmed text and clear the box when the guard
        holds; otherwise change nothing. */
    method HandleSubmit(isLoading: bool, disabled: bool) returns (cast: Option<string>)
      requires Valid()
      modifies this
      ensures Valid()
      ensures cast == Submission(old(spellText), isLoading, disabled)
      ensures cast.Some? ==> spellText == [] && charCount == 0
      ensures cast.None? ==> spellText == old(spellText) && charCount == old(charCount)
    {
      cast := None;
      var trimmed := Trim(spellText);
      if trimmed != [] && !isLoading && !disabled {
        cast := Some(trimmed);
        spellText := [];
        charCount := 0;
      }
    }

    /** `handleKeyDown`: Enter without Shift is taken over (the default newline is
        prevented) and submits as `handleSubmit` does; any other key does nothing. */
    method HandleKeyDown(key: string, shiftKey: bool, isLoading: bool, disabled: bool)
      returns (cast: Option<string>, prevented: bool)
      requires Valid()
      modifies this
      ensures Valid()
      ensures prevented <==> key == "Enter" && !shiftKey
      ensures !prevented ==> cast == None && spellText == old(spellText) && charCount == old(charCount)
      ensures prevented ==> cast == Submission(old(spellText), isLoading, disabled)
      ensures cast.Some? ==> spellText == [] && charCount == 0
      ensures prevented && cast.None? ==> spellText == old(spellText) && charCount == old(charCount)
    {
      cast, prevented := None, false;
      if key == "Enter" && !shiftKey {
        prevented := true;
        cast := HandleSubmit(isLoading, disabled);
      }
    }
  }
}
