/**
 * `CaptionPromptSchema`: a required prompt, a non-blank string of 1 to 300
 * characters, trimmed.
 */
module CaptionPromptSchema {
  import opened Wrappers
  import opened Zod
  import JsText
  import PromptText

  datatype PromptFields = PromptFields(prompt: JsValue)

  /** `CaptionPromptSchema.safeParse(fields)`: the trimmed prompt, or the prompt's issues. */
  function Validate(fields: PromptFields): (r: Result<string, seq<Issue>>)
    ensures r.Success? ==> fields.prompt.Str? && r.value == JsText.Trim(fields.prompt.s)
    ensures r.Failure? ==> |r.error| > 0 && forall k :: 0 <= k < |r.error| ==> |r.error[k].path| > 0 && r.error[k].path[0] == "prompt"
  {
    var prompt := PromptText.NonBlankText(fields.prompt);
    if prompt.Valid? then Success(prompt.value)
    else Failure(AtPath("prompt", prompt.Issues()))
  }

  /** Accepted exactly when the prompt is a string of 1 to 300 characters that is not
      all blanks, and the result is then non-empty. */
  lemma {:induction false} ValidateAccepts(fields: PromptFields)
    ensures Validate(fields).Success? <==>
      fields.prompt.Str? && 1 <= |fields.prompt.s| <= PromptText.MaxCaptionPromptLength
      && !JsText.AllWhitespace(fields.prompt.s)
    ensures Validate(fields).Success? ==> |Validate(fields).value| > 0
  {
    if fields.prompt.Str? {
      PromptText.NonBlankTextAccepts(fields.prompt.s);
      PromptText.NonBlankTextOfString(fields.prompt.s);
      JsText.TrimEmptyIffBlank(fields.prompt.s);
    }
  }

  /** The prompt is required: leaving it out yields zod's "Required" at `prompt`. */
  lemma MissingPromptRequired()
    ensures Validate(PromptFields(Undefined)) == Failure([Issue(InvalidType, ["prompt"], "Required")])
  {
    var issues := [Issue(InvalidType, [], "Required")];
    assert PromptText.NonBlankText(Undefined) == Aborted(issues);
    var r := AtPath("prompt", issues);
    assert ["prompt"] + [] == ["prompt"];
    assert |r| == 1 && r[0] == Issue(InvalidType, ["prompt"], "Required");
    assert r == [Issue(InvalidType, ["prompt"], "Required")];
    assert Validate(PromptFields(Undefined)) == Failure(r);
  }

  /** The accepted prompt is already trimmed: validating it again gives it back. */
  lemma {:induction false} ValidateIdempotent(s: string)
    requires Validate(PromptFields(Str(s))).Success?
    ensures var t := Validate(PromptFields(Str(s))).value;
      Validate(PromptFields(Str(t))) == Success(t)
  {
    ValidateAccepts(PromptFields(Str(s)));
    var t := JsText.Trim(s);
    PromptText.AcceptedTextIsTrimmed(s);
    JsText.TrimIdempotent(s);
    JsText.TrimEmptyIffBlank(t);
    ValidateAccepts(PromptFields(Str(t)));
  }
}
