/**
 * The free-text field chain shared by `captionContextSchema.captionContext` and
 * `CaptionPromptSchema.prompt`: a string, `min(1)`, `max(300)`, a non-blank refinement,
 * then `trim`. The length limits apply to the raw string, before trimming.
 */
module PromptText {
  import opened Wrappers
  import opened Zod
  import JsText

  /** `MAX_CAPTION_PROMPT_LENGTH` */
  const MaxCaptionPromptLength: nat := 300

  const PromptRequiredMessage := "Prompt is required"
  const PromptTooLongMessage := "Prompt must be 300 characters or less"
  const PromptBlankMessage := "Prompt cannot be only empty spaces"

  /** `.max(MAX_CAPTION_PROMPT_LENGTH)` */
  predicate WithinPromptLimit(s: string) {
    |s| <= MaxCaptionPromptLength
  }

  /** `str.trim().length > 0` */
  predicate NotBlank(s: string) {
    |JsText.Trim(s)| > 0
  }

  /** The field schema: a non-string is rejected for good; an accepted string is one that
      passed all three checks, and the result is that string trimmed. */
  function NonBlankText(v: JsValue): (p: Parse<string>)
    ensures !v.Str? ==> p == Aborted([InvalidTypeIssue("string", v)])
    ensures p.Valid? ==> v.Str? && NotEmpty(v.s) && WithinPromptLimit(v.s) && NotBlank(v.s)
                         && p.value == JsText.Trim(v.s)
  {
    var str := StringOf(v);
    var min := Check(str, NotEmpty, Issue(TooSmall, [], PromptRequiredMessage));
    var max := Check(min, WithinPromptLimit, Issue(TooBig, [], PromptTooLongMessage));
    var nonBlank := Refine(max, NotBlank, PromptBlankMessage);
    Transform(nonBlank, JsText.Trim)
  }

  /** Reference: the issues of the checks a string fails, in declared order. */
  function BrokenRules(s: string): seq<Issue> {
    (if NotEmpty(s) then [] else [Issue(TooSmall, [], PromptRequiredMessage)])
    + (if WithinPromptLimit(s) then [] else [Issue(TooBig, [], PromptTooLongMessage)])
    + (if NotBlank(s) then [] else [Issue(Custom, [], PromptBlankMessage)])
  }

  /** On a string the chain reports exactly the failed checks, and otherwise yields the
      trimmed string. */
  lemma NonBlankTextOfString(s: string)
    ensures NonBlankText(Str(s)).Issues() == BrokenRules(s)
    ensures NonBlankText(Str(s)).Valid? <==> BrokenRules(s) == []
    ensures NonBlankText(Str(s)).Valid? ==> NonBlankText(Str(s)).value == JsText.Trim(s)
  {
    var p0 := StringOf(Str(s));
    assert p0 == Valid(s);
    var p1 := Check(p0, NotEmpty, Issue(TooSmall, [], PromptRequiredMessage));
    assert p1.value == s;
    var p2 := Check(p1, WithinPromptLimit, Issue(TooBig, [], PromptTooLongMessage));
    assert p2.value == s;
    var p3 := Refine(p2, NotBlank, PromptBlankMessage);
    assert p3.Issues() == BrokenRules(s);
  }

  /** Rejected exactly when the raw string is empty, over 300 characters, or blank. */
  lemma {:induction false} NonBlankTextAccepts(s: string)
    ensures NonBlankText(Str(s)).Valid? <==>
      1 <= |s| <= MaxCaptionPromptLength && !JsText.AllWhitespace(s)
  {
    NonBlankTextOfString(s);
    JsText.TrimEmptyIffBlank(s);
  }

  /** An accepted text is the input without its surrounding blanks: non-empty, no longer
      than the input (itself at most 300), and neither starting nor ending with a blank. */
  lemma {:induction false} AcceptedTextIsTrimmed(s: string)
    requires NonBlankText(Str(s)).Valid?
    ensures var t := NonBlankText(Str(s)).value;
      && t == JsText.Trim(s) && |t| > 0 && |t| <= |s| <= MaxCaptionPromptLength
      && !JsText.IsWhitespace(t[0]) && !JsText.IsWhitespace(t[|t| - 1])
      && (exists i, j :: 0 <= i <= j <= |s| && t == s[i..j])
  {
    NonBlankTextOfString(s);
    JsText.TrimIsBlankFreeInfix(s);
  }

  /** A whitespace-only string is rejected, its last message being the blank message. */
  lemma {:induction false} BlankTextRejected(s: string)
    requires JsText.AllWhitespace(s)
    ensures !NonBlankText(Str(s)).Valid?
    ensures var ms := Messages(NonBlankText(Str(s)).Issues()); |ms| > 0 && ms[|ms| - 1] == PromptBlankMessage
  {
    NonBlankTextOfString(s);
    JsText.TrimEmptyIffBlank(s);
    assert !NotBlank(s);
    var head := (if NotEmpty(s) then [] else [Issue(TooSmall, [], PromptRequiredMessage)])
      + (if WithinPromptLimit(s) then [] else [Issue(TooBig, [], PromptTooLongMessage)]);
    var issues := head + [Issue(Custom, [], PromptBlankMessage)];
    assert NonBlankText(Str(s)).Issues() == issues;
  }

  /** The empty string fails `min(1)` and then the blank refinement, which still runs. */
  lemma EmptyTextMessages(s: string)
    requires s == ""
    ensures Messages(NonBlankText(Str(s)).Issues()) == [PromptRequiredMessage, PromptBlankMessage]
  {
    NonBlankTextOfString(s);
    assert !NotBlank(s) by {
      JsText.TrimEmptyIffBlank(s);
    }
    var issues := [Issue(TooSmall, [], PromptRequiredMessage), Issue(Custom, [], PromptBlankMessage)];
    assert BrokenRules(s) == issues;
    var ms := Messages(issues);
    assert |ms| == 2 && ms[0] == PromptRequiredMessage && ms[1] == PromptBlankMessage;
  }

  /** A raw string over 300 characters is rejected with the length message, even when
      trimming would bring it under the limit. */
  lemma {:induction false} LongTextRejected(s: string)
    requires |s| > MaxCaptionPromptLength
    ensures !NonBlankText(Str(s)).Valid?
    ensures Messages(NonBlankText(Str(s)).Issues())[0] == PromptTooLongMessage
  {
    NonBlankTextOfString(s);
  }

  /** Anything but a string fails the type check alone. */
  lemma NonStringRejected(v: JsValue)
    requires !v.Str?
    ensures NonBlankText(v) == Aborted([InvalidTypeIssue("string", v)])
  {
  }
}
