/**
 * `captionContextSchema`: an optional caption length from a lower-case enum and an
 * optional free-text context that, when present, must be a non-blank string of 1 to
 * 300 characters and is then trimmed.
 */
module CaptionContextSchema {
  import opened Wrappers
  import opened Zod
  import JsText
  import PromptText
  import CaptionFormSchema

  /** `z.enum(['short', 'medium', 'long', 'very-long'])` */
  datatype ContextLength = Short | Medium | Long | VeryLong {
    function Value(): string {
      match this
      case Short => "short"
      case Medium => "medium"
      case Long => "long"
      case VeryLong => "very-long"
    }
  }

  const LengthValues: seq<string> := ["short", "medium", "long", "very-long"]

  function LengthFromValue(s: string): (l: Option<ContextLength>)
    ensures l.Some? ==> l.value.Value() == s
  {
    if s == "short" then Some(Short)
    else if s == "medium" then Some(Medium)
    else if s == "long" then Some(Long)
    else if s == "very-long" then Some(VeryLong)
    else None
  }

  lemma LengthValuesNameLengths(s: string, l: ContextLength)
    ensures LengthFromValue(s).Some? <==> s in LengthValues
    ensures LengthFromValue(l.Value()) == Some(l) && l.Value() in LengthValues
  {
  }

  datatype ContextFields = ContextFields(captionLength: JsValue, captionContext: JsValue)

  datatype CaptionContext = CaptionContext(captionLength: Option<ContextLength>, captionContext: Option<string>)

  function LengthField(v: JsValue): Parse<Option<ContextLength>> {
    Optional(v, LengthEnum)
  }

  function LengthEnum(v: JsValue): Parse<ContextLength> {
    EnumOf(v, LengthValues, LengthFromValue)
  }

  function ContextField(v: JsValue): Parse<Option<string>> {
    Optional(v, PromptText.NonBlankText)
  }

  /** `captionContextSchema.safeParse(fields)` */
  function Validate(fields: ContextFields): (r: Result<CaptionContext, seq<Issue>>)
    ensures r.Success? && r.value.captionLength.Some? ==>
              fields.captionLength == Str(r.value.captionLength.value.Value())
    ensures r.Success? && r.value.captionLength.None? ==> fields.captionLength.Undefined?
    ensures r.Failure? ==> |r.error| > 0
  {
    var length := LengthField(fields.captionLength);
    var context := ContextField(fields.captionContext);
    if length.Valid? && context.Valid? then
      Success(CaptionContext(length.value, context.value))
    else
      Failure(AtPath("captionLength", length.Issues()) + AtPath("captionContext", context.Issues()))
  }

  /** The length is accepted exactly when absent or one of the four lower-case values. */
  lemma LengthFieldAccepts(v: JsValue)
    ensures LengthField(v).Valid? <==> v.Undefined? || (v.Str? && v.s in LengthValues)
  {
    if v.Str? {
      LengthValuesNameLengths(v.s, Short);
    }
  }

  /** The context is accepted exactly when absent or a non-blank string of 1 to 300
      characters, and an accepted context is the trimmed string. */
  lemma {:induction false} ContextFieldAccepts(v: JsValue)
    ensures ContextField(v).Valid? <==>
      v.Undefined? || (v.Str? && 1 <= |v.s| <= PromptText.MaxCaptionPromptLength && !JsText.AllWhitespace(v.s))
    ensures ContextField(v).Valid? ==>
      ContextField(v).value == (if v.Undefined? then None else Some(JsText.Trim(v.s)))
  {
    if v.Str? {
      PromptText.NonBlankTextAccepts(v.s);
      PromptText.NonBlankTextOfString(v.s);
    }
  }

  /** Accepted exactly when both fields are; the accepted context is the trimmed string. */
  lemma {:induction false} ValidateAccepts(fields: ContextFields)
    ensures Validate(fields).Success? <==>
      && (fields.captionLength.Undefined? || (fields.captionLength.Str? && fields.captionLength.s in LengthValues))
      && (fields.captionContext.Undefined?
          || (fields.captionContext.Str? && 1 <= |fields.captionContext.s| <= PromptText.MaxCaptionPromptLength
              && !JsText.AllWhitespace(fields.captionContext.s)))
    ensures Validate(fields).Success? ==>
      Validate(fields).value.captionContext ==
        (if fields.captionContext.Undefined? then None else Some(JsText.Trim(fields.captionContext.s)))
  {
    LengthFieldAccepts(fields.captionLength);
    ContextFieldAccepts(fields.captionContext);
  }

  /** Both fields may be left out. */
  lemma EmptyObjectAccepted()
    ensures Validate(ContextFields(Undefined, Undefined)) == Success(CaptionContext(None, None))
  {
  }

  /** Unlike the caption form's prompt, a blank context is rejected rather than trimmed
      to the empty string. */
  lemma {:induction false} BlankContextRejected(s: string)
    requires JsText.AllWhitespace(s) && |s| <= PromptText.MaxCaptionPromptLength
    ensures Validate(ContextFields(Undefined, Str(s))).Failure?
    ensures CaptionFormSchema.PromptField(Str(s)) == Valid(Some(""))
  {
    ValidateAccepts(ContextFields(Undefined, Str(s)));
    CaptionFormSchema.PromptFieldOfString(s);
  }

  /** The two length enums do not share a value: the caption form's capitalised
      lengths are all rejected here. */
  lemma {:induction false} CapitalisedLengthRejected(l: CaptionFormSchema.CaptionLength)
    ensures Validate(ContextFields(Str(l.Value()), Undefined)).Failure?
  {
    ValidateAccepts(ContextFields(Str(l.Value()), Undefined));
  }
}
