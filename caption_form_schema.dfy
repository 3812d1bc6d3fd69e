/**
 * `captionFormZodSchema`, the form the caption action validates: an image File
 * (non-empty, at most 20 MB, supported subtype, in that order, with no `image/`
 * prefix rule), a required tone and a required length from capitalised enums, and
 * an optional prompt limited to 300 raw characters and then trimmed.
 */
module CaptionFormSchema {
  import opened Wrappers
  import opened Zod
  import JsText
  import opened ImageRules
  import PromptText
  import ImageValidationSchema

  const FileEmptyMessage := "The file you uploaded is empty."

  /** `CaptionToneEnum` */
  datatype CaptionTone = Funny | Witty | Serious | Casual | Formal | Inspirational | Enthusiastic | Informative {
    function Value(): string {
      match this
      case Funny => "Funny"
      case Witty => "Witty"
      case Serious => "Serious"
      case Casual => "Casual"
      case Formal => "Formal"
      case Inspirational => "Inspirational"
      case Enthusiastic => "Enthusiastic"
      case Informative => "Informative"
    }
  }

  const ToneValues: seq<string> :=
    ["Funny", "Witty", "Serious", "Casual", "Formal", "Inspirational", "Enthusiastic", "Informative"]

  /** The tone a string names, if any. */
  function ToneFromValue(s: string): (t: Option<CaptionTone>)
    ensures t.Some? ==> t.value.Value() == s
  {
    if s == "Funny" then Some(Funny)
    else if s == "Witty" then Some(Witty)
    else if s == "Serious" then Some(Serious)
    else if s == "Casual" then Some(Casual)
    else if s == "Formal" then Some(Formal)
    else if s == "Inspirational" then Some(Inspirational)
    else if s == "Enthusiastic" then Some(Enthusiastic)
    else if s == "Informative" then Some(Informative)
    else None
  }

  /** A string names a tone exactly when it is one of the eight enum values, and every
      tone is named by its own value. */
  lemma ToneValuesNameTones(s: string, t: CaptionTone)
    ensures ToneFromValue(s).Some? <==> s in ToneValues
    ensures ToneFromValue(t.Value()) == Some(t) && t.Value() in ToneValues
  {
  }

  /** `CaptionLengthEnum` of this schema (capitalised, with "Very long"). */
  datatype CaptionLength = Short | Medium | Long | VeryLong {
    function Value(): string {
      match this
      case Short => "Short"
      case Medium => "Medium"
      case Long => "Long"
      case VeryLong => "Very long"
    }
  }

  const LengthValues: seq<string> := ["Short", "Medium", "Long", "Very long"]

  /** The length a string names, if any. */
  function LengthFromValue(s: string): (l: Option<CaptionLength>)
    ensures l.Some? ==> l.value.Value() == s
  {
    if s == "Short" then Some(Short)
    else if s == "Medium" then Some(Medium)
    else if s == "Long" then Some(Long)
    else if s == "Very long" then Some(VeryLong)
    else None
  }

  lemma LengthValuesNameLengths(s: string, l: CaptionLength)
    ensures LengthFromValue(s).Some? <==> s in LengthValues
    ensures LengthFromValue(l.Value()) == Some(l) && l.Value() in LengthValues
  {
  }

  /** The submitted fields. */
  datatype CaptionFormFields = CaptionFormFields(image: JsValue, captionTone: JsValue, captionLength: JsValue, captionPrompt: JsValue)

  /** The validated form. */
  datatype CaptionForm = CaptionForm(image: File, captionTone: CaptionTone, captionLength: CaptionLength, captionPrompt: Option<string>)

  /** The `image` field: `instanceof` with the no-file message, then the three refinements. */
  function ImageField(v: JsValue): (p: Parse<File>)
    ensures !v.FileValue? ==> p == Aborted([Issue(Custom, [], NoFileUploadedMessage)])
    ensures p.Valid? <==> v.FileValue? && NonEmpty(v.file) && WithinSizeLimit(v.file) && HasSupportedSubtype(v.file)
    ensures p.Valid? ==> p.value == v.file
  {
    var isFile := InstanceOfFile(v, NoFileUploadedMessage);
    var nonEmpty := Refine(isFile, NonEmpty, FileEmptyMessage);
    var small := Refine(nonEmpty, WithinSizeLimit, FileTooLargeMessage);
    Refine(small, HasSupportedSubtype, UnsupportedImageTypeMessage)
  }

  /** Reference: the messages of the image rules `f` breaks, in this schema's order. */
  function BrokenImageRules(f: File): seq<string> {
    (if NonEmpty(f) then [] else [FileEmptyMessage])
    + (if WithinSizeLimit(f) then [] else [FileTooLargeMessage])
    + (if HasSupportedSubtype(f) then [] else [UnsupportedImageTypeMessage])
  }

  /** For a File, the image field reports exactly the broken rules, in order. */
  lemma ImageFieldReportsBrokenRules(f: File)
    ensures ImageField(FileValue(f)).Issues() == CustomIssues(BrokenImageRules(f))
    ensures ImageField(FileValue(f)).Valid? <==> BrokenImageRules(f) == []
    ensures ImageField(FileValue(f)).Valid? ==> ImageField(FileValue(f)).value == f
  {
    var a := if NonEmpty(f) then [] else [FileEmptyMessage];
    var b := if WithinSizeLimit(f) then [] else [FileTooLargeMessage];
    var c := if HasSupportedSubtype(f) then [] else [UnsupportedImageTypeMessage];
    var p0 := InstanceOfFile(FileValue(f), NoFileUploadedMessage);
    assert p0 == Valid(f);
    var p1 := Refine(p0, NonEmpty, FileEmptyMessage);
    RefineAppends(p0, NonEmpty, FileEmptyMessage);
    assert p1.Issues() == CustomIssues(a) && p1.value == f;
    var p2 := Refine(p1, WithinSizeLimit, FileTooLargeMessage);
    RefineAppends(p1, WithinSizeLimit, FileTooLargeMessage);
    assert p2.Issues() == CustomIssues(a) + CustomIssues(b) && p2.value == f;
    var p3 := Refine(p2, HasSupportedSubtype, UnsupportedImageTypeMessage);
    RefineAppends(p2, HasSupportedSubtype, UnsupportedImageTypeMessage);
    assert p3.Issues() == CustomIssues(a) + CustomIssues(b) + CustomIssues(c);
    CustomIssuesConcat(a, b);
    CustomIssuesConcat(a + b, c);
  }

  /** A value that is not a File yields the no-file message alone: the later rules
      never run. */
  lemma NonFileImageReportsNoFileOnly(v: JsValue)
    requires !v.FileValue?
    ensures ImageField(v) == Aborted([Issue(Custom, [], NoFileUploadedMessage)])
  {
  }

  /** Acceptance of a file ignores the text before the '/': a non-empty, small enough
      `text/png` is accepted here, though `imageValidationSchema` calls it not an image. */
  lemma NoImagePrefixRule(f: File)
    requires f.mimeType == "text/png" && 0 < f.Size() <= MaxFileSizeBytes
    ensures ImageField(FileValue(f)) == Valid(f)
    ensures ImageValidationSchema.Validate(ImageValidationSchema.ImageForm(FileValue(f))).Failure?
  {
    assert SecondSegmentAt(f.mimeType, "text", "png", "");
    SecondSegmentIsImageSubtype(f.mimeType, "text", "png", "");
    ImageFieldReportsBrokenRules(f);
    JsText.NotStartsWithAt(f.mimeType, "image/", 0);
  }

  /** `captionTone: z.nativeEnum(CaptionToneEnum)` */
  function ToneField(v: JsValue): (p: Parse<CaptionTone>)
    ensures p.Valid? <==> v.Str? && ToneFromValue(v.s).Some?
    ensures p.Valid? ==> p.value.Value() == v.s
    ensures v.Undefined? ==> p == Aborted([InvalidTypeIssue(JoinValues(ToneValues), v)])
  {
    EnumOf(v, ToneValues, ToneFromValue)
  }

  /** `captionLength: z.nativeEnum(CaptionLengthEnum)` */
  function LengthField(v: JsValue): (p: Parse<CaptionLength>)
    ensures p.Valid? <==> v.Str? && LengthFromValue(v.s).Some?
    ensures p.Valid? ==> p.value.Value() == v.s
    ensures v.Undefined? ==> p == Aborted([InvalidTypeIssue(JoinValues(LengthValues), v)])
  {
    EnumOf(v, LengthValues, LengthFromValue)
  }

  /** `captionPrompt`: an optional string of at most 300 characters, then trimmed. */
  function PromptField(v: JsValue): (p: Parse<Option<string>>)
    ensures v.Undefined? ==> p == Valid(None)
    ensures v.Str? ==> (p.Valid? <==> PromptText.WithinPromptLimit(v.s))
    ensures v.Str? && p.Valid? ==> p.value == Some(JsText.Trim(v.s))
    ensures !v.Undefined? && !v.Str? ==> p.Aborted?
  {
    Optional(v, PromptString)
  }

  function PromptString(v: JsValue): Parse<string> {
    var str := StringOf(v);
    var max := Check(str, PromptText.WithinPromptLimit, Issue(TooBig, [], PromptText.PromptTooLongMessage));
    Transform(max, JsText.Trim)
  }

  /** `captionFormZodSchema.safeParse(fields)`: the fields are checked in declaration
      order and every field's issues are collected under its key. */
  function Validate(fields: CaptionFormFields): (r: Result<CaptionForm, seq<Issue>>)
    ensures r.Success? ==> && fields.image == FileValue(r.value.image)
                           && fields.captionTone == Str(r.value.captionTone.Value())
                           && fields.captionLength == Str(r.value.captionLength.Value())
    ensures r.Success? ==> NonEmpty(r.value.image) && WithinSizeLimit(r.value.image)
                           && HasSupportedSubtype(r.value.image)
    ensures r.Failure? ==> |r.error| > 0
  {
    var image := ImageField(fields.image);
    var tone := ToneField(fields.captionTone);
    var length := LengthField(fields.captionLength);
    var prompt := PromptField(fields.captionPrompt);
    if image.Valid? && tone.Valid? && length.Valid? && prompt.Valid? then
      Success(CaptionForm(image.value, tone.value, length.value, prompt.value))
    else
      Failure(AtPath("image", image.Issues()) + AtPath("captionTone", tone.Issues())
              + AtPath("captionLength", length.Issues()) + AtPath("captionPrompt", prompt.Issues()))
  }

  /** The form is accepted exactly when the image is a File that passes the three rules,
      the tone and length are enum values, and the prompt is absent or a string of at
      most 300 characters; the accepted prompt is the trimmed string, possibly empty. */
  lemma {:induction false} ValidateAccepts(fields: CaptionFormFields)
    ensures Validate(fields).Success? <==>
      && fields.image.FileValue? && BrokenImageRules(fields.image.file) == []
      && fields.captionTone.Str? && fields.captionTone.s in ToneValues
      && fields.captionLength.Str? && fields.captionLength.s in LengthValues
      && (fields.captionPrompt.Undefined?
          || (fields.captionPrompt.Str? && |fields.captionPrompt.s| <= PromptText.MaxCaptionPromptLength))
    ensures Validate(fields).Success? ==>
      Validate(fields).value.captionPrompt ==
        (if fields.captionPrompt.Undefined? then None else Some(JsText.Trim(fields.captionPrompt.s)))
  {
    if fields.image.FileValue? {
      ImageFieldReportsBrokenRules(fields.image.file);
    }
    if fields.captionTone.Str? {
      ToneValuesNameTones(fields.captionTone.s, Funny);
    }
    if fields.captionLength.Str? {
      LengthValuesNameLengths(fields.captionLength.s, Short);
    }
  }

  /** The first issue belongs to the first invalid field in declaration order. */
  lemma {:induction false} FirstIssueFromFirstInvalidField(fields: CaptionFormFields)
    requires Validate(fields).Failure?
    ensures |Validate(fields).error[0].path| > 0
    ensures Validate(fields).error[0].path[0] ==
      if !ImageField(fields.image).Valid? then "image"
      else if !ToneField(fields.captionTone).Valid? then "captionTone"
      else if !LengthField(fields.captionLength).Valid? then "captionLength"
      else "captionPrompt"
  {
    var image := ImageField(fields.image);
    var tone := ToneField(fields.captionTone);
    var length := LengthField(fields.captionLength);
    var prompt := PromptField(fields.captionPrompt);
    var a, b, c, d := AtPath("image", image.Issues()), AtPath("captionTone", tone.Issues()),
                      AtPath("captionLength", length.Issues()), AtPath("captionPrompt", prompt.Issues());
    assert Validate(fields).error == a + b + c + d;
    if !image.Valid? {
      assert image.Sound();
      assert (a + b + c + d)[0] == a[0];
    } else if !tone.Valid? {
      assert (a + b + c + d)[0] == b[0];
    } else if !length.Valid? {
      assert (a + b + c + d)[0] == c[0];
    } else {
      assert prompt.Sound();
      assert (a + b + c + d)[0] == d[0];
    }
  }

  /** A missing tone or length is an `invalid_type` issue with zod's "Required". */
  lemma MissingEnumRequired()
    ensures ToneField(Undefined).Issues() == [Issue(InvalidType, [], "Required")]
    ensures LengthField(Undefined).Issues() == [Issue(InvalidType, [], "Required")]
  {
  }

  /** A present prompt is limited on its raw length and then trimmed; a blank prompt is
      accepted as the empty string. */
  lemma {:induction false} PromptFieldOfString(s: string)
    ensures PromptField(Str(s)).Valid? <==> |s| <= PromptText.MaxCaptionPromptLength
    ensures PromptField(Str(s)).Valid? ==> PromptField(Str(s)).value == Some(JsText.Trim(s))
    ensures JsText.AllWhitespace(s) && |s| <= PromptText.MaxCaptionPromptLength ==>
      PromptField(Str(s)) == Valid(Some(""))
  {
    JsText.TrimEmptyIffBlank(s);
  }
}
