/**
 * The `default` form action of the caption page: validate the form, compress the image
 * and frame it as a `data:` URL, ask the chat model for a caption, and map every outcome
 * to an alert and a status. The image codec, the base64 encoder, the content sanitiser
 * and the chat completion call are parameters (`Services`). The codec, the sanitiser and
 * the chat call either return a value or throw; the base64 encoder always returns one.
 */
module CaptionAction {
  import opened Wrappers
  import opened Zod
  import JsText
  import ImageRules
  import CaptionFormSchema
  import PromptComposer
  import DataUrl

  /** What a `catch` receives: an `Error` with its message, or any other thrown value. */
  datatype Thrown = ErrorObject(message: string) | NonErrorValue

  /** `sharp(buffer).resize({ width }).toFormat(format, { quality })` */
  datatype CompressRequest = CompressRequest(image: seq<bv8>, width: nat, format: string, quality: nat)

  const MaxWidth: nat := 1080
  const Quality: nat := 80

  datatype ChatMessage = ChatMessage(content: Option<string>)
  datatype ChatChoice = ChatChoice(message: ChatMessage)
  datatype ChatCompletion = ChatCompletion(choices: seq<ChatChoice>)

  /** `openai.chat.completions.create(...)`: a system message and one user message
      holding the image URL. */
  datatype ChatRequest = ChatRequest(model: string, maxTokens: nat, temperature: real, systemMessage: string, imageUrl: string)

  const Model := "gpt-4-vision-preview"
  const MaxTokens: nat := 2000
  const Temperature: real := 0.8

  /** The collaborators the action calls. */
  datatype Services = Services(
    compress: CompressRequest -> Result<seq<bv8>, Thrown>,
    base64: seq<bv8> -> string,
    sanitize: string -> Result<string, Thrown>,
    chat: ChatRequest -> Result<ChatCompletion, Thrown>)

  const CompressionFailedPrefix := "Image compression failed: "
  const UnknownError := "unknown error"
  const NoCaptionMessage := "No caption returned please try again"

  /** `imageFile.type.split('/')[1]` of a file that passed validation. */
  function ImageType(f: File): (t: string)
    requires ImageRules.HasSupportedSubtype(f)
    ensures ImageRules.ImageSubtype(f.mimeType) == Some(t)
    ensures t in ImageRules.SupportedImageTypes
  {
    ImageRules.ImageSubtype(f.mimeType).value
  }

  /** `compressImage`: the re-encoded image as a `data:` URL, or an `Error` whose
      message wraps the codec's. */
  function CompressImage(services: Services, image: seq<bv8>, imageType: string): (r: Result<string, Thrown>)
    ensures r.Failure? ==> r.error.ErrorObject? && JsText.StartsWith(r.error.message, CompressionFailedPrefix)
  {
    match services.compress(CompressRequest(image, MaxWidth, imageType, Quality))
    case Success(compressed) => Success(DataUrl.DataUrl(imageType, services.base64(compressed)))
    case Failure(e) =>
      var m := CompressionFailedPrefix + (if e.ErrorObject? then e.message else UnknownError);
      JsText.StripPrefixOfConcat(CompressionFailedPrefix, if e.ErrorObject? then e.message else UnknownError);
      Failure(ErrorObject(m))
  }

  /** A successful compression is the codec's output, base64-encoded, framed with the
      subtype; a failed one keeps the codec's message, or says "unknown error". */
  lemma CompressImageOutcome(services: Services, image: seq<bv8>, imageType: string)
    requires ',' !in imageType
    ensures var out := services.compress(CompressRequest(image, MaxWidth, imageType, Quality));
      && (CompressImage(services, image, imageType).Success? <==> out.Success?)
      && (out.Success? ==>
            DataUrl.ParseDataUrl(CompressImage(services, image, imageType).value)
              == Some((imageType, services.base64(out.value))))
      && (out.Failure? && out.error.ErrorObject? ==>
            CompressImage(services, image, imageType).error.message == CompressionFailedPrefix + out.error.message)
      && (out.Failure? && out.error.NonErrorValue? ==>
            CompressImage(services, image, imageType).error.message == CompressionFailedPrefix + UnknownError)
  {
    var out := services.compress(CompressRequest(image, MaxWidth, imageType, Quality));
    if out.Success? {
      DataUrl.DataUrlRoundTrip(imageType, services.base64(out.value));
    }
  }

  /** `response.choices[0]?.message.content`, which must be a non-empty string. */
  function ExtractCaption(response: ChatCompletion): (r: Result<string, Thrown>)
    ensures r.Success? <==> |response.choices| > 0 && response.choices[0].message.content.Some?
                            && response.choices[0].message.content.value != ""
    ensures r.Success? ==> Some(r.value) == response.choices[0].message.content
    ensures r.Failure? ==> r.error == ErrorObject(NoCaptionMessage)
  {
    if |response.choices| == 0 then Failure(ErrorObject(NoCaptionMessage))
    else match response.choices[0].message.content
      case Some(caption) => if caption == "" then Failure(ErrorObject(NoCaptionMessage)) else Success(caption)
      case None => Failure(ErrorObject(NoCaptionMessage))
  }

  /** The arguments of `generateImageCaption`. */
  datatype CaptionRequest = CaptionRequest(
    imageBase64: string,
    captionContext: Option<string>,
    captionLength: Option<CaptionFormSchema.CaptionLength>,
    captionTone: Option<CaptionFormSchema.CaptionTone>)

  /** The arguments of `openai.chat.completions.create`: the fixed model settings, the
      composed system message and the image URL as the user message. */
  function CaptionChatRequest(req: CaptionRequest): (c: ChatRequest)
    ensures c.imageUrl == req.imageBase64
    ensures JsText.StartsWith(c.systemMessage, PromptComposer.Head)
  {
    ChatRequest(Model, MaxTokens, Temperature,
                PromptComposer.SystemMessage(req.captionContext, req.captionLength, req.captionTone),
                req.imageBase64)
  }

  /** `generateImageCaption`: the first choice's text, or what the call or the
      extraction throws. */
  function GenerateImageCaption(services: Services, req: CaptionRequest): (r: Result<string, Thrown>)
    ensures r.Success? ==> r.value != ""
  {
    var response :- services.chat(CaptionChatRequest(req));
    ExtractCaption(response)
  }

  /** The chat request states the requested options and carries the image URL as given. */
  lemma {:induction false} ChatRequestStatesOptions(req: CaptionRequest)
    ensures var c := CaptionChatRequest(req);
      && c.model == Model && c.maxTokens == MaxTokens && c.temperature == Temperature
      && c.imageUrl == req.imageBase64
      && PromptComposer.ParseSystemMessage(c.systemMessage)
           == Some(PromptComposer.Normalize(req.captionContext, req.captionLength, req.captionTone))
  {
    PromptComposer.SystemMessageRoundTrip(req.captionContext, req.captionLength, req.captionTone);
  }

  /** The context handed to the prompt: sanitised when it is a non-empty string, absent
      otherwise; what the sanitiser throws is thrown on. */
  function PromptContext(services: Services, captionPrompt: Option<string>): (c: Result<Option<string>, Thrown>)
    ensures !(captionPrompt.Some? && captionPrompt.value != "") ==> c == Success(None)
    ensures captionPrompt.Some? && captionPrompt.value != "" ==>
      match services.sanitize(captionPrompt.value)
      case Success(clean) => c == Success(Some(clean))
      case Failure(e) => c == Failure(e)
  {
    if captionPrompt.Some? && captionPrompt.value != "" then
      var clean :- services.sanitize(captionPrompt.value);
      Success(Some(clean))
    else Success(None)
  }

  /** The `try` block of the action, for a validated form: compress, sanitise the
      context, ask for the caption. A failing compression is thrown on with its wrapped
      message before the sanitiser or the chat model is called; a caption is never empty. */
  function AnalyzeImage(services: Services, form: CaptionFormSchema.CaptionForm): (r: Result<string, Thrown>)
    requires ImageRules.HasSupportedSubtype(form.image)
    ensures var out := services.compress(CompressRequest(form.image.bytes, MaxWidth, ImageType(form.image), Quality));
      out.Failure? ==> r.Failure? && r.error.ErrorObject? && JsText.StartsWith(r.error.message, CompressionFailedPrefix)
    ensures r.Success? ==> r.value != ""
  {
    var imageType := ImageType(form.image);
    var base64Image :- CompressImage(services, form.image.bytes, imageType);
    var captionContext :- PromptContext(services, form.captionPrompt);
    GenerateImageCaption(services, CaptionRequest(base64Image, captionContext,
                                                  Some(form.captionLength), Some(form.captionTone)))
  }

  datatype AlertType = SuccessAlert | ErrorAlert

  /** The message the action returns, with its HTTP status. */
  datatype ActionResult = ActionResult(alertType: AlertType, alertText: string, status: nat)

  const InvalidFormText := "Invalid prompt"
  const AnalysisFailedText := "Error analyzing image please try again"
  const BadRequest: nat := 400
  const Ok: nat := 200
  const InternalServerError: nat := 500

  /** `actions.default`: an invalid form is answered at once; otherwise every thrown
      value becomes the same error message with status 500. */
  function DefaultAction(services: Services, fields: CaptionFormSchema.CaptionFormFields): (r: ActionResult)
    ensures r.status == Ok <==> r.alertType == SuccessAlert
    ensures r.alertType == ErrorAlert ==> r.alertText in {InvalidFormText, AnalysisFailedText}
  {
    match CaptionFormSchema.Validate(fields)
    case Failure(_) => ActionResult(ErrorAlert, InvalidFormText, BadRequest)
    case Success(form) =>
      match AnalyzeImage(services, form)
      case Success(caption) => ActionResult(SuccessAlert, caption, Ok)
      case Failure(_) => ActionResult(ErrorAlert, AnalysisFailedText, InternalServerError)
  }

  /** An invalid form is answered with "Invalid prompt" whatever the collaborators
      would do: none of them is called. */
  lemma InvalidFormShortCircuits(s1: Services, s2: Services, fields: CaptionFormSchema.CaptionFormFields)
    requires CaptionFormSchema.Validate(fields).Failure?
    ensures DefaultAction(s1, fields) == DefaultAction(s2, fields) == ActionResult(ErrorAlert, InvalidFormText, BadRequest)
  {
  }

  /** A success alert carries exactly the text of the model's first choice, which is
      non-empty, for a valid form whose image compressed. */
  lemma {:induction false} SuccessCarriesCaption(services: Services, fields: CaptionFormSchema.CaptionFormFields)
    requires DefaultAction(services, fields).alertType == SuccessAlert
    ensures CaptionFormSchema.Validate(fields).Success?
    ensures var form := CaptionFormSchema.Validate(fields).value;
      var url := CompressImage(services, form.image.bytes, ImageType(form.image));
      && url.Success?
      && PromptContext(services, form.captionPrompt).Success?
      && var req := CaptionRequest(url.value, PromptContext(services, form.captionPrompt).value,
                                   Some(form.captionLength), Some(form.captionTone));
         && services.chat(CaptionChatRequest(req)).Success?
         && var choices := services.chat(CaptionChatRequest(req)).value.choices;
            |choices| > 0 && choices[0].message.content == Some(DefaultAction(services, fields).alertText)
            && DefaultAction(services, fields).alertText != ""
  {
  }

  /** Conversely, a valid form whose image compresses, whose context is sanitised and
      whose chat call returns a first choice with non-empty text is answered with a
      success alert carrying that text and status 200. */
  lemma {:induction false} CaptionBecomesSuccessAlert(services: Services, fields: CaptionFormSchema.CaptionFormFields, caption: string)
    requires CaptionFormSchema.Validate(fields).Success?
    requires var form := CaptionFormSchema.Validate(fields).value;
      var url := CompressImage(services, form.image.bytes, ImageType(form.image));
      && url.Success?
      && PromptContext(services, form.captionPrompt).Success?
      && var req := CaptionRequest(url.value, PromptContext(services, form.captionPrompt).value,
                                   Some(form.captionLength), Some(form.captionTone));
         && services.chat(CaptionChatRequest(req)).Success?
         && var choices := services.chat(CaptionChatRequest(req)).value.choices;
            |choices| > 0 && choices[0].message.content == Some(caption) && caption != ""
    ensures DefaultAction(services, fields) == ActionResult(SuccessAlert, caption, Ok)
  {
  }

  /** For a valid form, the action answers with a success alert carrying `caption`
      and status 200 exactly when the analysis returns `caption`. */
  lemma {:induction false} AnalysisSuccessIsSuccessAlert(services: Services, fields: CaptionFormSchema.CaptionFormFields, caption: string)
    requires CaptionFormSchema.Validate(fields).Success?
    ensures AnalyzeImage(services, CaptionFormSchema.Validate(fields).value) == Success(caption) <==>
      DefaultAction(services, fields) == ActionResult(SuccessAlert, caption, Ok)
  {
  }

  /** Whatever the compression, the sanitiser or the chat call throws, and whether the model returns no
      caption, the action answers with the same message and status 500. */
  lemma {:induction false} FailuresBecomeServerError(services: Services, fields: CaptionFormSchema.CaptionFormFields)
    requires CaptionFormSchema.Validate(fields).Success?
    ensures var form := CaptionFormSchema.Validate(fields).value;
      AnalyzeImage(services, form).Failure? <==>
        DefaultAction(services, fields) == ActionResult(ErrorAlert, AnalysisFailedText, InternalServerError)
  {
  }

  /** When the image compresses but the sanitiser throws on the prompt, the action
      answers with the 500 error alert, and the chat model is never asked. */
  lemma {:induction false} SanitizerFailureBecomesServerError(s1: Services, s2: Services, fields: CaptionFormSchema.CaptionFormFields)
    requires CaptionFormSchema.Validate(fields).Success?
    requires s1.compress == s2.compress && s1.base64 == s2.base64 && s1.sanitize == s2.sanitize
    requires var form := CaptionFormSchema.Validate(fields).value;
      && s1.compress(CompressRequest(form.image.bytes, MaxWidth, ImageType(form.image), Quality)).Success?
      && form.captionPrompt.Some? && form.captionPrompt.value != ""
      && s1.sanitize(form.captionPrompt.value).Failure?
    ensures DefaultAction(s1, fields) == DefaultAction(s2, fields)
              == ActionResult(ErrorAlert, AnalysisFailedText, InternalServerError)
  {
  }

  /** The codec is asked for the file's own bytes at width 1080 and quality 80 in the
      format named by the second `/`-segment of the file's type, and the model receives
      the image as a `data:` URL of that subtype. */
  lemma {:induction false} ImageReachesModelAsDataUrl(services: Services, fields: CaptionFormSchema.CaptionFormFields)
    requires CaptionFormSchema.Validate(fields).Success?
    ensures var form := CaptionFormSchema.Validate(fields).value;
      var t := ImageType(form.image);
      var out := services.compress(CompressRequest(form.image.bytes, MaxWidth, t, Quality));
      && ImageRules.ImageSubtype(fields.image.file.mimeType) == Some(t)
      && form.image.bytes == fields.image.file.bytes
      && (out.Failure? ==> DefaultAction(services, fields).status == InternalServerError)
      && (out.Success? ==>
            var url := CompressImage(services, form.image.bytes, t).value;
            DataUrl.ParseDataUrl(url) == Some((t, services.base64(out.value))))
  {
    var form := CaptionFormSchema.Validate(fields).value;
    var t := ImageType(form.image);
    ImageRules.SupportedSubtypeHasNoSeparators(form.image.mimeType);
    CompressImageOutcome(services, form.image.bytes, t);
  }
}
