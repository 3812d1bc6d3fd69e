# CaptionThat: validation rules, caption request pipeline and meta tags in Dafny

CaptionThat lets a user upload an image, pick a caption length and tone, add an
optional context, and get back a caption written by a vision-capable chat model. This
project models the logic of that application and proves properties of it.

- **The zod schemas** that guard its inputs:
  - `imageValidationSchema`: the drop zone's four image rules;
  - `captionFormZodSchema`: the caption form;
  - `captionContextSchema` and `CaptionPromptSchema`: free-text options;
  - `ImageDescriptionSchema`.
- **The caption page's `default` action**:
  - the form check;
  - the image subtype and its `data:image/<subtype>;base64,<payload>` framing;
  - the system message built from the options;
  - reading the caption out of the chat completion;
  - mapping every outcome to an alert and an HTTP status.
- **The SEO tag builders** `createPageMetaTags` and `createBaseMetaTags`.

Everything is pure. The image codec (`sharp`), the base64 encoder, `sanitizeContent`
and the chat-completion call are fields of a `Services` value, and the proofs hold for
every choice of them:

- the codec, the sanitiser and the chat call each either return a value or throw;
- the base64 encoder always returns a string.

Whatever the action calls throws inside its `try` block becomes the 500 error alert.

Modules, in dependency order:

- `Wrappers`: `Option` and `Result`.
- `JsText`: the JavaScript string operations the code relies on:
  - `trim`, with the ECMAScript white-space and line-terminator set;
  - `indexOf`;
  - `split` and `join` with one-character separators;
  - `startsWith`.
- `Zod`: what the schemas use of zod's parsing semantics:
  - a parse is valid, dirty (it has issues but checks go on) or aborted (a fatal check failed);
  - `.refine`, `.min` and `.max` add an issue and keep going;
  - `instanceof`, `z.string()` and the enums abort;
  - `.transform` runs on valid values only;
  - `.optional()` accepts `undefined`;
  - `z.object` prefixes each issue's path with its key, field by field, in shape order;
  - zod's default messages ("Required", "Expected string, received null", "Invalid enum value. …").
- `ImageRules`: the constants and file refinements both image schemas share. The
  subtype is the second `/`-segment of the file type.
- `ImageValidationSchema`, `CaptionFormSchema`, `PromptText` (the chain shared by the
  context and prompt fields), `CaptionContextSchema`, `CaptionPromptSchema`,
  `ImageDescriptionSchema`: one module per schema.
- `DataUrl`: the framing of the compressed image and a parser that inverts it.
- `PromptComposer`: the system message and a parser that inverts it.
- `CaptionAction`: `compressImage`, `generateImageCaption` and `actions.default`.
- `MetaTags`: `createPageMetaTags` and `createBaseMetaTags`.

## Model

| member | source | states |
|---|---|---|
| ImageRules.SupportedIffListed | src/lib/validations/imageValidationSchema.ts:28-32 | the truthiness test on the subtype only rules out a missing segment: a type is supported iff its second `/`-segment exists and is one of jpeg, png, webp, avif, gif |
| ImageRules.ImageSubtypeIsSecondSegment | src/lib/validations/imageValidationSchema.ts:30 | `type.split('/')[1]` is `s` iff the type is `p/s` followed by nothing or by `/…`, with no `/` in `p` or `s` |
| ImageRules.SecondSegmentIsImageSubtype | src/lib/validations/captionFormZodSchema.ts:52 | any type laid out as `p/s[/…]` has subtype `s` |
| ImageRules.UnsupportedMessageListsTypes | src/lib/validations/imageValidationSchema.ts:17-19 | the unsupported-type message is the fixed sentence followed by "jpeg, png, webp, avif, gif" (the list joined by ", ") and a full stop |
| ImageRules.SupportedSubtypeHasNoSeparators | src/lib/validations/captionFormZodSchema.ts:6-12 | no supported subtype contains ',' or ';', so it cannot break a `data:` URL |
| ImageValidationSchema.Validate | src/lib/validations/imageValidationSchema.ts:23-40 | success iff the value is a File with size > 0, an `image/` type, a supported subtype and size ≤ 20·1024·1024; success returns that same File; a failure has issues, all on path `uploadedImage` |
| ImageValidationSchema.UploadedImage | src/lib/validations/imageValidationSchema.ts:24-39 | a non-File aborts with the single `instanceof` issue; a parse that goes on is about that same File |
| ImageValidationSchema.UploadedImageReportsBrokenRules | src/lib/validations/imageValidationSchema.ts:24-39 | for a File, the issues are exactly the broken rules in the order empty, not an image, unsupported, too large, all four rules being evaluated |
| ImageValidationSchema.ValidateFileReportsBrokenRules | src/lib/validations/imageValidationSchema.ts:23-40 | for a File, the schema fails iff some rule is broken, and its issues are then the broken rules at `uploadedImage` |
| ImageValidationSchema.FailureMessagesAreBrokenRules | src/lib/validations/imageValidationSchema.ts:26-39 | the messages of a failure are the broken rules' messages in order |
| ImageValidationSchema.NonFileRejected | src/lib/validations/imageValidationSchema.ts:25 | a non-File fails `instanceof` alone, with zod's "Input not instance of File" |
| ImageValidationSchema.AcceptedUnchanged | src/lib/validations/imageValidationSchema.ts:23-40 | a file meeting the four rules is accepted and returned as it came |
| ImageValidationSchema.EmptyFileFirstReportsNoFile | src/lib/validations/imageValidationSchema.ts:26 | a zero-byte file is rejected with `noFileUploaded` first |
| ImageValidationSchema.NonImageFirstReportsNotAnImage | src/lib/validations/imageValidationSchema.ts:27-36 | a non-empty file without the `image/` prefix is rejected with `notAnImage` first; the unsupported message follows iff its subtype is unsupported |
| ImageValidationSchema.UnsupportedSubtypeFirstReportsUnsupported | src/lib/validations/imageValidationSchema.ts:28-36 | a non-empty `image/…` file with an unsupported subtype is rejected with that message first |
| ImageValidationSchema.SizeLimit | src/lib/validations/imageValidationSchema.ts:37-39 | `fileTooLarge` is reported iff size > 20 MiB; an otherwise good file over the limit gets that message alone |
| ImageValidationSchema.EmptyJpegExample | tests/unit/FileDropZone.spec.ts:63-69 | the empty `image/jpeg` file of the unit test fails with `noFileUploaded` first |
| ImageValidationSchema.TextFileExample | tests/unit/FileDropZone.spec.ts:71-77 | the `text/plain` file of the unit test fails with `notAnImage` first |
| ImageValidationSchema.BmpExample | tests/unit/FileDropZone.spec.ts:79-87 | the `image/bmp` file of the unit test fails with `unsupportedImageType` first |
| ImageValidationSchema.OversizedJpegExample | tests/unit/FileDropZone.spec.ts:89-97 | a jpeg one byte over 20 MiB fails with `fileTooLarge` first |
| CaptionFormSchema.ToneValuesNameTones | src/lib/validations/captionFormZodSchema.ts:23-32 | a string names a tone iff it is one of the eight capitalised values; each tone is named by its value |
| CaptionFormSchema.LengthValuesNameLengths | src/lib/validations/captionFormZodSchema.ts:34-39 | a string names a length iff it is "Short", "Medium", "Long" or "Very long"; each length is named by its value |
| CaptionFormSchema.ImageField | src/lib/validations/captionFormZodSchema.ts:44-58 | a non-File aborts with the single `noFileUploaded` issue; the field is valid iff the value is a non-empty File within 20 MiB with a supported subtype, and then it is that File |
| CaptionFormSchema.ImageFieldReportsBrokenRules | src/lib/validations/captionFormZodSchema.ts:44-58 | for a File, the issues are exactly the broken rules in the order empty (`fileEmpty`), too large, unsupported; the accepted value is the File |
| CaptionFormSchema.NonFileImageReportsNoFileOnly | src/lib/validations/captionFormZodSchema.ts:45 | a non-File image yields the single `noFileUploaded` issue and aborts before the refinements |
| CaptionFormSchema.NoImagePrefixRule | src/lib/validations/captionFormZodSchema.ts:50-54 | a non-empty, small enough `text/png` file is accepted here, while `imageValidationSchema` rejects it |
| CaptionFormSchema.ToneField | src/lib/validations/captionFormZodSchema.ts:60 | valid iff the value is a string naming a tone, which is then the tone of that value; a missing tone aborts with zod's enum issue |
| CaptionFormSchema.LengthField | src/lib/validations/captionFormZodSchema.ts:61 | valid iff the value is a string naming a length, which is then the length of that value; a missing length aborts with zod's enum issue |
| CaptionFormSchema.PromptField | src/lib/validations/captionFormZodSchema.ts:63-70 | a missing prompt is valid and absent; a string is valid iff at most 300 characters, and comes out trimmed; anything else aborts |
| CaptionFormSchema.Validate | src/lib/validations/captionFormZodSchema.ts:43-71 | success returns the submitted File, tone and length, and the File meets the three rules; a failure has issues |
| CaptionFormSchema.ValidateAccepts | src/lib/validations/captionFormZodSchema.ts:43-71 | accepted iff the File passes its rules, the tone and length are enum values, and the prompt is absent or a string of at most 300 characters; the prompt is then absent or the trimmed string |
| CaptionFormSchema.FirstIssueFromFirstInvalidField | src/lib/validations/captionFormZodSchema.ts:43-71 | the first issue lies on the first invalid field in the order image, captionTone, captionLength, captionPrompt |
| CaptionFormSchema.MissingEnumRequired | src/lib/validations/captionFormZodSchema.ts:60-61 | a missing tone or length gives zod's "Required" |
| CaptionFormSchema.PromptFieldOfString | src/lib/validations/captionFormZodSchema.ts:63-70 | a prompt string is accepted iff its raw length is ≤ 300; it comes out trimmed; a blank one becomes "" |
| PromptText.NonBlankText | src/lib/validations/captionPromptSchema.ts:6-16 | a non-string aborts with the single type issue; an accepted text was a string of 1 to 300 characters, not all white space, and is its trimmed form |
| PromptText.NonBlankTextOfString | src/lib/validations/captionPromptSchema.ts:6-16 | on a string the chain reports exactly the failed checks (min 1, max 300, non-blank) in order, and otherwise gives the trimmed string |
| PromptText.NonBlankTextAccepts | src/lib/validations/captionContextSchema.ts:8-18 | a string is accepted iff its raw length is 1 to 300 and it is not all white space |
| PromptText.AcceptedTextIsTrimmed | src/lib/validations/captionContextSchema.ts:18 | an accepted text is the trimmed input: non-empty, a slice of the input, no longer than it (≤ 300), with no white space at either end |
| PromptText.BlankTextRejected | src/lib/validations/captionContextSchema.ts:15-17 | a white-space-only string is rejected, its last message being "Prompt cannot be only empty spaces" |
| PromptText.EmptyTextMessages | src/lib/validations/captionPromptSchema.ts:8-15 | the empty string gets "Prompt is required" and then the blank message |
| PromptText.LongTextRejected | src/lib/validations/captionPromptSchema.ts:9-12 | a raw string over 300 characters is rejected with the length message first, even if trimming would shorten it |
| PromptText.NonStringRejected | src/lib/validations/captionPromptSchema.ts:7 | a non-string fails the type check alone |
| CaptionContextSchema.LengthValuesNameLengths | src/lib/validations/captionContextSchema.ts:6 | a string names a length iff it is short, medium, long or very-long |
| CaptionContextSchema.Validate | src/lib/validations/captionContextSchema.ts:5-20 | an accepted length is the submitted one, and an absent length stays absent; a failure has issues |
| CaptionContextSchema.LengthFieldAccepts | src/lib/validations/captionContextSchema.ts:6 | the length is accepted iff absent or one of the four lower-case values |
| CaptionContextSchema.ContextFieldAccepts | src/lib/validations/captionContextSchema.ts:8-19 | the context is accepted iff absent or a non-blank string of 1 to 300 characters; the accepted value is the trimmed string |
| CaptionContextSchema.ValidateAccepts | src/lib/validations/captionContextSchema.ts:5-20 | the schema accepts iff both fields do, and the context comes out trimmed |
| CaptionContextSchema.EmptyObjectAccepted | src/lib/validations/captionContextSchema.ts:6-19 | both fields may be left out |
| CaptionContextSchema.BlankContextRejected | src/lib/validations/captionContextSchema.ts:15-17 | a blank context is rejected here, while the caption form turns the same prompt into "" |
| CaptionContextSchema.CapitalisedLengthRejected | src/lib/validations/captionContextSchema.ts:6 | none of the caption form's capitalised lengths is accepted here |
| CaptionPromptSchema.Validate | src/lib/validations/captionPromptSchema.ts:5-17 | success is the trimmed prompt string; every issue of a failure is on `prompt` |
| CaptionPromptSchema.ValidateAccepts | src/lib/validations/captionPromptSchema.ts:6-16 | accepted iff the prompt is a string of 1 to 300 characters, not all white space; the result is then non-empty |
| CaptionPromptSchema.MissingPromptRequired | src/lib/validations/captionPromptSchema.ts:6-7 | a missing prompt fails with "Required" at `prompt` |
| CaptionPromptSchema.ValidateIdempotent | src/lib/validations/captionPromptSchema.ts:16 | an accepted prompt is accepted again unchanged |
| ImageDescriptionSchema.Validate | src/lib/index.ts:3-5 | accepted iff the description is a string of length ≥ 1, returned unchanged; a failure has exactly one issue |
| ImageDescriptionSchema.EmptyDescriptionRejected | src/lib/index.ts:4 | "" is rejected with "Description is required" at `description` |
| ImageDescriptionSchema.NonStringRejected | src/lib/index.ts:4 | a missing or non-string description fails the type check alone |
| ImageDescriptionSchema.BlankDescriptionAccepted | src/lib/index.ts:4 | a string of spaces is accepted as it is |
| DataUrl.DataUrl | src/routes/app/+page.server.ts:39 | the framing starts with `data:image/` and has the length of its five parts |
| DataUrl.DataUrlRoundTrip | src/routes/app/+page.server.ts:39 | parsing the framing of a subtype without ',' gives back the subtype and the payload |
| DataUrl.ParsedIsFramed | src/routes/app/+page.server.ts:39 | whatever parses is the framing of its parts, and its subtype has no ',' |
| DataUrl.DataUrlInjective | src/routes/app/+page.server.ts:39 | different subtypes or payloads frame to different URLs |
| PromptComposer.SystemMessage | src/routes/app/+page.server.ts:57-69 | the system message starts with "Create an Instagram caption that is " |
| PromptComposer.SystemMessageRoundTrip | src/routes/app/+page.server.ts:51-69 | parsing the message gives back the options: the length (Medium when absent), the tone, and the context when non-empty |
| PromptComposer.SystemMessageDeterminesOptions | src/routes/app/+page.server.ts:51-69 | two requests give the same message iff they agree on length (after the default), tone and non-empty context |
| PromptComposer.DefaultLengthIsMedium | src/routes/app/+page.server.ts:51 | an absent length gives the same message as Medium |
| PromptComposer.ClausesPresentIffGiven | src/routes/app/+page.server.ts:58-60 | the message states a tone iff one is given and a context iff a non-empty one is given, and always states the length |
| PromptComposer.ParseLengthOf | src/routes/app/+page.server.ts:58 | the length part "<length> length" is read back as that length, leaving the rest of the message |
| PromptComposer.TonePart | src/routes/app/+page.server.ts:59 | the tone clause is empty iff no tone is given, and otherwise starts with " with a " |
| PromptComposer.ContextPart | src/routes/app/+page.server.ts:60 | the context clause is empty iff the context is absent or empty |
| PromptComposer.ParseBodyOf | src/routes/app/+page.server.ts:58-60 | the length part, tone clause and context clause are read back in order |
| CaptionAction.ImageType | src/routes/app/+page.server.ts:128 | for a validated file, the image type is its second `/`-segment, one of the supported types |
| CaptionAction.CompressImage | src/routes/app/+page.server.ts:28-45 | a failure is an Error whose message starts with "Image compression failed: " |
| CaptionAction.CompressImageOutcome | src/routes/app/+page.server.ts:33-44 | compression succeeds iff the codec does, and then parses as a `data:` URL of the subtype and the base64 of the codec's output; a failure wraps the codec's message, or "unknown error" for a non-Error |
| CaptionAction.ExtractCaption | src/routes/app/+page.server.ts:92-98 | succeeds iff there is a first choice with non-empty content, which is the caption; otherwise throws "No caption returned please try again" |
| CaptionAction.GenerateImageCaption | src/routes/app/+page.server.ts:47-99 | a returned caption is never empty |
| CaptionAction.ChatRequestStatesOptions | src/routes/app/+page.server.ts:71-90 | the request uses gpt-4-vision-preview, 2000 tokens and temperature 0.8; it carries the image URL as given, and its system message parses back to the options |
| CaptionAction.PromptContext | src/routes/app/+page.server.ts:134-138 | a missing or empty prompt passes no context; a non-empty one is passed as the sanitiser's output, and what the sanitiser throws is thrown on |
| CaptionAction.CaptionChatRequest | src/routes/app/+page.server.ts:63-90 | the request carries the image URL as given, and its system message starts with "Create an Instagram caption that is " |
| CaptionAction.AnalyzeImage | src/routes/app/+page.server.ts:125-142 | a codec failure gives an Error whose message starts with "Image compression failed: "; a returned caption is never empty |
| CaptionAction.DefaultAction | src/routes/app/+page.server.ts:114-161 | status 200 iff the alert is a success; an error alert says "Invalid prompt" or "Error analyzing image please try again" |
| CaptionAction.InvalidFormShortCircuits | src/routes/app/+page.server.ts:116-123 | an invalid form gives error "Invalid prompt" with status 400 whatever the services do, so none is called |
| CaptionAction.SuccessCarriesCaption | src/routes/app/+page.server.ts:125-146 | a success alert means the form was valid, compression succeeded, the context was sanitised, and the chat call returned a first choice whose content is exactly the non-empty alert text |
| CaptionAction.CaptionBecomesSuccessAlert | src/routes/app/+page.server.ts:125-146 | conversely, a valid form whose image compresses, whose context is sanitised, and whose chat call returns a first choice with non-empty text gets a success alert with that text and status 200 |
| CaptionAction.AnalysisSuccessIsSuccessAlert | src/routes/app/+page.server.ts:136-146 | for a valid form, the analysis returns a caption iff the action answers with a success alert carrying it and status 200 |
| CaptionAction.FailuresBecomeServerError | src/routes/app/+page.server.ts:147-159 | for a valid form, the analysis fails iff the result is error "Error analyzing image please try again" with status 500 |
| CaptionAction.SanitizerFailureBecomesServerError | src/routes/app/+page.server.ts:136-159 | when the image compresses but the sanitiser throws on a non-empty prompt, the answer is the 500 error alert whatever the chat call would do |
| CaptionAction.ImageReachesModelAsDataUrl | src/routes/app/+page.server.ts:126-132 | the codec gets the file's own bytes and its second `/`-segment; a codec failure gives status 500; otherwise the URL parses to that subtype and the encoded output |
| MetaTags.CreatePageMetaTags | src/lib/utils/metaTags.ts:75-90 | title, description, canonical, keywords and link tags are copied; openGraph and twitter are always present |
| MetaTags.PageTagsFallBack | src/lib/utils/metaTags.ts:76-88 | each output title and description is the section's own if present, else the page's, else ""; the other sub-fields are dropped |
| MetaTags.EmptyTitleKept | src/lib/utils/metaTags.ts:82 | an explicit "" Open Graph title is kept |
| MetaTags.SectionsIndependent | src/lib/utils/metaTags.ts:81-88 | the Open Graph output ignores the Twitter input and vice versa |
| MetaTags.PageTagsIdempotent | src/lib/utils/metaTags.ts:75-90 | applying the builder twice is applying it once |
| MetaTags.AppPageSocialTags | src/routes/app/+page.server.ts:102-106 | the caption page's Open Graph title and Twitter description are its own title and description |
| MetaTags.AppPageMetaTags | src/routes/app/+page.server.ts:102-106 | the caption page's tags carry its own title and description |
| MetaTags.CanonicalUrl | src/lib/utils/metaTags.ts:8 | corrected definition (see Findings): the canonical URL is the request URL without query and fragment, and it starts with origin + "/" iff the pathname starts with "/" |
| MetaTags.CanonicalIgnoresQueryAndFragment | src/lib/utils/metaTags.ts:8 | corrected definition: the canonical URL does not depend on the query or the fragment |
| MetaTags.ResolvePathnameAsWritten | src/lib/utils/metaTags.ts:8 | as written: a pathname that does not start with "//" resolves to origin + pathname; one that does is a scheme-relative reference, resolved or making the constructor throw (`None`) |
| MetaTags.EmptyHostThrows | src/lib/utils/metaTags.ts:8 | as written, the constructor throws iff the pathname is two or more slashes and nothing else, since the host it names is empty |
| MetaTags.CanonicalAgreesOnOrdinaryPaths | src/lib/utils/metaTags.ts:8 | as written and corrected agree on every pathname not starting with "//" |
| MetaTags.SchemeRelativePathnameReplacesHost | src/lib/utils/metaTags.ts:8 | as written, a pathname of two or more slashes, a plain host h, "/" and a plain path p resolves to host h with pathname "/p", on the request's scheme |
| MetaTags.OtherHostLeavesOrigin | src/lib/utils/metaTags.ts:8-24 | as written, "//h/p" with h starting with a letter other than the request host's gives a canonical URL off the origin, and the Open Graph URL and Twitter site follow it |
| MetaTags.SchemeRelativePathnameLeavesOrigin | src/lib/utils/metaTags.ts:8-24 | as written, "https://captionthat.com//evil.com/x" gets canonical, Open Graph URL and Twitter site "https://evil.com/x", off the origin; the corrected URL stays on it |
| MetaTags.CreateBaseMetaTagsAsWritten | src/lib/utils/metaTags.ts:3-73 | as written: the builder returns tags iff the resolution does not throw, and their canonical URL is the resolved one |
| MetaTags.BaseMetaTags | src/lib/utils/metaTags.ts:10-72 | canonical, openGraph.url and twitter.site are the one given URL; both sections' titles and descriptions equal the site's |
| MetaTags.CreateBaseMetaTags | src/lib/utils/metaTags.ts:3-73 | corrected definition: canonical, openGraph.url and twitter.site are the one on-origin canonical URL; both sections' titles and descriptions equal the site's |
| MetaTags.BaseTagsAgreeOnOrdinaryPaths | src/lib/utils/metaTags.ts:3-73 | the as-written and corrected builders give the same tags for every pathname not starting with "//" |
| MetaTags.BaseTagsStayOnOrigin | src/lib/utils/metaTags.ts:8-13 | corrected definition: the base canonical URL always starts with the request's origin and "/" |
| MetaTags.BaseTitlesSurvivePageFallback | src/lib/utils/metaTags.ts:75-88 | the page fallback leaves the base tags' section titles as the site title |
| Zod.StringOf | src/lib/validations/captionPromptSchema.ts:7 | `z.string()` accepts exactly strings, unchanged, and otherwise aborts with the single "Expected string" issue |
| Zod.InstanceOfFile | src/lib/validations/imageValidationSchema.ts:25 | `z.instanceof(File)` accepts exactly Files, unchanged, and otherwise aborts with the single issue carrying its message |
| Zod.Check | src/lib/validations/captionPromptSchema.ts:8-12 | a `min`/`max` check aborts iff the parse had; the result is valid iff the parse was and the check holds; the value is kept and the issue appended exactly when a running check fails |
| Zod.Refine | src/lib/validations/imageValidationSchema.ts:26-39 | the same for `.refine`, whose issue is a custom one with its message |
| Zod.RefineAppends | src/lib/validations/imageValidationSchema.ts:26-39 | a `.refine` on a parse that has not aborted appends its message iff the predicate fails, and keeps the value |
| Zod.EnumOf | src/lib/validations/captionFormZodSchema.ts:60-61 | an enum accepts exactly the strings its decoder names, gives the decoded member, and never goes on after a failure |
| Zod.Optional | src/lib/validations/captionFormZodSchema.ts:63-70 | `undefined` is accepted as absent; anything else is parsed by the inner schema with the same issues |
| Zod.Transform | src/lib/validations/captionPromptSchema.ts:16 | a transform maps accepted values and keeps the issues |
| Zod.AtPath | src/lib/validations/captionFormZodSchema.ts:43 | each field's issues are prefixed with its key |
| JsText.Trim | src/lib/validations/captionPromptSchema.ts:16 | `trim` is no longer than its input, and a non-empty result neither starts nor ends with white space |
| JsText.TrimIsBlankFreeInfix | src/lib/validations/captionPromptSchema.ts:16 | `trim` returns a slice of the input with only white space removed at each end and none left at either end |
| JsText.TrimEmptyIffBlank | src/lib/validations/captionPromptSchema.ts:13 | `str.trim().length > 0` iff the string is not all white space |
| JsText.TrimIdempotent | src/lib/validations/captionPromptSchema.ts:16 | trimming twice is trimming once |
| JsText.JoinSplit | src/lib/validations/imageValidationSchema.ts:30 | joining the parts of `split('/')` with '/' gives back the type |
| JsText.SplitJoin | src/lib/validations/imageValidationSchema.ts:30 | splitting a join of '/'-free parts gives back the parts |
| JsText.IndexOf | src/lib/validations/imageValidationSchema.ts:30 | `indexOf` is at most the length; the character does not occur before it, and is found at it when it is below the length |
| JsText.SplitPiecesHaveNoSeparator | src/lib/validations/imageValidationSchema.ts:30 | no piece of `split(sep)` contains `sep` |
| JsText.StripPrefix | src/lib/validations/imageValidationSchema.ts:27 | `startsWith(p)` holds iff the prefix can be stripped, and the string is then `p` followed by the rest |
| JsText.IndexOfFirst | src/lib/validations/imageValidationSchema.ts:30 | the split point is the first '/' |

## Left out

- Lengths are counted in characters. zod's `min` and `max` count UTF-16 code units,
  so a string with astral characters may be measured differently.
- The `sharp` resize and re-encode, and `Buffer.toString('base64')`, are opaque
  `Services` fields. The payload is never decoded. The base64 encoder is taken never
  to throw.
- The chat-completion network call is an opaque `Services` field.
  - Only the request's model, `max_tokens`, temperature, system message and image URL
    are kept, with the message roles implicit.
  - Only `choices[0].message.content` of the response is read.
- `sanitizeContent` is an opaque `Services` field that returns a string or throws. The
  file defining it is not part of this model.
- `logError` is a side effect only and is left out.
- `imageFile.arrayBuffer()` is taken to yield the file's bytes without failing.
- `superValidate` and `message` from sveltekit-superforms are reduced to what the
  action observes: a valid flag with the parsed data, and an alert with a status.
  - The status of the invalid-form message (400) is that library's default for an
    invalid form, and the success status (200) is its default for a valid one.
  - Reading multipart form data into field values is not modelled. Fields arrive as
    `JsValue`s.
- `JsValue` has no numbers, arrays or objects with content: the schemas' fields never
  take them as valid. zod's "received" names for them, such as "number", are not
  modelled. A non-object passed to `z.object` itself is not modelled either.
- `Zod.Transform` reports a dirty parse as aborted. No check in these schemas follows
  a transform, so the difference is never observable.
- `MetaTagsProps`:
  - Only the fields these builders touch are modelled. The other fields are copied
    by the spread in the same way.
  - `null` and `undefined` are one `None`, which is what `??` tests.
- `Url`: the request URL's own host is taken as already normalised by the URL parser.
  `Url.Valid` asks only that the pathname start with '/'. It does not exclude '?', '#'
  or a backslash, which the parser never leaves in a pathname.
- MetaTags.ResolvePathnameAsWritten: for a "//" pathname it skips the slashes, takes the
  host up to the next '/', and throws on an empty host. It does not model the WHATWG
  host parser's normalisation of that host: case folding, ports, credentials, IPv4
  numbers, IDNA and forbidden code points. Nor does it model percent-encoding or
  dot-segment removal in the resolved path. The lemmas about the resolved URL are
  therefore limited to `PlainHost` hosts (a lower-case letter, then lower-case letters
  and dots) and `PlainPath` tails (lower-case letters, digits and '/'), which the parser
  keeps as they are.
- MetaTags.CreateBaseMetaTags models the corrected definition, which resolves nothing.
  The source's behaviour is `MetaTags.CreateBaseMetaTagsAsWritten`; the two agree except
  on pathnames starting with "//" (see Findings).
- `CaptionAction.ImageType` requires a file that passed validation. The source casts
  the subtype to a `sharp` format name on the same assumption.
- `Object.freeze` on the caption page's tags is left out. Freezing does not change
  the values.
- The page loaders (`load` in `src/routes/+layout.server.ts`,
  `src/routes/+page.server.ts` and `src/routes/app/+page.server.ts`), the
  `sendFeedbackToEmail` action and the UI are not modelled. The caption page's own
  tags are covered by `MetaTags.AppPageMetaTags`.

## Findings

| source | as written | input that shows it | evidently intended | confidence | as-written member | corrected member |
|---|---|---|---|---|---|---|
| src/lib/utils/metaTags.ts:8 | `new URL(url.pathname, url.origin).href`. A pathname starting with "//" is resolved as a scheme-relative reference, so its first non-empty segment becomes the host, and a pathname of slashes only makes the constructor throw. | request URL `https://captionthat.com//evil.com/x`: pathname `//evil.com/x`, canonical, Open Graph URL and Twitter site `https://evil.com/x`; request URL `https://captionthat.com//`: the builder throws | the canonical URL is the request's origin followed by its pathname, always on the site's own origin | medium, not executed | MetaTags.SchemeRelativePathnameLeavesOrigin | MetaTags.CreateBaseMetaTags |
