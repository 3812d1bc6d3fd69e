/**
 * `imageValidationSchema`: the `uploadedImage` field must be a File, and then four
 * refinements run in this order, each adding its message when it fails:
 * non-empty, `image/` type prefix, supported subtype, at most 20 MB.
 */
module ImageValidationSchema {
  import opened Wrappers
  import opened Zod
  import JsText
  import opened ImageRules

  const NotAnImageMessage := "The file you uploaded is not an image."

  /** The object the schema parses. */
  datatype ImageForm = ImageForm(uploadedImage: JsValue)

  /** The object it returns on success. */
  datatype ValidImage = ValidImage(uploadedImage: File)

  /** `file.type.startsWith('image/')`, the rule only this schema has. */
  predicate HasImagePrefix(f: File) {
    JsText.StartsWith(f.mimeType, "image/")
  }

  /** The `uploadedImage` field schema. */
  function UploadedImage(v: JsValue): (p: Parse<File>)
    ensures !v.FileValue? ==> p == Aborted([Issue(Custom, [], NotInstanceOfFileMessage)])
    ensures !p.Aborted? ==> v.FileValue? && p.value == v.file
  {
    var isFile := InstanceOfFile(v, NotInstanceOfFileMessage);
    var nonEmpty := Refine(isFile, NonEmpty, NoFileUploadedMessage);
    var isImage := Refine(nonEmpty, HasImagePrefix, NotAnImageMessage);
    var supported := Refine(isImage, HasSupportedSubtype, UnsupportedImageTypeMessage);
    Refine(supported, WithinSizeLimit, FileTooLargeMessage)
  }

  /** Reference: the messages of the rules `f` breaks, in the order the schema lists the rules. */
  function BrokenRules(f: File): seq<string> {
    (if f.Size() > 0 then [] else [NoFileUploadedMessage])
    + (if HasImagePrefix(f) then [] else [NotAnImageMessage])
    + (if IsSupportedSubtype(f.mimeType) then [] else [UnsupportedImageTypeMessage])
    + (if f.Size() <= MaxFileSizeBytes then [] else [FileTooLargeMessage])
  }

  /** For a File, the refinement chain reports exactly the broken rules, in order. */
  lemma UploadedImageReportsBrokenRules(f: File)
    ensures UploadedImage(FileValue(f)).Issues() == CustomIssues(BrokenRules(f))
    ensures UploadedImage(FileValue(f)).Valid? <==> BrokenRules(f) == []
    ensures UploadedImage(FileValue(f)).Valid? ==> UploadedImage(FileValue(f)).value == f
  {
    var a := if f.Size() > 0 then [] else [NoFileUploadedMessage];
    var b := if HasImagePrefix(f) then [] else [NotAnImageMessage];
    var c := if IsSupportedSubtype(f.mimeType) then [] else [UnsupportedImageTypeMessage];
    var d := if f.Size() <= MaxFileSizeBytes then [] else [FileTooLargeMessage];
    var p0 := InstanceOfFile(FileValue(f), NotInstanceOfFileMessage);
    assert p0 == Valid(f);
    var p1 := Refine(p0, NonEmpty, NoFileUploadedMessage);
    RefineAppends(p0, NonEmpty, NoFileUploadedMessage);
    assert p1.Issues() == CustomIssues(a) && p1.value == f;
    var p2 := Refine(p1, HasImagePrefix, NotAnImageMessage);
    RefineAppends(p1, HasImagePrefix, NotAnImageMessage);
    assert p2.Issues() == CustomIssues(a) + CustomIssues(b) && p2.value == f;
    var p3 := Refine(p2, HasSupportedSubtype, UnsupportedImageTypeMessage);
    RefineAppends(p2, HasSupportedSubtype, UnsupportedImageTypeMessage);
    assert p3.Issues() == CustomIssues(a) + CustomIssues(b) + CustomIssues(c) && p3.value == f;
    var p4 := Refine(p3, WithinSizeLimit, FileTooLargeMessage);
    RefineAppends(p3, WithinSizeLimit, FileTooLargeMessage);
    assert p4.Issues() == CustomIssues(a) + CustomIssues(b) + CustomIssues(c) + CustomIssues(d);
    CustomIssuesConcat(a, b);
    CustomIssuesConcat(a + b, c);
    CustomIssuesConcat(a + b + c, d);
  }

  /** The field is accepted exactly when it is a File passing all four rules, and then
      unchanged; otherwise it reports at least one issue. */
  lemma UploadedImageOutcome(v: JsValue)
    ensures UploadedImage(v).Valid? <==>
      (v.FileValue? && var f := v.file;
       f.Size() > 0 && HasImagePrefix(f) && IsSupportedSubtype(f.mimeType) && f.Size() <= MaxFileSizeBytes)
    ensures UploadedImage(v).Valid? ==> v == FileValue(UploadedImage(v).value)
    ensures !UploadedImage(v).Valid? ==> |UploadedImage(v).Issues()| > 0
  {
    var isFile := InstanceOfFile(v, NotInstanceOfFileMessage);
    var nonEmpty := Refine(isFile, NonEmpty, NoFileUploadedMessage);
    var isImage := Refine(nonEmpty, HasImagePrefix, NotAnImageMessage);
    var supported := Refine(isImage, HasSupportedSubtype, UnsupportedImageTypeMessage);
    assert isFile.Sound() && nonEmpty.Sound() && isImage.Sound() && supported.Sound();
  }

  /** `imageValidationSchema.safeParse({ uploadedImage })`: success returns the very File
      given, and only when it passes all four rules; a failure carries at least one issue,
      each on the `uploadedImage` path. */
  function Validate(form: ImageForm): (r: Result<ValidImage, seq<Issue>>)
    ensures r.Success? <==>
      (form.uploadedImage.FileValue? &&
       var f := form.uploadedImage.file;
       f.Size() > 0 && HasImagePrefix(f) && IsSupportedSubtype(f.mimeType) && f.Size() <= MaxFileSizeBytes)
    ensures r.Success? ==> form.uploadedImage == FileValue(r.value.uploadedImage)
    ensures r.Failure? ==> |r.error| > 0 && forall k :: 0 <= k < |r.error| ==> r.error[k].path == ["uploadedImage"]
  {
    var p := UploadedImage(form.uploadedImage);
    UploadedImageOutcome(form.uploadedImage);
    if p.Valid? then Success(ValidImage(p.value)) else Failure(AtPath("uploadedImage", p.Issues()))
  }

  /** For a File the schema reports exactly the broken rules, in order, on its path. */
  lemma ValidateFileReportsBrokenRules(f: File)
    ensures Validate(ImageForm(FileValue(f))).Failure? <==> BrokenRules(f) != []
    ensures Validate(ImageForm(FileValue(f))).Failure? ==>
      Validate(ImageForm(FileValue(f))).error == AtPath("uploadedImage", CustomIssues(BrokenRules(f)))
  {
    UploadedImageReportsBrokenRules(f);
  }

  /** Anything but a File is rejected by the fatal `instanceof` check alone, with zod's
      default message. */
  lemma NonFileRejected(v: JsValue)
    requires !v.FileValue?
    ensures Validate(ImageForm(v)) == Failure([Issue(Custom, ["uploadedImage"], NotInstanceOfFileMessage)])
  {
    var issues := [Issue(Custom, [], NotInstanceOfFileMessage)];
    assert UploadedImage(v) == Aborted(issues);
    var r := AtPath("uploadedImage", issues);
    assert ["uploadedImage"] + [] == ["uploadedImage"];
    assert |r| == 1 && r[0] == Issue(Custom, ["uploadedImage"], NotInstanceOfFileMessage);
    assert r == [Issue(Custom, ["uploadedImage"], NotInstanceOfFileMessage)];
    assert Validate(ImageForm(v)) == Failure(AtPath("uploadedImage", UploadedImage(v).Issues()));
  }

  /** The messages of a failed validation of a File are the broken rules, in order. */
  lemma {:induction false} FailureMessagesAreBrokenRules(f: File)
    ensures Validate(ImageForm(FileValue(f))).Failure? <==> BrokenRules(f) != []
    ensures Validate(ImageForm(FileValue(f))).Failure? ==>
      Messages(Validate(ImageForm(FileValue(f))).error) == BrokenRules(f)
  {
    ValidateFileReportsBrokenRules(f);
    MessagesAtPath("uploadedImage", CustomIssues(BrokenRules(f)));
  }

  /** A file that passes all four rules is accepted and returned as it came. */
  lemma AcceptedUnchanged(f: File)
    requires f.Size() > 0 && HasImagePrefix(f) && IsSupportedSubtype(f.mimeType) && f.Size() <= MaxFileSizeBytes
    ensures Validate(ImageForm(FileValue(f))) == Success(ValidImage(f))
  {
  }

  /** A zero-byte file is rejected, and its first message is `noFileUploaded`. */
  lemma EmptyFileFirstReportsNoFile(f: File)
    requires f.Size() == 0
    ensures Validate(ImageForm(FileValue(f))).Failure?
    ensures Validate(ImageForm(FileValue(f))).error[0].message == NoFileUploadedMessage
  {
    FailureMessagesAreBrokenRules(f);
  }

  /** A non-empty file whose type lacks the `image/` prefix is rejected with `notAnImage`
      first; the unsupported-type message follows exactly when its subtype is unsupported. */
  lemma NonImageFirstReportsNotAnImage(f: File)
    requires f.Size() > 0 && !HasImagePrefix(f)
    ensures Validate(ImageForm(FileValue(f))).Failure?
    ensures Validate(ImageForm(FileValue(f))).error[0].message == NotAnImageMessage
    ensures UnsupportedImageTypeMessage in Messages(Validate(ImageForm(FileValue(f))).error)
            <==> !IsSupportedSubtype(f.mimeType)
  {
    FailureMessagesAreBrokenRules(f);
  }

  /** A non-empty `image/...` file with an unsupported subtype reports that first. */
  lemma UnsupportedSubtypeFirstReportsUnsupported(f: File)
    requires f.Size() > 0 && HasImagePrefix(f) && !IsSupportedSubtype(f.mimeType)
    ensures Validate(ImageForm(FileValue(f))).Failure?
    ensures Validate(ImageForm(FileValue(f))).error[0].message == UnsupportedImageTypeMessage
  {
    FailureMessagesAreBrokenRules(f);
  }

  /** The size rule accepts exactly the files of at most 20 MiB; a larger file that
      passes the other rules fails with `fileTooLarge` alone. */
  lemma SizeLimit(f: File)
    ensures FileTooLargeMessage in BrokenRules(f) <==> f.Size() > MaxFileSizeBytes
    ensures f.Size() > MaxFileSizeBytes && HasImagePrefix(f) && IsSupportedSubtype(f.mimeType) ==>
      Validate(ImageForm(FileValue(f))).Failure? &&
      Messages(Validate(ImageForm(FileValue(f))).error) == [FileTooLargeMessage]
  {
    FailureMessagesAreBrokenRules(f);
  }

  /** A type `image/<sub>` has the image prefix and the subtype `sub`. */
  lemma ImageTypeOf(t: string, sub: string)
    requires t == "image/" + sub && '/' !in sub
    ensures JsText.StartsWith(t, "image/")
    ensures ImageSubtype(t) == Some(sub)
  {
    assert t == "image" + "/" + sub;
    SubtypeAfterFirstSlash("image", sub);
    assert sub + "" == sub;
    FirstPiece(sub, "");
    assert t[..6] == "image/";
  }

  // The four cases of the schema's unit tests, on the files they build.

  lemma EmptyJpegExample(f: File)
    requires f == File([], "image/jpeg")
    ensures Validate(ImageForm(FileValue(f))).Failure?
    ensures Validate(ImageForm(FileValue(f))).error[0].message == NoFileUploadedMessage
  {
    EmptyFileFirstReportsNoFile(f);
  }

  lemma TextFileExample(f: File)
    requires f == File([116, 101, 115, 116], "text/plain")
    ensures Validate(ImageForm(FileValue(f))).Failure?
    ensures Validate(ImageForm(FileValue(f))).error[0].message == NotAnImageMessage
  {
    JsText.NotStartsWithAt(f.mimeType, "image/", 0);
    NonImageFirstReportsNotAnImage(f);
  }

  /** `image/bmp` has the image prefix and an unlisted subtype. */
  lemma BmpIsUnsupportedImage(t: string)
    requires t == "image/bmp"
    ensures JsText.StartsWith(t, "image/") && !IsSupportedSubtype(t)
  {
    ImageTypeOf(t, "bmp");
    UnlistedByFirstLetter("bmp");
  }

  lemma BmpExample(f: File)
    requires f == File([116, 101, 115, 116], "image/bmp")
    ensures Validate(ImageForm(FileValue(f))).Failure?
    ensures Validate(ImageForm(FileValue(f))).error[0].message == UnsupportedImageTypeMessage
  {
    BmpIsUnsupportedImage(f.mimeType);
    UnsupportedSubtypeFirstReportsUnsupported(f);
  }

  lemma OversizedJpegExample(f: File)
    requires f.mimeType == "image/jpeg" && f.Size() == 20 * 1024 * 1024 + 1
    ensures Validate(ImageForm(FileValue(f))).Failure?
    ensures Validate(ImageForm(FileValue(f))).error[0].message == FileTooLargeMessage
  {
    ImageTypeOf(f.mimeType, "jpeg");
    SizeLimit(f);
  }
}
