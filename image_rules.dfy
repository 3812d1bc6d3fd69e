/**
 * Constants and the subtype rule that both image schemas declare identically:
 * the 20 MB limit, the five supported subtypes, the messages they share, and
 * `file.type.split('/')[1]`.
 */
module ImageRules {
  import opened Wrappers
  import JsText
  import opened Zod

  const MaxFileSizeMb: nat := 20

  /** `MAX_FILE_SIZE_MB * 1024 * 1024` */
  const MaxFileSizeBytes: nat := MaxFileSizeMb * 1024 * 1024

  /** `SUPPORTED_IMAGE_TYPES` */
  const SupportedImageTypes: seq<string> := ["jpeg", "png", "webp", "avif", "gif"]

  const NoFileUploadedMessage := "Please upload a file."
  const FileTooLargeMessage := "The file size must be less than 20 MB."
  const UnsupportedImageTypeLead :=
    "The image type you uploaded is not supported. Please upload an image of one of the following types: "
  const UnsupportedImageTypeMessage := UnsupportedImageTypeLead + JsText.Join(SupportedImageTypes, ", ") + "."

  /** The unsupported-type message spells out the five subtypes, comma separated. */
  lemma UnsupportedMessageListsTypes()
    ensures UnsupportedImageTypeMessage == UnsupportedImageTypeLead + "jpeg, png, webp, avif, gif" + "."
  {
    var ts := SupportedImageTypes;
    JoinStep(ts[3..], ", ");
    JoinStep(ts[2..], ", ");
    JoinStep(ts[1..], ", ");
    JoinStep(ts, ", ");
  }

  /** Joining peels off the first piece. */
  lemma JoinStep(parts: seq<string>, sep: string)
    requires |parts| >= 2
    ensures JsText.Join(parts, sep) == parts[0] + sep + JsText.Join(parts[1..], sep)
  {
  }

  /** `type.split('/')[1]`: None stands for `undefined` (no '/' in the type). */
  function ImageSubtype(mimeType: string): Option<string> {
    var parts := JsText.Split(mimeType, '/');
    if |parts| >= 2 then Some(parts[1]) else None
  }

  /** `imageType ? SUPPORTED_IMAGE_TYPES.includes(imageType) : false` */
  predicate IsSupportedSubtype(mimeType: string) {
    match ImageSubtype(mimeType)
    case Some(s) => s != "" && s in SupportedImageTypes
    case None => false
  }

  // The refinements both schemas apply to a File.

  /** `file.size > 0` */
  predicate NonEmpty(f: File) {
    f.Size() > 0
  }

  /** The second `/`-segment of `file.type` is a supported subtype. */
  predicate HasSupportedSubtype(f: File) {
    IsSupportedSubtype(f.mimeType)
  }

  /** `file.size <= MAX_FILE_SIZE_MB * 1024 * 1024` */
  predicate WithinSizeLimit(f: File) {
    f.Size() <= MaxFileSizeBytes
  }

  /** `t` is `p/s` followed by nothing or by another `/`-segment. */
  predicate SecondSegmentAt(t: string, p: string, s: string, rest: string) {
    && t == p + "/" + s + rest
    && '/' !in p && '/' !in s
    && (rest == [] || rest[0] == '/')
  }

  lemma IndexOfAbsent(s: string, c: char)
    requires c !in s
    ensures JsText.IndexOf(s, c) == |s|
  {
  }

  /** The first piece of a split runs up to the first separator. */
  lemma SplitHead(u: string, sep: char)
    ensures JsText.Split(u, sep)[0] == u[..JsText.IndexOf(u, sep)]
  {
  }

  /** Cutting `t` at its first '/' and at the next '/' after it. */
  lemma SegmentsAt(t: string, i: nat, j: nat)
    requires i < |t| && t[i] == '/' && '/' !in t[..i]
    requires j <= |t[i + 1..]| && '/' !in t[i + 1..][..j]
    requires j < |t[i + 1..]| ==> t[i + 1..][j] == '/'
    ensures SecondSegmentAt(t, t[..i], t[i + 1..][..j], t[i + 1..][j..])
  {
    var u := t[i + 1..];
    assert t == t[..i] + "/" + u[..j] + u[j..] by {
      assert t == t[..i] + [t[i]] + u;
      assert u == u[..j] + u[j..];
    }
  }

  /** Reading the subtype: the segment after the first '/' up to the next '/' or the end. */
  lemma {:induction false} ImageSubtypeFound(t: string, s: string)
    requires ImageSubtype(t) == Some(s)
    ensures exists p, rest :: SecondSegmentAt(t, p, s, rest)
  {
    var i := SubtypeStart(t);
    var u := t[i + 1..];
    var j := JsText.IndexOf(u, '/');
    assert s == u[..j] by {
      SplitHead(u, '/');
    }
    SegmentsAt(t, i, j);
    assert SecondSegmentAt(t, t[..i], s, u[j..]);
  }

  /** A type with a subtype has a first '/', and the subtype is the first piece after it. */
  lemma SubtypeStart(t: string) returns (i: nat)
    requires ImageSubtype(t).Some?
    ensures i == JsText.IndexOf(t, '/') && i < |t|
    ensures ImageSubtype(t).value == JsText.Split(t[i + 1..], '/')[0]
  {
    i := JsText.IndexOf(t, '/');
    assert JsText.Split(t, '/') == if i == |t| then [t] else [t[..i]] + JsText.Split(t[i + 1..], '/');
  }

  /** Any second segment is what the subtype reads. */
  lemma {:induction false} SecondSegmentIsImageSubtype(t: string, p: string, s: string, rest: string)
    requires SecondSegmentAt(t, p, s, rest)
    ensures ImageSubtype(t) == Some(s)
  {
    assert t == p + "/" + (s + rest);
    SubtypeAfterFirstSlash(p, s + rest);
    FirstPiece(s, rest);
  }

  /** After a '/'-free head and a '/', the subtype is the first piece of the tail. */
  lemma SubtypeAfterFirstSlash(p: string, v: string)
    requires '/' !in p
    ensures ImageSubtype(p + "/" + v) == Some(JsText.Split(v, '/')[0])
  {
    var t := p + "/" + v;
    assert t == p + ['/'] + v;
    JsText.IndexOfFirst(p, '/', v);
    assert t[|p| + 1..] == v;
    assert JsText.Split(t, '/') == [t[..|p|]] + JsText.Split(v, '/');
  }

  /** The first piece of `s + rest` is `s` when `s` has no '/' and `rest` starts with
      one or is empty. */
  lemma FirstPiece(s: string, rest: string)
    requires '/' !in s && (rest == [] || rest[0] == '/')
    ensures JsText.Split(s + rest, '/')[0] == s
  {
    SplitHead(s + rest, '/');
    if rest == [] {
      assert s + rest == s;
      IndexOfAbsent(s, '/');
    } else {
      assert s + rest == s + ['/'] + rest[1..];
      JsText.IndexOfFirst(s, '/', rest[1..]);
    }
    assert (s + rest)[..|s|] == s;
  }

  /** The subtype is the text after the first '/' up to the next '/' or the end. */
  lemma ImageSubtypeIsSecondSegment(t: string, s: string)
    ensures ImageSubtype(t) == Some(s) <==> exists p, rest :: SecondSegmentAt(t, p, s, rest)
  {
    if ImageSubtype(t) == Some(s) {
      ImageSubtypeFound(t, s);
    }
    if exists p, rest :: SecondSegmentAt(t, p, s, rest) {
      var p, rest :| SecondSegmentAt(t, p, s, rest);
      SecondSegmentIsImageSubtype(t, p, s, rest);
    }
  }

  /** The empty string is not a supported subtype, so the truthiness test only rules out
      a missing segment: support is membership of the second segment. */
  lemma SupportedIffListed(t: string)
    ensures IsSupportedSubtype(t) <==> ImageSubtype(t).Some? && ImageSubtype(t).value in SupportedImageTypes
  {
  }

  /** No supported subtype starts with a letter other than j, p, w, a or g. */
  lemma UnlistedByFirstLetter(s: string)
    requires s != [] && s[0] !in "jpwag"
    ensures s !in SupportedImageTypes
  {
    forall k | 0 <= k < |SupportedImageTypes|
      ensures SupportedImageTypes[k][0] in "jpwag"
    {
    }
  }

  /** A supported subtype never holds the separators of a data URL. */
  lemma SupportedSubtypeHasNoSeparators(t: string)
    requires IsSupportedSubtype(t)
    ensures ',' !in ImageSubtype(t).value && ';' !in ImageSubtype(t).value
  {
  }
}
