/**
 * The `data:` URL `compressImage` frames the re-encoded image in,
 * `data:image/<subtype>;base64,<payload>` (the syntax of section 3 of RFC 2397 with a
 * base64 payload), and a parser that recovers the subtype and the payload from it.
 */
module DataUrl {
  import opened Wrappers
  import JsText

  const Prefix := "data:image/"
  const Base64Marker := ";base64"

  /** `data:image/${imageType};base64,${payload}` */
  function DataUrl(imageType: string, payload: string): (url: string)
    ensures JsText.StartsWith(url, Prefix)
    ensures |url| == |Prefix| + |imageType| + |Base64Marker| + 1 + |payload|
  {
    Prefix + imageType + Base64Marker + "," + payload
  }

  /** The image subtype and payload of an image `data:` URL with a base64 payload: the
      media type ends at the first ','. */
  function ParseDataUrl(url: string): Option<(string, string)> {
    var rest :- JsText.StripPrefix(url, Prefix);
    var i := JsText.IndexOf(rest, ',');
    if i == |rest| then None
    else
      var imageType :- JsText.StripSuffix(rest[..i], Base64Marker);
      Some((imageType, rest[i + 1..]))
  }

  /** A subtype without ',' and any payload survive framing and parsing. */
  lemma DataUrlRoundTrip(imageType: string, payload: string)
    requires ',' !in imageType
    ensures ParseDataUrl(DataUrl(imageType, payload)) == Some((imageType, payload))
  {
    var mediaType := imageType + Base64Marker;
    var rest := mediaType + [','] + payload;
    assert DataUrl(imageType, payload) == Prefix + rest;
    JsText.StripPrefixOfConcat(Prefix, rest);
    assert ',' !in mediaType;
    JsText.IndexOfFirst(mediaType, ',', payload);
    assert rest[..|mediaType|] == mediaType;
    assert rest[|mediaType| + 1..] == payload;
    JsText.StripSuffixOfConcat(imageType, Base64Marker);
  }

  /** Conversely, whatever parses is the framing of what it parses to, and its subtype
      has no ','. */
  lemma ParsedIsFramed(url: string)
    requires ParseDataUrl(url).Some?
    ensures var (imageType, payload) := ParseDataUrl(url).value;
      ',' !in imageType && url == DataUrl(imageType, payload)
  {
    var rest := JsText.StripPrefix(url, Prefix).value;
    var i := JsText.IndexOf(rest, ',');
    var imageType := JsText.StripSuffix(rest[..i], Base64Marker).value;
    assert rest == rest[..i] + "," + rest[i + 1..];
    assert rest[..i] == imageType + Base64Marker;
    assert ',' !in imageType by {
      assert forall k :: 0 <= k < |imageType| ==> imageType[k] == rest[..i][k];
    }
  }

  /** Framing is injective on subtypes without ','. */
  lemma {:induction false} DataUrlInjective(t1: string, p1: string, t2: string, p2: string)
    requires ',' !in t1 && ',' !in t2
    requires DataUrl(t1, p1) == DataUrl(t2, p2)
    ensures t1 == t2 && p1 == p2
  {
    DataUrlRoundTrip(t1, p1);
    DataUrlRoundTrip(t2, p2);
  }
}
