/**
 * The SEO tag builders: `createPageMetaTags`, which fills in a page's Open Graph and
 * Twitter title and description from its own title and description, and
 * `createBaseMetaTags`, which derives one canonical URL from the request URL and uses
 * it in three places.
 *
 * A record field that may be `null` or `undefined` is an `Option`; `??` falls back on
 * `None` only.
 */
module MetaTags {
  import opened Wrappers
  import JsText

  datatype OpenGraph = OpenGraph(
    ogType: Option<string>, url: Option<string>, locale: Option<string>,
    title: Option<string>, description: Option<string>, siteName: Option<string>)

  datatype Twitter = Twitter(
    handle: Option<string>, site: Option<string>, cardType: Option<string>,
    title: Option<string>, description: Option<string>)

  datatype LinkTag = LinkTag(rel: string, linkType: Option<string>, href: string, crossOrigin: Option<string>)

  /** The part of `MetaTagsProps` these builders read or write. */
  datatype MetaTagsProps = MetaTagsProps(
    title: Option<string>, description: Option<string>, canonical: Option<string>,
    keywords: Option<seq<string>>, openGraph: Option<OpenGraph>, twitter: Option<Twitter>,
    additionalLinkTags: Option<seq<LinkTag>>)

  /** `a ?? b` */
  function Or(a: Option<string>, b: string): (r: string)
    ensures a.Some? ==> r == a.value
    ensures a.None? ==> r == b
  {
    match a
    case Some(x) => x
    case None => b
  }

  function OpenGraphTitle(og: Option<OpenGraph>): Option<string> {
    if og.Some? then og.value.title else None
  }

  function OpenGraphDescription(og: Option<OpenGraph>): Option<string> {
    if og.Some? then og.value.description else None
  }

  function TwitterTitle(tw: Option<Twitter>): Option<string> {
    if tw.Some? then tw.value.title else None
  }

  function TwitterDescription(tw: Option<Twitter>): Option<string> {
    if tw.Some? then tw.value.description else None
  }

  /** `createPageMetaTags`: every field copied, `openGraph` and `twitter` replaced by
      records holding only a title and a description. */
  function CreatePageMetaTags(m: MetaTagsProps): (r: MetaTagsProps)
    ensures r.title == m.title && r.description == m.description && r.canonical == m.canonical
    ensures r.keywords == m.keywords && r.additionalLinkTags == m.additionalLinkTags
    ensures r.openGraph.Some? && r.twitter.Some?
  {
    var title := Or(m.title, "");
    var description := Or(m.description, "");
    m.(openGraph := Some(OpenGraph(None, None, None,
                                   Some(Or(OpenGraphTitle(m.openGraph), title)),
                                   Some(Or(OpenGraphDescription(m.openGraph), description)), None)),
       twitter := Some(Twitter(None, None, None,
                               Some(Or(TwitterTitle(m.twitter), title)),
                               Some(Or(TwitterDescription(m.twitter), description)))))
  }

  /** The first of `a`, `b` that is present, else the empty string. */
  function FirstPresent(a: Option<string>, b: Option<string>): (r: string)
    ensures a.Some? ==> r == a.value
    ensures a.None? && b.Some? ==> r == b.value
    ensures a.None? && b.None? ==> r == ""
  {
    if a.Some? then a.value else if b.Some? then b.value else ""
  }

  /** Each output title and description is the section's own value if present, else the
      page's, else empty; an explicit "" counts as present. The other sub-fields are
      dropped. */
  lemma PageTagsFallBack(m: MetaTagsProps)
    ensures var r := CreatePageMetaTags(m);
      && r.openGraph.value == OpenGraph(None, None, None,
           Some(FirstPresent(OpenGraphTitle(m.openGraph), m.title)),
           Some(FirstPresent(OpenGraphDescription(m.openGraph), m.description)), None)
      && r.twitter.value == Twitter(None, None, None,
           Some(FirstPresent(TwitterTitle(m.twitter), m.title)),
           Some(FirstPresent(TwitterDescription(m.twitter), m.description)))
  {
  }

  /** An explicit empty Open Graph title is kept, even when the page has a title. */
  lemma EmptyTitleKept(m: MetaTagsProps)
    requires m.openGraph.Some? && m.openGraph.value.title == Some("")
    ensures CreatePageMetaTags(m).openGraph.value.title == Some("")
  {
  }

  /** The Open Graph output does not depend on the Twitter input, nor the Twitter output
      on the Open Graph input. */
  lemma SectionsIndependent(m: MetaTagsProps, og: Option<OpenGraph>, tw: Option<Twitter>)
    ensures CreatePageMetaTags(m.(twitter := tw)).openGraph == CreatePageMetaTags(m).openGraph
    ensures CreatePageMetaTags(m.(openGraph := og)).twitter == CreatePageMetaTags(m).twitter
  {
  }

  /** Applying the builder to its own output changes nothing. */
  lemma PageTagsIdempotent(m: MetaTagsProps)
    ensures CreatePageMetaTags(CreatePageMetaTags(m)) == CreatePageMetaTags(m)
  {
  }

  /** The page tags of the caption page (`src/routes/app/+page.server.ts`). */
  const AppPageTitle := "Image Caption Generator | CaptionThat"
  const AppPageDescription :=
    "CaptionThat is a web application that generates unique and descriptive captions for your images using OpenAI GPT-4 Vision"

  function AppPageMetaTags(): (r: MetaTagsProps)
    ensures r.title == Some(AppPageTitle) && r.description == Some(AppPageDescription)
  {
    CreatePageMetaTags(MetaTagsProps(Some(AppPageTitle), Some(AppPageDescription), None, None, None, None, None))
  }

  /** The caption page's social titles and descriptions are its own. */
  lemma AppPageSocialTags()
    ensures AppPageMetaTags().openGraph.value.title == Some(AppPageTitle)
    ensures AppPageMetaTags().twitter.value.description == Some(AppPageDescription)
  {
  }

  // URLs

  /** A parsed URL with a special scheme: `protocol` ends with ':' and `pathname` starts
      with '/'. `search` and `hash` are empty or start with '?' and '#'. */
  datatype Url = Url(protocol: string, host: string, pathname: string, search: string, hash: string) {
    predicate Valid() {
      |protocol| > 0 && protocol[|protocol| - 1] == ':' && ':' !in protocol[..|protocol| - 1]
      && '/' !in host && |pathname| > 0 && pathname[0] == '/'
    }

    /** `url.origin` */
    function Origin(): string {
      protocol + "//" + host
    }

    /** `url.href` */
    function Href(): string {
      Origin() + pathname + search + hash
    }
  }

  /** Drops the leading '/' characters, as the URL parser skips the slashes before an
      authority. */
  function DropSlashes(s: string): (r: string)
    ensures |r| <= |s| && r == s[|s| - |r|..]
    ensures r != [] ==> r[0] != '/'
    ensures forall k :: 0 <= k < |s| - |r| ==> s[k] == '/'
  {
    if s != [] && s[0] == '/' then DropSlashes(s[1..]) else s
  }

  /** `new URL(url.pathname, url.origin).href` as written, for a pathname the parser
      produced. A pathname that starts with "//" is a scheme-relative reference: every
      further '/' is skipped, the host runs up to the next '/', and an empty host makes
      the constructor throw (None). Any other pathname resolves on the origin. */
  function ResolvePathnameAsWritten(url: Url): (href: Option<string>)
    requires url.Valid()
    ensures !JsText.StartsWith(url.pathname, "//") ==> href == Some(url.Origin() + url.pathname)
  {
    if JsText.StartsWith(url.pathname, "//") then
      var rest := DropSlashes(url.pathname);
      if rest == [] then None
      else
        var i := JsText.IndexOf(rest, '/');
        Some(url.protocol + "//" + rest[..i] + (if i == |rest| then "/" else rest[i..]))
    else
      Some(url.Origin() + url.pathname)
  }

  /** As written, the constructor throws exactly for a pathname made only of slashes
      (at least two): the host it names is empty. */
  lemma EmptyHostThrows(url: Url)
    requires url.Valid()
    ensures ResolvePathnameAsWritten(url).None? <==>
      |url.pathname| >= 2 && forall k :: 0 <= k < |url.pathname| ==> url.pathname[k] == '/'
  {
    var s := url.pathname;
    if |s| >= 2 && forall k :: 0 <= k < |s| ==> s[k] == '/' {
      assert s[..2] == "//";
      DropSlashesAll(s);
    }
    if ResolvePathnameAsWritten(url).None? {
      assert s[0] == '/' && s[1] == '/';
      assert DropSlashes(s) == [];
    }
  }

  /** A host the URL parser serialises as it is: a lower-case letter followed by
      lower-case letters and dots. No case folding, port, credentials, IPv4 number or
      IDNA label can appear in it. */
  predicate PlainHost(h: string) {
    h != [] && 'a' <= h[0] <= 'z' && forall k :: 0 <= k < |h| ==> ('a' <= h[k] <= 'z' || h[k] == '.')
  }

  /** A path tail the URL parser keeps as it is: lower-case letters, digits and '/', so
      no dot segment and nothing to percent-encode. */
  predicate PlainPath(p: string) {
    forall k :: 0 <= k < |p| ==> ('a' <= p[k] <= 'z' || '0' <= p[k] <= '9' || p[k] == '/')
  }

  /** Only slashes: nothing is left. */
  lemma {:induction false} DropSlashesAll(s: string)
    requires forall k :: 0 <= k < |s| ==> s[k] == '/'
    ensures DropSlashes(s) == []
  {
    if s != [] {
      DropSlashesAll(s[1..]);
    }
  }

  /** Dropping slashes from slashes followed by a non-slash start leaves that start. */
  lemma {:induction false} DropSlashesOf(e: string, v: string)
    requires forall k :: 0 <= k < |e| ==> e[k] == '/'
    requires v == [] || v[0] != '/'
    ensures DropSlashes(e + v) == v
  {
    if e != [] {
      assert (e + v)[1..] == e[1..] + v;
      DropSlashesOf(e[1..], v);
    } else {
      assert e + v == v;
    }
  }
  /** The canonical URL: the request URL on its own origin, without query or fragment. */
  function CanonicalUrl(url: Url): (c: string)
    ensures JsText.StartsWith(c, url.Origin() + "/") == JsText.StartsWith(url.pathname, "/")
    ensures c == url.(search := "", hash := "").Href()
  {
    JsText.StripPrefixOfConcat(url.Origin(), url.pathname);
    assert JsText.StartsWith(url.Origin() + url.pathname, url.Origin() + "/") ==> url.pathname[0] == '/' by {
      if JsText.StartsWith(url.Origin() + url.pathname, url.Origin() + "/") {
        assert (url.Origin() + url.pathname)[|url.Origin()|] == '/';
      }
    }
    assert JsText.StartsWith(url.pathname, "/") ==> JsText.StartsWith(url.Origin() + url.pathname, url.Origin() + "/") by {
      if JsText.StartsWith(url.pathname, "/") {
        assert (url.Origin() + url.pathname)[..|url.Origin()| + 1] == url.Origin() + "/";
      }
    }
    url.Origin() + url.pathname
  }

  /** The canonical URL is the same for every query string and fragment. */
  lemma CanonicalIgnoresQueryAndFragment(url: Url, search: string, hash: string)
    ensures CanonicalUrl(url.(search := search, hash := hash)) == CanonicalUrl(url)
  {
  }

  /** For a request on the site's own origin, the corrected canonical URL and the
      resolution as written agree on every pathname that does not start with "//". */
  lemma CanonicalAgreesOnOrdinaryPaths(url: Url)
    requires url.Valid() && !JsText.StartsWith(url.pathname, "//")
    ensures ResolvePathnameAsWritten(url) == Some(CanonicalUrl(url))
  {
  }

  /** As written, a pathname "//<slashes><h>/<p>" with a plain host `h` and a plain tail
      `p` resolves to the URL with host `h` and pathname "/<p>": the request's own host is
      replaced, however many slashes precede `h`. */
  lemma {:induction false} SchemeRelativePathnameReplacesHost(url: Url, e: string, h: string, p: string)
    requires url.Valid() && PlainHost(h) && PlainPath(p)
    requires forall k :: 0 <= k < |e| ==> e[k] == '/'
    requires url.pathname == "//" + e + h + "/" + p
    ensures ResolvePathnameAsWritten(url) == Some(url.protocol + "//" + h + "/" + p)
  {
    var v := h + "/" + p;
    HostThenPath(h, p);
    assert url.pathname == "//" + e + v;
    SlashesThenHost(e, v);
    ResolveAfterSlashes(url, v, |h|);
    Rejoin(url.protocol + "//", v, |h|, h, p);
  }

  /** After "//" and more slashes, the text from a non-slash on is what remains. */
  lemma SlashesThenHost(e: string, v: string)
    requires forall k :: 0 <= k < |e| ==> e[k] == '/'
    requires v != [] && v[0] != '/'
    ensures JsText.StartsWith("//" + e + v, "//")
    ensures DropSlashes("//" + e + v) == v
  {
    SlashRun(e);
    assert "//" + e + v == ("//" + e) + v;
    DropSlashesOf("//" + e, v);
    assert ("//" + e + v)[..2] == "//";
  }

  /** Cutting `v` at its '/' and gluing it back after `a`. */
  lemma Rejoin(a: string, v: string, i: nat, x: string, y: string)
    requires i <= |v| && v[..i] == x && v[i..] == "/" + y
    ensures a + v[..i] + v[i..] == a + x + "/" + y
  {
    assert a + x + ("/" + y) == a + x + "/" + y;
  }

  /** "//" followed by slashes is a run of slashes. */
  lemma SlashRun(e: string)
    requires forall k :: 0 <= k < |e| ==> e[k] == '/'
    ensures forall k :: 0 <= k < |"//" + e| ==> ("//" + e)[k] == '/'
  {
  }

  /** In "<h>/<p>" with a plain host, the first '/' follows the host. */
  lemma HostThenPath(h: string, p: string)
    requires PlainHost(h)
    ensures var v := h + "/" + p;
      v != [] && v[0] != '/' && JsText.IndexOf(v, '/') == |h| < |v|
      && v[..|h|] == h && v[|h|..] == "/" + p
  {
    var v := h + "/" + p;
    assert v[0] == h[0];
    forall k | 0 <= k < |h|
      ensures h[k] != '/'
    {
    }
    assert v == h + ['/'] + p;
    JsText.IndexOfFirst(h, '/', p);
  }

  /** The resolution as written, once the slashes are skipped and the host is found. */
  lemma ResolveAfterSlashes(url: Url, v: string, i: nat)
    requires url.Valid() && JsText.StartsWith(url.pathname, "//")
    requires DropSlashes(url.pathname) == v && v != []
    requires JsText.IndexOf(v, '/') == i < |v|
    ensures ResolvePathnameAsWritten(url) == Some(url.protocol + "//" + v[..i] + v[i..])
  {
  }

  /** A request for "https://captionthat.com//evil.com/x" gets the canonical URL
      "https://evil.com/x" as written, off the site's origin, and so do its Open Graph and
      Twitter tags; the corrected canonical URL stays on the origin. */
  lemma SchemeRelativePathnameLeavesOrigin(url: Url)
    requires url.protocol == "https:" && url.host == "captionthat.com" && url.pathname == "//evil.com/x"
    requires url.search == "" && url.hash == ""
    ensures ResolvePathnameAsWritten(url) == Some("https://evil.com/x")
    ensures !JsText.StartsWith(ResolvePathnameAsWritten(url).value, url.Origin() + "/")
    ensures CreateBaseMetaTagsAsWritten(url).Some?
    ensures var r := CreateBaseMetaTagsAsWritten(url).value;
      r.canonical == r.openGraph.value.url == r.twitter.value.site == Some("https://evil.com/x")
    ensures JsText.StartsWith(CanonicalUrl(url), url.Origin() + "/")
  {
    ExampleUrl(url.protocol, url.host, url.pathname, "evil.com", "x");
    assert url.Valid();
    OtherHostLeavesOrigin(url, "evil.com", "x");
  }

  /** The parts of the example request. */
  lemma ExampleUrl(protocol: string, host: string, pathname: string, h: string, p: string)
    requires protocol == "https:" && host == "captionthat.com" && pathname == "//evil.com/x"
    requires h == "evil.com" && p == "x"
    ensures PlainHost(h) && PlainPath(p)
    ensures pathname == "//" + h + "/" + p && pathname[0] == '/'
    ensures protocol[|protocol| - 1] == ':' && ':' !in protocol[..|protocol| - 1] && '/' !in host
    ensures h[0] != host[0]
    ensures protocol + "//" + h + "/" + p == "https://evil.com/x"
  {
  }

  /** A scheme-relative pathname naming a host that differs from the request's in its
      first character resolves off the request's origin, and the Open Graph and Twitter
      tags built as written follow it there. */
  lemma OtherHostLeavesOrigin(url: Url, h: string, p: string)
    requires url.Valid() && PlainHost(h) && PlainPath(p) && url.pathname == "//" + h + "/" + p
    requires url.host != [] && h[0] != url.host[0]
    ensures ResolvePathnameAsWritten(url) == Some(url.protocol + "//" + h + "/" + p)
    ensures !JsText.StartsWith(ResolvePathnameAsWritten(url).value, url.Origin() + "/")
    ensures CreateBaseMetaTagsAsWritten(url).Some?
    ensures var r := CreateBaseMetaTagsAsWritten(url).value;
      r.canonical == r.openGraph.value.url == r.twitter.value.site == ResolvePathnameAsWritten(url)
  {
    assert url.pathname == "//" + "" + h + "/" + p;
    SchemeRelativePathnameReplacesHost(url, "", h, p);
    var href := ResolvePathnameAsWritten(url).value;
    var k := |url.protocol| + 2;
    assert href[k] == h[0];
    assert (url.Origin() + "/")[k] == url.host[0];
    JsText.NotStartsWithAt(href, url.Origin() + "/", k);
  }

  const SiteTitle := "CaptionThat - AI-Powered Caption Generator for Your Images"
  const SiteDescription :=
    "Instantly generate creative captions for your images with CaptionThat. Enhance your social media posts with our free AI tool. No sign-up required."
  const SiteKeywords: seq<string> := [
    "CaptionThat", "AI Caption Generator", "Free Image Captioning", "Creative Captions",
    "Social Media Post Helper", "Image Formats Supported", "AI for Social Media",
    "Image Formats Supported", "Automated Captioning", "AI Content Generation",
    "Free AI Tool", "No Sign-up Required"]
  const SiteLinkTags: seq<LinkTag> := [
    LinkTag("apple-touch-icon", None, "/favicons/apple-touch-icon.png", None),
    LinkTag("icon", Some("image/svg+xml"), "/favicons/favicon.svg", None),
    LinkTag("mask-icon", None, "/favicons/mask-icon.svg", None),
    LinkTag("alternate icon", Some("image/png"), "/favicons/favicon-32x32.png", None),
    LinkTag("manifest", None, "/site.webmanifest", Some("use-credentials"))]

  /** The object `createBaseMetaTags` returns around its canonical URL. */
  function BaseMetaTags(canonical: string): (r: MetaTagsProps)
    ensures r.canonical == Some(canonical)
    ensures r.openGraph.Some? && r.openGraph.value.url == r.canonical
    ensures r.twitter.Some? && r.twitter.value.site == r.canonical
    ensures r.openGraph.value.title == r.twitter.value.title == r.title == Some(SiteTitle)
    ensures r.openGraph.value.description == r.twitter.value.description == r.description == Some(SiteDescription)
  {
    MetaTagsProps(
      Some(SiteTitle), Some(SiteDescription), Some(canonical), Some(SiteKeywords),
      Some(OpenGraph(Some("website"), Some(canonical), Some("en_IE"), Some(SiteTitle), Some(SiteDescription), Some("CaptionThat"))),
      Some(Twitter(Some("@edwardspresume"), Some(canonical), Some("summary_large_image"), Some(SiteTitle), Some(SiteDescription))),
      Some(SiteLinkTags))
  }

  /** `createBaseMetaTags` as written: the canonical URL is the pathname resolved
      against the origin, and the call throws (None) where that resolution does. */
  function CreateBaseMetaTagsAsWritten(url: Url): (r: Option<MetaTagsProps>)
    requires url.Valid()
    ensures r.Some? <==> ResolvePathnameAsWritten(url).Some?
    ensures r.Some? ==> r.value.canonical == ResolvePathnameAsWritten(url)
  {
    match ResolvePathnameAsWritten(url)
    case Some(canonical) => Some(BaseMetaTags(canonical))
    case None => None
  }

  /** `createBaseMetaTags` corrected: the canonical URL is taken on the request's own
      origin, so the tags never leave the site and the call never throws. */
  function CreateBaseMetaTags(url: Url): (r: MetaTagsProps)
    ensures r.canonical == Some(CanonicalUrl(url))
    ensures r.openGraph.Some? && r.openGraph.value.url == r.canonical
    ensures r.twitter.Some? && r.twitter.value.site == r.canonical
    ensures r.openGraph.value.title == r.twitter.value.title == r.title == Some(SiteTitle)
    ensures r.openGraph.value.description == r.twitter.value.description == r.description == Some(SiteDescription)
  {
    BaseMetaTags(CanonicalUrl(url))
  }

  /** The corrected and the as-written builders give the same tags for every request
      whose pathname does not start with "//". */
  lemma BaseTagsAgreeOnOrdinaryPaths(url: Url)
    requires url.Valid() && !JsText.StartsWith(url.pathname, "//")
    ensures CreateBaseMetaTagsAsWritten(url) == Some(CreateBaseMetaTags(url))
  {
    CanonicalAgreesOnOrdinaryPaths(url);
  }

  /** The base tags point at the request's own origin, whatever its pathname. */
  lemma BaseTagsStayOnOrigin(url: Url)
    requires url.Valid()
    ensures JsText.StartsWith(CreateBaseMetaTags(url).canonical.value, url.Origin() + "/")
  {
  }

  /** Filling in the page fallbacks on the base tags changes nothing: their sections
      already carry the site title and description. */
  lemma BaseTitlesSurvivePageFallback(url: Url)
    ensures var r := CreatePageMetaTags(CreateBaseMetaTags(url));
      r.openGraph.value.title == r.twitter.value.title == Some(SiteTitle)
  {
  }
}
