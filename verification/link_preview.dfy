/**
 * The link card's metadata: what is read from the page's meta tags when the
 * page can be fetched, what is guessed from the host name when it cannot,
 * and the loading/error state around both. Parsing the URL, fetching through
 * the proxy and querying the parsed page happen outside: their results come
 * in as an `Address`, an optional `PageMeta` and a `resolve` function.
 */
module LinkPreview {
  import opened Common
  import opened Strings
  import opened Domain

  /** `LinkMetadata`: every field optional. */
  datatype Metadata = Metadata(
    title: Option<string>,
    description: Option<string>,
    image: Option<string>,
    siteName: Option<string>,
    favicon: Option<string>)

  /** The values the page's meta tags and `<title>` hold; `None` where the element is absent. */
  datatype PageMeta = PageMeta(
    ogTitle: Option<string>, twitterTitle: Option<string>, pageTitle: Option<string>,
    ogDescription: Option<string>, twitterDescription: Option<string>, metaDescription: Option<string>,
    ogImage: Option<string>, twitterImage: Option<string>,
    ogSiteName: Option<string>)

  /** The parts of `new URL(url)` the card reads: `hostname`, `pathname` and `searchParams.get('v')`. */
  datatype Address = Address(hostname: string, pathname: string, v: Option<string>)

  /** `https://www.google.com/s2/favicons?domain=<domain>&sz=32`. */
  function Favicon(domain: string): string
  {
    "https://www.google.com/s2/favicons?domain=" + domain + "&sz=32"
  }

  /** No candidate before position `i` is present and non-empty. */
  predicate NoneTruthyBefore(candidates: seq<Option<string>>, i: int)
  {
    forall j | 0 <= j < i && j < |candidates| :: !Truthy(candidates[j])
  }

  /** The first present, non-empty candidate, else `fallback`: the value of a `||` chain. */
  function FirstTruthy(candidates: seq<Option<string>>, fallback: string): (r: string)
    ensures NoneTruthyBefore(candidates, |candidates|) ==> r == fallback
    ensures forall i | 0 <= i < |candidates| && Truthy(candidates[i]) && NoneTruthyBefore(candidates, i) ::
      r == candidates[i].value
  {
    if candidates == [] then fallback
    else if Truthy(candidates[0]) then candidates[0].value
    else
      var r := FirstTruthy(candidates[1..], fallback);
      assert forall i | 1 <= i < |candidates| :: candidates[1..][i - 1] == candidates[i];
      assert forall i | 1 <= i <= |candidates| && NoneTruthyBefore(candidates, i) :: NoneTruthyBefore(candidates[1..], i - 1);
      r
  }

  // ---------------------------------------------------------------------------
  // Metadata read from the page.

  /**
   * The image: only when an og or twitter image is given, og first; a value
   * starting with `/` is resolved against the page address (`resolve` is
   * `new URL(value, url).href`), any other is kept as it is.
   */
  function PageImage(page: PageMeta, url: string, resolve: (string, string) -> string): (image: Option<string>)
  {
    if !Truthy(page.ogImage) && !Truthy(page.twitterImage) then None
    else
      var raw := FirstTruthy([page.ogImage, page.twitterImage], "");
      Some(if StartsWith(raw, "/") then resolve(raw, url) else raw)
  }

  /** The metadata a fetched page yields. */
  function Extracted(page: PageMeta, url: string, domain: string, resolve: (string, string) -> string): Metadata
  {
    Metadata(
      Some(FirstTruthy([page.ogTitle, page.twitterTitle, page.pageTitle], "Contenido de " + domain)),
      Some(FirstTruthy([page.ogDescription, page.twitterDescription, page.metaDescription], "Enlace a " + domain)),
      PageImage(page, url, resolve),
      Some(FirstTruthy([page.ogSiteName], domain)),
      Some(Favicon(domain)))
  }

  /** The object built field by field from the page, as the effect builds `extractedMetadata`. */
  method ExtractMetadata(page: PageMeta, url: string, domain: string, resolve: (string, string) -> string)
    returns (m: Metadata)
    ensures m == Extracted(page, url, domain, resolve)
  {
    m := Metadata(None, None, None, Some(domain), Some(Favicon(domain)));
    m := m.(title := Some(OrElse(page.ogTitle, OrElse(page.twitterTitle, OrElse(page.pageTitle, "Contenido de " + domain)))));
    m := m.(description := Some(OrElse(page.ogDescription, OrElse(page.twitterDescription,
                                OrElse(page.metaDescription, "Enlace a " + domain)))));
    if Truthy(page.ogImage) || Truthy(page.twitterImage) {
      var imageUrl := OrElse(page.ogImage, OrElse(page.twitterImage, ""));
      if StartsWith(imageUrl, "/") {
        imageUrl := resolve(imageUrl, url);
      }
      m := m.(image := Some(imageUrl));
    }
    if Truthy(page.ogSiteName) {
      m := m.(siteName := page.ogSiteName);
    }
    ExtractedTitleAndDescription(page, url, domain, resolve);
    ExtractedImageSiteAndFavicon(page, url, domain, resolve);
  }

  /**
   * The title is og:title, else twitter:title, else the page title (the first
   * present and non-empty), else "Contenido de <domain>"; the description the
   * same with the description tags and "Enlace a <domain>".
   */
  lemma ExtractedTitleAndDescription(page: PageMeta, url: string, domain: string, resolve: (string, string) -> string)
    ensures var m := Extracted(page, url, domain, resolve);
      && m.title == Some(if Truthy(page.ogTitle) then page.ogTitle.value
                         else if Truthy(page.twitterTitle) then page.twitterTitle.value
                         else if Truthy(page.pageTitle) then page.pageTitle.value
                         else "Contenido de " + domain)
      && m.description == Some(if Truthy(page.ogDescription) then page.ogDescription.value
                               else if Truthy(page.twitterDescription) then page.twitterDescription.value
                               else if Truthy(page.metaDescription) then page.metaDescription.value
                               else "Enlace a " + domain)
  {
    var titles := [page.ogTitle, page.twitterTitle, page.pageTitle];
    var descriptions := [page.ogDescription, page.twitterDescription, page.metaDescription];
    assert titles[0] == page.ogTitle && titles[1] == page.twitterTitle && titles[2] == page.pageTitle;
    assert descriptions[0] == page.ogDescription && descriptions[1] == page.twitterDescription
        && descriptions[2] == page.metaDescription;
  }

  /**
   * An image is set exactly when an og or a twitter image is given, the og
   * one preferred; a value starting with `/` is resolved and any other kept.
   * The site name is og:site_name when given, else the domain, and the
   * favicon is always the favicon service's address for the domain.
   */
  lemma ExtractedImageSiteAndFavicon(page: PageMeta, url: string, domain: string, resolve: (string, string) -> string)
    ensures var m := Extracted(page, url, domain, resolve);
      && (m.image.Some? <==> Truthy(page.ogImage) || Truthy(page.twitterImage))
      && (m.image.Some? ==>
            var raw := if Truthy(page.ogImage) then page.ogImage.value else page.twitterImage.value;
            m.image.value == if StartsWith(raw, "/") then resolve(raw, url) else raw)
      && m.siteName == Some(if Truthy(page.ogSiteName) then page.ogSiteName.value else domain)
      && m.favicon == Some(Favicon(domain))
  {
    var images := [page.ogImage, page.twitterImage];
    assert images[0] == page.ogImage && images[1] == page.twitterImage;
    assert [page.ogSiteName][0] == page.ogSiteName;
  }

  // ---------------------------------------------------------------------------
  // Metadata guessed from the host name.

  /** The sites the fallback knows, tried in this order. */
  datatype Site = GitHub | YouTube | YouTuBe | XTwitter | LinkedIn | Instagram | OtherSite

  /** The host test for X as written: any host name containing `x.com`. */
  predicate IsXHostAsWritten(host: string)
  {
    Contains(host, "x.com")
  }

  /** The evidently intended host test for X: `x.com` itself or one of its subdomains. */
  predicate IsXHost(host: string)
  {
    host == "x.com" || EndsWith(host, ".x.com")
  }

  /** The site dispatch as written: the first substring of the host name that matches. */
  function SiteOfAsWritten(host: string): Site
  {
    if Contains(host, "github.com") then GitHub
    else if Contains(host, "youtube.com") then YouTube
    else if Contains(host, "youtu.be") then YouTuBe
    else if Contains(host, "twitter.com") || IsXHostAsWritten(host) then XTwitter
    else if Contains(host, "linkedin.com") then LinkedIn
    else if Contains(host, "instagram.com") then Instagram
    else OtherSite
  }

  /** The site dispatch with the intended X test. */
  function SiteOf(host: string): (site: Site)
    ensures site == XTwitter ==> Contains(host, "twitter.com") || IsXHost(host)
  {
    if Contains(host, "github.com") then GitHub
    else if Contains(host, "youtube.com") then YouTube
    else if Contains(host, "youtu.be") then YouTuBe
    else if Contains(host, "twitter.com") || IsXHost(host) then XTwitter
    else if Contains(host, "linkedin.com") then LinkedIn
    else if Contains(host, "instagram.com") then Instagram
    else OtherSite
  }

  /** A text lacking one of the pattern's characters does not contain the pattern. */
  lemma NotContainedWithoutChar(s: string, pat: string, i: int)
    requires 0 <= i < |pat| && pat[i] !in s
    ensures !Contains(s, pat)
  {
    forall k | 0 <= k <= |s| ensures !OccursAt(s, pat, k) {
      if k + |pat| <= |s| {
        assert s[k..k + |pat|][i] == s[k + i];
      }
    }
    IndexOfNone(s, pat);
  }

  /** Every named site is recognised by a dotted host name, so a host without a dot is none of them. */
  lemma DotlessHostIsOther(host: string)
    requires '.' !in host
    ensures SiteOf(host) == OtherSite && SiteOfAsWritten(host) == OtherSite
  {
    NotContainedWithoutChar(host, "github.com", 6);
    NotContainedWithoutChar(host, "youtube.com", 7);
    NotContainedWithoutChar(host, "youtu.be", 5);
    NotContainedWithoutChar(host, "twitter.com", 7);
    NotContainedWithoutChar(host, "linkedin.com", 8);
    NotContainedWithoutChar(host, "instagram.com", 9);
    NotContainedWithoutChar(host, "x.com", 1);
    if |host| >= 6 {
      assert host[|host| - 6..][0] == host[|host| - 6];
    }
  }

  /** Every host the intended test accepts, the written one accepts too. */
  lemma XHostNarrowsAsWritten(host: string)
    ensures IsXHost(host) ==> IsXHostAsWritten(host)
    ensures SiteOf(host) != SiteOfAsWritten(host) ==>
      SiteOfAsWritten(host) == XTwitter && !IsXHost(host) && !Contains(host, "twitter.com")
  {
    if IsXHost(host) {
      var k := |host| - 5;
      assert OccursAt(host, "x.com", k);
      ContainsIff(host, "x.com");
    }
  }

  /** `dropbox.com` contains `x.com`, so as written its links are taken for X. */
  lemma DropboxCounterexample(host: string)
    requires host == "dropbox.com"
    ensures SiteOfAsWritten(host) == XTwitter
    ensures SiteOf(host) == OtherSite
  {
    NotContainedWithoutChar(host, "github.com", 0);
    NotContainedWithoutChar(host, "youtube.com", 0);
    NotContainedWithoutChar(host, "youtu.be", 0);
    NotContainedWithoutChar(host, "twitter.com", 0);
    NotContainedWithoutChar(host, "linkedin.com", 0);
    NotContainedWithoutChar(host, "instagram.com", 0);
    assert OccursAt(host, "x.com", 6);
    ContainsIff(host, "x.com");
    assert host[5..] != ".x.com" by { assert host[5..][0] == 'o'; }
  }

  /**
   * As written, a Dropbox link whose page cannot be fetched is described as
   * an X post; with the intended test it gets the generic card.
   */
  lemma DropboxCards(address: Address)
    requires address.hostname == "dropbox.com"
    ensures FallbackAsWritten(address).title == Some("Post en X (Twitter)")
    ensures FallbackAsWritten(address).siteName == Some("X (Twitter)")
    ensures Fallback(address).title == Some("Contenido de " + address.hostname)
    ensures Fallback(address).siteName == Some(address.hostname)
  {
    DropboxCounterexample(address.hostname);
  }

  /** `pathname.split('/').filter(Boolean)`: the non-empty parts. */
  function NonEmptyParts(parts: seq<string>): (r: seq<string>)
    ensures forall k | 0 <= k < |r| :: r[k] != "" && r[k] in parts
  {
    if parts == [] then []
    else if parts[0] != "" then [parts[0]] + NonEmptyParts(parts[1..])
    else NonEmptyParts(parts[1..])
  }

  /** The filter keeps exactly the non-empty parts, in their order. */
  lemma {:induction false} NonEmptyPartsSelects(parts: seq<string>)
    ensures IsSubsequence(NonEmptyParts(parts), parts)
    ensures forall x :: x in NonEmptyParts(parts) <==> x in parts && x != ""
  {
    if parts != [] {
      var rest := NonEmptyParts(parts[1..]);
      NonEmptyPartsSelects(parts[1..]);
      assert parts == [parts[0]] + parts[1..];
      assert forall x :: x in parts <==> x == parts[0] || x in parts[1..];
      if parts[0] != "" {
        assert ([parts[0]] + rest)[1..] == rest;
      } else {
        SubsequencePrepend(rest, parts[1..], parts[0]);
      }
    }
  }

  /**
   * The filter works part by part: filtering a concatenation is filtering
   * each half, so every non-empty part is kept as often as it occurs.
   */
  lemma {:induction false} NonEmptyPartsAppend(a: seq<string>, b: seq<string>)
    ensures NonEmptyParts(a + b) == NonEmptyParts(a) + NonEmptyParts(b)
  {
    if a == [] {
      assert a + b == b;
    } else {
      var ab := a + b;
      assert ab[0] == a[0] && ab[1..] == a[1..] + b;
      NonEmptyPartsAppend(a[1..], b);
      var tail := NonEmptyParts(a[1..]) + NonEmptyParts(b);
      if a[0] != "" {
        calc {
          NonEmptyParts(ab);
          [a[0]] + NonEmptyParts(a[1..] + b);
          [a[0]] + tail;
          ([a[0]] + NonEmptyParts(a[1..])) + NonEmptyParts(b);
        }
      }
    }
  }

  /** The path's segments: its `/`-separated parts that are not empty, in order. */
  function PathSegments(pathname: string): (segments: seq<string>)
    ensures forall k | 0 <= k < |segments| :: segments[k] != "" && '/' !in segments[k]
    ensures IsSubsequence(segments, Split(pathname, '/'))
    ensures forall x :: x in segments <==> x in Split(pathname, '/') && x != ""
  {
    NonEmptyPartsSelects(Split(pathname, '/'));
    NonEmptyParts(Split(pathname, '/'))
  }

  /** The video id: `v` for youtube.com, the path without its first character for youtu.be. */
  function VideoId(address: Address, site: Site): Option<string>
  {
    if site == YouTube then address.v
    else if |address.pathname| >= 1 then Some(address.pathname[1..])
    else Some("")
  }

  /** The fallback metadata for the site the dispatch chose. */
  function FallbackFor(address: Address, site: Site): Metadata
  {
    var host := address.hostname;
    var base := Metadata(None, None, None, Some(host), Some(Favicon(host)));
    match site
    case GitHub =>
      var segments := PathSegments(address.pathname);
      if |segments| >= 2 then
        base.(title := Some(segments[0] + "/" + segments[1]),
              description := Some("Repositorio de GitHub de " + segments[0]),
              image := Some("https://opengraph.githubassets.com/1/" + segments[0] + "/" + segments[1]))
      else base.(title := Some("GitHub"), description := Some("Plataforma de desarrollo colaborativo"))
    case YouTube => YouTubeFallback(base, VideoId(address, YouTube))
    case YouTuBe => YouTubeFallback(base, VideoId(address, YouTuBe))
    case XTwitter =>
      base.(title := Some("Post en X (Twitter)"), description := Some("Contenido de redes sociales"),
            siteName := Some("X (Twitter)"))
    case LinkedIn =>
      base.(title := Some("LinkedIn"), description := Some("Red profesional"), siteName := Some("LinkedIn"))
    case Instagram =>
      base.(title := Some("Instagram"), description := Some("Contenido de Instagram"), siteName := Some("Instagram"))
    case OtherSite =>
      base.(title := Some("Contenido de " + host), description := Some("Enlace a " + host))
  }

  /** The fallback metadata as the effect computes it, with the written X test. */
  function FallbackAsWritten(address: Address): Metadata
  {
    FallbackFor(address, SiteOfAsWritten(address.hostname))
  }

  /** The fallback metadata with the intended X test. */
  function Fallback(address: Address): Metadata
  {
    FallbackFor(address, SiteOf(address.hostname))
  }

  /** A video with an id gets the video title and thumbnail; without one nothing is added. */
  function YouTubeFallback(base: Metadata, id: Option<string>): Metadata
  {
    if Truthy(id) then
      base.(title := Some("Video de YouTube"), description := Some("Contenido de video en YouTube"),
            image := Some("https://img.youtube.com/vi/" + id.value + "/maxresdefault.jpg"))
    else base
  }

  /** The object built field by field from the address, as the effect builds `fallbackMetadata`. */
  method FallbackMetadata(address: Address) returns (m: Metadata)
    ensures m == FallbackAsWritten(address)
  {
    var domain := address.hostname;
    m := Metadata(None, None, None, Some(domain), Some(Favicon(domain)));
    if Contains(domain, "github.com") {
      var pathParts := NonEmptyParts(Split(address.pathname, '/'));
      if |pathParts| >= 2 {
        m := m.(title := Some(pathParts[0] + "/" + pathParts[1]));
        m := m.(description := Some("Repositorio de GitHub de " + pathParts[0]));
        m := m.(image := Some("https://opengraph.githubassets.com/1/" + pathParts[0] + "/" + pathParts[1]));
      } else {
        m := m.(title := Some("GitHub"));
        m := m.(description := Some("Plataforma de desarrollo colaborativo"));
      }
    } else if Contains(domain, "youtube.com") {
      var videoId := address.v;
      if Truthy(videoId) {
        m := m.(title := Some("Video de YouTube"));
        m := m.(description := Some("Contenido de video en YouTube"));
        m := m.(image := Some("https://img.youtube.com/vi/" + videoId.value + "/maxresdefault.jpg"));
      }
    } else if Contains(domain, "youtu.be") {
      var videoId := if |address.pathname| >= 1 then address.pathname[1..] else "";
      if videoId != "" {
        m := m.(title := Some("Video de YouTube"));
        m := m.(description := Some("Contenido de video en YouTube"));
        m := m.(image := Some("https://img.youtube.com/vi/" + videoId + "/maxresdefault.jpg"));
      }
    } else if Contains(domain, "twitter.com") || Contains(domain, "x.com") {
      m := m.(title := Some("Post en X (Twitter)"));
      m := m.(description := Some("Contenido de redes sociales"));
      m := m.(siteName := Some("X (Twitter)"));
    } else if Contains(domain, "linkedin.com") {
      m := m.(title := Some("LinkedIn"));
      m := m.(description := Some("Red profesional"));
      m := m.(siteName := Some("LinkedIn"));
    } else if Contains(domain, "instagram.com") {
      m := m.(title := Some("Instagram"));
      m := m.(description := Some("Contenido de Instagram"));
      m := m.(siteName := Some("Instagram"));
    } else {
      m := m.(title := Some("Contenido de " + domain));
      m := m.(description := Some("Enlace a " + domain));
    }
  }

  /**
   * The two dispatches give the same card except for a host the written X
   * test wrongly takes for X, which gets the X card instead of its own.
   */
  lemma FallbackDiffersOnlyOnX(address: Address)
    ensures var host := address.hostname;
      Fallback(address) != FallbackAsWritten(address) ==>
        && SiteOfAsWritten(host) == XTwitter && !IsXHost(host) && !Contains(host, "twitter.com")
        && FallbackAsWritten(address).siteName == Some("X (Twitter)")
        && FallbackAsWritten(address).title == Some("Post en X (Twitter)")
  {
    XHostNarrowsAsWritten(address.hostname);
  }

  /**
   * Whatever the site, the favicon is the favicon service's address for the
   * host; only GitHub repositories and YouTube videos get an image; and the
   * title, like the description, is missing only for a YouTube address
   * without a video id.
   */
  lemma FallbackShape(address: Address, site: Site)
    ensures var m := FallbackFor(address, site);
      && m.favicon == Some(Favicon(address.hostname))
      && (m.image.Some? ==> site in {GitHub, YouTube, YouTuBe})
      && (m.title.None? <==> site in {YouTube, YouTuBe} && !Truthy(VideoId(address, site)))
      && (m.title.None? <==> m.description.None?)
  {
  }

  /**
   * The site name is the host's unless the site is X, LinkedIn or Instagram,
   * which have their own, none of which has a dot.
   */
  lemma FallbackSiteName(address: Address, site: Site)
    ensures site !in {XTwitter, LinkedIn, Instagram} ==> FallbackFor(address, site).siteName == Some(address.hostname)
    ensures site in {XTwitter, LinkedIn, Instagram} ==>
      FallbackFor(address, site).siteName.Some? && '.' !in FallbackFor(address, site).siteName.value
  {
    if site in {XTwitter, LinkedIn, Instagram} {
      assert '.' !in FallbackFor(address, site).siteName.value;
    }
  }

  /**
   * Under either dispatch only a dotted host name is sent to X, LinkedIn or
   * Instagram, so, with `FallbackSiteName`, the site name is the host exactly
   * when the site is none of those three.
   */
  lemma NamedSiteHostDotted(host: string, site: Site)
    requires site == SiteOf(host) || site == SiteOfAsWritten(host)
    ensures site in {XTwitter, LinkedIn, Instagram} ==> '.' in host
  {
    if '.' !in host {
      DotlessHostIsOther(host);
    }
  }

  /**
   * A GitHub address with two or more path segments is titled `owner/repo`,
   * which splits back into those two segments; with fewer, the title is
   * "GitHub" and there is no image.
   */
  lemma GitHubFallback(address: Address)
    ensures var m, segments := FallbackFor(address, GitHub), PathSegments(address.pathname);
      && (|segments| >= 2 ==>
            m.title == Some(segments[0] + "/" + segments[1])
            && Split(m.title.value, '/') == [segments[0], segments[1]]
            && m.image == Some("https://opengraph.githubassets.com/1/" + segments[0] + "/" + segments[1]))
      && (|segments| < 2 ==> m.title == Some("GitHub") && m.image.None?)
  {
    var segments := PathSegments(address.pathname);
    if |segments| >= 2 {
      SplitAfterFirstPart(segments[0], segments[1], '/');
      SplitNoSeparator(segments[1], '/');
      assert segments[0] + "/" + segments[1] == segments[0] + ['/'] + segments[1];
    }
  }

  /** A hostname matching none of the known sites gets the generic title and description. */
  lemma UnmatchedFallback(address: Address)
    ensures FallbackFor(address, OtherSite).title == Some("Contenido de " + address.hostname)
    ensures FallbackFor(address, OtherSite).description == Some("Enlace a " + address.hostname)
    ensures FallbackFor(address, OtherSite).image.None?
  {
  }

  // ---------------------------------------------------------------------------
  // The card's effect.

  /** The card's `metadata`, `loading` and `error` state. */
  class LinkPreviewView {
    var metadata: Option<Metadata>
    var loading: bool
    var failed: bool

    constructor ()
      ensures metadata.None? && loading && !failed
    {
      metadata := None;
      loading := true;
      failed := false;
    }

    /**
     * `fetchMetadata`: `address` is `new URL(url)`, `None` when it throws;
     * `page` is the fetched page's meta values, `None` when the proxy
     * answers with an error status, when the fetch throws, or when resolving
     * a relative image address throws inside the same `try` (`resolve` itself
     * is total, so that failure is folded into `page`). An unparsable address
     * sets the error and keeps the old metadata; otherwise the metadata comes
     * from the page when there is one and from the host name when not. Either
     * way loading ends.
     */
    method FetchMetadata(url: string, address: Option<Address>, page: Option<PageMeta>,
                         resolve: (string, string) -> string)
      modifies this
      ensures !loading
      ensures failed <==> address.None?
      ensures address.None? ==> metadata == old(metadata)
      ensures address.Some? && page.Some? ==>
        metadata == Some(Extracted(page.value, url, address.value.hostname, resolve))
      ensures address.Some? && page.None? ==> metadata == Some(FallbackAsWritten(address.value))
    {
      loading := true;
      failed := false;
      if address.None? {
        failed := true;
        loading := false;
        return;
      }
      var domain := address.value.hostname;
      if page.Some? {
        var m := ExtractMetadata(page.value, url, domain, resolve);
        metadata := Some(m);
        loading := false;
        return;
      }
      var m := FallbackMetadata(address.value);
      metadata := Some(m);
      loading := false;
    }
  }
}
