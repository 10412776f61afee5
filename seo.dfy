/**
 * Page metadata and breadcrumb structured data (src/lib/seo.ts). The site URL
 * comes from the `NEXT_PUBLIC_SITE_URL` environment variable, which is a
 * parameter here.
 */
module Seo {
  import opened Wrappers
  import opened Strings

  const DefaultSiteUrl: string := "https://aimusicplatform.com"
  const OgImageWidth: nat := 1200
  const OgImageHeight: nat := 630

  /** `process.env.NEXT_PUBLIC_SITE_URL || default`: an unset or empty variable gives the default. */
  function SiteUrl(env: Option<string>): (r: string)
    ensures env.Some? && env.value != "" ==> r == env.value
    ensures env.None? || env.value == "" ==> r == DefaultSiteUrl
    ensures r != ""
  {
    if env.Some? && env.value != "" then env.value else DefaultSiteUrl
  }

  datatype OgImage = OgImage(url: string, width: nat, height: nat, alt: string)

  datatype OpenGraph = OpenGraph(title: string, description: string, url: string, images: seq<OgImage>)

  datatype Twitter = Twitter(title: string, description: string, images: seq<string>)

  datatype Robots = Robots(index: bool, follow: bool)

  /** The object `generatePageMetadata` returns; `robots` is `undefined` when absent. */
  datatype PageMetadata = PageMetadata(
    title: string,
    description: string,
    canonical: string,
    openGraph: OpenGraph,
    twitter: Twitter,
    robots: Option<Robots>)

  /** `image || `${siteUrl}/og-image.png``: a missing or empty image gives the site's default card. */
  function OgImageUrl(siteUrl: string, image: Option<string>): (r: string)
    ensures image.Some? && image.value != "" ==> r == image.value
    ensures image.None? || image.value == "" ==> r == siteUrl + "/og-image.png"
  {
    if image.Some? && image.value != "" then image.value else siteUrl + "/og-image.png"
  }

  /** `generatePageMetadata`, with `path` defaulting to "" and `noIndex` to false. */
  function GeneratePageMetadata(siteUrl: string, title: string, description: string,
                                path: Option<string>, image: Option<string>, noIndex: Option<bool>): (m: PageMetadata)
    ensures m.title == m.openGraph.title == m.twitter.title == title
    ensures m.description == m.openGraph.description == m.twitter.description == description
    ensures m.canonical == m.openGraph.url == siteUrl + path.GetOr("")
    ensures m.openGraph.images == [OgImage(OgImageUrl(siteUrl, image), OgImageWidth, OgImageHeight, title)]
    ensures m.twitter.images == [m.openGraph.images[0].url]
    ensures m.robots.Some? <==> noIndex == Some(true)
    ensures m.robots.Some? ==> m.robots.value == Robots(false, false)
  {
    var url := siteUrl + path.GetOr("");
    var ogImage := OgImageUrl(siteUrl, image);
    PageMetadata(
      title,
      description,
      url,
      OpenGraph(title, description, url, [OgImage(ogImage, OgImageWidth, OgImageHeight, title)]),
      Twitter(title, description, [ogImage]),
      if noIndex.GetOr(false) then Some(Robots(false, false)) else None)
  }

  /** The canonical URL is the site URL followed by the page's path, which it gives back. */
  lemma CanonicalRecoversPath(siteUrl: string, title: string, description: string,
                              path: string, image: Option<string>, noIndex: Option<bool>)
    ensures var c := GeneratePageMetadata(siteUrl, title, description, Some(path), image, noIndex).canonical;
            StartsWith(c, siteUrl) && c[|siteUrl|..] == path
  {
    var c := siteUrl + path;
    assert c[..|siteUrl|] == siteUrl;
    assert c[|siteUrl|..] == path;
  }

  /** Passing the empty string as `image` behaves like passing none. */
  lemma EmptyImageIsDefault(siteUrl: string, title: string, description: string,
                            path: Option<string>, noIndex: Option<bool>)
    ensures GeneratePageMetadata(siteUrl, title, description, path, Some(""), noIndex)
         == GeneratePageMetadata(siteUrl, title, description, path, None, noIndex)
  {
  }

  datatype ListItem = ListItem(schemaType: string, position: nat, name: string, item: string)

  datatype BreadcrumbList = BreadcrumbList(context: string, schemaType: string, itemListElement: seq<ListItem>)

  datatype Crumb = Crumb(name: string, url: string)

  /** `generateBreadcrumbSchema`: item `k` is at position `k + 1` and links to the site URL plus its path. */
  function GenerateBreadcrumbSchema(siteUrl: string, items: seq<Crumb>): (r: BreadcrumbList)
    ensures r.context == "https://schema.org" && r.schemaType == "BreadcrumbList"
    ensures |r.itemListElement| == |items|
    ensures forall k :: 0 <= k < |items| ==>
              r.itemListElement[k] == ListItem("ListItem", k + 1, items[k].name, siteUrl + items[k].url)
  {
    BreadcrumbList("https://schema.org", "BreadcrumbList",
                   seq(|items|, k requires 0 <= k < |items| => ListItem("ListItem", k + 1, items[k].name, siteUrl + items[k].url)))
  }

  /** Positions run 1, 2, ... without gaps, and each item gives back its crumb. */
  lemma BreadcrumbPositions(siteUrl: string, items: seq<Crumb>)
    ensures var l := GenerateBreadcrumbSchema(siteUrl, items).itemListElement;
            && (forall j, k :: 0 <= j < k < |l| ==> l[j].position < l[k].position)
            && (forall k :: 0 <= k < |l| ==> 1 <= l[k].position <= |l|)
            && (forall k :: 0 <= k < |l| ==> Crumb(l[k].name, l[k].item[|siteUrl|..]) == items[k])
  {
    var l := GenerateBreadcrumbSchema(siteUrl, items).itemListElement;
    forall k | 0 <= k < |l|
      ensures Crumb(l[k].name, l[k].item[|siteUrl|..]) == items[k]
    {
      assert (siteUrl + items[k].url)[|siteUrl|..] == items[k].url;
    }
  }
}
