/** The Hindu listing scraper: it fetches the national-news page, walks its
    article blocks, takes title and link from each block's heading anchor
    (prefixing relative links with the site root), normalises the picture's
    URL, takes the timestamp if present, rejects generic or paging entries,
    derives a description from the link's slug, and stops at 25 articles. */
module HinduScraper {
  import opened Wrappers
  import opened Text
  import opened Scraping

  /** The anchor inside a block's `h3.title.big`: its text as
      `get_text(strip=True)` returns it, and its `href`. */
  datatype Anchor = Anchor(text: string, href: string)

  /** The first `img` with a `src` inside a block's picture. */
  datatype Img = Img(src: string, dataSrc: Option<string>, srcset: Option<string>)

  /** One `div.element.row-element`: its heading anchor (None when the
      heading or its anchor is missing), its picture, and the `datetime` of
      its dateline `time` tag. */
  datatype Block = Block(anchor: Option<Anchor>, image: Option<Img>, datetime: Option<string>)

  /** A failed request, or the article blocks of the fetched page. */
  datatype Fetch = RequestFailed | Fetched(blocks: seq<Block>)

  datatype HinduArticle = HinduArticle(
    title: string,
    link: string,
    description: string,
    imageUrl: string,
    source: string,
    publishedAt: string)

  const BaseUrl := "https://www.thehindu.com"
  const SourceName := "The Hindu"
  const Cap: nat := 25

  lemma BaseUrlIsHttp()
    ensures StartsWith(BaseUrl, "http")
  {
    assert BaseUrl[..4] == "http";
  }

  /** The anchor's link, made absolute by the site root when it does not
      already start with "http". */
  function AbsoluteLink(href: string): (r: string)
    ensures StartsWith(r, "http")
    ensures StartsWith(href, "http") ==> r == href
    ensures !StartsWith(href, "http") ==> r == BaseUrl + href
  {
    BaseUrlIsHttp();
    if StartsWith(href, "http") then href
    else
      assert (BaseUrl + href)[..4] == BaseUrl[..4];
      BaseUrl + href
  }

  /** The text before the first space (Python `s.split(' ')[0]`). */
  function FirstWord(s: string): string {
    Split(s, ' ')[0]
  }

  /** The picture URL before it is made absolute: `src`, unless it is
      empty or an inline `data:image`, in which case the stripped `data-src`,
      and, when that is empty too, the first URL listed in `srcset`. */
  function ImageCandidate(img: Img): string {
    if img.src == "" || Contains(img.src, "data:image") then
      var d := if img.dataSrc.Some? then PyStrip(img.dataSrc.value) else "";
      if d == "" && Truthy(img.srcset) then FirstWord(PyStrip(Split(img.srcset.value, ',')[0]))
      else d
    else img.src
  }

  /** A protocol-relative URL gets "https:", a root-relative one the site
      root; anything else non-http is left alone. */
  function Absolutize(u: string): string {
    if u != "" && !StartsWith(u, "http") then
      if StartsWith(u, "//") then "https:" + u
      else if StartsWith(u, "/") then BaseUrl + u
      else u
    else u
  }

  /** The `image_url` field: empty without a picture image. */
  function ImageUrl(image: Option<Img>): string {
    match image
    case None => ""
    case Some(img) => Absolutize(ImageCandidate(img))
  }

  /** The last path segment has the form `article<digits>.ece`. */
  predicate ArticleSegment(seg: string) {
    |seg| > 11 && StartsWith(seg, "article") && EndsWith(seg, ".ece") && AllDigits(seg[7..|seg| - 4])
  }

  /** The slug the pattern `/(?P<slug>[^/]+)/article\d+\.ece$` captures: the
      whole second-to-last path segment, when it is non-empty, preceded by a
      slash, and followed by an `article<digits>.ece` segment. */
  function SlugOf(link: string): Option<string> {
    var segs := Split(link, '/');
    var n := |segs|;
    if n >= 3 && segs[n - 2] != "" && ArticleSegment(segs[n - 1]) then Some(segs[n - 2]) else None
  }

  /** The slug with hyphens read as spaces, or the title when there is none. */
  function Description(link: string, title: string): string {
    match SlugOf(link)
    case Some(slug) => PyStrip(ReplaceAll(slug, "-", " "))
    case None => title
  }

  /** The link names a listing page rather than an article. */
  predicate PagingLink(link: string) {
    var l := Lower(link);
    Contains(l, "page=") || Contains(l, "next=") || Contains(l, "previous=")
  }

  /** The validation as the scraper writes it, on the prefixed link. */
  predicate Rejected(title: string, link: string) {
    title == "" || link == "" || !StartsWith(link, "http") || AllDigits(PyStrip(title)) || PagingLink(link)
  }

  /** The article a block yields, stamped with `now` unless it has its own
      timestamp. */
  function Read(now: string, b: Block): Option<HinduArticle> {
    match b.anchor
    case None => None
    case Some(a) =>
      var link := AbsoluteLink(a.href);
      if Rejected(a.text, link) then None
      else
        var published := if b.datetime.Some? then b.datetime.value else now;
        Some(HinduArticle(a.text, link, Description(link, a.text), ImageUrl(b.image), SourceName, published))
  }

  /** The article the block at index `i` yields, with that iteration's stamp. */
  function Next(stamp: nat -> string, i: nat, b: Block): Option<HinduArticle> {
    Read(stamp(i), b)
  }

  function Step(stamp: nat -> string): (seq<HinduArticle>, nat, Block) -> Option<HinduArticle> {
    (prev: seq<HinduArticle>, i: nat, b: Block) => Next(stamp, i, b)
  }

  /** The articles the scraper prints. */
  function Articles(fetch: Fetch, stamp: nat -> string): (r: seq<HinduArticle>)
    ensures |r| <= Cap
    ensures fetch.RequestFailed? ==> r == []
  {
    match fetch
    case RequestFailed => []
    case Fetched(blocks) => Take(Harvest(blocks, Step(stamp)), Cap)
  }

  /** The picture URL, reassigned step by step as the scraper does. */
  method ExtractImage(image: Option<Img>) returns (imageUrl: string)
    ensures imageUrl == ImageUrl(image)
  {
    imageUrl := "";
    if image.None? {
      return;
    }
    var img := image.value;
    imageUrl := img.src;
    if imageUrl == "" || Contains(imageUrl, "data:image") {
      imageUrl := if img.dataSrc.Some? then PyStrip(img.dataSrc.value) else "";
      if imageUrl == "" && img.srcset.Some? && img.srcset.value != "" {
        var parts := Split(img.srcset.value, ',');
        imageUrl := FirstWord(PyStrip(parts[0]));
      }
    }
    assert imageUrl == ImageCandidate(img);
    if imageUrl != "" && !StartsWith(imageUrl, "http") {
      if StartsWith(imageUrl, "//") {
        imageUrl := "https:" + imageUrl;
      } else if StartsWith(imageUrl, "/") {
        imageUrl := BaseUrl + imageUrl;
      }
    }
  }

  /** One block read into an article, stamped with `now` by default. */
  method ReadBlock(b: Block, now: string) returns (r: Option<HinduArticle>)
    ensures r == Read(now, b)
  {
    if b.anchor.None? {
      return None;
    }
    var title := b.anchor.value.text;
    var link := b.anchor.value.href;
    if !StartsWith(link, "http") {
      link := BaseUrl + link;
    }
    assert link == AbsoluteLink(b.anchor.value.href);
    var imageUrl := ExtractImage(b.image);
    var published := now;
    if b.datetime.Some? {
      published := b.datetime.value;
    }
    if Rejected(title, link) {
      return None;
    }
    var description := Description(link, title);
    r := Some(HinduArticle(title, link, description, imageUrl, SourceName, published));
  }

  method GetHinduArticles(fetch: Fetch, stamp: nat -> string) returns (articles: seq<HinduArticle>)
    ensures articles == Articles(fetch, stamp)
  {
    articles := [];
    if fetch.RequestFailed? {
      return;
    }
    var blocks := fetch.blocks;
    var count := 0;
    var i := 0;
    while i < |blocks|
      invariant 0 <= i <= |blocks|
      invariant articles == Harvest(blocks[..i], Step(stamp))
      invariant count == |articles| <= Cap
    {
      if count >= Cap {
        break;
      }
      HarvestStep(blocks, Step(stamp), i);
      var b := blocks[i];
      assert Step(stamp)(articles, i, b) == Next(stamp, i, b);
      var r := ReadBlock(b, stamp(i));
      assert r == Next(stamp, i, b);
      if r.Some? {
        articles := articles + [r.value];
        count := count + 1;
      }
      i := i + 1;
    }
    CappedIsTake(blocks, Step(stamp), i, Cap);
  }

  /** Because relative links are prefixed first, the emptiness and scheme
      checks never reject a block: a block with an anchor is rejected
      exactly for an empty or all-digit title or a paging link. */
  lemma RejectedMeaning(a: Anchor)
    ensures Rejected(a.text, AbsoluteLink(a.href))
      <==> (a.text == "" || AllDigits(PyStrip(a.text)) || PagingLink(AbsoluteLink(a.href)))
  {
  }

  /** A hyphen in the replaced text could only come from the original,
      and every hyphen of the original is replaced. */
  lemma {:induction false} NoHyphenAfterReplace(s: string)
    ensures '-' !in ReplaceAll(s, "-", " ")
    decreases |s|
  {
    if s != [] {
      NoHyphenAfterReplace(s[1..]);
      if StartsWith(s, "-") {
        assert ReplaceAll(s, "-", " ") == " " + ReplaceAll(s[1..], "-", " ");
      } else {
        assert s[0] != '-';
        assert ReplaceAll(s, "-", " ") == [s[0]] + ReplaceAll(s[1..], "-", " ");
      }
    }
  }

  /** Splitting `p/slug/last` ends with the segments `slug` and `last`. */
  lemma SplitTail(p: string, slug: string, last: string)
    requires '/' !in slug && '/' !in last
    ensures Split(p + ['/'] + (slug + ['/'] + last), '/') == Split(p, '/') + [slug, last]
  {
    SplitAppend(p, slug + ['/'] + last, '/');
    SplitAppend(slug, last, '/');
    assert IndexOf(slug, '/') == -1 && IndexOf(last, '/') == -1;
  }

  /** The article segment for an article number. */
  function ArticleFile(digits: string): string {
    "article" + digits + ".ece"
  }

  lemma ArticleFileShape(digits: string)
    requires AllDigits(digits)
    ensures ArticleSegment(ArticleFile(digits)) && '/' !in ArticleFile(digits)
  {
    var last := ArticleFile(digits);
    forall k | 0 <= k < |last| ensures last[k] != '/' {
      if 7 <= k < 7 + |digits| {
        assert last[k] == digits[k - 7];
      }
    }
    assert last[..7] == "article";
    assert last[|last| - 4..] == ".ece";
    assert last[7..|last| - 4] == digits;
  }

  /** An article link `p/slug/article<digits>.ece` yields `slug` as its
      slug, so the description is the slug's words. */
  lemma SlugRoundTrip(p: string, slug: string, digits: string)
    requires slug != "" && '/' !in slug && AllDigits(digits)
    ensures SlugOf(p + ['/'] + slug + ['/'] + ArticleFile(digits)) == Some(slug)
    ensures Description(p + ['/'] + slug + ['/'] + ArticleFile(digits), "") == PyStrip(ReplaceAll(slug, "-", " "))
  {
    ArticleLinkSegments(p, slug, digits);
    SlugOfSegments(p + ['/'] + slug + ['/'] + ArticleFile(digits), slug);
  }

  /** A link whose last segment is an article segment and whose segment
      before it is `slug` has `slug` as its slug. */
  lemma SlugOfSegments(link: string, slug: string)
    requires slug != ""
    requires var segs := Split(link, '/');
      |segs| >= 3 && segs[|segs| - 2] == slug && ArticleSegment(segs[|segs| - 1])
    ensures SlugOf(link) == Some(slug)
    ensures Description(link, "") == PyStrip(ReplaceAll(slug, "-", " "))
  {
  }

  /** The last two segments of an article link. */
  lemma ArticleLinkSegments(p: string, slug: string, digits: string)
    requires '/' !in slug && AllDigits(digits)
    ensures var segs := Split(p + ['/'] + slug + ['/'] + ArticleFile(digits), '/');
      |segs| >= 3 && segs[|segs| - 2] == slug && ArticleSegment(segs[|segs| - 1])
  {
    var last := ArticleFile(digits);
    ArticleFileShape(digits);
    var link := p + ['/'] + slug + ['/'] + last;
    assert link == p + ['/'] + (slug + ['/'] + last);
    SplitTail(p, slug, last);
    var head := Split(p, '/');
    var segs := head + [slug, last];
    assert Split(link, '/') == segs;
    assert |segs| == |head| + 2 && segs[|segs| - 2] == slug && segs[|segs| - 1] == last;
  }

  /** A description taken from a slug has no hyphens and no surrounding
      whitespace. */
  lemma SlugDescriptionShape(link: string, title: string)
    requires SlugOf(link).Some?
    ensures '-' !in Description(link, title)
    ensures PyStrip(Description(link, title)) == Description(link, title)
  {
    var replaced := ReplaceAll(SlugOf(link).value, "-", " ");
    NoHyphenAfterReplace(SlugOf(link).value);
    var d := PyStrip(replaced);
    var t := TrimStart(replaced, true);
    assert t == replaced[|replaced| - |t|..];
    assert d == TrimEnd(t, true) == t[..|d|];
    forall k | 0 <= k < |d| ensures d[k] != '-' {
      assert d[k] == t[k] == replaced[|replaced| - |t| + k];
    }
    TrimIdempotent(replaced, true);
  }

  /** Root-relative and protocol-relative picture URLs become absolute
      http URLs; http URLs are kept as they are. */
  lemma AbsolutizeMeaning(u: string)
    ensures StartsWith(u, "http") ==> Absolutize(u) == u
    ensures StartsWith(u, "/") ==> StartsWith(Absolutize(u), "http")
  {
    if StartsWith(u, "/") {
      assert !StartsWith(u, "http") by { assert u[0] != 'h'; }
      BaseUrlIsHttp();
      if StartsWith(u, "//") {
        assert ("https:" + u)[..4] == "http";
      } else {
        assert (BaseUrl + u)[..4] == BaseUrl[..4];
      }
    }
  }

  /** Every printed article is the article of a block: its title is the
      anchor's text, its link the anchor's absolute link, its source
      "The Hindu", and it was not rejected. */
  lemma ArticlesFromBlocks(blocks: seq<Block>, stamp: nat -> string)
    ensures forall r :: r in Articles(Fetched(blocks), stamp) ==>
      exists i :: (0 <= i < |blocks| && Next(stamp, i, blocks[i]) == Some(r)
        && blocks[i].anchor.Some? && r.title == blocks[i].anchor.value.text
        && r.link == AbsoluteLink(blocks[i].anchor.value.href)
        && !Rejected(r.title, r.link) && r.source == SourceName)
  {
    HarvestOrigin(blocks, Step(stamp));
    forall r | r in Articles(Fetched(blocks), stamp)
      ensures exists i :: (0 <= i < |blocks| && Next(stamp, i, blocks[i]) == Some(r)
        && blocks[i].anchor.Some? && r.title == blocks[i].anchor.value.text
        && r.link == AbsoluteLink(blocks[i].anchor.value.href)
        && !Rejected(r.title, r.link) && r.source == SourceName)
    {
      assert r in Harvest(blocks, Step(stamp));
      var prev: seq<HinduArticle>, i: nat :| i < |blocks| && Step(stamp)(prev, i, blocks[i]) == Some(r);
      assert Next(stamp, i, blocks[i]) == Some(r);
    }
  }

  /** A block that passes validation is printed unless 25 articles are
      already printed. */
  lemma AcceptedBlockListed(blocks: seq<Block>, stamp: nat -> string, i: nat)
    requires i < |blocks| && Next(stamp, i, blocks[i]).Some?
    ensures Next(stamp, i, blocks[i]).value in Articles(Fetched(blocks), stamp)
      || |Articles(Fetched(blocks), stamp)| == Cap
  {
    var r := Next(stamp, i, blocks[i]).value;
    assert Step(stamp)(Harvest(blocks[..i], Step(stamp)), i, blocks[i]) == Some(r);
    HarvestHas(blocks, Step(stamp), i, r);
  }
}
