/** The article-content scraper: given an article URL and a source name it
    returns the article's text, or nothing. The Hindu, Times of India,
    Indian Express and DNA pages are read through CSS selectors with
    fallbacks and length thresholds; Hindustan Times pages are not fetched,
    and a title is rebuilt from the URL's slug instead. The command-line
    entry point turns the result into standard output or an error. */
module ContentScraper {
  import opened Wrappers
  import opened Text

  /** A `<p>` element: its text as `get_text(strip=True)` returns it, and as
      `get_text(separator=' ', strip=True)` returns it. */
  datatype Paragraph = Paragraph(plain: string, spaced: string)

  /** An element a selector found: its paragraphs in document order and
      its whole text as `get_text(separator='\n\n', strip=True)` returns it. */
  datatype Container = Container(paragraphs: seq<Paragraph>, text: string)

  /** The parsed page: `select(s)` is the first element matching the CSS
      selector `s`, and `generalBody` the element the Hindu branch's general
      fallback search finds. */
  datatype Soup = Soup(select: string -> Option<Container>, generalBody: Option<Container>)

  /** Starting the browser or loading the page failed, or the page parsed. */
  datatype Page = DriverFails | Loaded(soup: Soup)

  const Sep := "\n\n"

  // ---------------------------------------------------------------------
  // Paragraph extraction

  /** The non-empty strings of `ts`, in order. */
  function NonEmpty(ts: seq<string>): (r: seq<string>)
    ensures forall k :: 0 <= k < |r| ==> r[k] != ""
    ensures forall t :: t in r <==> t in ts && t != ""
  {
    if ts == [] then []
    else if ts[0] == "" then NonEmpty(ts[1..])
    else [ts[0]] + NonEmpty(ts[1..])
  }

  function Plain(ps: seq<Paragraph>): (r: seq<string>)
    ensures |r| == |ps| && forall k :: 0 <= k < |ps| ==> r[k] == ps[k].plain
  {
    seq(|ps|, k requires 0 <= k < |ps| => ps[k].plain)
  }

  function Spaced(ps: seq<Paragraph>): (r: seq<string>)
    ensures |r| == |ps| && forall k :: 0 <= k < |ps| ==> r[k] == ps[k].spaced
  {
    seq(|ps|, k requires 0 <= k < |ps| => ps[k].spaced)
  }

  /** `extract_paragraphs`: nothing without a container, otherwise its
      non-empty paragraph texts joined by blank lines. */
  function ExtractParagraphs(c: Option<Container>): (r: Option<string>)
    ensures c.None? <==> r.None?
  {
    match c
    case None => None
    case Some(box) => Some(Join(NonEmpty(Plain(box.paragraphs)), Sep))
  }

  /** Joining non-empty parts gives the empty string only for no parts. */
  lemma JoinEmptyIff(parts: seq<string>, sep: string)
    requires forall k :: 0 <= k < |parts| ==> parts[k] != ""
    ensures Join(parts, sep) == "" <==> parts == []
  {
    if |parts| > 1 {
      assert Join(parts, sep) == parts[0] + sep + Join(parts[1..], sep);
      assert |Join(parts, sep)| >= |parts[0]| > 0;
    }
  }

  /** A container yields the empty string exactly when none of its
      paragraphs has any text. */
  lemma ExtractEmptyIff(box: Container)
    ensures ExtractParagraphs(Some(box)) == Some("")
      <==> forall k :: 0 <= k < |box.paragraphs| ==> box.paragraphs[k].plain == ""
  {
    var texts := Plain(box.paragraphs);
    JoinEmptyIff(NonEmpty(texts), Sep);
    if NonEmpty(texts) == [] {
      forall k | 0 <= k < |box.paragraphs| ensures box.paragraphs[k].plain == "" {
        assert texts[k] in texts;
      }
    } else {
      var t := NonEmpty(texts)[0];
      assert t in texts;
      var k :| 0 <= k < |texts| && texts[k] == t;
      assert box.paragraphs[k].plain != "";
    }
  }

  /** Content that a selector pass accepts outright (`x and len(x) > 100`). */
  predicate Long(r: Option<string>) {
    Truthy(r) && |r.value| > 100
  }

  // ---------------------------------------------------------------------
  // The Hindu

  const HinduSelectors: seq<string> := [
    "div.articlebodycontent",
    "div.story-element",
    "div[id^=\"content-body-\"] .story-element",
    "div.content-wrapper .story-element",
    "div[itemprop=\"articleBody\"]",
    "article[itemprop=\"articleBody\"]",
    "div.article-content",
    "div#content-body",
    "div.article-text",
    "section.article-details .body"
  ]

  /** `full_content` after trying `sels` in order, each try overwriting it,
      stopping at the first long result; `full` is its value before. */
  function SelectorPass(select: string -> Option<Container>, sels: seq<string>, full: Option<string>): Option<string>
    decreases |sels|
  {
    if sels == [] then full
    else
      var r := ExtractParagraphs(select(sels[0]));
      if Long(r) then r else SelectorPass(select, sels[1..], r)
  }

  /** The first selector with a long result decides the pass. */
  lemma {:induction false} FirstLongSelectorWins(select: string -> Option<Container>, sels: seq<string>, full: Option<string>, k: nat)
    requires k < |sels| && Long(ExtractParagraphs(select(sels[k])))
    requires forall j :: 0 <= j < k ==> !Long(ExtractParagraphs(select(sels[j])))
    ensures SelectorPass(select, sels, full) == ExtractParagraphs(select(sels[k]))
    decreases k
  {
    if k > 0 {
      assert !Long(ExtractParagraphs(select(sels[0])));
      forall j | 0 <= j < k - 1 ensures !Long(ExtractParagraphs(select(sels[1..][j]))) {
        assert sels[1..][j] == sels[j + 1];
      }
      FirstLongSelectorWins(select, sels[1..], ExtractParagraphs(select(sels[0])), k - 1);
    }
  }

  /** With no long result, the last selector's result is what remains,
      even when an earlier selector found shorter content. */
  lemma {:induction false} NoLongSelectorKeepsLast(select: string -> Option<Container>, sels: seq<string>, full: Option<string>)
    requires sels != []
    requires forall j :: 0 <= j < |sels| ==> !Long(ExtractParagraphs(select(sels[j])))
    ensures SelectorPass(select, sels, full) == ExtractParagraphs(select(sels[|sels| - 1]))
    decreases |sels|
  {
    assert !Long(ExtractParagraphs(select(sels[0])));
    if |sels| > 1 {
      forall j | 0 <= j < |sels| - 1 ensures !Long(ExtractParagraphs(select(sels[1..][j]))) {
        assert sels[1..][j] == sels[j + 1];
      }
      NoLongSelectorKeepsLast(select, sels[1..], ExtractParagraphs(select(sels[0])));
    }
  }

  /** The Hindu branch: the selector pass, then, when its result is missing
      or shorter than 50 characters and the general search finds a body, that
      body's paragraphs, kept only when longer than 50 characters. */
  function HinduContent(soup: Soup): Option<string> {
    var full := SelectorPass(soup.select, HinduSelectors, None);
    if !Truthy(full) || |full.value| < 50 then
      match soup.generalBody
      case None => full
      case Some(body) =>
        var f := Join(NonEmpty(Plain(body.paragraphs)), Sep);
        if f != "" && |f| > 50 then Some(f) else None
    else full
  }

  method HinduBranch(soup: Soup) returns (full: Option<string>)
    ensures full == HinduContent(soup)
  {
    var sels := HinduSelectors;
    full := None;
    var k := 0;
    while k < |sels|
      invariant 0 <= k <= |sels|
      invariant SelectorPass(soup.select, sels[k..], full) == SelectorPass(soup.select, sels, None)
    {
      assert sels[k..][1..] == sels[k + 1..];
      full := ExtractParagraphs(soup.select(sels[k]));
      if full.Some? && full.value != "" && |full.value| > 100 {
        break;
      }
      k := k + 1;
    }
    if full.None? || full.value == "" || |full.value| < 50 {
      if soup.generalBody.Some? {
        var f := Join(NonEmpty(Plain(soup.generalBody.value.paragraphs)), Sep);
        full := if f != "" && |f| > 50 then Some(f) else None;
      }
    }
  }

  /** When the general search finds a body, the Hindu branch never keeps
      content shorter than 50 characters; only without one can a short
      selector result survive. */
  lemma HinduShortOnlyWithoutBody(soup: Soup)
    requires HinduContent(soup).Some? && |HinduContent(soup).value| < 50
    ensures soup.generalBody.None?
  {
  }

  // ---------------------------------------------------------------------
  // Fallback selectors and thresholds shared by TOI, IE and DNA

  /** The first of `sels` whose paragraphs are long, if any. */
  function FirstLong(select: string -> Option<Container>, sels: seq<string>): (r: Option<string>)
    ensures r.Some? ==> |r.value| > 100
    decreases |sels|
  {
    if sels == [] then None
    else
      var c := ExtractParagraphs(select(sels[0]));
      if Long(c) then c else FirstLong(select, sels[1..])
  }

  /** `FirstLong` finds something exactly when some selector is long, and
      then it is the first long one. */
  lemma {:induction false} FirstLongMeaning(select: string -> Option<Container>, sels: seq<string>)
    ensures FirstLong(select, sels).None? <==> forall j :: 0 <= j < |sels| ==> !Long(ExtractParagraphs(select(sels[j])))
    ensures FirstLong(select, sels).Some? ==>
      exists k :: 0 <= k < |sels| && FirstLong(select, sels) == ExtractParagraphs(select(sels[k]))
        && forall j :: 0 <= j < k ==> !Long(ExtractParagraphs(select(sels[j])))
    decreases |sels|
  {
    if sels != [] {
      FirstLongMeaning(select, sels[1..]);
      var tail := sels[1..];
      if !Long(ExtractParagraphs(select(sels[0]))) {
        if FirstLong(select, sels).Some? {
          var k :| 0 <= k < |tail| && FirstLong(select, tail) == ExtractParagraphs(select(tail[k]))
            && forall j :: 0 <= j < k ==> !Long(ExtractParagraphs(select(tail[j])));
          assert tail[k] == sels[k + 1];
          forall j | 0 <= j < k + 1 ensures !Long(ExtractParagraphs(select(sels[j]))) {
            if j > 0 {
              assert sels[j] == tail[j - 1];
            }
          }
        } else {
          forall j | 0 <= j < |sels| ensures !Long(ExtractParagraphs(select(sels[j]))) {
            if j > 0 {
              assert sels[j] == tail[j - 1];
            }
          }
        }
        if forall j :: 0 <= j < |sels| ==> !Long(ExtractParagraphs(select(sels[j]))) {
          forall j | 0 <= j < |tail| ensures !Long(ExtractParagraphs(select(tail[j]))) {
            assert tail[j] == sels[j + 1];
          }
        }
      }
    }
  }

  /** Primary content shorter than 100 characters (or missing) is replaced
      by the first long fallback, if there is one. */
  function WithFallback(full: Option<string>, select: string -> Option<Container>, sels: seq<string>): (r: Option<string>)
    ensures (Truthy(full) && |full.value| >= 100) ==> r == full
  {
    if !Truthy(full) || |full.value| < 100 then
      match FirstLong(select, sels)
      case Some(c) => Some(c)
      case None => full
    else full
  }

  /** The last check of the TOI, IE and DNA branches. */
  function Threshold(full: Option<string>): (r: Option<string>)
    ensures r.Some? ==> |r.value| >= 50 && PyStrip(r.value) != ""
    ensures (full.Some? && |full.value| >= 50 && PyStrip(full.value) != "") ==> r == full
  {
    if !Truthy(full) || PyStrip(full.value) == "" || |full.value| < 50 then None else full
  }

  /** `full_content` after the fallback loop, which assigns only on success. */
  method FallbackPass(full: Option<string>, select: string -> Option<Container>, sels: seq<string>)
    returns (r: Option<string>)
    ensures r == match FirstLong(select, sels) case Some(c) => Some(c) case None => full
  {
    r := full;
    var k := 0;
    while k < |sels|
      invariant 0 <= k <= |sels|
      invariant FirstLong(select, sels) == FirstLong(select, sels[k..])
      invariant r == full
    {
      assert sels[k..][1..] == sels[k + 1..];
      var c := ExtractParagraphs(select(sels[k]));
      if c.Some? && c.value != "" && |c.value| > 100 {
        r := c;
        return;
      }
      k := k + 1;
    }
  }

  // ---------------------------------------------------------------------
  // Times of India

  const ToiMain := "div._s30J.clearfix"
  const ToiFallbacks: seq<string> := [
    "div._3Mkg- article",
    "div.Normal",
    "div.body_content_container",
    "div.arttext",
    "div.article_content",
    "div[data-articlebody]",
    "div.article-full-content",
    "div[itemprop=\"articleBody\"]",
    "section[role=\"main\"]"
  ]

  /** A TOI paragraph is kept when it has text and, read in lower case,
      mentions neither "read full story" nor "continue reading". */
  predicate ToiKeeps(text: string) {
    text != "" && !Contains(Lower(text), "read full story") && !Contains(Lower(text), "continue reading")
  }

  /** The kept paragraph texts, in order. */
  function ToiPieces(ts: seq<string>): seq<string> {
    if ts == [] then []
    else if ToiKeeps(ts[0]) then [ts[0]] + ToiPieces(ts[1..])
    else ToiPieces(ts[1..])
  }

  /** `article_text_parts`: the container's whole text when longer than 50
      characters, then the kept paragraphs. */
  function ToiParts(main: Container): seq<string> {
    (if main.text != "" && |main.text| > 50 then [main.text] else []) + ToiPieces(Plain(main.paragraphs))
  }

  /** `list(dict.fromkeys(s))`: each distinct element once, at its first
      position. */
  function Dedup<T(==)>(s: seq<T>): seq<T>
    decreases |s|
  {
    if s == [] then []
    else
      var d := Dedup(s[..|s| - 1]);
      if s[|s| - 1] in d then d else d + [s[|s| - 1]]
  }

  /** The de-duplicated list has the same elements and no repeats. */
  lemma {:induction false} DedupMeaning<T>(s: seq<T>)
    ensures forall x :: x in Dedup(s) <==> x in s
    ensures forall i, j :: 0 <= i < j < |Dedup(s)| ==> Dedup(s)[i] != Dedup(s)[j]
    decreases |s|
  {
    if s != [] {
      var init := s[..|s| - 1];
      DedupMeaning(init);
      assert s == init + [s[|s| - 1]];
    }
  }

  /** The de-duplicated list keeps first occurrences in order: removing
      duplicates from `s + [x]` with `x` already seen changes nothing, and
      the first element of `s` heads the result. */
  lemma {:induction false} DedupKeepsFirst<T>(s: seq<T>)
    requires s != []
    ensures Dedup(s) != [] && Dedup(s)[0] == s[0]
    decreases |s|
  {
    if |s| > 1 {
      var init := s[..|s| - 1];
      DedupKeepsFirst(init);
      assert init[0] == s[0];
    }
  }

  /** The TOI primary content: the parts, de-duplicated and joined. */
  function ToiPrimary(main: Option<Container>): Option<string> {
    match main
    case None => None
    case Some(m) =>
      var parts := ToiParts(m);
      if parts == [] then None else Some(Join(Dedup(parts), Sep))
  }

  function ToiContent(soup: Soup): Option<string> {
    Threshold(WithFallback(ToiPrimary(soup.select(ToiMain)), soup.select, ToiFallbacks))
  }

  /** The TOI paragraph loop, appending kept texts. */
  method CollectToiParts(main: Container) returns (parts: seq<string>)
    ensures parts == ToiParts(main)
  {
    parts := [];
    var direct := main.text;
    if direct != "" && |direct| > 50 {
      parts := parts + [direct];
    }
    ghost var head := parts;
    assert head == (if main.text != "" && |main.text| > 50 then [main.text] else []);
    var ps := main.paragraphs;
    assert Plain(ps)[0..] == Plain(ps);
    var k := 0;
    while k < |ps|
      invariant 0 <= k <= |ps|
      invariant head + ToiPieces(Plain(ps)) == parts + ToiPieces(Plain(ps)[k..])
    {
      assert Plain(ps)[k..][1..] == Plain(ps)[k + 1..];
      var text := ps[k].plain;
      if text != "" && !Contains(Lower(text), "read full story") && !Contains(Lower(text), "continue reading") {
        parts := parts + [text];
      }
      k := k + 1;
    }
    assert Plain(ps)[k..] == [];
  }

  method ToiBranch(soup: Soup) returns (full: Option<string>)
    ensures full == ToiContent(soup)
  {
    full := None;
    var main := soup.select(ToiMain);
    if main.Some? {
      var parts := CollectToiParts(main.value);
      if parts != [] {
        full := Some(Join(Dedup(parts), Sep));
      }
    }
    if full.None? || full.value == "" || |full.value| < 100 {
      full := FallbackPass(full, soup.select, ToiFallbacks);
    }
    if full.None? || full.value == "" || PyStrip(full.value) == "" || |full.value| < 50 {
      full := None;
    }
  }

  /** A paragraph text is among the TOI pieces exactly when it is one of
      the texts and passes the keep rule. */
  lemma {:induction false} ToiPiecesIff(ts: seq<string>)
    ensures forall t :: t in ToiPieces(ts) <==> t in ts && ToiKeeps(t)
    decreases |ts|
  {
    if ts != [] {
      ToiPiecesIff(ts[1..]);
      assert ts == [ts[0]] + ts[1..];
    }
  }

  // ---------------------------------------------------------------------
  // Indian Express and DNA

  const IeMain: seq<string> := ["div.full-details", "div.ie-main-content", "div.story-text"]
  const IePhrases: seq<string> := [
    "Also Read", "Latest News", "More From", "Join our Telegram channel",
    "Click here to join our WhatsApp channel", "indian express", "express premium",
    "for all the latest", "download the indian express app", "sign up for our",
    "follow express"
  ]
  const IeFallbacks: seq<string> := ["div.article-content", "div[itemprop=\"articleBody\"]", "article", "div.story-content"]

  const DnaMain: seq<string> := ["div.article-description", "div.article-content-wrapper", "div#article-details"]
  const DnaPhrases: seq<string> := [
    "Also Read", "More From", "DNA Web Team", "Disclaimer",
    "for more such content", "follow us on", "read the full story",
    "download the app", "share on whatsapp"
  ]
  const DnaFallbacks: seq<string> := [
    "div.story_content_area", "div.article-detail-inner", "div.article-body-container",
    "div[itemprop=\"articleBody\"]", "article"
  ]

  /** `select(a) or select(b) or ...`: the first selector that finds an element. */
  function FirstFound(select: string -> Option<Container>, sels: seq<string>): (r: Option<Container>)
    ensures r.None? <==> forall k :: 0 <= k < |sels| ==> select(sels[k]).None?
    decreases |sels|
  {
    if sels == [] then None
    else if select(sels[0]).Some? then select(sels[0])
    else
      var r := FirstFound(select, sels[1..]);
      assert forall k :: 1 <= k < |sels| ==> sels[k] == sels[1..][k - 1];
      r
  }

  /** The text mentions one of the phrases, both read in lower case. */
  predicate MentionsAny(text: string, phrases: seq<string>) {
    exists k :: 0 <= k < |phrases| && Contains(Lower(text), Lower(phrases[k]))
  }

  /** The texts that are non-empty and mention none of the phrases. */
  function PhraseFiltered(ts: seq<string>, phrases: seq<string>): seq<string> {
    if ts == [] then []
    else if ts[0] != "" && !MentionsAny(ts[0], phrases) then [ts[0]] + PhraseFiltered(ts[1..], phrases)
    else PhraseFiltered(ts[1..], phrases)
  }

  /** The joined kept paragraphs of the primary container, if any are kept. */
  function FilteredPrimary(main: Option<Container>, phrases: seq<string>): Option<string> {
    match main
    case None => None
    case Some(m) =>
      var parts := PhraseFiltered(Spaced(m.paragraphs), phrases);
      if parts == [] then None else Some(Join(parts, Sep))
  }

  function IeContent(soup: Soup): Option<string> {
    Threshold(WithFallback(FilteredPrimary(FirstFound(soup.select, IeMain), IePhrases), soup.select, IeFallbacks))
  }

  function DnaContent(soup: Soup): Option<string> {
    Threshold(WithFallback(FilteredPrimary(FirstFound(soup.select, DnaMain), DnaPhrases), soup.select, DnaFallbacks))
  }

  /** The paragraph loop of the IE and DNA branches, appending kept texts. */
  method CollectFiltered(ps: seq<Paragraph>, phrases: seq<string>) returns (parts: seq<string>)
    ensures parts == PhraseFiltered(Spaced(ps), phrases)
  {
    parts := [];
    var k := 0;
    while k < |ps|
      invariant 0 <= k <= |ps|
      invariant PhraseFiltered(Spaced(ps), phrases) == parts + PhraseFiltered(Spaced(ps)[k..], phrases)
    {
      assert Spaced(ps)[k..][1..] == Spaced(ps)[k + 1..];
      var text := ps[k].spaced;
      if text != "" && !MentionsAny(text, phrases) {
        parts := parts + [text];
      }
      k := k + 1;
    }
    assert Spaced(ps)[k..] == [];
  }

  /** The IE and DNA branches differ only in their selectors and phrases. */
  method FilteredBranch(soup: Soup, mainSels: seq<string>, phrases: seq<string>, fallbacks: seq<string>)
    returns (full: Option<string>)
    ensures full == Threshold(WithFallback(FilteredPrimary(FirstFound(soup.select, mainSels), phrases), soup.select, fallbacks))
  {
    full := None;
    var main := FirstFound(soup.select, mainSels);
    if main.Some? {
      var parts := CollectFiltered(main.value.paragraphs, phrases);
      if parts != [] {
        full := Some(Join(parts, Sep));
      }
    }
    if full.None? || full.value == "" || |full.value| < 100 {
      full := FallbackPass(full, soup.select, fallbacks);
    }
    if full.None? || full.value == "" || PyStrip(full.value) == "" || |full.value| < 50 {
      full := None;
    }
  }

  /** A paragraph text is kept exactly when it is non-empty and mentions no
      excluded phrase, regardless of letter case. */
  lemma {:induction false} PhraseFilteredIff(ts: seq<string>, phrases: seq<string>)
    ensures forall t :: t in PhraseFiltered(ts, phrases) <==> t in ts && t != "" && !MentionsAny(t, phrases)
    decreases |ts|
  {
    if ts != [] {
      PhraseFilteredIff(ts[1..], phrases);
      assert ts == [ts[0]] + ts[1..];
    }
  }

  // ---------------------------------------------------------------------
  // Hindustan Times: a title from the URL's slug

  predicate SlugChar(c: char) {
    ('a' <= c <= 'z') || ('A' <= c <= 'Z') || ('0' <= c <= '9') || c == '_' || c == '-'
  }

  /** The segment matches `^[a-zA-Z0-9_-]+$`. */
  predicate SlugLike(seg: string) {
    seg != "" && forall k :: 0 <= k < |seg| ==> SlugChar(seg[k])
  }

  /** A segment the reversed walk stops at. */
  predicate SlugCandidate(seg: string) {
    seg != "" && (Contains(seg, ".html") || SlugLike(seg))
  }

  /** The last segment that is a slug candidate, if any. */
  function LastCandidate(segs: seq<string>): Option<string>
    decreases |segs|
  {
    if segs == [] then None
    else if SlugCandidate(segs[|segs| - 1]) then Some(segs[|segs| - 1])
    else LastCandidate(segs[..|segs| - 1])
  }

  /** The walk stops at the last candidate: no later segment is one. */
  lemma {:induction false} LastCandidateMeaning(segs: seq<string>)
    ensures LastCandidate(segs).None? <==> forall k :: 0 <= k < |segs| ==> !SlugCandidate(segs[k])
    ensures LastCandidate(segs).Some? ==>
      exists k :: 0 <= k < |segs| && segs[k] == LastCandidate(segs).value && SlugCandidate(segs[k])
        && forall j :: k < j < |segs| ==> !SlugCandidate(segs[j])
    decreases |segs|
  {
    if segs != [] && !SlugCandidate(segs[|segs| - 1]) {
      var init := segs[..|segs| - 1];
      LastCandidateMeaning(init);
      if LastCandidate(init).Some? {
        var k :| 0 <= k < |init| && init[k] == LastCandidate(init).value && SlugCandidate(init[k])
          && forall j :: k < j < |init| ==> !SlugCandidate(init[j]);
        assert segs[k] == init[k];
        forall j | k < j < |segs| ensures !SlugCandidate(segs[j]) {
          if j < |init| {
            assert segs[j] == init[j];
          }
        }
      } else {
        forall j | 0 <= j < |segs| ensures !SlugCandidate(segs[j]) {
          if j < |init| {
            assert segs[j] == init[j];
          }
        }
      }
      if forall k :: 0 <= k < |segs| ==> !SlugCandidate(segs[k]) {
        forall j | 0 <= j < |init| ensures !SlugCandidate(init[j]) {
          assert segs[j] == init[j];
        }
      }
    }
  }

  /** Index of the last `c` in `s`, or -1. */
  function LastIndexOf(s: string, c: char): (r: int)
    ensures -1 <= r < |s|
    ensures r == -1 <==> c !in s
    ensures r >= 0 ==> s[r] == c && forall j :: r < j < |s| ==> s[j] != c
    decreases |s|
  {
    if s == [] then -1
    else if s[|s| - 1] == c then |s| - 1
    else
      var r := LastIndexOf(s[..|s| - 1], c);
      assert r == -1 ==> s == s[..|s| - 1] + [s[|s| - 1]];
      r
  }

  /** `re.sub(r'-\d+$', '', s)`: a trailing hyphen followed by digits up to
      the end is removed; only the last hyphen can start such a match. */
  function DropNumericSuffix(s: string): string {
    var k := LastIndexOf(s, '-');
    if k >= 0 && AllDigits(s[k + 1..]) then s[..k] else s
  }

  /** Removing the suffix inverts appending one. */
  lemma DropNumericSuffixAppended(s: string, digits: string)
    requires AllDigits(digits)
    ensures DropNumericSuffix(s + "-" + digits) == s
  {
    var t := s + "-" + digits;
    assert t[|s|] == '-';
    assert t[|s| + 1..] == digits;
    assert '-' !in digits by {
      forall k | 0 <= k < |digits| ensures digits[k] != '-' {
        assert IsAsciiDigit(digits[k]);
      }
    }
    assert t[..|s|] == s;
  }

  /** The capitalised non-empty hyphen-separated words of the slug. */
  function TitleWords(slug: string): (r: seq<string>)
    ensures forall k :: 0 <= k < |r| ==> '-' !in r[k] && r[k] != ""
  {
    var words := NonEmpty(Split(slug, '-'));
    assert forall k :: 0 <= k < |words| ==> words[k] in Split(slug, '-');
    CapitalizedWords(words);
    seq(|words|, k requires 0 <= k < |words| => Capitalize(words[k]))
  }

  /** Capitalising keeps a word free of hyphens. */
  lemma CapitalizeNoHyphen(w: string)
    requires '-' !in w
    ensures '-' !in Capitalize(w)
  {
    if w != [] {
      assert w[0] != '-';
    }
  }

  /** Non-empty hyphen-free words stay so once capitalised. */
  lemma CapitalizedWords(words: seq<string>)
    requires forall k :: 0 <= k < |words| ==> '-' !in words[k] && words[k] != ""
    ensures forall k :: 0 <= k < |words| ==> '-' !in Capitalize(words[k]) && Capitalize(words[k]) != ""
  {
    forall k | 0 <= k < |words| ensures '-' !in Capitalize(words[k]) && Capitalize(words[k]) != "" {
      CapitalizeNoHyphen(words[k]);
    }
  }

  const TitlePrefix := "Article Title: "

  /** The title built from a cleaned slug: nothing for an empty slug,
      otherwise its words after the numeric suffix is dropped, unless blank. */
  function SlugTitle(slug: string): Option<string> {
    if slug == "" then None
    else
      var title := Join(TitleWords(DropNumericSuffix(slug)), " ");
      if PyStrip(title) != "" then Some(TitlePrefix + title) else None
  }

  /** The Hindustan Times branch on the URL alone. */
  function HtContent(url: string): Option<string> {
    match LastCandidate(Split(url, '/'))
    case None => None
    case Some(seg) => SlugTitle(ReplaceAll(seg, ".html", ""))
  }

  /** The reversed walk over the path segments, stopping at the first match. */
  method HtBranch(url: string) returns (full: Option<string>)
    ensures full == HtContent(url)
  {
    var segs := Split(url, '/');
    var slug := "";
    var k := |segs|;
    assert segs[..k] == segs;
    while k > 0
      invariant 0 <= k <= |segs|
      invariant LastCandidate(segs) == LastCandidate(segs[..k])
      invariant slug == ""
    {
      assert segs[..k][..k - 1] == segs[..k - 1];
      var seg := segs[k - 1];
      if seg != "" && (Contains(seg, ".html") || SlugLike(seg)) {
        assert LastCandidate(segs) == Some(seg);
        slug := ReplaceAll(seg, ".html", "");
        break;
      }
      k := k - 1;
    }
    if slug != "" {
      var cleaned := DropNumericSuffix(slug);
      var title := Join(TitleWords(cleaned), " ");
      full := if PyStrip(title) != "" then Some(TitlePrefix + title) else None;
    } else {
      full := None;
    }
    assert full == SlugTitle(slug);
  }

  /** A joined list of hyphen-free words has no hyphen. */
  lemma {:induction false} JoinNoHyphen(words: seq<string>)
    requires forall k :: 0 <= k < |words| ==> '-' !in words[k]
    ensures '-' !in Join(words, " ")
    decreases |words|
  {
    if |words| > 1 {
      JoinNoHyphen(words[1..]);
      assert Join(words, " ") == words[0] + " " + Join(words[1..], " ");
    }
  }

  /** A rebuilt title starts with "Article Title: " and has no hyphens after it. */
  lemma HtTitleShape(url: string)
    requires HtContent(url).Some?
    ensures StartsWith(HtContent(url).value, TitlePrefix)
    ensures '-' !in HtContent(url).value[|TitlePrefix|..]
  {
    var slug := ReplaceAll(LastCandidate(Split(url, '/')).value, ".html", "");
    var title := Join(TitleWords(DropNumericSuffix(slug)), " ");
    JoinNoHyphen(TitleWords(DropNumericSuffix(slug)));
    assert HtContent(url).value == TitlePrefix + title;
    assert (TitlePrefix + title)[..|TitlePrefix|] == TitlePrefix;
    assert (TitlePrefix + title)[|TitlePrefix|..] == title;
  }

  /** The segment after the last slash is the last path segment. */
  lemma LastSegment(p: string, seg: string)
    requires '/' !in seg
    ensures var segs := Split(p + ['/'] + seg, '/'); segs[|segs| - 1] == seg
  {
    SplitAppend(p, seg, '/');
    assert Split(seg, '/') == [seg];
  }

  /** A name, a hyphen and digits contain neither '/' nor '.' when the
      name does not. */
  lemma StemChars(name: string, digits: string)
    requires '/' !in name && '.' !in name && AllDigits(digits)
    ensures '/' !in name + "-" + digits && '.' !in name + "-" + digits
  {
    var stem := name + "-" + digits;
    forall k | 0 <= k < |stem| ensures stem[k] != '/' && stem[k] != '.' {
      if k < |name| {
        assert stem[k] == name[k];
      } else if k > |name| {
        assert stem[k] == digits[k - |name| - 1];
        assert IsAsciiDigit(digits[k - |name| - 1]);
      }
    }
  }

  /** The slug round trip: a URL whose last segment is a name, a hyphen,
      an article number and ".html" yields the capitalised words of the
      name after "Article Title: ", or nothing when the name has no words. */
  lemma HtTitleRoundTrip(p: string, name: string, digits: string)
    requires '/' !in name && '.' !in name && AllDigits(digits)
    ensures HtContent(p + "/" + name + "-" + digits + ".html")
      == (var title := Join(TitleWords(name), " ");
          if PyStrip(title) != "" then Some(TitlePrefix + title) else None)
  {
    var stem := name + "-" + digits;
    StemChars(name, digits);
    var url := p + "/" + name + "-" + digits + ".html";
    assert url == p + ['/'] + (stem + ".html");
    HtmlSegmentCandidate(p, stem);
    ReplaceAllAppended(stem, ".html");
    assert HtContent(url) == SlugTitle(stem);
    DropNumericSuffixAppended(name, digits);
  }

  /** A last segment `<stem>.html` is the candidate the walk stops at. */
  lemma HtmlSegmentCandidate(p: string, stem: string)
    requires '/' !in stem
    ensures LastCandidate(Split(p + ['/'] + (stem + ".html"), '/')) == Some(stem + ".html")
  {
    var seg := stem + ".html";
    assert '/' !in seg by {
      forall k | 0 <= k < |seg| ensures seg[k] != '/' {
        if k < |stem| {
          assert seg[k] == stem[k];
        }
      }
    }
    LastSegment(p, seg);
    var segs := Split(p + ['/'] + seg, '/');
    assert OccursAt(seg, ".html", |stem|);
    OccursContains(seg, ".html", |stem|);
    assert SlugCandidate(segs[|segs| - 1]);
  }

  // ---------------------------------------------------------------------
  // Dispatch, final check and the command line

  /** `scrape_article_content`: the branch for the source, then the final
      blank check; an unknown source or a browser failure gives nothing. */
  function Scrape(url: string, source: string, page: Page): (r: Option<string>)
    ensures r.Some? ==> PyStrip(r.value) != ""
    ensures (source != "hindu" && source != "hindustan-times" && source != "toi"
             && source != "ie" && source != "dna") ==> r.None?
    ensures (page.DriverFails? && source != "hindustan-times") ==> r.None?
  {
    var full :=
      if source == "hindustan-times" then HtContent(url)
      else if source == "hindu" || source == "toi" || source == "ie" || source == "dna" then
        match page
        case DriverFails => None
        case Loaded(soup) =>
          if source == "hindu" then HinduContent(soup)
          else if source == "toi" then ToiContent(soup)
          else if source == "ie" then IeContent(soup)
          else DnaContent(soup)
      else None;
    if !Truthy(full) || PyStrip(full.value) == "" then None else full
  }

  method ScrapeArticleContent(url: string, source: string, page: Page) returns (content: Option<string>)
    ensures content == Scrape(url, source, page)
  {
    var full: Option<string> := None;
    if source == "hindu" {
      if page.DriverFails? {
        return None;
      }
      full := HinduBranch(page.soup);
    } else if source == "hindustan-times" {
      full := HtBranch(url);
    } else if source == "toi" {
      if page.DriverFails? {
        return None;
      }
      full := ToiBranch(page.soup);
    } else if source == "ie" {
      if page.DriverFails? {
        return None;
      }
      full := FilteredBranch(page.soup, IeMain, IePhrases, IeFallbacks);
    } else if source == "dna" {
      if page.DriverFails? {
        return None;
      }
      full := FilteredBranch(page.soup, DnaMain, DnaPhrases, DnaFallbacks);
    }
    if full.None? || full.value == "" || PyStrip(full.value) == "" {
      return None;
    }
    content := full;
  }

  /** Every content the TOI, IE and DNA branches return is at least 50
      characters long and not blank. */
  lemma ThresholdedBranches(soup: Soup)
    ensures ToiContent(soup).Some? ==> |ToiContent(soup).value| >= 50 && PyStrip(ToiContent(soup).value) != ""
    ensures IeContent(soup).Some? ==> |IeContent(soup).value| >= 50 && PyStrip(IeContent(soup).value) != ""
    ensures DnaContent(soup).Some? ==> |DnaContent(soup).value| >= 50 && PyStrip(DnaContent(soup).value) != ""
  {
  }

  /** What the command line writes: the content on standard output, or an
      error on standard error. */
  datatype CliResult = StdoutContent(content: string) | StderrError(error: string)

  function ExitCode(r: CliResult): int {
    if r.StdoutContent? then 0 else 1
  }

  const UsageError := "Usage: python content_scraper.py <url> <source_name>"
  const EmptyError := "Failed to scrape article content or content was empty."

  /** The command line; `args` are the arguments after the script name. */
  function Cli(args: seq<string>, page: Page): (r: CliResult)
    ensures |args| < 2 ==> r == StderrError(UsageError) && ExitCode(r) == 1
    ensures |args| >= 2 ==> (r.StdoutContent? <==> Scrape(args[0], args[1], page).Some?)
    ensures r.StdoutContent? ==> Scrape(args[0], args[1], page) == Some(r.content) && ExitCode(r) == 0
  {
    if |args| < 2 then StderrError(UsageError)
    else
      var content := Scrape(args[0], args[1], page);
      if Truthy(content) then StdoutContent(content.value) else StderrError(EmptyError)
  }
}
