/** The Hindustan Times listing scraper: one pass over the story cards of
    the latest-news page, reading each card's title and relative URL
    attributes, cleaning the title, building an absolute link, and stopping
    once 25 records are kept. A card that fails to read is skipped. */
module HindustanTimesScraper {
  import opened Wrappers
  import opened Text
  import opened Scraping

  /** One story card: its `data-vars-story-title` and `data-vars-story-url`
      attributes, and whether reading it raised. */
  datatype Card = Card(title: Option<string>, relativeUrl: Option<string>, fails: bool)

  /** A failure of the whole run, or the cards found, in page order. */
  datatype Page = Failed | Loaded(cards: seq<Card>)

  const Cap: nat := 25
  const SourceTag := "hindustantimes"
  const BaseUrl := "https://www.hindustantimes.com"

  /** The markup the site wraps its rupee sign in. */
  const RupeeSpan := "<span class='webrupee'>\U{20B9}</span>"
  const Rupee := "\U{20B9}"

  /** The title with every rupee span reduced to the sign, then stripped. */
  function CleanTitle(t: string): string {
    PyStrip(ReplaceAll(t, RupeeSpan, Rupee))
  }

  /** The card's title after cleaning, when the attribute is non-empty. */
  function TitleOf(c: Card): Option<string> {
    if Truthy(c.title) then Some(CleanTitle(c.title.value)) else c.title
  }

  /** The absolute link, when the card has a non-empty relative URL. */
  function LinkOf(c: Card): Option<string> {
    if Truthy(c.relativeUrl) then Some(BaseUrl + c.relativeUrl.value) else None
  }

  /** The acceptance rule as the scraper writes it. */
  predicate Accepts(c: Card) {
    !c.fails && Truthy(TitleOf(c)) && Truthy(LinkOf(c))
    && |TitleOf(c).value| > 5 && StartsWith(LinkOf(c).value, "http")
  }

  /** The record of an accepted card at index `i`: the cleaned title as
      title and summary, the absolute link, that iteration's stamp. */
  function Record(date: string, c: Card): Headline
    requires Accepts(c)
  {
    Headline(CleanTitle(c.title.value), LinkOf(c).value, date, CleanTitle(c.title.value), SourceTag)
  }

  /** The record made of the card at index `i`, if accepted. */
  function Next(stamp: nat -> string, i: nat, c: Card): Option<Headline> {
    if Accepts(c) then Some(Record(stamp(i), c)) else None
  }

  function Step(stamp: nat -> string): (seq<Headline>, nat, Card) -> Option<Headline> {
    (prev: seq<Headline>, i: nat, c: Card) => Next(stamp, i, c)
  }

  /** The records the scraper returns. */
  function Articles(page: Page, stamp: nat -> string): (r: seq<Headline>)
    ensures |r| <= Cap
    ensures (page.Failed? || page.cards == []) ==> r == []
  {
    match page
    case Failed => []
    case Loaded(cards) => Take(Harvest(cards, Step(stamp)), Cap)
  }

  method GetHindustanTimesArticles(page: Page, stamp: nat -> string) returns (articles: seq<Headline>)
    ensures articles == Articles(page, stamp)
  {
    articles := [];
    if page.Failed? || page.cards == [] {
      return;
    }
    var cards := page.cards;
    var i := 0;
    while i < |cards|
      invariant 0 <= i <= |cards|
      invariant articles == Harvest(cards[..i], Step(stamp))
      invariant |articles| <= Cap
    {
      if |articles| >= Cap {
        break;
      }
      HarvestStep(cards, Step(stamp), i);
      var c := cards[i];
      assert Step(stamp)(articles, i, c) == Next(stamp, i, c);
      if c.fails {
        i := i + 1;
        continue;
      }
      var r := ReadCard(c, stamp(i));
      assert r == Next(stamp, i, c);
      if r.Some? {
        articles := articles + [r.value];
      }
      i := i + 1;
    }
    CappedIsTake(cards, Step(stamp), i, Cap);
  }

  /** One card's attributes turned into a record, if it passes the checks;
      `now` is the stamp taken at that iteration. */
  method ReadCard(c: Card, now: string) returns (r: Option<Headline>)
    requires !c.fails
    ensures r == if Accepts(c) then Some(Record(now, c)) else None
  {
    var title := TitleOf(c);
    var link := LinkOf(c);
    if Truthy(title) && Truthy(link) && |title.value| > 5 && StartsWith(link.value, "http") {
      CleanTitleStripped(c.title.value);
      r := Some(Headline(PyStrip(title.value), link.value, now, PyStrip(title.value), SourceTag));
    } else {
      r := None;
    }
  }

  /** The cleaned title is already stripped. */
  lemma CleanTitleStripped(t: string)
    ensures PyStrip(CleanTitle(t)) == CleanTitle(t)
  {
    TrimIdempotent(ReplaceAll(t, RupeeSpan, Rupee), true);
  }

  /** Every link built from a relative URL begins with the site's base URL,
      hence with "http": the scheme check never rejects a card, and a card
      is accepted exactly when it reads, has a relative URL, and its cleaned
      title is longer than five characters. */
  lemma AcceptsMeaning(c: Card)
    ensures LinkOf(c).Some? ==> StartsWith(LinkOf(c).value, BaseUrl) && StartsWith(LinkOf(c).value, "http")
    ensures Accepts(c) <==> (!c.fails && Truthy(c.title) && Truthy(c.relativeUrl) && |CleanTitle(c.title.value)| > 5)
  {
    if LinkOf(c).Some? {
      var l := LinkOf(c).value;
      assert l[..|BaseUrl|] == BaseUrl;
      assert l[..4] == BaseUrl[..4] == "http";
    }
  }

  /** Every returned record is the record of an accepted card. */
  lemma ArticlesFromCards(cards: seq<Card>, stamp: nat -> string)
    ensures forall r :: r in Articles(Loaded(cards), stamp) ==>
      exists i :: 0 <= i < |cards| && Accepts(cards[i]) && r == Record(stamp(i), cards[i])
  {
    HarvestOrigin(cards, Step(stamp));
    forall r | r in Articles(Loaded(cards), stamp)
      ensures exists i :: 0 <= i < |cards| && Accepts(cards[i]) && r == Record(stamp(i), cards[i])
    {
      assert r in Harvest(cards, Step(stamp));
      var prev: seq<Headline>, i: nat :| i < |cards| && Step(stamp)(prev, i, cards[i]) == Some(r);
      assert Next(stamp, i, cards[i]) == Some(r);
    }
  }

  /** An accepted card yields its record unless 25 records are already
      returned. */
  lemma AcceptedCardListed(cards: seq<Card>, stamp: nat -> string, i: nat)
    requires i < |cards| && Accepts(cards[i])
    ensures Record(stamp(i), cards[i]) in Articles(Loaded(cards), stamp)
      || |Articles(Loaded(cards), stamp)| == Cap
  {
    var r := Record(stamp(i), cards[i]);
    assert Step(stamp)(Harvest(cards[..i], Step(stamp)), i, cards[i]) == Next(stamp, i, cards[i]) == Some(r);
    HarvestHas(cards, Step(stamp), i, r);
  }
}
