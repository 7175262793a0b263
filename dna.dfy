/** The DNA India listing scraper: an indexed loop over at most the first 25
    article containers, skipping any container without an anchor, that
    fails to read or whose anchor does not pass the title and link checks.
    The collected list is printed however the run ends. */
module DnaScraper {
  import opened Wrappers
  import opened Text
  import opened Scraping

  /** The anchor inside a container: its text and its `href` attribute. */
  datatype Link = Link(text: string, href: Option<string>)

  /** One article container: its anchor, if it has one, and whether
      reading it raised (a stale element or any other error). */
  datatype Container = Container(link: Option<Link>, fails: bool)

  /** What the browser yields: a failure inside the `try` before the loop
      starts (browser start or page load), or the containers found, in page
      order. */
  datatype Page = Unreachable | Loaded(containers: seq<Container>)

  /** A run of the script: the driver install (dna_scraper.py:33) comes
      before the `try`, so its failure escapes before the `finally` that
      prints is entered; past it, the browser yields `page`. */
  datatype Launch = InstallFails | Installed(page: Page)

  /** The record the scraper prints for one article. */
  datatype DnaArticle = DnaArticle(
    title: string,
    link: string,
    publishedAt: string,
    description: string,
    source: string,
    imageUrl: Option<string>,
    content: Option<string>,
    categories: seq<string>)

  const Slots: nat := 25
  const SourceTag := "dna"

  /** The acceptance rule for a container that reads without error. */
  predicate Accepts(c: Container) {
    !c.fails && c.link.Some?
    && var title := PyStrip(c.link.value.text);
       title != "" && Truthy(c.link.value.href) && |title| > 5 && StartsWith(c.link.value.href.value, "http")
  }

  /** The record of an accepted container, stamped with `now`. */
  function Record(now: string, c: Container): DnaArticle
    requires Accepts(c)
  {
    var title := PyStrip(c.link.value.text);
    DnaArticle(title, c.link.value.href.value, now, title, SourceTag, None, None, [])
  }

  function Next(stamp: nat -> string, i: nat, c: Container): Option<DnaArticle> {
    if Accepts(c) then Some(Record(stamp(i), c)) else None
  }

  function Step(stamp: nat -> string): (seq<DnaArticle>, nat, Container) -> Option<DnaArticle> {
    (prev: seq<DnaArticle>, i: nat, c: Container) => Next(stamp, i, c)
  }

  /** The list printed on standard output. */
  function Printed(page: Page, stamp: nat -> string): (r: seq<DnaArticle>)
    ensures |r| <= Slots
    ensures page.Unreachable? ==> r == []
  {
    match page
    case Unreachable => []
    case Loaded(containers) =>
      var window := Take(containers, Slots);
      HarvestBound(window, Step(stamp));
      Harvest(window, Step(stamp))
  }

  /** What the script prints, or `None` when it crashes first. */
  function Output(launch: Launch, stamp: nat -> string): (r: Option<seq<DnaArticle>>)
    ensures r.None? <==> launch.InstallFails?
    ensures r.Some? ==> |r.value| <= Slots && (launch.page.Unreachable? ==> r.value == [])
  {
    match launch
    case InstallFails => None
    case Installed(page) => Some(Printed(page, stamp))
  }

  /** One container read into a record, if it passes the checks. */
  method ReadContainer(c: Container, now: string) returns (r: Option<DnaArticle>)
    requires !c.fails
    ensures r == if Accepts(c) then Some(Record(now, c)) else None
  {
    if c.link.None? {
      return None;
    }
    var title := PyStrip(c.link.value.text);
    var href := c.link.value.href;
    if title != "" && Truthy(href) && |title| > 5 && StartsWith(href.value, "http") {
      r := Some(DnaArticle(title, href.value, now, title, SourceTag, None, None, []));
    } else {
      r := None;
    }
  }

  /** `get_dna_articles()`: the list its `finally` prints, or `None` when
      the install fails before the `try`. */
  method GetDnaArticles(launch: Launch, stamp: nat -> string) returns (printed: Option<seq<DnaArticle>>)
    ensures printed == Output(launch, stamp)
  {
    if launch.InstallFails? {
      return None;
    }
    var page := launch.page;
    var allArticles: seq<DnaArticle> := [];
    if page.Unreachable? {
      return Some(allArticles);
    }
    var containers := page.containers;
    var i := 0;
    while i < Slots
      invariant 0 <= i <= Slots && i <= |containers|
      invariant allArticles == Harvest(containers[..i], Step(stamp))
    {
      if i >= |containers| {
        break;
      }
      HarvestStep(containers, Step(stamp), i);
      var c := containers[i];
      assert Step(stamp)(allArticles, i, c) == Next(stamp, i, c);
      if !c.fails {
        var r := ReadContainer(c, stamp(i));
        if r.Some? {
          allArticles := allArticles + [r.value];
        }
      }
      i := i + 1;
    }
    assert containers[..i] == Take(containers, Slots);
    printed := Some(allArticles);
  }

  /** Every printed record is the record of an accepted container among
      the first 25: title and description are the anchor's stripped text,
      the link its `href`, the date that iteration's stamp, no image, no
      content, no categories, source "dna". */
  lemma PrintedFromContainers(containers: seq<Container>, stamp: nat -> string)
    ensures forall r :: r in Printed(Loaded(containers), stamp) ==>
      exists i :: 0 <= i < |containers| && i < Slots && Accepts(containers[i]) && r == Record(stamp(i), containers[i])
  {
    var window := Take(containers, Slots);
    HarvestOrigin(window, Step(stamp));
    forall r | r in Printed(Loaded(containers), stamp)
      ensures exists i :: 0 <= i < |containers| && i < Slots && Accepts(containers[i]) && r == Record(stamp(i), containers[i])
    {
      var prev: seq<DnaArticle>, i: nat :| i < |window| && Step(stamp)(prev, i, window[i]) == Some(r);
      assert Next(stamp, i, window[i]) == Some(r);
      assert window[i] == containers[i];
    }
  }

  /** A container that fails or is rejected costs only its own slot: every
      accepted container among the first 25 is printed, whatever the others
      did. */
  lemma AcceptedContainerPrinted(containers: seq<Container>, stamp: nat -> string, i: nat)
    requires i < |containers| && i < Slots && Accepts(containers[i])
    ensures Record(stamp(i), containers[i]) in Printed(Loaded(containers), stamp)
  {
    var window := Take(containers, Slots);
    assert window[i] == containers[i];
    var r := Record(stamp(i), containers[i]);
    assert Step(stamp)(Harvest(window[..i], Step(stamp)), i, window[i]) == Next(stamp, i, window[i]) == Some(r);
    HarvestHas(window, Step(stamp), i, r);
  }
}
