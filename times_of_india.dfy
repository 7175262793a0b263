/** The Times of India listing scraper: it reads the first 25 headline
    anchors after scrolling and keeps those with a non-empty stripped title
    and an http link. The loop has no per-item error handling, so an
    anchor that fails to read ends the whole run with an empty result. */
module TimesOfIndiaScraper {
  import opened Wrappers
  import opened Text
  import opened Scraping

  /** One matched anchor: its text, its `href` attribute, and whether
      reading it raised (a stale element). */
  datatype Anchor = Anchor(text: string, href: Option<string>, stale: bool)

  /** A timeout or WebDriver failure of the whole run, or the anchors found
      after scrolling, in page order. */
  datatype Page = Failed | Loaded(anchors: seq<Anchor>)

  /** A run of the script: the driver install (times_of_india_scraper.py:35)
      comes before the `try`, so its failure escapes the function and
      nothing is printed; past it, the browser yields `page`. */
  datatype Launch = InstallFails | Installed(page: Page)

  const Cap: nat := 25
  const SourceTag := "timesofindia"

  /** The keep rule: a non-empty stripped title and a link starting with "http". */
  predicate Keeps(a: Anchor) {
    PyStrip(a.text) != "" && a.href.Some? && a.href.value != "" && StartsWith(a.href.value, "http")
  }

  /** The record made of the anchor at index `i`, if it is kept. */
  function Next(stamp: nat -> string, i: nat, a: Anchor): Option<Headline> {
    if Keeps(a) then
      var title := PyStrip(a.text);
      Some(Headline(title, a.href.value, stamp(i), title, SourceTag))
    else None
  }

  function Step(stamp: nat -> string): (seq<Headline>, nat, Anchor) -> Option<Headline> {
    (prev: seq<Headline>, i: nat, a: Anchor) => Next(stamp, i, a)
  }

  /** Some anchor the loop reads raises. */
  predicate AnyStale(window: seq<Anchor>) {
    exists k :: 0 <= k < |window| && window[k].stale
  }

  /** The records the scraper returns: none after a failed run or an
      unreadable anchor among the first 25. */
  function Headlines(page: Page, stamp: nat -> string): (r: seq<Headline>)
    ensures |r| <= Cap
    ensures (page.Failed? || AnyStale(Take(page.anchors, Cap))) ==> r == []
  {
    match page
    case Failed => []
    case Loaded(anchors) =>
      var window := Take(anchors, Cap);
      if AnyStale(window) then []
      else
        HarvestBound(window, Step(stamp));
        Harvest(window, Step(stamp))
  }

  /** The list the script prints, or `None` when it crashes first. */
  function Output(launch: Launch, stamp: nat -> string): (r: Option<seq<Headline>>)
    ensures r.None? <==> launch.InstallFails?
    ensures r.Some? ==> |r.value| <= Cap && (launch.page.Failed? ==> r.value == [])
  {
    match launch
    case InstallFails => None
    case Installed(page) => Some(Headlines(page, stamp))
  }

  /** `get_times_of_india_articles()`; `None` is the escaping exception. */
  method GetTimesOfIndiaArticles(launch: Launch, stamp: nat -> string) returns (result: Option<seq<Headline>>)
    ensures result == Output(launch, stamp)
  {
    if launch.InstallFails? {
      return None;
    }
    var page := launch.page;
    var headlines: seq<Headline> := [];
    if page.Failed? {
      return Some(headlines);
    }
    var window := Take(page.anchors, Cap);
    var i := 0;
    while i < |window|
      invariant 0 <= i <= |window| <= Cap
      invariant !AnyStale(window[..i])
      invariant headlines == Harvest(window[..i], Step(stamp))
      invariant |headlines| <= i
    {
      HarvestStep(window, Step(stamp), i);
      var a := window[i];
      if a.stale {
        assert AnyStale(window);
        return Some([]);
      }
      StaleFreeExtends(window, i);
      assert Step(stamp)(headlines, i, a) == Next(stamp, i, a);
      var title := PyStrip(a.text);
      if title != "" && a.href.Some? && a.href.value != "" && StartsWith(a.href.value, "http") {
        headlines := headlines + [Headline(title, a.href.value, stamp(i), title, SourceTag)];
      }
      i := i + 1;
    }
    assert window[..i] == window;
    result := Some(headlines);
  }

  lemma StaleFreeExtends(window: seq<Anchor>, i: nat)
    requires i < |window| && !AnyStale(window[..i]) && !window[i].stale
    ensures !AnyStale(window[..i + 1])
  {
    var w := window[..i + 1];
    forall k | 0 <= k < |w| ensures !w[k].stale {
      if k < i {
        assert w[k] == window[..i][k];
      }
    }
  }

  /** Every returned record comes from a kept anchor among the first 25,
      with the anchor's stripped text as title and summary, its link, the
      stamp of that iteration and the tag "timesofindia". */
  lemma HeadlinesFromAnchors(anchors: seq<Anchor>, stamp: nat -> string)
    ensures forall r :: r in Headlines(Loaded(anchors), stamp) ==>
      exists i :: (0 <= i < |anchors| && i < Cap && Keeps(anchors[i])
        && r == Headline(PyStrip(anchors[i].text), anchors[i].href.value, stamp(i), PyStrip(anchors[i].text), SourceTag))
  {
    var window := Take(anchors, Cap);
    HarvestOrigin(window, Step(stamp));
    forall r | r in Headlines(Loaded(anchors), stamp)
      ensures exists i :: (0 <= i < |anchors| && i < Cap && Keeps(anchors[i])
        && r == Headline(PyStrip(anchors[i].text), anchors[i].href.value, stamp(i), PyStrip(anchors[i].text), SourceTag))
    {
      var prev: seq<Headline>, i: nat :| i < |window| && Step(stamp)(prev, i, window[i]) == Some(r);
      assert Next(stamp, i, window[i]) == Some(r);
      assert window[i] == anchors[i];
    }
  }

  /** When no anchor among the first 25 fails to read, every kept one among
      them yields its record. */
  lemma KeptAnchorListed(anchors: seq<Anchor>, stamp: nat -> string, i: nat)
    requires i < |anchors| && i < Cap && Keeps(anchors[i])
    requires !AnyStale(Take(anchors, Cap))
    ensures Headline(PyStrip(anchors[i].text), anchors[i].href.value, stamp(i), PyStrip(anchors[i].text), SourceTag)
      in Headlines(Loaded(anchors), stamp)
  {
    var window := Take(anchors, Cap);
    assert window[i] == anchors[i];
    var r := Headline(PyStrip(anchors[i].text), anchors[i].href.value, stamp(i), PyStrip(anchors[i].text), SourceTag);
    assert Step(stamp)(Harvest(window[..i], Step(stamp)), i, window[i]) == Next(stamp, i, window[i]) == Some(r);
    HarvestHas(window, Step(stamp), i, r);
  }
}
