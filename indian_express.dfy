/** The Indian Express listing scraper: one pass over the headline anchors
    the browser matched, skipping anchors that fail to read, have an empty
    title, lack an http link or repeat a link already kept, and stopping
    once 25 records are kept. */
module IndianExpressScraper {
  import opened Wrappers
  import opened Text
  import opened Scraping

  /** One matched anchor: its text, its `href` attribute, and whether
      reading it raised (a stale element or any other error). */
  datatype LinkElem = LinkElem(text: string, href: Option<string>, fails: bool)

  /** What driving the browser yields: a failure of the whole run, or the
      anchors the three headline selectors matched, in page order. */
  datatype Page = Unreachable | Loaded(links: seq<LinkElem>)

  /** A run of the script: the driver install (indian_express.py:30) comes
      before the `try`, so its failure escapes the function and nothing is
      printed; past it, the browser yields `page`. */
  datatype Launch = InstallFails | Installed(page: Page)

  const Cap: nat := 25
  const SourceTag := "indianexpress"

  /** An anchor the skip rule lets through when its link is still new. */
  predicate Usable(e: LinkElem) {
    !e.fails && PyStrip(e.text) != "" && e.href.Some? && StartsWith(e.href.value, "http")
  }

  /** The record made of anchor `e` at index `i` after the records `prev`;
      `stamp(i)` is the scrape-time stamp taken at that iteration. */
  function Next(stamp: nat -> string, prev: seq<Headline>, i: nat, e: LinkElem): Option<Headline> {
    if !Usable(e) || LinkTaken(prev, e.href.value) then None
    else Some(Record(stamp, i, e))
  }

  /** The record of a usable anchor `e` at index `i`: its stripped text as
      title and summary, its `href` as link. */
  function Record(stamp: nat -> string, i: nat, e: LinkElem): Headline
    requires e.href.Some?
  {
    var title := PyStrip(e.text);
    Headline(title, e.href.value, stamp(i), title, SourceTag)
  }

  /** `Next` as the step of a pass. */
  function Step(stamp: nat -> string): (seq<Headline>, nat, LinkElem) -> Option<Headline> {
    (prev: seq<Headline>, i: nat, e: LinkElem) => Next(stamp, prev, i, e)
  }

  /** The records the scraper returns. */
  function Articles(page: Page, stamp: nat -> string): (r: seq<Headline>)
    ensures |r| <= Cap
    ensures page.Unreachable? ==> r == []
  {
    match page
    case Unreachable => []
    case Loaded(links) => Take(Harvest(links, Step(stamp)), Cap)
  }

  /** The list the script prints, or `None` when it crashes first. */
  function Output(launch: Launch, stamp: nat -> string): (r: Option<seq<Headline>>)
    ensures r.None? <==> launch.InstallFails?
    ensures r.Some? ==> |r.value| <= Cap && (launch.page.Unreachable? ==> r.value == [])
  {
    match launch
    case InstallFails => None
    case Installed(page) => Some(Articles(page, stamp))
  }

  /** `get_indian_express_articles()`; `None` is the escaping exception. */
  method GetIndianExpressArticles(launch: Launch, stamp: nat -> string) returns (result: Option<seq<Headline>>)
    ensures result == Output(launch, stamp)
  {
    if launch.InstallFails? {
      return None;
    }
    var page := launch.page;
    var data: seq<Headline> := [];
    if page.Unreachable? {
      return Some(data);
    }
    var links := page.links;
    var processed: set<string> := {};
    var i := 0;
    while i < |links|
      invariant 0 <= i <= |links|
      invariant data == Harvest(links[..i], Step(stamp))
      invariant |data| <= Cap
      invariant processed == Links(data)
    {
      if |data| >= Cap {
        break;
      }
      var e := links[i];
      if !e.fails && PyStrip(e.text) != "" && e.href.Some? && StartsWith(e.href.value, "http") && e.href.value !in processed {
        var title := PyStrip(e.text);
        var href := e.href.value;
        KeepStep(links, stamp, i, processed);
        data := data + [Headline(title, href, stamp(i), title, SourceTag)];
        processed := processed + {href};
      } else {
        SkipStep(links, stamp, i, processed);
      }
      i := i + 1;
    }
    CappedIsTake(links, Step(stamp), i, Cap);
    result := Some(data);
  }

  /** An iteration that keeps anchor `i`, with `processed` holding the links
      kept so far: its record is appended and its link joins `processed`. */
  lemma KeepStep(links: seq<LinkElem>, stamp: nat -> string, i: nat, processed: set<string>)
    requires i < |links| && Usable(links[i])
    requires processed == Links(Harvest(links[..i], Step(stamp)))
    requires links[i].href.value !in processed
    ensures Harvest(links[..i + 1], Step(stamp)) == Harvest(links[..i], Step(stamp)) + [Record(stamp, i, links[i])]
    ensures Links(Harvest(links[..i + 1], Step(stamp))) == processed + {links[i].href.value}
  {
    var data := Harvest(links[..i], Step(stamp));
    HarvestStep(links, Step(stamp), i);
    LinksMeaning(data, links[i].href.value);
    assert Step(stamp)(data, i, links[i]) == Next(stamp, data, i, links[i]);
    TakenAfterAppend(data, Record(stamp, i, links[i]));
  }

  /** An iteration that skips anchor `i`: it is unusable, or its link is
      already in `processed`. */
  lemma SkipStep(links: seq<LinkElem>, stamp: nat -> string, i: nat, processed: set<string>)
    requires i < |links|
    requires processed == Links(Harvest(links[..i], Step(stamp)))
    requires !(Usable(links[i]) && links[i].href.value !in processed)
    ensures Harvest(links[..i + 1], Step(stamp)) == Harvest(links[..i], Step(stamp))
  {
    var data := Harvest(links[..i], Step(stamp));
    HarvestStep(links, Step(stamp), i);
    if links[i].href.Some? {
      LinksMeaning(data, links[i].href.value);
    }
    assert Step(stamp)(data, i, links[i]) == Next(stamp, data, i, links[i]);
  }

  /** The links of the kept records: the `processed` set. */
  function Links(data: seq<Headline>): set<string> {
    set k | 0 <= k < |data| :: data[k].link
  }

  /** A link is in `Links(data)` exactly when some kept record has it. */
  lemma LinksMeaning(data: seq<Headline>, l: string)
    ensures l in Links(data) <==> LinkTaken(data, l)
  {
    if LinkTaken(data, l) {
      var k :| 0 <= k < |data| && data[k].link == l;
      assert data[k].link in Links(data);
    }
  }

  /** After appending `h`, the links taken are the old ones and `h`'s. */
  lemma TakenAfterAppend(data: seq<Headline>, h: Headline)
    ensures Links(data + [h]) == Links(data) + {h.link}
  {
    var d := data + [h];
    forall l | l in Links(d) ensures l in Links(data) + {h.link} {
      var k :| 0 <= k < |d| && d[k].link == l;
      if k < |data| {
        assert data[k] == d[k];
      }
    }
    forall l | l in Links(data) + {h.link} ensures l in Links(d) {
      if l == h.link {
        assert d[|data|].link == l;
      } else {
        var k :| 0 <= k < |data| && data[k].link == l;
        assert d[k].link == l;
      }
    }
  }

  /** Distinctness is kept by the pass itself; the cap only shortens it. */
  lemma {:induction false} HarvestDistinct(links: seq<LinkElem>, stamp: nat -> string)
    ensures DistinctLinks(Harvest(links, Step(stamp)))
    decreases |links|
  {
    if links != [] {
      var init := links[..|links| - 1];
      HarvestDistinct(init, stamp);
      var prev := Harvest(init, Step(stamp));
      var e := links[|links| - 1];
      assert Step(stamp)(prev, |links| - 1, e) == Next(stamp, prev, |links| - 1, e);
      if Next(stamp, prev, |links| - 1, e).Some? {
        var rs := Harvest(links, Step(stamp));
        assert rs == prev + [Next(stamp, prev, |links| - 1, e).value];
        forall i, j | 0 <= i < j < |rs| ensures rs[i].link != rs[j].link {
          if j == |prev| {
            assert rs[i] == prev[i];
          } else {
            assert rs[i] == prev[i] && rs[j] == prev[j];
          }
        }
      }
    }
  }

  /** No two returned records share a link. */
  lemma ArticlesDistinct(page: Page, stamp: nat -> string)
    ensures DistinctLinks(Articles(page, stamp))
  {
    if page.Loaded? {
      HarvestDistinct(page.links, stamp);
    }
  }

  /** Every returned record comes from a usable anchor: its title is the
      anchor's stripped text, its link the anchor's `href`, its date the
      stamp of that iteration, its summary the title and its source tag
      "indianexpress". */
  lemma ArticlesFromAnchors(links: seq<LinkElem>, stamp: nat -> string)
    ensures forall r :: r in Articles(Loaded(links), stamp) ==>
      exists i :: (0 <= i < |links| && Usable(links[i])
        && r == Headline(PyStrip(links[i].text), links[i].href.value, stamp(i), PyStrip(links[i].text), SourceTag))
  {
    HarvestOrigin(links, Step(stamp));
    forall r | r in Articles(Loaded(links), stamp)
      ensures exists i :: (0 <= i < |links| && Usable(links[i])
        && r == Headline(PyStrip(links[i].text), links[i].href.value, stamp(i), PyStrip(links[i].text), SourceTag))
    {
      assert r in Harvest(links, Step(stamp));
      var prev: seq<Headline>, i: nat :| i < |links| && Step(stamp)(prev, i, links[i]) == Some(r);
      assert Next(stamp, prev, i, links[i]) == Some(r);
    }
  }

  /** A usable anchor is dropped only as a repeat of a kept link or once the
      cap is reached: otherwise its link is among the returned records. */
  lemma UsableAnchorKept(links: seq<LinkElem>, stamp: nat -> string, i: nat)
    requires i < |links| && Usable(links[i])
    ensures LinkTaken(Articles(Loaded(links), stamp), links[i].href.value)
      || |Articles(Loaded(links), stamp)| == Cap
  {
    var all := Harvest(links, Step(stamp));
    var prev := Harvest(links[..i], Step(stamp));
    var href := links[i].href.value;
    HarvestPrefix(links, Step(stamp), i);
    if LinkTaken(prev, href) {
      var k :| 0 <= k < |prev| && prev[k].link == href;
      assert all[k].link == href;
    } else {
      var r := Headline(PyStrip(links[i].text), href, stamp(i), PyStrip(links[i].text), SourceTag);
      assert Step(stamp)(prev, i, links[i]) == Next(stamp, prev, i, links[i]);
      HarvestHas(links, Step(stamp), i, r);
      var k :| 0 <= k < |all| && all[k] == r;
      assert all[k].link == href;
    }
    if |all| <= Cap {
      assert Articles(Loaded(links), stamp) == all;
    }
  }
}
