/** What the scrapers share once the browser or HTTP layer is taken as a
    given sequence of candidates: a left-to-right pass that appends at most
    one record per candidate, deciding from the candidate, its position and
    the records kept so far, and the record shapes the listing scrapers
    print. */
module Scraping {
  import opened Wrappers

  /** The records a pass over `cs` keeps, in candidate order; `step`
      sees the records already kept, the candidate's index and the candidate. */
  function Harvest<C, R>(cs: seq<C>, step: (seq<R>, nat, C) -> Option<R>): seq<R>
    decreases |cs|
  {
    if cs == [] then []
    else
      var prev := Harvest(cs[..|cs| - 1], step);
      match step(prev, |cs| - 1, cs[|cs| - 1])
      case Some(r) => prev + [r]
      case None => prev
  }

  /** The first `n` elements of `s` (Python `s[:n]`). */
  function Take<T>(s: seq<T>, n: nat): (r: seq<T>)
    ensures |r| <= n && r <= s
    ensures |s| <= n ==> r == s
  {
    if |s| <= n then s else s[..n]
  }

  /** One more candidate: the pass over `cs[..i + 1]` is the pass over
      `cs[..i]` followed by what `step` makes of `cs[i]`. */
  lemma HarvestStep<C, R>(cs: seq<C>, step: (seq<R>, nat, C) -> Option<R>, i: nat)
    requires i < |cs|
    ensures Harvest(cs[..i + 1], step)
      == match step(Harvest(cs[..i], step), i, cs[i])
         case Some(r) => Harvest(cs[..i], step) + [r]
         case None => Harvest(cs[..i], step)
  {
    assert cs[..i + 1][..i] == cs[..i];
  }

  /** Stopping early yields a prefix of the full pass. */
  lemma {:induction false} HarvestPrefix<C, R>(cs: seq<C>, step: (seq<R>, nat, C) -> Option<R>, i: nat)
    requires i <= |cs|
    ensures Harvest(cs[..i], step) <= Harvest(cs, step)
    decreases |cs| - i
  {
    if i == |cs| {
      assert cs[..i] == cs;
    } else {
      var init := cs[..|cs| - 1];
      HarvestPrefix(init, step, i);
      assert init[..i] == cs[..i];
    }
  }

  /** A pass keeps at most one record per candidate. */
  lemma {:induction false} HarvestBound<C, R>(cs: seq<C>, step: (seq<R>, nat, C) -> Option<R>)
    ensures |Harvest(cs, step)| <= |cs|
    decreases |cs|
  {
    if cs != [] {
      HarvestBound(cs[..|cs| - 1], step);
    }
  }

  /** A loop that stops as soon as `cap` records are kept returns the first
      `cap` records of the full pass. */
  lemma CappedIsTake<C, R>(cs: seq<C>, step: (seq<R>, nat, C) -> Option<R>, i: nat, cap: nat)
    requires i <= |cs|
    requires |Harvest(cs[..i], step)| >= cap || i == |cs|
    requires |Harvest(cs[..i], step)| <= cap
    ensures Take(Harvest(cs, step), cap) == Harvest(cs[..i], step)
  {
    HarvestPrefix(cs, step, i);
    if i == |cs| {
      assert cs[..i] == cs;
    }
  }

  /** Every record a pass keeps was made by `step`, so a property `step`
      guarantees of its records holds of all of them. */
  lemma {:induction false} HarvestKeeps<C, R>(cs: seq<C>, step: (seq<R>, nat, C) -> Option<R>, p: R -> bool)
    requires forall prev: seq<R>, i: nat, c: C :: step(prev, i, c).Some? ==> p(step(prev, i, c).value)
    ensures forall r :: r in Harvest(cs, step) ==> p(r)
    decreases |cs|
  {
    if cs != [] {
      HarvestKeeps(cs[..|cs| - 1], step, p);
    }
  }

  /** Every kept record was made by `step` from one of the candidates. */
  lemma {:induction false} HarvestOrigin<C, R>(cs: seq<C>, step: (seq<R>, nat, C) -> Option<R>)
    ensures forall r :: r in Harvest(cs, step) ==>
      exists prev: seq<R>, i: nat :: i < |cs| && step(prev, i, cs[i]) == Some(r)
    decreases |cs|
  {
    if cs != [] {
      var init := cs[..|cs| - 1];
      HarvestOrigin(init, step);
      forall r | r in Harvest(cs, step)
        ensures exists prev: seq<R>, i: nat :: i < |cs| && step(prev, i, cs[i]) == Some(r)
      {
        if r in Harvest(init, step) {
          var prev: seq<R>, i: nat :| i < |init| && step(prev, i, init[i]) == Some(r);
          assert cs[i] == init[i];
        } else {
          assert step(Harvest(init, step), |cs| - 1, cs[|cs| - 1]) == Some(r);
        }
      }
    }
  }

  /** The record `step` makes of candidate `i`, seeing the records kept
      before it, is in the output. */
  lemma HarvestHas<C, R>(cs: seq<C>, step: (seq<R>, nat, C) -> Option<R>, i: nat, r: R)
    requires i < |cs|
    requires step(Harvest(cs[..i], step), i, cs[i]) == Some(r)
    ensures r in Harvest(cs, step)
  {
    HarvestStep(cs, step, i);
    HarvestPrefix(cs, step, i + 1);
    assert Harvest(cs[..i + 1], step)[|Harvest(cs[..i], step)|] == r;
  }

  /** The record of the Times of India, Indian Express and Hindustan Times
      listing scrapers: `summary` repeats the title and `date` is the
      scrape-time stamp. */
  datatype Headline = Headline(title: string, link: string, date: string, summary: string, source: string)

  /** Some kept headline already has `link`. */
  predicate LinkTaken(prev: seq<Headline>, link: string) {
    exists k :: 0 <= k < |prev| && prev[k].link == link
  }

  /** No two records share a link. */
  predicate DistinctLinks(rs: seq<Headline>) {
    forall i, j :: 0 <= i < j < |rs| ==> rs[i].link != rs[j].link
  }
}
