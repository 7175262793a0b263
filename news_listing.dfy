/** The read-only news routes of routes/news.js: the display-name helper,
    the per-source aggregation pipeline, the merged and paginated `/all`
    and `/current-affairs` listings, `/search` and `/:sourceKey`. */
module NewsListing {
  import opened Wrappers
  import opened Text
  import opened Sorting
  import opened Store
  import opened Sources

  // ---- display names ----

  /** `word.charAt(0).toUpperCase() + word.slice(1)`: only the first
      character changes. */
  function UpperFirst(w: string): (r: string)
    ensures |r| == |w|
  {
    if w == [] then [] else [UpperChar(w[0])] + w[1..]
  }

  function UpperFirstEach(ws: seq<string>): (r: seq<string>)
    ensures |r| == |ws|
    ensures forall k :: 0 <= k < |ws| ==> r[k] == UpperFirst(ws[k])
    decreases |ws|
  {
    if ws == [] then [] else [UpperFirst(ws[0])] + UpperFirstEach(ws[1..])
  }

  /** `formatSourceForDisplay(configKey)`: the configured display name of
      one of the five keys; any other key has every `-` turned into a space
      and each word's first character upper-cased. */
  function FormatSourceForDisplay(key: string): string {
    match LookupSource(key)
    case Some(e) => e.sourceName
    case None => Fallback(key)
  }

  /** The fallback read character by character: a dash becomes a space and
      a character that starts a word is upper-cased. */
  function DisplayChar(key: string, i: int): char
    requires 0 <= i < |key|
  {
    if key[i] == '-' then ' '
    else if i == 0 || key[i - 1] == '-' then UpperChar(key[i])
    else key[i]
  }

  /** A configured key shows its source name; any other key comes out
      character for character as `DisplayChar` says. */
  lemma FormatSourceForDisplayMeaning(key: string)
    ensures LookupSource(key).Some? ==> FormatSourceForDisplay(key) == LookupSource(key).value.sourceName
    ensures LookupSource(key).None? ==>
      && |FormatSourceForDisplay(key)| == |key|
      && forall i :: 0 <= i < |key| ==> FormatSourceForDisplay(key)[i] == DisplayChar(key, i)
  {
    if LookupSource(key).None? {
      DashesToSpaces(key);
    }
  }

  /** `r` is the display of `s` read character by character. */
  predicate Charwise(s: string, r: string) {
    |r| == |s| && forall i :: 0 <= i < |s| ==> r[i] == DisplayChar(s, i)
  }

  function Fallback(s: string): string {
    Join(UpperFirstEach(Split(s, '-')), " ")
  }

  lemma {:induction false} DashesToSpaces(s: string)
    ensures Charwise(s, Fallback(s))
    decreases |s|
  {
    var i := IndexOf(s, '-');
    if i == -1 {
      NoDash(s);
    } else {
      DashesToSpaces(s[i + 1..]);
      FirstDash(s, i);
    }
  }

  lemma NoDash(s: string)
    requires IndexOf(s, '-') == -1
    ensures Charwise(s, Fallback(s))
  {
    assert Split(s, '-') == [s];
    assert UpperFirstEach([s]) == [UpperFirst(s)];
    WordChars(s, s, 0);
  }

  lemma FirstDash(s: string, i: int)
    requires i == IndexOf(s, '-') && i != -1
    requires Charwise(s[i + 1..], Fallback(s[i + 1..]))
    ensures Charwise(s, Fallback(s))
  {
    var t := s[i + 1..];
    var rest := Split(t, '-');
    var w := s[..i];
    assert Split(s, '-') == [w] + rest;
    var ups := UpperFirstEach([w] + rest);
    assert ups[0] == UpperFirst(w) && ups[1..] == UpperFirstEach(rest);
    var tr := Fallback(t);
    assert Fallback(s) == UpperFirst(w) + " " + tr;
    WordChars(s, w, 0);
    TailChars(s, i, tr);
    var r := UpperFirst(w) + " " + tr;
    forall k | 0 <= k < |s| ensures r[k] == DisplayChar(s, k) {
      if k < i {
        assert r[k] == UpperFirst(w)[k];
      } else if k > i {
        assert r[k] == tr[k - i - 1];
      }
    }
  }

  /** A dash-free word at the start of `s`, or right after a dash, is
      shown with only its first character upper-cased. */
  lemma WordChars(s: string, w: string, at: nat)
    requires at + |w| <= |s| && s[at..at + |w|] == w && '-' !in w
    requires at == 0 || s[at - 1] == '-'
    ensures forall k :: 0 <= k < |w| ==> UpperFirst(w)[k] == DisplayChar(s, at + k)
  {
    forall k | 0 <= k < |w| ensures UpperFirst(w)[k] == DisplayChar(s, at + k) {
      assert s[at + k] == w[k];
      if k > 0 {
        assert s[at + k - 1] == w[k - 1];
      }
    }
  }

  /** After the first dash, the display of `s` is the display of the rest. */
  lemma TailChars(s: string, i: nat, tr: string)
    requires i < |s| && s[i] == '-'
    requires |tr| == |s| - i - 1
    requires forall j :: 0 <= j < |s| - i - 1 ==> tr[j] == DisplayChar(s[i + 1..], j)
    ensures forall k :: i < k < |s| ==> tr[k - i - 1] == DisplayChar(s, k)
  {
    var t := s[i + 1..];
    forall k | i < k < |s| ensures tr[k - i - 1] == DisplayChar(s, k) {
      assert t[k - i - 1] == s[k];
      if k > i + 1 {
        assert t[k - i - 2] == s[k - 1];
      }
    }
  }

  // ---- the aggregation pipeline ----

  /** An article as the pipeline emits it: the document plus `hasQuestions`. */
  datatype Listed = Listed(article: Article, hasQuestions: bool)

  /** The `$lookup` of Question documents by `articleId`, then `$size > 0`. */
  predicate HasQuestions(qs: seq<Question>, id: ArticleId) {
    exists q :: q in qs && q.articleId == id
  }

  /** Newer `pubDate` first; a document without one sorts after every dated one. */
  function DateKey(a: Article): Key {
    Key(if a.pubDate.Some? then 1 else 0, a.pubDate.GetOr(0))
  }

  /** Articles with questions first, then `DateKey`. */
  function ListingKey(r: Listed): Key {
    Key((if r.hasQuestions then 2 else 0) + DateKey(r.article).major, DateKey(r.article).minor)
  }

  function Annotate(coll: seq<Article>, qs: seq<Question>): (r: seq<Listed>)
    ensures |r| == |coll|
    ensures forall k :: 0 <= k < |coll| ==> r[k] == Listed(coll[k], HasQuestions(qs, coll[k].id))
    decreases |coll|
  {
    if coll == [] then [] else [Listed(coll[0], HasQuestions(qs, coll[0].id))] + Annotate(coll[1..], qs)
  }

  /** The `$match: { isCurrentAffair: true }` stage. */
  function CurrentAffairsOnly(coll: seq<Article>): (r: seq<Article>)
    ensures forall a :: a in r <==> a in coll && a.isCurrentAffair
    decreases |coll|
  {
    if coll == [] then []
    else (if coll[0].isCurrentAffair then [coll[0]] else []) + CurrentAffairsOnly(coll[1..])
  }

  /** `s[lo..lo + n]` clipped to the sequence: `$skip` then `$limit`. */
  function Window<T>(s: seq<T>, lo: int, n: int): (r: seq<T>)
    ensures n >= 0 ==> |r| <= n
  {
    var a := if lo <= 0 then 0 else if lo < |s| then lo else |s|;
    var b := if lo + n <= a then a else if lo + n < |s| then lo + n else |s|;
    s[a..b]
  }

  /** The largest 64-bit signed integer, the upper end of the range MongoDB
      accepts for `$skip` and `$limit`. */
  const Int64Max := 0x7FFF_FFFF_FFFF_FFFF

  /** `collection.aggregate(getNewsAggregationPipeline(page, limit, isCurrentAffair))`.
      MongoDB rejects a `$skip` that is negative, a `$limit` that is not
      positive, and either one beyond the 64-bit range; `None` is that error. */
  function Pipeline(coll: seq<Article>, qs: seq<Question>, page: int, limit: int, isCurrentAffair: bool): (r: Option<seq<Listed>>)
    ensures r.Some? <==> 0 <= (page - 1) * limit <= Int64Max && 0 < limit <= Int64Max
  {
    var skip := (page - 1) * limit;
    if skip < 0 || limit <= 0 || skip > Int64Max || limit > Int64Max then None
    else
      var matched := if isCurrentAffair then CurrentAffairsOnly(coll) else coll;
      Some(Window(SortDesc(Annotate(matched, qs), ListingKey), skip, limit))
  }

  /** The `page` and `limit` whose `$skip` and `$limit` MongoDB accepts. */
  predicate Accepted(page: int, limit: int) {
    page >= 1 && 0 < limit <= Int64Max && (page - 1) * limit <= Int64Max
  }

  // ---- query parameters and pagination arithmetic ----

  /** `parseInt(req.query.x) || dflt`, with no radix (so `0x…` is read as
      hexadecimal): `NaN` and `0` give the default. */
  function QueryInt(q: Option<string>, dflt: int): int {
    match q
    case None => dflt
    case Some(t) =>
      match JsParseIntAuto(t)
      case None => dflt
      case Some(v) => if v != 0 then v else dflt
  }

  /** `Array.prototype.slice` index normalisation: a negative index counts
      from the end, and both ends are clipped to the length. */
  function SliceIndex(i: int, n: nat): (r: nat)
    ensures r <= n
  {
    if i < 0 then (if n + i < 0 then 0 else n + i) else if i > n then n else i
  }

  /** `s.slice(start, end)`. */
  function JsSlice<T>(s: seq<T>, start: int, end: int): seq<T> {
    var a := SliceIndex(start, |s|);
    var b := SliceIndex(end, |s|);
    if a < b then s[a..b] else []
  }

  /** `Math.ceil(n / d)`. */
  function CeilDiv(n: nat, d: int): (r: int)
    requires d != 0
    ensures d > 0 ==> r * d >= n && (r - 1) * d < n
    ensures d < 0 ==> r * d <= n && (r - 1) * d > n
  {
    if d > 0 then (n + d - 1) / d else -(n / (-d))
  }

  /** A listing response: one page, or a failure status and message. */
  datatype Listing<T> = Page(news: seq<T>, currentPage: int, totalPages: int, totalResults: nat)
                      | Failed(status: nat, message: string)

  /** The global pagination of the merged rows: `slice((page - 1) * limit,
      (page - 1) * limit + limit)` in the listings and `slice((page - 1) *
      limit, page * limit)` in the search, the same two indices. */
  function Paginate<T>(sorted: seq<T>, page: int, limit: int): Listing<T>
    requires limit != 0
  {
    Page(JsSlice(sorted, (page - 1) * limit, page * limit), page, CeilDiv(|sorted|, limit), |sorted|)
  }

  /** How a query against one model's collection ends. */
  datatype QueryFault = NoFault | BufferingTimeout | OtherFault

  // ---- /all and /current-affairs ----

  /** The `for...in` loop over the sources: each source's first `2 * limit`
      rows, in source order; `None` when an `aggregate` rejects. */
  function MergedRows(db: Db, entries: seq<SourceEntry>, limit: int, isCurrentAffair: bool, fault: string -> QueryFault): Option<seq<Listed>>
    decreases |entries|
  {
    if entries == [] then Some([])
    else if fault(entries[0].modelName) != NoFault then None
    else match Pipeline(Collection(db, entries[0].modelName), db.questions, 1, limit * 2, isCurrentAffair)
      case None => None
      case Some(rows) => Prefixed(rows, MergedRows(db, entries[1..], limit, isCurrentAffair, fault))
  }

  function ListingFailure(isCurrentAffair: bool): string {
    if isCurrentAffair then "Failed to fetch current affairs news." else "Error fetching all news"
  }

  /** `GET /all` (`isCurrentAffair == false`) and `GET /current-affairs`:
      the listing over the five configured sources. */
  function ListNews(db: Db, page: int, limit: int, isCurrentAffair: bool, fault: string -> QueryFault): Listing<Listed>
    requires limit != 0
  {
    ListFrom(db, SourceConfig, page, limit, isCurrentAffair, fault)
  }

  /** The listing over a given list of sources: merge, sort once, slice. */
  function ListFrom(db: Db, entries: seq<SourceEntry>, page: int, limit: int, isCurrentAffair: bool, fault: string -> QueryFault): Listing<Listed>
    requires limit != 0
  {
    match MergedRows(db, entries, limit, isCurrentAffair, fault)
    case None => Failed(500, ListingFailure(isCurrentAffair))
    case Some(all) =>
      Paginate(SortDesc(all, ListingKey), page, limit)
  }

  /** `prefix` in front of a result that may have failed. */
  function Prefixed<T>(prefix: seq<T>, r: Option<seq<T>>): Option<seq<T>> {
    match r
    case None => None
    case Some(rest) => Some(prefix + rest)
  }

  lemma PrefixedNil<T>(r: Option<seq<T>>)
    ensures Prefixed([], r) == r
  {
    if r.Some? {
      assert [] + r.value == r.value;
    }
  }

  lemma PrefixedTwice<T>(a: seq<T>, b: seq<T>, r: Option<seq<T>>)
    ensures Prefixed(a, Prefixed(b, r)) == Prefixed(a + b, r)
  {
    if r.Some? {
      assert a + (b + r.value) == (a + b) + r.value;
    }
  }

  /** The handler's `for...in` loop: pushes each source's rows in turn. */
  method CollectRows(db: Database, entries: seq<SourceEntry>, limit: int, isCurrentAffair: bool, fault: string -> QueryFault)
    returns (rows: Option<seq<Listed>>)
    ensures rows == MergedRows(db.State(), entries, limit, isCurrentAffair, fault)
  {
    var state := db.State();
    var all: seq<Listed> := [];
    var i := 0;
    assert entries[0..] == entries;
    PrefixedNil(MergedRows(state, entries, limit, isCurrentAffair, fault));
    while i < |entries|
      invariant 0 <= i <= |entries|
      invariant MergedRows(state, entries, limit, isCurrentAffair, fault)
        == Prefixed(all, MergedRows(state, entries[i..], limit, isCurrentAffair, fault))
    {
      assert entries[i..][1..] == entries[i + 1..];
      var e := entries[i];
      assert entries[i..][0] == e;
      if fault(e.modelName) != NoFault {
        return None;
      }
      var page := Pipeline(Collection(state, e.modelName), state.questions, 1, limit * 2, isCurrentAffair);
      if page.None? {
        return None;
      }
      PrefixedTwice(all, page.value, MergedRows(state, entries[i + 1..], limit, isCurrentAffair, fault));
      all := all + page.value;
      i := i + 1;
    }
    assert entries[|entries|..] == [] && all + [] == all;
    rows := Some(all);
  }

  /** The handler: collects the sources' rows, sorts once, slices a page. */
  method GetNewsListing(db: Database, pageQ: Option<string>, limitQ: Option<string>, isCurrentAffair: bool, fault: string -> QueryFault)
    returns (r: Listing<Listed>)
    ensures r == ListNews(db.State(), QueryInt(pageQ, 1), QueryInt(limitQ, 50), isCurrentAffair, fault)
  {
    var page := QueryInt(pageQ, 1);
    var limit := QueryInt(limitQ, 50);
    var all := CollectRows(db, SourceConfig, limit, isCurrentAffair, fault);
    if all.None? {
      return Failed(500, ListingFailure(isCurrentAffair));
    }
    var sorted := SortDesc(all.value, ListingKey);
    r := Paginate(sorted, page, limit);
  }

  // ---- /search ----

  /** What `new RegExp(query, "i")` and a `$regex` match decide, left abstract. */
  datatype SearchEnv = SearchEnv(validPattern: string -> bool, matches: (string, string) -> bool, fault: string -> QueryFault)

  /** `{ $or: [{ title: regex }, { description: regex }] }`. */
  predicate SearchHit(env: SearchEnv, query: string, a: Article) {
    (a.title.Str? && env.matches(query, a.title.s))
    || (a.description.Some? && env.matches(query, a.description.value))
  }

  function Hits(env: SearchEnv, query: string, coll: seq<Article>): (r: seq<Article>)
    ensures forall a :: a in r <==> a in coll && SearchHit(env, query, a)
    ensures multiset(r) <= multiset(coll)
    decreases |coll|
  {
    if coll == [] then []
    else
      assert coll == [coll[0]] + coll[1..];
      (if SearchHit(env, query, coll[0]) then [coll[0]] else []) + Hits(env, query, coll[1..])
  }

  /** Each source's hits, newest first, concatenated in source order. */
  function SearchRows(db: Db, entries: seq<SourceEntry>, env: SearchEnv, query: string): Option<seq<Article>>
    decreases |entries|
  {
    if entries == [] then Some([])
    else if env.fault(entries[0].modelName) != NoFault then None
    else Prefixed(SortDesc(Hits(env, query, Collection(db, entries[0].modelName)), DateKey), SearchRows(db, entries[1..], env, query))
  }

  /** `GET /search?q=...` over the five configured sources. */
  function Search(db: Db, q: Option<string>, page: int, limit: int, env: SearchEnv): Listing<Article>
    requires limit != 0
  {
    SearchFrom(db, SourceConfig, q, page, limit, env)
  }

  /** The search over a given list of sources. */
  function SearchFrom(db: Db, entries: seq<SourceEntry>, q: Option<string>, page: int, limit: int, env: SearchEnv): Listing<Article>
    requires limit != 0
  {
    if !Truthy(q) || JsTrim(q.value) == "" then Page([], page, 0, 0)
    else if !env.validPattern(q.value) then Failed(500, "Failed to perform search.")
    else match SearchRows(db, entries, env, q.value)
      case None => Failed(500, "Failed to perform search.")
      case Some(all) =>
        Paginate(SortDesc(all, DateKey), page, limit)
  }

  /** The search handler's loop: pushes each source's sorted hits in turn. */
  method CollectHits(db: Database, entries: seq<SourceEntry>, env: SearchEnv, query: string)
    returns (rows: Option<seq<Article>>)
    ensures rows == SearchRows(db.State(), entries, env, query)
  {
    var state := db.State();
    var results: seq<Article> := [];
    var i := 0;
    assert entries[0..] == entries;
    PrefixedNil(SearchRows(state, entries, env, query));
    while i < |entries|
      invariant 0 <= i <= |entries|
      invariant SearchRows(state, entries, env, query) == Prefixed(results, SearchRows(state, entries[i..], env, query))
    {
      assert entries[i..][1..] == entries[i + 1..];
      var e := entries[i];
      assert entries[i..][0] == e;
      if env.fault(e.modelName) != NoFault {
        return None;
      }
      var hits := SortDesc(Hits(env, query, Collection(state, e.modelName)), DateKey);
      PrefixedTwice(results, hits, SearchRows(state, entries[i + 1..], env, query));
      results := results + hits;
      i := i + 1;
    }
    assert entries[|entries|..] == [] && results + [] == results;
    rows := Some(results);
  }

  /** The handler: rejects a blank query, collects, sorts once, slices a page. */
  method SearchNews(db: Database, q: Option<string>, pageQ: Option<string>, limitQ: Option<string>, env: SearchEnv)
    returns (r: Listing<Article>)
    ensures r == Search(db.State(), q, QueryInt(pageQ, 1), QueryInt(limitQ, 50), env)
  {
    var page := QueryInt(pageQ, 1);
    var limit := QueryInt(limitQ, 50);
    if !Truthy(q) || JsTrim(q.value) == "" {
      return Page([], page, 0, 0);
    }
    if !env.validPattern(q.value) {
      return Failed(500, "Failed to perform search.");
    }
    var all := CollectHits(db, SourceConfig, env, q.value);
    if all.None? {
      return Failed(500, "Failed to perform search.");
    }
    var sorted := SortDesc(all.value, DateKey);
    r := Paginate(sorted, page, limit);
  }

  // ---- /:sourceKey ----

  datatype SourceReply = SourceNews(news: seq<Listed>, message: Option<string>)
                       | SourceFailed(status: nat, error: string)

  /** `GET /:sourceKey`. */
  function NewsBySource(db: Db, key: string, page: int, limit: int, fault: string -> QueryFault): SourceReply {
    match LookupSource(key)
    case None => SourceFailed(404, "News source not found.")
    case Some(e) => SourceAnswer(db, key, e.modelName, page, limit, fault(e.modelName))
  }

  /** The reply for a configured key whose articles live in `model`. */
  function SourceAnswer(db: Db, key: string, model: string, page: int, limit: int, f: QueryFault): SourceReply {
    if f == BufferingTimeout then
      SourceFailed(500, "Database query timed out for " + key + ". This usually means the query is too slow or database is unreachable.")
    else if f == OtherFault then SourceFailed(500, FetchFailed(key))
    else match Pipeline(Collection(db, model), db.questions, page, limit, false)
      case None => SourceFailed(500, FetchFailed(key))
      case Some(rows) =>
        if rows == [] then SourceNews([], Some(NoArticles(key)))
        else SourceNews(rows, None)
  }

  function FetchFailed(key: string): string {
    "Failed to fetch news from " + key + "."
  }

  function NoArticles(key: string): string {
    "No articles found for " + FormatSourceForDisplay(key) + "."
  }

  // ---- properties ----

  /** `page`/`limit` default to 1/50 when the parameter is absent, is `NaN`
      or parses to 0; a decimal number is read back as itself. */
  lemma QueryIntDefaults(q: Option<string>, dflt: int, n: nat, rest: string)
    requires rest == [] || !IsAsciiDigit(rest[0])
    requires n > 0 || rest == [] || (rest[0] != 'x' && rest[0] != 'X')
    ensures dflt != 0 ==> QueryInt(q, dflt) != 0
    ensures q.None? ==> QueryInt(q, dflt) == dflt
    ensures q.Some? && JsParseIntAuto(q.value).None? ==> QueryInt(q, dflt) == dflt
    ensures q == Some(DecimalString(n) + rest) ==> QueryInt(q, dflt) == if n == 0 then dflt else n
  {
    JsParseIntAutoDecimal(n, rest);
  }

  /** A `0x`/`0X` prefix reads the digits after it as hexadecimal, and a
      prefix with no hexadecimal digit after it is `NaN`, so the default. */
  lemma QueryIntHex(x: char, n: nat, rest: string, dflt: int)
    requires x == 'x' || x == 'X'
    requires rest == [] || !IsHexDigit(rest[0])
    ensures QueryInt(Some("0" + [x] + HexString(n) + rest), dflt) == if n == 0 then dflt else n
    ensures QueryInt(Some("0" + [x] + rest), dflt) == dflt
  {
    JsParseIntAutoHex(x, n, rest);
    JsParseIntAutoBareHex(x, rest);
  }

  /** A descending listing puts every row with questions before every row
      without, and among rows alike in both respects the newer `pubDate` first. */
  lemma ListingOrder(s: seq<Listed>)
    requires SortedDesc(s, ListingKey)
    ensures forall i, j :: 0 <= i < j < |s| && s[j].hasQuestions ==> s[i].hasQuestions
    ensures forall i, j ::
      (0 <= i < j < |s| && s[i].hasQuestions == s[j].hasQuestions && s[i].article.pubDate.Some? && s[j].article.pubDate.Some?)
      ==> s[i].article.pubDate.value >= s[j].article.pubDate.value
  {
    forall i, j | 0 <= i < j < |s| && s[j].hasQuestions ensures s[i].hasQuestions {
      assert KeyGe(ListingKey(s[i]), ListingKey(s[j]));
    }
    forall i, j | 0 <= i < j < |s| && s[i].hasQuestions == s[j].hasQuestions
      && s[i].article.pubDate.Some? && s[j].article.pubDate.Some?
      ensures s[i].article.pubDate.value >= s[j].article.pubDate.value
    {
      assert KeyGe(ListingKey(s[i]), ListingKey(s[j]));
    }
  }

  lemma SortedWindow<T>(s: seq<T>, key: T -> Key, lo: int, n: int)
    requires SortedDesc(s, key)
    ensures SortedDesc(Window(s, lo, n), key)
    ensures multiset(Window(s, lo, n)) <= multiset(s)
  {
    var a := if lo <= 0 then 0 else if lo < |s| then lo else |s|;
    var b := if lo + n <= a then a else if lo + n < |s| then lo + n else |s|;
    assert Window(s, lo, n) == s[a..b];
    SortedSlice(s, key, a, b);
    SliceSubMultiset(s, a, b);
  }

  lemma SortedSlice<T>(s: seq<T>, key: T -> Key, a: nat, b: nat)
    requires a <= b <= |s| && SortedDesc(s, key)
    ensures SortedDesc(s[a..b], key)
  {
    var w := s[a..b];
    forall i, j | 0 <= i < j < |w| ensures KeyGe(key(w[i]), key(w[j])) {
      assert w[i] == s[a + i] && w[j] == s[a + j];
    }
  }

  lemma SliceSubMultiset<T>(s: seq<T>, a: nat, b: nat)
    requires a <= b <= |s|
    ensures multiset(s[a..b]) <= multiset(s)
  {
    assert s == s[..a] + s[a..b] + s[b..];
    assert multiset(s) == multiset(s[..a]) + multiset(s[a..b]) + multiset(s[b..]);
  }

  /** One source's page: its `limit` rows from position `(page - 1) * limit`
      of the collection (only current affairs when asked) in listing order,
      each marked with whether a Question document names it. */
  lemma PipelinePage(coll: seq<Article>, qs: seq<Question>, page: int, limit: int, isCurrentAffair: bool)
    requires Accepted(page, limit)
    ensures var r := Pipeline(coll, qs, page, limit, isCurrentAffair);
      && r.Some? && |r.value| <= limit
      && SortedDesc(r.value, ListingKey)
      && (forall x :: x in r.value ==>
            && x.article in coll
            && (isCurrentAffair ==> x.article.isCurrentAffair)
            && x.hasQuestions == HasQuestions(qs, x.article.id))
      && r.value == Window(SortDesc(Annotate(if isCurrentAffair then CurrentAffairsOnly(coll) else coll, qs), ListingKey), (page - 1) * limit, limit)
  {
    var matched := if isCurrentAffair then CurrentAffairsOnly(coll) else coll;
    var rows := Annotate(matched, qs);
    var sorted := SortDesc(rows, ListingKey);
    SortDescCorrect(rows, ListingKey);
    MulNonneg(page - 1, limit);
    assert Pipeline(coll, qs, page, limit, isCurrentAffair) == Some(Window(sorted, (page - 1) * limit, limit));
    SortedWindow(sorted, ListingKey, (page - 1) * limit, limit);
    var w := Window(sorted, (page - 1) * limit, limit);
    forall x | x in w
      ensures x.article in coll && (isCurrentAffair ==> x.article.isCurrentAffair) && x.hasQuestions == HasQuestions(qs, x.article.id)
    {
      assert x in multiset(w);
      assert x in multiset(rows);
      var k :| 0 <= k < |rows| && rows[k] == x;
      assert matched[k] in matched;
    }
  }

  /** Each source contributes at most `2 * limit` rows. */
  lemma {:induction false} MergedBound(db: Db, entries: seq<SourceEntry>, limit: int, isCurrentAffair: bool, fault: string -> QueryFault)
    requires MergedRows(db, entries, limit, isCurrentAffair, fault).Some?
    ensures |MergedRows(db, entries, limit, isCurrentAffair, fault).value| <= |entries| * (2 * limit)
    decreases |entries|
  {
    if entries != [] {
      MergedRowsStep(db, entries, limit, isCurrentAffair, fault);
      MergedBound(db, entries[1..], limit, isCurrentAffair, fault);
      MulSucc(|entries| - 1, 2 * limit);
    }
  }

  /** A merge that succeeds is the first source's page, of at most
      `2 * limit` rows, followed by the merge of the rest. */
  lemma MergedRowsStep(db: Db, entries: seq<SourceEntry>, limit: int, isCurrentAffair: bool, fault: string -> QueryFault)
    requires entries != [] && MergedRows(db, entries, limit, isCurrentAffair, fault).Some?
    ensures var rows := Pipeline(Collection(db, entries[0].modelName), db.questions, 1, limit * 2, isCurrentAffair);
      var rest := MergedRows(db, entries[1..], limit, isCurrentAffair, fault);
      && rows.Some? && rest.Some? && limit > 0 && |rows.value| <= 2 * limit
      && MergedRows(db, entries, limit, isCurrentAffair, fault).value == rows.value + rest.value
  {
  }

  lemma MulSucc(n: nat, m: int)
    ensures (n + 1) * m == m + n * m
  {
  }

  lemma MulNonneg(a: int, b: int)
    requires a >= 0 && b >= 0
    ensures a * b >= 0
  {
  }

  /** With `limit > 0` and `page >= 1`, `slice` takes `limit` rows from
      position `(page - 1) * limit`, clipped to the end. */
  lemma SliceIsWindow<T>(s: seq<T>, page: int, limit: int)
    requires page >= 1 && limit > 0
    ensures JsSlice(s, (page - 1) * limit, page * limit) == Window(s, (page - 1) * limit, limit)
  {
    MulNonneg(page - 1, limit);
    MulSucc(page - 1, limit);
  }

  /** A listing over the sources `entries`: the page holds at most `limit`
      rows in listing order, taken from the merged rows of all the sources
      sorted globally; `totalResults` is their number, at most `2 * limit`
      per source, and `totalPages` is its ceiling over `limit`. */
  lemma ListFromPage(db: Db, entries: seq<SourceEntry>, page: int, limit: int, isCurrentAffair: bool, fault: string -> QueryFault)
    requires limit != 0 && entries != [] && ListFrom(db, entries, page, limit, isCurrentAffair, fault).Page?
    ensures var r := ListFrom(db, entries, page, limit, isCurrentAffair, fault);
      var all := MergedRows(db, entries, limit, isCurrentAffair, fault);
      && limit > 0 && all.Some?
      && r.totalResults == |all.value| <= |entries| * (2 * limit)
      && r.totalPages * limit >= r.totalResults > (r.totalPages - 1) * limit
      && r.currentPage == page
      && (page >= 1 ==> |r.news| <= limit && r.news == Window(SortDesc(all.value, ListingKey), (page - 1) * limit, limit))
      && (page >= 1 ==> SortedDesc(r.news, ListingKey))
      && multiset(SortDesc(all.value, ListingKey)) == multiset(all.value)
  {
    var all := MergedRows(db, entries, limit, isCurrentAffair, fault);
    MergedNeedsLimit(db, entries, limit, isCurrentAffair, fault);
    MergedBound(db, entries, limit, isCurrentAffair, fault);
    SortedPage(all.value, ListingKey, page, limit);
  }

  /** Sorting rows and then paginating them gives a sorted page of the
      sorted rows and counts every row. */
  lemma SortedPage<T>(all: seq<T>, key: T -> Key, page: int, limit: int)
    requires limit > 0
    ensures var sorted := SortDesc(all, key);
      var r := Paginate(sorted, page, limit);
      && r.Page? && r.totalResults == |all| && r.currentPage == page
      && r.totalPages * limit >= r.totalResults > (r.totalPages - 1) * limit
      && (page >= 1 ==> |r.news| <= limit && r.news == Window(sorted, (page - 1) * limit, limit))
      && (page >= 1 ==> SortedDesc(r.news, key))
      && SortedDesc(sorted, key) && multiset(sorted) == multiset(all)
  {
    var sorted := SortDesc(all, key);
    SortDescCorrect(all, key);
    PaginateFacts(sorted, page, limit);
    if page >= 1 {
      SortedWindow(sorted, key, (page - 1) * limit, limit);
    }
  }

  /** Merging succeeds only for a positive `limit`: each source's
      `$limit: limit * 2` is otherwise rejected. */
  lemma MergedNeedsLimit(db: Db, entries: seq<SourceEntry>, limit: int, isCurrentAffair: bool, fault: string -> QueryFault)
    requires entries != [] && MergedRows(db, entries, limit, isCurrentAffair, fault).Some?
    ensures limit > 0
  {
    var first := Pipeline(Collection(db, entries[0].modelName), db.questions, 1, limit * 2, isCurrentAffair);
    assert first.Some?;
  }

  /** `/all` and `/current-affairs` total at most `10 * limit` rows, two
      pages' worth from each of the five sources. */
  lemma ListNewsPage(db: Db, page: int, limit: int, isCurrentAffair: bool, fault: string -> QueryFault)
    requires limit != 0 && ListNews(db, page, limit, isCurrentAffair, fault).Page?
    ensures limit > 0
    ensures ListNews(db, page, limit, isCurrentAffair, fault).totalResults <= 10 * limit
  {
    ListFromPage(db, SourceConfig, page, limit, isCurrentAffair, fault);
    assert |SourceConfig| == 5;
  }

  /** What `Paginate` answers, for a positive `limit`. */
  lemma PaginateFacts<T>(sorted: seq<T>, page: int, limit: int)
    requires limit > 0
    ensures var r := Paginate(sorted, page, limit);
      && r.Page? && r.totalResults == |sorted| && r.currentPage == page
      && r.totalPages * limit >= |sorted| > (r.totalPages - 1) * limit
      && (page >= 1 ==> r.news == Window(sorted, (page - 1) * limit, limit) && |r.news| <= limit)
  {
    if page >= 1 {
      SliceIsWindow(sorted, page, limit);
    }
  }

  /** A negative `limit` query makes every listing fail (a zero one is
      replaced by the default 50). */
  lemma NegativeLimitFails(db: Db, page: int, limit: int, isCurrentAffair: bool, fault: string -> QueryFault)
    requires limit < 0
    ensures ListNews(db, page, limit, isCurrentAffair, fault) == Failed(500, ListingFailure(isCurrentAffair))
  {
    assert fault(SourceConfig[0].modelName) != NoFault
      || Pipeline(Collection(db, SourceConfig[0].modelName), db.questions, 1, limit * 2, isCurrentAffair).None?;
  }

  /** A `limit` whose double, the per-source `$limit`, is beyond 64 bits
      makes every listing fail as well. */
  lemma OversizedLimitFails(db: Db, page: int, limit: int, isCurrentAffair: bool, fault: string -> QueryFault)
    requires limit * 2 > Int64Max
    ensures ListNews(db, page, limit, isCurrentAffair, fault) == Failed(500, ListingFailure(isCurrentAffair))
  {
    assert fault(SourceConfig[0].modelName) != NoFault
      || Pipeline(Collection(db, SourceConfig[0].modelName), db.questions, 1, limit * 2, isCurrentAffair).None?;
  }

  /** A page whose `$skip` is beyond 64 bits, such as page 2 of a
      10^19-row limit, is a 500 for a configured source. */
  lemma OversizedSkipFails(db: Db, key: string, page: int, limit: int, fault: string -> QueryFault)
    requires LookupSource(key).Some? && fault(LookupSource(key).value.modelName) == NoFault
    requires limit > 0 && (page - 1) * limit > Int64Max
    ensures NewsBySource(db, key, page, limit, fault) == SourceFailed(500, FetchFailed(key))
  {
  }

  /** The concatenation of every source's hits, in source order. */
  function AllHits(db: Db, entries: seq<SourceEntry>, env: SearchEnv, query: string): seq<Article>
    decreases |entries|
  {
    if entries == [] then [] else Hits(env, query, Collection(db, entries[0].modelName)) + AllHits(db, entries[1..], env, query)
  }

  /** The search's rows are exactly the hits of every source, each source's
      sorted newest first. */
  lemma {:induction false} SearchRowsAreHits(db: Db, entries: seq<SourceEntry>, env: SearchEnv, query: string)
    requires SearchRows(db, entries, env, query).Some?
    ensures multiset(SearchRows(db, entries, env, query).value) == multiset(AllHits(db, entries, env, query))
    decreases |entries|
  {
    if entries != [] {
      SearchRowsAreHits(db, entries[1..], env, query);
      SortDescCorrect(Hits(env, query, Collection(db, entries[0].modelName)), DateKey);
    }
  }

  /** A blank or missing query is an empty first answer with no pages. */
  lemma BlankSearchIsEmpty(db: Db, q: Option<string>, page: int, limit: int, env: SearchEnv)
    requires limit != 0 && (!Truthy(q) || JsTrim(q.value) == "")
    ensures Search(db, q, page, limit, env) == Page([], page, 0, 0)
  {
  }

  /** A search answer counts every hit of every source, sorts them newest
      first, and returns the `[(page - 1) * limit, page * limit)` window. */
  lemma SearchPage(db: Db, entries: seq<SourceEntry>, q: Option<string>, page: int, limit: int, env: SearchEnv)
    requires limit != 0 && Truthy(q) && JsTrim(q.value) != ""
    requires SearchFrom(db, entries, q, page, limit, env).Page?
    ensures var r := SearchFrom(db, entries, q, page, limit, env);
      var rows := SearchRows(db, entries, env, q.value);
      && rows.Some?
      && multiset(SortDesc(rows.value, DateKey)) == multiset(AllHits(db, entries, env, q.value))
      && r.totalResults == |AllHits(db, entries, env, q.value)|
      && (limit > 0 ==> r.totalPages * limit >= r.totalResults > (r.totalPages - 1) * limit)
      && (page >= 1 && limit > 0 ==> r.news == Window(SortDesc(rows.value, DateKey), (page - 1) * limit, limit))
      && SortedDesc(SortDesc(rows.value, DateKey), DateKey)
  {
    var rows := SearchRows(db, entries, env, q.value);
    SearchRowsAreHits(db, entries, env, q.value);
    SortDescCorrect(rows.value, DateKey);
    var sorted := SortDesc(rows.value, DateKey);
    assert |sorted| == |multiset(sorted)| == |multiset(AllHits(db, entries, env, q.value))|;
    assert SearchFrom(db, entries, q, page, limit, env) == Paginate(sorted, page, limit);
    if limit > 0 {
      SortedPage(rows.value, DateKey, page, limit);
    }
  }

  /** Every row a search returns matched the pattern in its title or its
      description. */
  lemma {:induction false} SearchHitsMatch(db: Db, entries: seq<SourceEntry>, env: SearchEnv, query: string)
    ensures forall a :: a in AllHits(db, entries, env, query) ==> SearchHit(env, query, a)
    decreases |entries|
  {
    if entries != [] {
      SearchHitsMatch(db, entries[1..], env, query);
    }
  }

  /** MongoDB accepts a source's pipeline exactly when `$skip` is
      non-negative and `$limit` positive, both within 64 bits, that is for
      `page >= 1` and `limit > 0` whose skip and limit fit. */
  lemma PipelineAccepts(coll: seq<Article>, qs: seq<Question>, page: int, limit: int, isCurrentAffair: bool)
    ensures Pipeline(coll, qs, page, limit, isCurrentAffair).Some? <==> Accepted(page, limit)
  {
    if limit > 0 && page < 1 {
      MulNeg(page - 1, limit);
    }
    if page >= 1 && limit > 0 {
      MulNonneg(page - 1, limit);
    }
  }

  lemma MulNeg(a: int, b: int)
    requires a < 0 && b > 0
    ensures a * b < 0
  {
  }

  /** For a configured source without a fault and `page >= 1`, `limit > 0`:
      the reply is that page of the source's listing, with the display-name
      message exactly when it is empty. */
  lemma SourceAnswerPage(db: Db, key: string, model: string, page: int, limit: int)
    requires Accepted(page, limit)
    ensures var rows := Window(SortDesc(Annotate(Collection(db, model), db.questions), ListingKey), (page - 1) * limit, limit);
      var r := SourceAnswer(db, key, model, page, limit, NoFault);
      && r.SourceNews? && r.news == rows
      && (r.message.Some? <==> rows == [])
      && (rows == [] ==> r.message == Some(NoArticles(key)))
  {
    PipelinePage(Collection(db, model), db.questions, page, limit, false);
    var rows := Window(SortDesc(Annotate(Collection(db, model), db.questions), ListingKey), (page - 1) * limit, limit);
    assert Pipeline(Collection(db, model), db.questions, page, limit, false) == Some(rows);
  }

  /** `/:sourceKey`: an unknown key is a 404; a configured one fails with a
      500 exactly when its query faults or MongoDB rejects `page` or `limit`
      (below 1, not positive, or a skip or limit beyond 64 bits), and
      otherwise answers that page of the source's listing. */
  lemma NewsBySourceMeaning(db: Db, key: string, page: int, limit: int, fault: string -> QueryFault)
    ensures LookupSource(key).None? ==> NewsBySource(db, key, page, limit, fault) == SourceFailed(404, "News source not found.")
    ensures LookupSource(key).Some? ==>
      (NewsBySource(db, key, page, limit, fault).SourceFailed? <==>
         (fault(LookupSource(key).value.modelName) != NoFault || !Accepted(page, limit)))
    ensures LookupSource(key).Some? ==> NewsBySource(db, key, page, limit, fault).SourceFailed? ==>
      NewsBySource(db, key, page, limit, fault).status == 500
    ensures LookupSource(key).Some? && fault(LookupSource(key).value.modelName) == NoFault && Accepted(page, limit) ==>
      var rows := Window(SortDesc(Annotate(Collection(db, LookupSource(key).value.modelName), db.questions), ListingKey), (page - 1) * limit, limit);
      && NewsBySource(db, key, page, limit, fault).news == rows
      && (rows == [] <==> NewsBySource(db, key, page, limit, fault).message.Some?)
  {
    if LookupSource(key).Some? {
      var model := LookupSource(key).value.modelName;
      PipelineAccepts(Collection(db, model), db.questions, page, limit, false);
      if fault(model) == NoFault && Accepted(page, limit) {
        SourceAnswerPage(db, key, model, page, limit);
      }
    }
  }

  /** A page that starts past the end of an existing source's listing is
      an empty success naming the source by its display name. */
  lemma PastTheEndNamesSource(db: Db, key: string, page: int, limit: int, fault: string -> QueryFault)
    requires LookupSource(key).Some? && fault(LookupSource(key).value.modelName) == NoFault
    requires Accepted(page, limit)
    requires (page - 1) * limit >= |Collection(db, LookupSource(key).value.modelName)|
    ensures NewsBySource(db, key, page, limit, fault)
      == SourceNews([], Some("No articles found for " + LookupSource(key).value.sourceName + "."))
  {
    var model := LookupSource(key).value.modelName;
    var coll := Collection(db, model);
    SortDescCorrect(Annotate(coll, db.questions), ListingKey);
    SourceAnswerPage(db, key, model, page, limit);
    FormatSourceForDisplayMeaning(key);
  }
}
