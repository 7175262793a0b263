/** Single-article ingestion (services/ingestionService.js): the keyword
    classifier that fills `categories`, the fallback rule of the AI
    current-affairs categorisation, and the find-by-link-then-insert write. */
module Ingestion {
  import opened Wrappers
  import opened Text
  import opened Store
  import Sources

  // ---- keyword classifier ----

  /** One `if` of the classifier: its category, the keywords looked for in
      the lower-cased title and those looked for in the lower-cased
      description. */
  datatype Rule = Rule(category: string, titleWords: seq<string>, descriptionWords: seq<string>)

  /** The thirteen rules in the order the code tests them. */
  const KeywordRules: seq<Rule> := [
    Rule("Polity & Governance", ["election", "parliament", "policy"], ["government"]),
    Rule("Economy", ["economy", "bank", "budget", "market"], ["finance"]),
    Rule("Environment & Ecology", ["environment", "pollution", "conservation"], ["climate"]),
    Rule("Science & Technology", ["science", "technology", "discovery"], ["research"]),
    Rule("International Relations", ["international", "diplomacy", "un "], ["global"]),
    Rule("Art & Culture", ["art", "culture", "music"], ["festival"]),
    Rule("History", ["history", "ancient"], ["historical"]),
    Rule("Social Issues", ["social", "community", "gender"], ["rights"]),
    Rule("Defence & Security", ["defence", "security", "army", "navy", "air force"], ["military"]),
    Rule("Awards, Persons & Places in News", ["award", "honor", "person in news", "place in news"], []),
    Rule("World", ["world"], []),
    Rule("National", ["national", "india"], []),
    Rule("Sports", ["sport", "match", "olympics"], ["game"])
  ]

  const Miscellaneous := "Miscellaneous"

  predicate AnyWordIn(words: seq<string>, text: string) {
    exists w :: w in words && Contains(text, w)
  }

  /** The rule's condition on the lower-cased title and description. */
  predicate Hits(r: Rule, lowerTitle: string, lowerDescription: string) {
    AnyWordIn(r.titleWords, lowerTitle) || AnyWordIn(r.descriptionWords, lowerDescription)
  }

  predicate Distinct(s: seq<string>) {
    forall i, j :: 0 <= i < j < |s| ==> s[i] != s[j]
  }

  predicate DistinctCategories(rules: seq<Rule>) {
    forall i, j :: 0 <= i < j < |rules| ==> rules[i].category != rules[j].category
  }

  /** The categories of the rules that hit, in rule order (the sequence of
      `push`es). */
  function Matched(rules: seq<Rule>, lowerTitle: string, lowerDescription: string): (r: seq<string>)
    ensures |r| <= |rules|
    ensures forall c :: c in r <==>
      exists i :: 0 <= i < |rules| && rules[i].category == c && Hits(rules[i], lowerTitle, lowerDescription)
    decreases |rules|
  {
    if rules == [] then []
    else
      var rest := Matched(rules[1..], lowerTitle, lowerDescription);
      assert forall i :: 1 <= i < |rules| ==> rules[i] == rules[1..][i - 1];
      if Hits(rules[0], lowerTitle, lowerDescription) then [rules[0].category] + rest else rest
  }

  /** `[...new Set(s)]`: the first occurrence of each element, in order. */
  function Dedup(s: seq<string>): (r: seq<string>)
    ensures forall c :: c in r <==> c in s
    ensures Distinct(r)
    decreases |s|
  {
    if s == [] then []
    else
      var d := Dedup(s[..|s| - 1]);
      assert s == s[..|s| - 1] + [s[|s| - 1]];
      if s[|s| - 1] in d then d else d + [s[|s| - 1]]
  }

  /** The case-folded description the classifier reads: "" when it is falsy. */
  function LowerDescription(description: Option<string>): string {
    if description.Some? then Lower(description.value) else ""
  }

  /** The classifier over any rule table: the matching categories
      deduplicated, or "Miscellaneous" when nothing matches. */
  function Classify(rules: seq<Rule>, lowerTitle: string, lowerDescription: string): (r: seq<string>)
    ensures r != [] && Distinct(r)
    ensures forall c :: c in r <==>
      (exists i :: 0 <= i < |rules| && rules[i].category == c && Hits(rules[i], lowerTitle, lowerDescription))
      || (c == Miscellaneous && forall i :: 0 <= i < |rules| ==> !Hits(rules[i], lowerTitle, lowerDescription))
  {
    var m := Matched(rules, lowerTitle, lowerDescription);
    if m == [] then
      assert forall i :: 0 <= i < |rules| ==> !Hits(rules[i], lowerTitle, lowerDescription) by {
        forall i | 0 <= i < |rules| ensures !Hits(rules[i], lowerTitle, lowerDescription) {
          assert rules[i].category !in m;
        }
      }
      Dedup([Miscellaneous])
    else
      assert m[0] in m;
      Dedup(m)
  }

  /** `applyKeywordCategories(title, description)`. */
  function KeywordCategories(title: string, description: Option<string>): seq<string> {
    Classify(KeywordRules, Lower(title), LowerDescription(description))
  }

  lemma {:induction false} DedupOfDistinct(s: seq<string>)
    requires Distinct(s)
    ensures Dedup(s) == s
    decreases |s|
  {
    if s != [] {
      var p := s[..|s| - 1];
      assert Distinct(p);
      DedupOfDistinct(p);
      assert s[|s| - 1] !in p;
      assert s == p + [s[|s| - 1]];
    }
  }

  lemma {:induction false} MatchedDistinct(rules: seq<Rule>, lowerTitle: string, lowerDescription: string)
    requires DistinctCategories(rules)
    ensures Distinct(Matched(rules, lowerTitle, lowerDescription))
    decreases |rules|
  {
    if rules != [] {
      var rest := rules[1..];
      assert DistinctCategories(rest);
      MatchedDistinct(rest, lowerTitle, lowerDescription);
      var m := Matched(rest, lowerTitle, lowerDescription);
      forall j | 0 <= j < |rest| ensures rest[j].category != rules[0].category {
        assert rest[j] == rules[j + 1];
      }
      assert rules[0].category !in m;
    }
  }

  /** Over a table with distinct categories the deduplication removes
      nothing: the result is exactly the categories of the rules that hit,
      in table order, or `["Miscellaneous"]` when none does. */
  lemma ClassifyInTableOrder(rules: seq<Rule>, lowerTitle: string, lowerDescription: string)
    requires DistinctCategories(rules)
    ensures var m := Matched(rules, lowerTitle, lowerDescription);
      Classify(rules, lowerTitle, lowerDescription) == if m == [] then [Miscellaneous] else m
  {
    MatchedDistinct(rules, lowerTitle, lowerDescription);
    DedupOfDistinct(Matched(rules, lowerTitle, lowerDescription));
    DedupOfDistinct([Miscellaneous]);
  }

  /** The categories of the table, in order. */
  function Categories(rules: seq<Rule>): (r: seq<string>)
    ensures |r| == |rules| && forall i :: 0 <= i < |rules| ==> r[i] == rules[i].category
  {
    seq(|rules|, i requires 0 <= i < |rules| => rules[i].category)
  }

  const TableCategories: seq<string> := ["Polity & Governance", "Economy", "Environment & Ecology",
    "Science & Technology", "International Relations", "Art & Culture", "History", "Social Issues",
    "Defence & Security", "Awards, Persons & Places in News", "World", "National", "Sports"]

  lemma TableCategoriesListed()
    ensures Categories(KeywordRules) == TableCategories
  {
  }

  /** The table's thirteen categories are pairwise distinct. */
  lemma KeywordTableDistinct()
    ensures DistinctCategories(KeywordRules)
  {
    TableCategoriesListed();
    assert Distinct(TableCategories);
  }

  /** All of the table's categories but "World" (rule 10) are in the schema enum. */
  lemma KeywordTableInEnum()
    ensures forall i :: 0 <= i < |KeywordRules| ==> KeywordRules[i].category in Sources.SchemaCategories || i == 10
    ensures KeywordRules[10].category == "World" && "world" in KeywordRules[10].titleWords
    ensures "World" !in Sources.SchemaCategories
  {
    TableCategoriesListed();
  }

  /** The keyword classifier's output is in table order without duplicates. */
  lemma KeywordCategoriesInTableOrder(title: string, description: Option<string>)
    ensures var m := Matched(KeywordRules, Lower(title), LowerDescription(description));
      KeywordCategories(title, description) == if m == [] then [Miscellaneous] else m
  {
    KeywordTableDistinct();
    ClassifyInTableOrder(KeywordRules, Lower(title), LowerDescription(description));
  }

  /** Every emitted category is in the schema enum except "World", which the
      table can emit although the enum lacks it. */
  lemma KeywordVocabulary(title: string, description: Option<string>)
    ensures forall c :: c in KeywordCategories(title, description) ==> c in Sources.SchemaCategories || c == "World"
  {
    KeywordTableInEnum();
    assert Miscellaneous in Sources.SchemaCategories;
  }

  /** A title containing "world" yields "World", so the document fails the
      categories enum on save. */
  lemma WorldTitleBreaksEnum(title: string, description: Option<string>)
    requires Contains(Lower(title), "world")
    ensures "World" in KeywordCategories(title, description)
    ensures !ArticleValid(Article(0, Str("t"), Str("l"), None, None, None, Some(0), "dna",
                                  KeywordCategories(title, description), false, "General", Some([]), false, None, 0))
  {
    KeywordTableInEnum();
    assert Hits(KeywordRules[10], Lower(title), LowerDescription(description));
  }

  // ---- AI current-affairs categorisation ----

  /** A JSON value of the endpoint's reply, as far as the format check and
      the save tell them apart (numbers are integers here). */
  datatype JsValue = JUndefined | JNull | JBool(b: bool) | JNumber(n: int) | JString(s: string) | JObject

  /** JavaScript truthiness of such a value. */
  predicate JsTruthy(v: JsValue) {
    match v
    case JUndefined => false
    case JNull => false
    case JBool(b) => b
    case JNumber(n) => n != 0
    case JString(s) => s != ""
    case JObject => true
  }

  /** What the categorisation endpoint answered: a failed call, or the two
      fields of its JSON body (`JUndefined` when a field is absent). */
  datatype LlmReply = CallFailed | Replied(isCurrentAffair: JsValue, category: JsValue)

  datatype Categorization = Categorization(isCurrentAffair: bool, category: JsValue)

  const DefaultCategorization := Categorization(false, JString("General"))

  /** The reply passes the format check of `categorizeCurrentAffairsWithAI`:
      `isCurrentAffair` must be a boolean, but `category` need only be
      truthy, whatever its type. */
  predicate WellFormedReply(reply: LlmReply) {
    reply.Replied? && reply.isCurrentAffair.JBool? && JsTruthy(reply.category)
  }

  /** `categorizeCurrentAffairsWithAI`'s result: the reply's two fields when
      they pass the check, otherwise the default. The category is always truthy. */
  function Categorize(reply: LlmReply): (r: Categorization)
    ensures JsTruthy(r.category)
    ensures WellFormedReply(reply) ==> r.isCurrentAffair == reply.isCurrentAffair.b && r.category == reply.category
    ensures !WellFormedReply(reply) ==> r == DefaultCategorization
  {
    if WellFormedReply(reply) then Categorization(reply.isCurrentAffair.b, reply.category)
    else DefaultCategorization
  }

  /** Every enum category starts with an upper-case letter. */
  lemma CategoriesCapitalised()
    ensures forall c :: c in Sources.SchemaCategories ==> c != [] && 'A' <= c[0] <= 'Z'
  {
  }

  /** `String(n)` for an integer. */
  function NumberText(n: int): (r: string)
    ensures r != [] && (r[0] == '-' || IsAsciiDigit(r[0]))
  {
    if n < 0 then "-" + DecimalString(-n) else DecimalString(n)
  }

  /** The `currentAffairsCategory` Mongoose's string cast stores on save: a
      string as is, a number or `true` as its text. An object or array
      cannot be cast at all; that cast error is written here as the text
      "[object Object]", since the save is refused either way. Only a
      string can therefore land in the enum. */
  function StoredCategory(v: JsValue): (r: string)
    requires JsTruthy(v)
    ensures v.JString? ==> r == v.s
    ensures !v.JString? ==> r !in Sources.SchemaCategories
  {
    CategoriesCapitalised();
    match v
    case JString(s) => s
    case JBool(_) => "true"
    case JNumber(n) => NumberText(n)
    case JObject => "[object Object]"
  }

  // ---- ingestAndCategorizeArticle ----

  /** A scraped record; `None` is an absent or null field. `date` is the
      timestamp the date string denotes. */
  datatype ScrapedArticle = ScrapedArticle(
    title: Option<string>,
    link: Option<string>,
    description: Option<string>,
    summary: Option<string>,
    date: Option<int>,
    source: Option<string>,
    imageUrl: Option<string>,
    content: Option<string>)

  /** What `newsModelMap[key]` yields: one of the five models, an inherited
      `Object.prototype` member (truthy, but without `findOne`), or nothing. */
  datatype ModelLookup = NoModel | ModelOf(name: string) | Inherited

  const NewsModelKeys: seq<string> := ["thehindu", "dna", "hindustantimes", "indianexpress", "timesofindia"]

  function NewsModel(key: string): (r: ModelLookup)
    ensures r.ModelOf? <==> key in NewsModelKeys
    ensures r.ModelOf? ==> r.name in Sources.ModelNames
  {
    if key == "thehindu" then ModelOf("TheHindu")
    else if key == "dna" then ModelOf("DNA")
    else if key == "hindustantimes" then ModelOf("HindustanTimes")
    else if key == "indianexpress" then ModelOf("IndianExpress")
    else if key == "timesofindia" then ModelOf("TimesOfIndia")
    else if key == "constructor" || key == "__proto__" then Inherited
    else NoModel
  }

  datatype IngestResult = Failure(message: string) | Success(message: string, articleId: Option<ArticleId>)

  const MissingDataMessage := "Missing required data."
  const FailedMessage := "Failed to ingest article."
  const ExistsMessage := "Article already exists."
  const DuplicateMessage := "Article already exists (duplicate link)."
  const IngestedMessage := "Article ingested and categorized successfully."

  /** The environment of one call: the categorisation endpoint, the clock,
      whether `findOne` fails, and whether a concurrent writer inserts the
      same link between the lookup and the save (duplicate-key error 11000). */
  datatype IngestEnv = IngestEnv(
    llm: (string, Option<string>, Option<string>) -> LlmReply,
    now: int,
    lookupFails: bool,
    raced: bool)

  /** `Model.findOne({ link })`: the first article whose link is exactly `link`. */
  function FindByLink(coll: seq<Article>, link: string): (r: Option<Article>)
    ensures r.Some? ==> r.value in coll && r.value.link == Str(link)
    ensures r.None? <==> forall k :: 0 <= k < |coll| ==> coll[k].link != Str(link)
    ensures r.Some? ==> exists k :: 0 <= k < |coll| && coll[k] == r.value && forall j :: 0 <= j < k ==> coll[j].link != Str(link)
  {
    if coll == [] then None
    else if coll[0].link == Str(link) then Some(coll[0])
    else
      var r := FindByLink(coll[1..], link);
      assert forall i :: 1 <= i < |coll| ==> coll[i] == coll[1..][i - 1];
      r
  }

  /** How far the checks before the save get: a final answer, or the model
      to create the new document in. */
  datatype Stage = Finished(result: IngestResult) | Create(model: string)

  function Admit(db: Db, rec: ScrapedArticle, env: IngestEnv): Stage {
    if !Truthy(rec.title) || !Truthy(rec.link) || !Truthy(rec.source) then Finished(Failure(MissingDataMessage))
    else match NewsModel(Lower(rec.source.value)) {
      case NoModel => Finished(Failure("Invalid news source: " + rec.source.value))
      case Inherited => Finished(Failure(FailedMessage))
      case ModelOf(m) =>
        if env.lookupFails then Finished(Failure(FailedMessage))
        else match FindByLink(Collection(db, m), rec.link.value) {
          case Some(existing) => Finished(Success(ExistsMessage, Some(existing.id)))
          case None => Create(m)
        }
    }
  }

  /** The text both classifiers receive as the description. */
  function ClassifierText(rec: ScrapedArticle): Option<string> {
    Or(Or(rec.description, rec.summary), rec.title)
  }

  /** The new document with `pubDate` set to the record's date or the clock. */
  function NewArticle(rec: ScrapedArticle, env: IngestEnv): (a: Article)
    requires Truthy(rec.title) && Truthy(rec.link) && Truthy(rec.source)
    ensures a.title == Str(rec.title.value) && a.link == Str(rec.link.value)
    ensures a.pubDate == Some(if rec.date.Some? then rec.date.value else env.now)
    ensures a.source == Lower(rec.source.value)
    ensures a.description == Or(rec.description, rec.summary)
    ensures a.categories == KeywordCategories(rec.title.value, ClassifierText(rec))
    ensures a.questions == Some([]) && !a.questionsGenerationFailed && a.lastGeneratedQuestionsAt.None?
  {
    var cat := Categorize(env.llm(rec.title.value, ClassifierText(rec), rec.content));
    Article(0, Str(rec.title.value), Str(rec.link.value), Or(rec.description, rec.summary), rec.imageUrl,
            rec.content, Some(if rec.date.Some? then rec.date.value else env.now), Lower(rec.source.value),
            KeywordCategories(rec.title.value, ClassifierText(rec)), cat.isCurrentAffair, StoredCategory(cat.category),
            Some([]), false, None, env.now)
  }

  /** The document as the code builds it: the date goes to `publishedAt`,
      a path the schema does not declare, so `pubDate` stays unset. */
  function NewArticleAsWritten(rec: ScrapedArticle, env: IngestEnv): (a: Article)
    requires Truthy(rec.title) && Truthy(rec.link) && Truthy(rec.source)
    ensures a.pubDate.None?
  {
    NewArticle(rec, env).(pubDate := None)
  }

  datatype Outcome = Outcome(db: Db, result: IngestResult)

  /** `newArticle.save()` and its catch block. */
  function SaveNew(db: Db, model: string, a: Article, env: IngestEnv): Outcome {
    if !ArticleValid(a) then Outcome(db, Failure(FailedMessage))
    else if env.raced then Outcome(db, Success(DuplicateMessage, None))
    else Outcome(AppendArticle(db, model, a), Success(IngestedMessage, Some(db.nextArticleId)))
  }

  /** `ingestAndCategorizeArticle` with the date stored in `pubDate`. */
  function Ingest(db: Db, rec: ScrapedArticle, env: IngestEnv): Outcome {
    match Admit(db, rec, env) {
      case Finished(r) => Outcome(db, r)
      case Create(m) => SaveNew(db, m, NewArticle(rec, env), env)
    }
  }

  /** `ingestAndCategorizeArticle` exactly as written. */
  function IngestAsWritten(db: Db, rec: ScrapedArticle, env: IngestEnv): Outcome {
    match Admit(db, rec, env) {
      case Finished(r) => Outcome(db, r)
      case Create(m) => SaveNew(db, m, NewArticleAsWritten(rec, env), env)
    }
  }

  /** A record without a truthy title, link or source is refused and nothing is written. */
  lemma MissingFieldsRejected(db: Db, rec: ScrapedArticle, env: IngestEnv)
    requires !Truthy(rec.title) || !Truthy(rec.link) || !Truthy(rec.source)
    ensures Ingest(db, rec, env) == Outcome(db, Failure(MissingDataMessage))
    ensures IngestAsWritten(db, rec, env) == Outcome(db, Failure(MissingDataMessage))
  {
  }

  /** A source whose lower-cased form is not one of the five map keys is
      refused without a write; the two inherited keys fail the same way later. */
  lemma UnknownSourceRejected(db: Db, rec: ScrapedArticle, env: IngestEnv)
    requires Truthy(rec.title) && Truthy(rec.link) && Truthy(rec.source)
    requires Lower(rec.source.value) !in NewsModelKeys
    ensures Ingest(db, rec, env).db == db && Ingest(db, rec, env).result.Failure?
    ensures Lower(rec.source.value) != "constructor" && Lower(rec.source.value) != "__proto__" ==>
      Ingest(db, rec, env).result == Failure("Invalid news source: " + rec.source.value)
    ensures IngestAsWritten(db, rec, env) == Ingest(db, rec, env)
  {
  }

  /** The Hindu scraper labels its records "The Hindu", which lower-cases to
      "the hindu", not the map key "thehindu". */
  lemma HinduScraperSourceRejected(db: Db, rec: ScrapedArticle, env: IngestEnv)
    requires Truthy(rec.title) && Truthy(rec.link) && rec.source == Some("The Hindu")
    ensures Ingest(db, rec, env) == Outcome(db, Failure("Invalid news source: The Hindu"))
    ensures IngestAsWritten(db, rec, env) == Ingest(db, rec, env)
  {
    var l := Lower("The Hindu");
    assert |l| == 9 && l[0] == 't';
    assert l != "constructor" && l != "__proto__" && l !in NewsModelKeys;
    assert NewsModel(l) == NoModel;
    assert Admit(db, rec, env) == Finished(Failure("Invalid news source: " + "The Hindu"));
    assert "Invalid news source: " + "The Hindu" == "Invalid news source: The Hindu";
  }

  /** A record whose link is already stored returns that article's id and
      writes nothing: there is no update path. */
  lemma ExistingLinkIsSkipped(db: Db, rec: ScrapedArticle, env: IngestEnv, m: string, k: int)
    requires Truthy(rec.title) && Truthy(rec.link) && Truthy(rec.source)
    requires NewsModel(Lower(rec.source.value)) == ModelOf(m) && !env.lookupFails
    requires 0 <= k < |Collection(db, m)| && Collection(db, m)[k].link == Str(rec.link.value)
    ensures Ingest(db, rec, env).db == db
    ensures Ingest(db, rec, env).result == Success(ExistsMessage, Some(FindByLink(Collection(db, m), rec.link.value).value.id))
    ensures FindByLink(Collection(db, m), rec.link.value).value.link == Str(rec.link.value)
    ensures IngestAsWritten(db, rec, env) == Ingest(db, rec, env)
  {
  }

  /** With the date written to `publishedAt`, no new article is ever stored:
      every save fails the required `pubDate`, and the only successes are
      links that already existed. */
  lemma AsWrittenNeverInserts(db: Db, rec: ScrapedArticle, env: IngestEnv)
    ensures IngestAsWritten(db, rec, env).db == db
    ensures IngestAsWritten(db, rec, env).result.Success? ==>
      IngestAsWritten(db, rec, env).result.message == ExistsMessage
  {
  }

  /** The five map keys have no surrounding space, so the schema's trim of
      `source` keeps them non-empty. */
  lemma ModelKeyTrimmed(key: string)
    requires key in NewsModelKeys
    ensures JsTrim(key) == key && key != ""
  {
    assert key != [] && !IsSpace(key[0], false) && !IsSpace(key[|key| - 1], false);
    TrimStartOfTrimmed(key, false);
    TrimEndOfTrimmed(key, false);
  }

  /** Without "world" in the title every emitted category is in the enum. */
  lemma CategoriesInEnumWithoutWorld(title: string, description: Option<string>)
    requires !Contains(Lower(title), "world")
    ensures forall c :: c in KeywordCategories(title, description) ==> c in Sources.SchemaCategories
  {
    KeywordVocabulary(title, description);
    KeywordTableInEnum();
    assert KeywordRules[10].titleWords == ["world"] && KeywordRules[10].descriptionWords == [];
    assert !Hits(KeywordRules[10], Lower(title), LowerDescription(description));
  }

  /** The corrected ingestion stores a fresh record whose categories fit the
      enum: the collection grows by exactly the new document, under the next
      id, and the call reports that id. */
  lemma NewRecordIsStored(db: Db, rec: ScrapedArticle, env: IngestEnv, m: string)
    requires Truthy(rec.title) && Truthy(rec.link) && Truthy(rec.source)
    requires NewsModel(Lower(rec.source.value)) == ModelOf(m) && !env.lookupFails && !env.raced
    requires forall k :: 0 <= k < |Collection(db, m)| ==> Collection(db, m)[k].link != Str(rec.link.value)
    requires !Contains(Lower(rec.title.value), "world")
    requires StoredCategory(Categorize(env.llm(rec.title.value, ClassifierText(rec), rec.content)).category) in Sources.SchemaCategories
    ensures Collection(Ingest(db, rec, env).db, m) == Collection(db, m) + [NewArticle(rec, env).(id := db.nextArticleId)]
    ensures Ingest(db, rec, env).result == Success(IngestedMessage, Some(db.nextArticleId))
  {
    var a := NewArticle(rec, env);
    ModelKeyTrimmed(Lower(rec.source.value));
    CategoriesInEnumWithoutWorld(rec.title.value, ClassifierText(rec));
    assert ArticleValid(a);
  }

  /** A truthy category that is not a string passes the format check and is
      kept, but its stored form is outside the enum: even the corrected
      ingestion refuses the save and writes nothing. */
  lemma NonStringCategoryRefused(db: Db, rec: ScrapedArticle, env: IngestEnv, m: string)
    requires Truthy(rec.title) && Admit(db, rec, env) == Create(m)
    requires var reply := env.llm(rec.title.value, ClassifierText(rec), rec.content);
      reply.Replied? && reply.isCurrentAffair.JBool? && JsTruthy(reply.category) && !reply.category.JString?
    ensures Categorize(env.llm(rec.title.value, ClassifierText(rec), rec.content)).category
      == env.llm(rec.title.value, ClassifierText(rec), rec.content).category
    ensures Ingest(db, rec, env) == Outcome(db, Failure(FailedMessage))
    ensures IngestAsWritten(db, rec, env) == Outcome(db, Failure(FailedMessage))
  {
    var a := NewArticle(rec, env);
    assert a.currentAffairsCategory !in Sources.SchemaCategories;
    assert !ArticleValid(a);
  }

  /** A duplicate-key error from a concurrent insert of the same link is
      reported as success without an id, and this call writes nothing. */
  lemma RacedDuplicateIsSuccess(db: Db, rec: ScrapedArticle, env: IngestEnv, m: string)
    requires Admit(db, rec, env) == Create(m) && env.raced
    requires ArticleValid(NewArticle(rec, env))
    ensures Ingest(db, rec, env) == Outcome(db, Success(DuplicateMessage, None))
  {
  }

  /** Ingestion, as written or corrected, keeps the database well formed. */
  lemma IngestKeepsWellFormed(db: Db, rec: ScrapedArticle, env: IngestEnv)
    requires WellFormed(db)
    ensures WellFormed(Ingest(db, rec, env).db)
    ensures WellFormed(IngestAsWritten(db, rec, env).db)
  {
  }

  /** `newArticle.save()` over the mutable database: validation, then the
      insert or the duplicate-key catch. */
  method SaveNewDocument(db: Database, m: string, a: Article, env: IngestEnv) returns (result: IngestResult)
    requires db.Valid()
    modifies db
    ensures db.Valid()
    ensures Outcome(db.State(), result) == SaveNew(old(db.State()), m, a, env)
  {
    if !ArticleValid(a) {
      return Failure(FailedMessage);
    }
    if env.raced {
      return Success(DuplicateMessage, None);
    }
    var id := db.Insert(m, a);
    return Success(IngestedMessage, Some(id));
  }

  /** The handler over the mutable database, as written: the new document
      carries its date under `publishedAt`. */
  method IngestAndCategorizeArticle(db: Database, rec: ScrapedArticle, env: IngestEnv) returns (result: IngestResult)
    requires db.Valid()
    modifies db
    ensures db.Valid()
    ensures Outcome(db.State(), result) == IngestAsWritten(old(db.State()), rec, env)
  {
    var stage := Admit(db.State(), rec, env);
    match stage {
      case Finished(r) =>
        return r;
      case Create(m) =>
        result := SaveNewDocument(db, m, NewArticleAsWritten(rec, env), env);
    }
  }
}
