/** routes/questions.js: the on-demand question generator for one article
    (cache hit, or one single-entry batch to the AI service) and the
    read-only lookup of an article's stored questions. Database failures,
    the Gemini API, `JSON.parse` and the clock are the parameters of
    `Env`; the cast of the URL's id is the parameter `castId`. */
module QuestionsRoute {
  import opened Wrappers
  import opened Sources
  import opened Store
  import opened AiService
  import opened ArticleProcessor

  datatype Request = Request(sourceKey: string, articleId: string)

  /** The route's environment: the services shared with the processor, the
      cast of the id parameter (`None`: not a valid ObjectId) and the name
      of the error that cast raises. */
  datatype RouteEnv = RouteEnv(services: Env, castId: string -> Option<ArticleId>, castErrorName: string)

  /** A JSON response, or none at all: an `await` outside any `try` that
      rejects ends the async handler without a response. */
  datatype Reply =
    | Respond(status: nat, message: string, questions: Option<seq<Question>>, articleTitle: Option<Field>)
    | NoResponse

  /** The database afterwards, the reply, and how many Gemini calls were made. */
  datatype RouteOutcome = RouteOutcome(db: Db, reply: Reply, calls: nat)

  const MissingParamsMessage := "Missing sourceKey or articleId in request parameters."
  const InvalidKeyMessage := "Invalid news source key provided for question generation."
  const RetrievalErrorMessage := "Error retrieving article from database."
  const NotFoundMessage := "Article not found."
  const CachedMessage := "Questions retrieved from cache."
  const NoContentMessage := "Article has no content for question generation."
  const GenerationFailedMessage := "Failed to generate questions. Please try again later."
  const GeneratedMessage := "Questions generated and saved successfully."
  const NoneGeneratedMessage := "AI generated no questions for this article."

  /** The article's `questions` after `.populate("questions")`. */
  function Cached(db: Db, a: Article): seq<Question> {
    if a.questions.Some? then Populate(db.questions, a.questions.value) else []
  }

  /** `article.description || article.title` is truthy. */
  predicate HasTextForAi(a: Article) {
    (a.description.Some? && a.description.value != "") || (a.title.Str? && a.title.s != "")
  }

  /** How far the request gets before the article is in hand. */
  datatype Located = Early(reply: Reply) | Found(entry: SourceEntry, article: Article)

  /** routes/questions.js:16-47. */
  function Locate(db: Db, req: Request, renv: RouteEnv): (r: Located)
    ensures r.Found? ==>
      && LookupSource(req.sourceKey) == Some(r.entry)
      && renv.castId(req.articleId) == Some(r.article.id)
      && !renv.services.fault(LookupFails(r.entry.modelName, r.article.id))
      && FindArticle(db, r.entry.modelName, r.article.id) == Some(r.article)
  {
    if req.sourceKey == "" || req.articleId == "" then Early(Respond(400, MissingParamsMessage, None, None))
    else match LookupSource(req.sourceKey) {
      case None => Early(Respond(400, InvalidKeyMessage, None, None))
      case Some(e) =>
        match renv.castId(req.articleId) {
          case None => Early(Respond(500, RetrievalErrorMessage, None, None))
          case Some(id) =>
            if renv.services.fault(LookupFails(e.modelName, id)) then Early(Respond(500, RetrievalErrorMessage, None, None))
            else match FindArticle(db, e.modelName, id) {
              case None => Early(Respond(404, NotFoundMessage, None, None))
              case Some(a) => Found(e, a)
            }
        }
    }
  }

  /** `await article.save()` outside a `try`: a rejected save ends the
      handler without a response. */
  function SaveThen(db: Db, model: string, a: Article, fault: DbFault -> bool, reply: Reply, calls: nat): RouteOutcome {
    if fault(SaveFails(model, a.id)) || !ArticleValid(a) then RouteOutcome(db, NoResponse, calls)
    else RouteOutcome(SaveArticle(db, model, a), reply, calls)
  }

  /** The single entry sent to the AI service: the URL's key as `sourceName`. */
  function OnDemandInput(a: Article, sourceKey: string): seq<BatchInput> {
    [BatchInput(a.id, a.title, sourceKey)]
  }

  /** routes/questions.js:102-128: insert the documents, point the article at
      them, reply with the inserted documents. No older Question document is
      deleted. */
  function StoreGenerated(db: Db, model: string, a: Article, drafts: seq<QuestionDraft>, env: Env, calls: nat): RouteOutcome {
    if env.fault(InsertFails(a.id)) then RouteOutcome(db, NoResponse, calls)
    else
      var ins := InsertMany(db, drafts);
      if !ins.ok then RouteOutcome(ins.db, NoResponse, calls)
      else
        var docs := if AllValid(drafts) then MaterializeAll(drafts, db.nextQuestionId) else [];
        SaveThen(ins.db, model, Stamped(a, ins.ids, env.now), env.fault,
                 Respond(200, GeneratedMessage, Some(docs), Some(a.title)), calls)
  }

  /** routes/questions.js:49-139, once the article is found. */
  function Generate(db: Db, e: SourceEntry, sourceKey: string, a: Article, env: Env): RouteOutcome {
    var cached := Cached(db, a);
    if |cached| > 0 then RouteOutcome(db, Respond(200, CachedMessage, Some(cached), Some(a.title)), 0)
    else if !HasTextForAi(a) then RouteOutcome(db, Respond(400, NoContentMessage, None, None), 0)
    else AfterBatch(db, e, sourceKey, a, env, OnDemandRun(a, sourceKey, env))
  }

  /** The AI service's run for the single entry. */
  function OnDemandRun(a: Article, sourceKey: string, env: Env): Run {
    var inputs := OnDemandInput(a, sourceKey);
    BatchSpec(inputs, ArticleProcessor.Respond(env, inputs), env.parse, RetryInfoTypeAsWritten)
  }

  /** routes/questions.js:88-139: what follows the generator call. */
  function AfterBatch(db: Db, e: SourceEntry, sourceKey: string, a: Article, env: Env, run: Run): RouteOutcome {
    match run.outcome {
      case Threw(_) =>
        SaveThen(db, e.modelName, Flag(a), env.fault, Respond(500, GenerationFailedMessage, None, None), run.calls)
      case Returned(json) =>
        var qs := QuestionsFor(json, a.id);
        if qs.Some? && |qs.value| > 0 then StoreGenerated(db, e.modelName, a, Drafts(a, sourceKey, e.modelName, qs.value), env, run.calls)
        else SaveThen(db, e.modelName, Flag(a), env.fault, Respond(200, NoneGeneratedMessage, Some([]), None), run.calls)
    }
  }

  /** `GET /generate-on-demand/:sourceKey/:articleId`. */
  function GenerateOnDemand(db: Db, req: Request, renv: RouteEnv): RouteOutcome {
    match Locate(db, req, renv) {
      case Early(r) => RouteOutcome(db, r, 0)
      case Found(e, a) => Generate(db, e, req.sourceKey, a, renv.services)
    }
  }

  /** `GET /get-by-article/:sourceKey/:articleId` (routes/questions.js:145-199). */
  function GetByArticle(db: Db, req: Request, renv: RouteEnv): Reply {
    match LookupSource(req.sourceKey) {
      case None => Respond(404, "Invalid news source provided.", None, None)
      case Some(e) =>
        match renv.castId(req.articleId) {
          case None =>
            if renv.castErrorName == "CastError" then Respond(400, "Invalid article ID format.", None, None)
            else Respond(500, "Internal server error fetching questions.", None, None)
          case Some(id) =>
            if renv.services.fault(LookupFails(e.modelName, id)) then Respond(500, "Internal server error fetching questions.", None, None)
            else match FindArticle(db, e.modelName, id) {
              case None => Respond(404, NotFoundMessage, None, None)
              case Some(a) =>
                var qs := Cached(db, a);
                if |qs| == 0 then Respond(200, "No questions found for this article.", Some([]), None)
                else Respond(200, "Questions retrieved successfully.", Some(qs), Some(a.title))
            }
        }
    }
  }

  // ---- properties ----

  /** An unknown source key, a missing article or an unreadable one is
      answered before any generator call, and nothing is written. */
  lemma EarlyRepliesMakeNoCall(db: Db, req: Request, renv: RouteEnv)
    requires Locate(db, req, renv).Early?
    ensures var r := GenerateOnDemand(db, req, renv);
      r.db == db && r.calls == 0 && r.reply.Respond? && r.reply.status in {400, 404, 500}
    ensures req.sourceKey != "" && req.articleId != "" && LookupSource(req.sourceKey).None? ==>
      GenerateOnDemand(db, req, renv).reply.status == 400
    ensures (&& LookupSource(req.sourceKey).Some? && req.articleId != "" && renv.castId(req.articleId).Some?
             && !renv.services.fault(LookupFails(LookupSource(req.sourceKey).value.modelName, renv.castId(req.articleId).value))
             && FindArticle(db, LookupSource(req.sourceKey).value.modelName, renv.castId(req.articleId).value).None?)
      ==> GenerateOnDemand(db, req, renv).reply.status == 404
  {
  }

  /** An article whose populated questions are non-empty is served from the
      cache: no generator call, no write. */
  lemma CacheHit(db: Db, e: SourceEntry, sourceKey: string, a: Article, env: Env)
    requires |Cached(db, a)| > 0
    ensures Generate(db, e, sourceKey, a, env) == RouteOutcome(db, Respond(200, CachedMessage, Some(Cached(db, a)), Some(a.title)), 0)
  {
  }

  /** No text to send (empty description and title) is a 400 without a call. */
  lemma NoTextIsRejected(db: Db, e: SourceEntry, sourceKey: string, a: Article, env: Env)
    requires |Cached(db, a)| == 0 && !HasTextForAi(a)
    ensures Generate(db, e, sourceKey, a, env) == RouteOutcome(db, Respond(400, NoContentMessage, None, None), 0)
  {
  }

  /** Otherwise exactly one single-entry batch goes to the generator, named
      by the URL's source key, and it makes between one and five calls. */
  lemma OneEntryIsSent(db: Db, e: SourceEntry, sourceKey: string, a: Article, env: Env)
    requires |Cached(db, a)| == 0 && HasTextForAi(a)
    ensures Generate(db, e, sourceKey, a, env) == AfterBatch(db, e, sourceKey, a, env, OnDemandRun(a, sourceKey, env))
    ensures OnDemandInput(a, sourceKey) == [BatchInput(a.id, a.title, sourceKey)]
    ensures 1 <= OnDemandRun(a, sourceKey, env).calls <= MaxRetries
  {
    var inputs := OnDemandInput(a, sourceKey);
    BatchBounds(inputs, ArticleProcessor.Respond(env, inputs), env.parse, RetryInfoTypeAsWritten);
  }

  /** A generator failure flags the article, saves it and answers 500; the
      Question collection is untouched. */
  lemma GeneratorFailureFlags(db: Db, e: SourceEntry, sourceKey: string, a: Article, env: Env, run: Run)
    requires run.outcome.Threw?
    requires !env.fault(SaveFails(e.modelName, a.id)) && ArticleValid(Flag(a))
    ensures var r := AfterBatch(db, e, sourceKey, a, env, run);
      && r.reply == Respond(500, GenerationFailedMessage, None, None)
      && r.db == SaveArticle(db, e.modelName, a.(questionsGenerationFailed := true))
      && r.db.questions == db.questions
  {
  }

  /** An empty or missing generator result flags the article and answers
      200 with no questions. */
  lemma EmptyResultFlags(db: Db, e: SourceEntry, sourceKey: string, a: Article, env: Env, run: Run)
    requires run.outcome.Returned?
    requires QuestionsFor(run.outcome.json, a.id).None? || QuestionsFor(run.outcome.json, a.id) == Some([])
    requires !env.fault(SaveFails(e.modelName, a.id)) && ArticleValid(Flag(a))
    ensures var r := AfterBatch(db, e, sourceKey, a, env, run);
      && r.reply == Respond(200, NoneGeneratedMessage, Some([]), None)
      && r.db == SaveArticle(db, e.modelName, a.(questionsGenerationFailed := true))
      && r.db.questions == db.questions
  {
  }

  /** What a store that produced a response did: the insert and the save
      both went through. */
  lemma StoreGeneratedSuccess(db: Db, model: string, a: Article, drafts: seq<QuestionDraft>, env: Env, calls: nat)
    requires StoreGenerated(db, model, a, drafts, env, calls).reply.Respond?
    ensures var ins := InsertMany(db, drafts);
      && !env.fault(InsertFails(a.id)) && ins.ok && AllValid(drafts)
      && !env.fault(SaveFails(model, a.id)) && ArticleValid(Stamped(a, ins.ids, env.now))
      && StoreGenerated(db, model, a, drafts, env, calls)
         == RouteOutcome(SaveArticle(ins.db, model, Stamped(a, ins.ids, env.now)),
                         Respond(200, GeneratedMessage, Some(MaterializeAll(drafts, db.nextQuestionId)), Some(a.title)),
                         calls)
  {
    InsertManyContents(db, drafts);
  }

  /** A non-empty batch appends its documents after every existing
      Question document (none is deleted), points the article at exactly
      the new ids, clears the flag, stamps the time, and replies with the
      inserted documents. */
  lemma GeneratedQuestionsAreStored(db: Db, model: string, a: Article, drafts: seq<QuestionDraft>, env: Env, calls: nat)
    requires !env.fault(InsertFails(a.id)) && InsertMany(db, drafts).ok
    requires !env.fault(SaveFails(model, a.id)) && ArticleValid(Stamped(a, IdRange(db.nextQuestionId, |drafts|), env.now))
    ensures var r := StoreGenerated(db, model, a, drafts, env, calls);
      && AllValid(drafts)
      && r.db.questions == db.questions + MaterializeAll(drafts, db.nextQuestionId)
      && r.db.nextQuestionId == db.nextQuestionId + |drafts|
      && Collection(r.db, model) == Collection(SaveArticle(db, model, Stamped(a, IdRange(db.nextQuestionId, |drafts|), env.now)), model)
      && r.reply == Respond(200, GeneratedMessage, Some(MaterializeAll(drafts, db.nextQuestionId)), Some(a.title))
  {
    InsertManyContents(db, drafts);
    var ins := InsertMany(db, drafts);
    var a2 := Stamped(a, ins.ids, env.now);
    SaveAfterInsert(db, drafts, model, a2);
  }

  /** A successful store leaves the article pointing at documents that
      populate to exactly the inserted ones. */
  lemma StoredArticleCaches(db: Db, model: string, a: Article, drafts: seq<QuestionDraft>, env: Env, calls: nat)
    requires WellFormed(db) && FindArticle(db, model, a.id) == Some(a)
    requires StoreGenerated(db, model, a, drafts, env, calls).reply.Respond?
    ensures var r := StoreGenerated(db, model, a, drafts, env, calls);
      var a2 := Stamped(a, InsertMany(db, drafts).ids, env.now);
      && FindArticle(r.db, model, a.id) == Some(a2)
      && r.reply.questions == Some(Cached(r.db, a2))
      && r.reply.message == GeneratedMessage && r.reply.articleTitle == Some(a2.title)
  {
    StoreGeneratedSuccess(db, model, a, drafts, env, calls);
    var ins := InsertMany(db, drafts);
    var a2 := Stamped(a, ins.ids, env.now);
    assert FindArticle(ins.db, model, a.id) == Some(a) by {
      assert Collection(ins.db, model) == Collection(db, model);
    }
    FindAfterSave(ins.db, model, a2, a.id);
    PopulateInserted(db, drafts);
  }

  /** The reply of a successful generation comes from `StoreGenerated`. */
  lemma GeneratedReplyComesFromStore(db: Db, req: Request, renv: RouteEnv)
    requires GenerateOnDemand(db, req, renv).reply.Respond?
    requires GenerateOnDemand(db, req, renv).reply.message == GeneratedMessage
    ensures Locate(db, req, renv).Found?
    ensures var e := Locate(db, req, renv).entry; var a := Locate(db, req, renv).article;
      var run := OnDemandRun(a, req.sourceKey, renv.services);
      && run.outcome.Returned?
      && QuestionsFor(run.outcome.json, a.id).Some?
      && GenerateOnDemand(db, req, renv) == StoreGenerated(db, e.modelName, a, Drafts(a, req.sourceKey, e.modelName, QuestionsFor(run.outcome.json, a.id).value), renv.services, run.calls)
  {
  }

  /** After a successful generation, the same request is a cache hit that
      returns exactly the documents the first call inserted, without a call. */
  lemma RepeatIsCacheHit(db: Db, req: Request, renv: RouteEnv)
    requires WellFormed(db)
    requires GenerateOnDemand(db, req, renv).reply.Respond?
    requires GenerateOnDemand(db, req, renv).reply.message == GeneratedMessage
    ensures var r1 := GenerateOnDemand(db, req, renv);
      GenerateOnDemand(r1.db, req, renv) == RouteOutcome(r1.db, Respond(200, CachedMessage, r1.reply.questions, r1.reply.articleTitle), 0)
  {
    GeneratedReplyComesFromStore(db, req, renv);
    var e := Locate(db, req, renv).entry;
    var a := Locate(db, req, renv).article;
    var run := OnDemandRun(a, req.sourceKey, renv.services);
    var qs := QuestionsFor(run.outcome.json, a.id).value;
    var r1 := GenerateOnDemand(db, req, renv);
    var drafts := Drafts(a, req.sourceKey, e.modelName, qs);
    StoredArticleCaches(db, e.modelName, a, drafts, renv.services, run.calls);
    var a2 := Stamped(a, InsertMany(db, drafts).ids, renv.services.now);
    LocateFollowsStore(db, r1.db, req, renv, a2);
    CacheHit(r1.db, e, req.sourceKey, a2, renv.services);
  }

  /** The route finds the article again once the store holds its new version. */
  lemma LocateFollowsStore(db: Db, db2: Db, req: Request, renv: RouteEnv, a2: Article)
    requires Locate(db, req, renv).Found?
    requires a2.id == Locate(db, req, renv).article.id
    requires FindArticle(db2, Locate(db, req, renv).entry.modelName, a2.id) == Some(a2)
    ensures Locate(db2, req, renv) == Found(Locate(db, req, renv).entry, a2)
    ensures GenerateOnDemand(db2, req, renv) == Generate(db2, Locate(db, req, renv).entry, req.sourceKey, a2, renv.services)
  {
  }

  /** The lookup route returns what the generator route would serve from its
      cache, and `[]` where the generator would not hit the cache. */
  lemma LookupAgreesWithCache(db: Db, req: Request, renv: RouteEnv)
    requires Locate(db, req, renv).Found?
    ensures var a := Locate(db, req, renv).article;
      && GetByArticle(db, req, renv).Respond? && GetByArticle(db, req, renv).status == 200
      && GetByArticle(db, req, renv).questions == Some(Cached(db, a))
      && (|Cached(db, a)| > 0 ==> GetByArticle(db, req, renv).questions == GenerateOnDemand(db, req, renv).reply.questions)
  {
    var e := Locate(db, req, renv).entry;
    var a := Locate(db, req, renv).article;
    if |Cached(db, a)| > 0 {
      CacheHit(db, e, req.sourceKey, a, renv.services);
    }
  }

  /** An unknown key or a missing article is a 404 on the lookup route. */
  lemma LookupRejects(db: Db, req: Request, renv: RouteEnv)
    ensures LookupSource(req.sourceKey).None? ==> GetByArticle(db, req, renv) == Respond(404, "Invalid news source provided.", None, None)
    ensures (&& LookupSource(req.sourceKey).Some? && renv.castId(req.articleId).Some?
             && !renv.services.fault(LookupFails(LookupSource(req.sourceKey).value.modelName, renv.castId(req.articleId).value))
             && FindArticle(db, LookupSource(req.sourceKey).value.modelName, renv.castId(req.articleId).value).None?)
      ==> GetByArticle(db, req, renv) == Respond(404, NotFoundMessage, None, None)
  {
  }

  // ---- the handler over the mutable database ----

  method SaveAndReply(db: Database, model: string, a: Article, fault: DbFault -> bool, reply: Reply, calls: nat) returns (r: Reply)
    requires db.Valid()
    modifies db
    ensures db.Valid()
    ensures RouteOutcome(db.State(), r, calls) == SaveThen(old(db.State()), model, a, fault, reply, calls)
  {
    if fault(SaveFails(model, a.id)) {
      return NoResponse;
    }
    var ok := db.Save(model, a);
    r := if ok then reply else NoResponse;
  }

  /** `GET /generate-on-demand/:sourceKey/:articleId`. */
  method GenerateOnDemandHandler(db: Database, req: Request, renv: RouteEnv) returns (reply: Reply, calls: nat)
    requires db.Valid()
    modifies db
    ensures db.Valid()
    ensures RouteOutcome(db.State(), reply, calls) == GenerateOnDemand(old(db.State()), req, renv)
  {
    var located := Locate(db.State(), req, renv);
    if located.Early? {
      return located.reply, 0;
    }
    var e, a := located.entry, located.article;
    var env := renv.services;
    var cached := Cached(db.State(), a);
    if |cached| > 0 {
      return Respond(200, CachedMessage, Some(cached), Some(a.title)), 0;
    }
    if !HasTextForAi(a) {
      return Respond(400, NoContentMessage, None, None), 0;
    }
    var inputs := OnDemandInput(a, req.sourceKey);
    var outcome, sleeps, n := GenerateQuestionsForBatch(inputs, ArticleProcessor.Respond(env, inputs), env.parse);
    assert Run(outcome, sleeps, n) == OnDemandRun(a, req.sourceKey, env);
    calls := n;
    match outcome {
      case Threw(_) =>
        reply := SaveAndReply(db, e.modelName, Flag(a), env.fault, Respond(500, GenerationFailedMessage, None, None), calls);
      case Returned(json) =>
        var qs := QuestionsFor(json, a.id);
        if qs.Some? && |qs.value| > 0 {
          if env.fault(InsertFails(a.id)) {
            return NoResponse, calls;
          }
          var drafts := Drafts(a, req.sourceKey, e.modelName, qs.value);
          var next := db.nextQuestionId;
          var ids, ok := db.InsertQuestions(drafts);
          if !ok {
            return NoResponse, calls;
          }
          var docs := if AllValid(drafts) then MaterializeAll(drafts, next) else [];
          reply := SaveAndReply(db, e.modelName, Stamped(a, ids, env.now), env.fault,
                                Respond(200, GeneratedMessage, Some(docs), Some(a.title)), calls);
        } else {
          reply := SaveAndReply(db, e.modelName, Flag(a), env.fault, Respond(200, NoneGeneratedMessage, Some([]), None), calls);
        }
    }
  }
}
