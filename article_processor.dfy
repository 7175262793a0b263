/** services/articleProcessor.js: one question-generation cycle. For each
    configured source, up to five articles that still need questions are
    sent to the AI service in one batch; a failed batch flags them all, and
    otherwise each article's returned questions replace its old ones.
    Database failures are the parameter `fault`, the Gemini API the
    parameter `gemini`, `JSON.parse` the parameter `parse`, and the clock
    the parameter `now`. */
module ArticleProcessor {
  import opened Wrappers
  import opened Sorting
  import opened Sources
  import opened Store
  import opened AiService

  const MaxArticlesForAiPerRun := 5

  /** A database operation that throws. */
  datatype DbFault =
    | QueryFails(model: string)
    | LookupFails(model: string, id: ArticleId)
    | SaveFails(model: string, id: ArticleId)
    | DeleteFails(id: ArticleId)
    | InsertFails(id: ArticleId)

  datatype Env = Env(
    fault: DbFault -> bool,
    gemini: (seq<BatchInput>, nat) -> Attempt,
    parse: string -> ParseResult,
    now: int)

  /** The database after a step, and whether the step threw out of the
      current source's block (the source's remaining work is skipped). */
  datatype Flow = Flow(db: Db, aborted: bool)

  // ---- candidate selection (services/articleProcessor.js:29-41) ----

  predicate NeedsQuestions(a: Article) {
    a.questions.None? || a.questions == Some([]) || a.questionsGenerationFailed
  }

  /** `{ $exists: true, $ne: null, $ne: "" }`: the second `$ne` replaces the
      first in the object literal, so only absent and empty values fail. */
  predicate Sendable(f: Field) {
    f != Missing && f != Str("")
  }

  predicate IsCandidate(a: Article) {
    NeedsQuestions(a) && Sendable(a.title) && Sendable(a.link)
  }

  function FilterCandidates(coll: seq<Article>): (r: seq<Article>)
    ensures forall a :: a in r <==> a in coll && IsCandidate(a)
  {
    if coll == [] then []
    else if IsCandidate(coll[0]) then [coll[0]] + FilterCandidates(coll[1..])
    else FilterCandidates(coll[1..])
  }

  function CreatedKey(a: Article): Key {
    Key(a.createdAt, 0)
  }

  function Take<T>(s: seq<T>, n: nat): (r: seq<T>)
    ensures |r| == if |s| <= n then |s| else n
    ensures r == s[..|r|]
  {
    if |s| <= n then s else s[..n]
  }

  /** The candidates: filtered, newest `createdAt` first, at most five
      (the query sorts before it limits, whatever the call order). */
  function CandidatesOf(coll: seq<Article>): seq<Article> {
    Take(SortDesc(FilterCandidates(coll), CreatedKey), MaxArticlesForAiPerRun)
  }

  /** At most five candidates, all of them eligible articles of the
      collection, newest first; and an eligible article left out means five
      were chosen, none of them older than it. */
  lemma CandidatesAreNewestEligible(coll: seq<Article>)
    ensures var r := CandidatesOf(coll);
      && |r| <= MaxArticlesForAiPerRun
      && (forall a :: a in r ==> a in coll && IsCandidate(a))
      && SortedDesc(r, CreatedKey)
      && (forall a :: a in coll && IsCandidate(a) && a !in r ==>
            |r| == MaxArticlesForAiPerRun && forall k :: 0 <= k < |r| ==> r[k].createdAt >= a.createdAt)
  {
    var f := FilterCandidates(coll);
    var s := SortDesc(f, CreatedKey);
    SortDescCorrect(f, CreatedKey);
    var r := Take(s, MaxArticlesForAiPerRun);
    forall a | a in r ensures a in coll && IsCandidate(a) {
      assert a in s;
      assert a in multiset(f);
    }
    forall a | a in coll && IsCandidate(a) && a !in r
      ensures |r| == MaxArticlesForAiPerRun && forall k :: 0 <= k < |r| ==> r[k].createdAt >= a.createdAt
    {
      assert a in multiset(s);
      var j :| 0 <= j < |s| && s[j] == a;
      assert j >= |r|;
      forall k | 0 <= k < |r| ensures r[k].createdAt >= a.createdAt {
        assert r[k] == s[k];
        assert KeyGe(CreatedKey(s[k]), CreatedKey(s[j]));
      }
    }
  }

  // ---- the batch (services/articleProcessor.js:55-66) ----

  function BatchInputs(cands: seq<Article>, sourceName: string): (r: seq<BatchInput>)
    ensures |r| == |cands|
    ensures forall k :: 0 <= k < |r| ==> r[k] == BatchInput(cands[k].id, cands[k].title, sourceName)
  {
    seq(|cands|, k requires 0 <= k < |cands| => BatchInput(cands[k].id, cands[k].title, sourceName))
  }

  function Respond(env: Env, inputs: seq<BatchInput>): nat -> Attempt {
    (k: nat) => env.gemini(inputs, k)
  }

  /** `aiGeneratedQuestions[article._id.toString()]`: only an object's own
      article-id key yields questions. */
  function QuestionsFor(j: Json, id: ArticleId): Option<seq<AiQuestion>> {
    if j.JObject? && id in j.byId then Some(j.byId[id]) else None
  }

  /** The Question documents built from one article's generated questions,
      labelled with `source` and `model`. */
  function Drafts(a: Article, source: string, model: string, qs: seq<AiQuestion>): (r: seq<QuestionDraft>)
    ensures |r| == |qs|
    ensures forall k :: 0 <= k < |r| ==>
      r[k] == QuestionDraft(a.id, source, model, a.title, qs[k].questionText, qs[k].options, qs[k].correctAnswer)
  {
    seq(|qs|, k requires 0 <= k < |qs| =>
      QuestionDraft(a.id, source, model, a.title, qs[k].questionText, qs[k].options, qs[k].correctAnswer))
  }

  // ---- steps ----

  /** `doc.save()` inside a `try` whose `catch` only logs. */
  function SaveCaught(db: Db, model: string, a: Article, fault: DbFault -> bool): Db {
    if fault(SaveFails(model, a.id)) || !ArticleValid(a) then db else SaveArticle(db, model, a)
  }

  /** Flags one candidate of a failed batch (services/articleProcessor.js:76-99).
      Both the success log and the `catch` log read the candidate's title,
      so a null title throws out of the source once the document is handled. */
  function MarkOne(db: Db, model: string, c: Article, fault: DbFault -> bool): Flow {
    var titleThrows := !c.title.Str?;
    if fault(LookupFails(model, c.id)) then Flow(db, titleThrows)
    else match FindArticle(db, model, c.id)
      case None => Flow(db, false)
      case Some(a) =>
        var a1 := a.(questionsGenerationFailed := true);
        if fault(SaveFails(model, c.id)) || !ArticleValid(a1) then Flow(db, titleThrows)
        else Flow(SaveArticle(db, model, a1), titleThrows)
  }

  function MarkAll(db: Db, model: string, cands: seq<Article>, fault: DbFault -> bool): Flow
    decreases |cands|
  {
    if cands == [] then Flow(db, false)
    else
      var st := MarkOne(db, model, cands[0], fault);
      if st.aborted then st else MarkAll(st.db, model, cands[1..], fault)
  }

  /** Stores one candidate's returned questions, or flags it when none came
      back (services/articleProcessor.js:104-190). */
  function ApplyOne(db: Db, e: SourceEntry, c: Article, json: Json, env: Env): Flow {
    var model := e.modelName;
    if env.fault(LookupFails(model, c.id)) then Flow(db, true)
    else match FindArticle(db, model, c.id)
      case None => Flow(db, false)
      case Some(a) =>
        var qs := QuestionsFor(json, a.id);
        if !a.title.Str? then Flow(db, true)   // the log line reads `article.title.substring`
        else if qs.Some? && |qs.value| > 0 then StoreQuestions(db, e, a, qs.value, env)
        else Flow(SaveCaught(db, model, a.(questionsGenerationFailed := true), env.fault), false)
  }

  /** The article already has questions or a failed attempt, so its old
      Question documents are deleted first. */
  predicate Regenerating(a: Article) {
    (a.questions.Some? && |a.questions.value| > 0) || a.questionsGenerationFailed
  }

  /** services/articleProcessor.js:125-158: delete the old questions when
      regenerating, insert the new ones, point the article at them. */
  function StoreQuestions(db: Db, e: SourceEntry, a: Article, qs: seq<AiQuestion>, env: Env): Flow {
    if Regenerating(a) && env.fault(DeleteFails(a.id)) then Flow(db, true)
    else
      var db1 := if Regenerating(a) then DeleteQuestionsOf(db, a.id) else db;
      var a1 := if Regenerating(a) then a.(questions := Some([])) else a;
      if env.fault(InsertFails(a.id)) then Flow(db1, true)
      else InsertAndSave(db1, e, a1, qs, env)
  }

  /** The article after a successful insert. */
  function Stamped(a: Article, ids: seq<QuestionId>, now: int): Article {
    a.(questions := Some(ids), lastGeneratedQuestionsAt := Some(now), questionsGenerationFailed := false)
  }

  function InsertAndSave(db: Db, e: SourceEntry, a: Article, qs: seq<AiQuestion>, env: Env): Flow {
    var ins := InsertMany(db, Drafts(a, e.sourceName, e.modelName, qs));
    if !ins.ok then Flow(ins.db, true)
    else Flow(SaveCaught(ins.db, e.modelName, Stamped(a, ins.ids, env.now), env.fault), false)
  }

  function ApplyAll(db: Db, e: SourceEntry, cands: seq<Article>, json: Json, env: Env): Flow
    decreases |cands|
  {
    if cands == [] then Flow(db, false)
    else
      var st := ApplyOne(db, e, cands[0], json, env);
      if st.aborted then st else ApplyAll(st.db, e, cands[1..], json, env)
  }

  /** The AI service's outcome for a batch. */
  function BatchOutcomeOf(inputs: seq<BatchInput>, env: Env): BatchOutcome {
    BatchSpec(inputs, Respond(env, inputs), env.parse, RetryInfoTypeAsWritten).outcome
  }

  /** One source's block (services/articleProcessor.js:27-196). */
  function ProcessSource(db: Db, e: SourceEntry, env: Env): Db {
    if env.fault(QueryFails(e.modelName)) then db
    else
      var cands := CandidatesOf(Collection(db, e.modelName));
      if cands == [] then db
      else
        match BatchOutcomeOf(BatchInputs(cands, e.sourceName), env)
        case Threw(_) =>
          // the `catch` block's first log line reads the first title
          if !cands[0].title.Str? then db else MarkAll(db, e.modelName, cands, env.fault).db
        case Returned(json) => ApplyAll(db, e, cands, json, env).db
  }

  /** The whole cycle: every configured source in registry order. */
  function ProcessAll(db: Db, entries: seq<SourceEntry>, env: Env): Db
    decreases |entries|
  {
    if entries == [] then db else ProcessAll(ProcessSource(db, entries[0], env), entries[1..], env)
  }

  // ---- what a cycle may change ----

  /** Only `model`'s collection and the Question collection may differ. */
  ghost predicate Confined(db: Db, r: Db, model: string) {
    && r.nextArticleId == db.nextArticleId
    && (forall m :: m != model ==> Collection(r, m) == Collection(db, m))
  }

  lemma SaveCaughtSafe(db: Db, model: string, a: Article, fault: DbFault -> bool)
    requires WellFormed(db)
    ensures var r := SaveCaught(db, model, a, fault);
      WellFormed(r) && Confined(db, r, model) && r.questions == db.questions
  {
    SaveKeepsWellFormed(db, model, a);
  }

  lemma MarkOneSafe(db: Db, model: string, c: Article, fault: DbFault -> bool)
    requires WellFormed(db)
    ensures var r := MarkOne(db, model, c, fault).db;
      WellFormed(r) && Confined(db, r, model) && r.questions == db.questions
  {
    var f := FindArticle(db, model, c.id);
    if f.Some? {
      SaveKeepsWellFormed(db, model, f.value.(questionsGenerationFailed := true));
    }
  }

  /** Flagging a failed batch keeps the store invariant, touches no other
      collection and leaves the Question collection alone. */
  lemma {:induction false} MarkAllSafe(db: Db, model: string, cands: seq<Article>, fault: DbFault -> bool)
    requires WellFormed(db)
    ensures var r := MarkAll(db, model, cands, fault).db;
      WellFormed(r) && Confined(db, r, model) && r.questions == db.questions
    decreases |cands|
  {
    if cands != [] {
      MarkOneSafe(db, model, cands[0], fault);
      var st := MarkOne(db, model, cands[0], fault);
      if !st.aborted {
        MarkAllSafe(st.db, model, cands[1..], fault);
      }
    }
  }

  lemma InsertAndSaveSafe(db: Db, e: SourceEntry, a: Article, qs: seq<AiQuestion>, env: Env)
    requires WellFormed(db)
    ensures var r := InsertAndSave(db, e, a, qs, env).db;
      WellFormed(r) && Confined(db, r, e.modelName)
  {
    InsertManyKeepsWellFormed(db, Drafts(a, e.sourceName, e.modelName, qs));
    var ins := InsertMany(db, Drafts(a, e.sourceName, e.modelName, qs));
    SaveCaughtSafe(ins.db, e.modelName, Stamped(a, ins.ids, env.now), env.fault);
  }

  lemma StoreQuestionsSafe(db: Db, e: SourceEntry, a: Article, qs: seq<AiQuestion>, env: Env)
    requires WellFormed(db)
    ensures var r := StoreQuestions(db, e, a, qs, env).db;
      WellFormed(r) && Confined(db, r, e.modelName)
  {
    if Regenerating(a) {
      if !env.fault(DeleteFails(a.id)) {
        DeleteKeepsWellFormed(db, a.id);
        InsertAndSaveSafe(DeleteQuestionsOf(db, a.id), e, a.(questions := Some([])), qs, env);
      }
    } else {
      InsertAndSaveSafe(db, e, a, qs, env);
    }
  }

  lemma ApplyOneSafe(db: Db, e: SourceEntry, c: Article, json: Json, env: Env)
    requires WellFormed(db)
    ensures var r := ApplyOne(db, e, c, json, env).db;
      WellFormed(r) && Confined(db, r, e.modelName)
  {
    var f := FindArticle(db, e.modelName, c.id);
    if f.Some? {
      var a := f.value;
      var qs := QuestionsFor(json, a.id);
      if qs.Some? && |qs.value| > 0 {
        StoreQuestionsSafe(db, e, a, qs.value, env);
      }
      SaveCaughtSafe(db, e.modelName, a.(questionsGenerationFailed := true), env.fault);
    }
  }

  lemma {:induction false} ApplyAllSafe(db: Db, e: SourceEntry, cands: seq<Article>, json: Json, env: Env)
    requires WellFormed(db)
    ensures var r := ApplyAll(db, e, cands, json, env).db;
      WellFormed(r) && Confined(db, r, e.modelName)
    decreases |cands|
  {
    if cands != [] {
      ApplyOneSafe(db, e, cands[0], json, env);
      var st := ApplyOne(db, e, cands[0], json, env);
      if !st.aborted {
        ApplyAllSafe(st.db, e, cands[1..], json, env);
      }
    }
  }

  /** A source's block keeps the store invariant and changes no other
      source's collection. */
  lemma ProcessSourceSafe(db: Db, e: SourceEntry, env: Env)
    requires WellFormed(db)
    ensures var r := ProcessSource(db, e, env);
      WellFormed(r) && Confined(db, r, e.modelName)
  {
    var cands := CandidatesOf(Collection(db, e.modelName));
    MarkAllSafe(db, e.modelName, cands, env.fault);
    if !env.fault(QueryFails(e.modelName)) && cands != [] {
      var out := BatchOutcomeOf(BatchInputs(cands, e.sourceName), env);
      if out.Returned? {
        ApplyAllSafe(db, e, cands, out.json, env);
      }
    }
  }

  /** The whole cycle keeps the store invariant: question ids stay unique
      and no two questions of an article share their text. */
  lemma {:induction false} ProcessAllKeepsWellFormed(db: Db, entries: seq<SourceEntry>, env: Env)
    requires WellFormed(db)
    ensures WellFormed(ProcessAll(db, entries, env))
    ensures ProcessAll(db, entries, env).nextArticleId == db.nextArticleId
    decreases |entries|
  {
    if entries != [] {
      ProcessSourceSafe(db, entries[0], env);
      ProcessAllKeepsWellFormed(ProcessSource(db, entries[0], env), entries[1..], env);
    }
  }

  // ---- only candidates are touched ----

  lemma SaveCaughtOthers(db: Db, model: string, a: Article, fault: DbFault -> bool, id: ArticleId)
    requires FindArticle(db, model, a.id).Some? && id != a.id
    ensures FindArticle(SaveCaught(db, model, a, fault), model, id) == FindArticle(db, model, id)
  {
    FindAfterSave(db, model, a, id);
  }

  lemma MarkOneOthers(db: Db, model: string, c: Article, fault: DbFault -> bool, id: ArticleId)
    requires id != c.id
    ensures FindArticle(MarkOne(db, model, c, fault).db, model, id) == FindArticle(db, model, id)
  {
    var f := FindArticle(db, model, c.id);
    if f.Some? {
      FindAfterSave(db, model, f.value.(questionsGenerationFailed := true), id);
    }
  }

  lemma StoreQuestionsOthers(db: Db, e: SourceEntry, a: Article, qs: seq<AiQuestion>, env: Env, id: ArticleId)
    requires FindArticle(db, e.modelName, a.id).Some? && id != a.id
    ensures FindArticle(StoreQuestions(db, e, a, qs, env).db, e.modelName, id) == FindArticle(db, e.modelName, id)
  {
    if Regenerating(a) {
      if !env.fault(DeleteFails(a.id)) {
        InsertAndSaveOthers(DeleteQuestionsOf(db, a.id), e, a.(questions := Some([])), qs, env, id);
      }
    } else {
      InsertAndSaveOthers(db, e, a, qs, env, id);
    }
  }

  lemma InsertAndSaveOthers(db: Db, e: SourceEntry, a: Article, qs: seq<AiQuestion>, env: Env, id: ArticleId)
    requires FindArticle(db, e.modelName, a.id).Some? && id != a.id
    ensures FindArticle(InsertAndSave(db, e, a, qs, env).db, e.modelName, id) == FindArticle(db, e.modelName, id)
  {
    var ins := InsertMany(db, Drafts(a, e.sourceName, e.modelName, qs));
    assert Collection(ins.db, e.modelName) == Collection(db, e.modelName);
    SaveCaughtOthers(ins.db, e.modelName, Stamped(a, ins.ids, env.now), env.fault, id);
  }

  lemma ApplyOneOthers(db: Db, e: SourceEntry, c: Article, json: Json, env: Env, id: ArticleId)
    requires id != c.id
    ensures FindArticle(ApplyOne(db, e, c, json, env).db, e.modelName, id) == FindArticle(db, e.modelName, id)
  {
    var f := FindArticle(db, e.modelName, c.id);
    if f.Some? {
      var a := f.value;
      var qs := QuestionsFor(json, a.id);
      if qs.Some? && |qs.value| > 0 {
        StoreQuestionsOthers(db, e, a, qs.value, env, id);
      }
      SaveCaughtOthers(db, e.modelName, a.(questionsGenerationFailed := true), env.fault, id);
    }
  }

  predicate NotAmong(id: ArticleId, cands: seq<Article>) {
    forall c :: c in cands ==> c.id != id
  }

  lemma {:induction false} MarkAllOthers(db: Db, model: string, cands: seq<Article>, fault: DbFault -> bool, id: ArticleId)
    requires NotAmong(id, cands)
    ensures FindArticle(MarkAll(db, model, cands, fault).db, model, id) == FindArticle(db, model, id)
    decreases |cands|
  {
    if cands != [] {
      assert cands[0] in cands;
      MarkOneOthers(db, model, cands[0], fault, id);
      var st := MarkOne(db, model, cands[0], fault);
      if !st.aborted {
        MarkAllOthers(st.db, model, cands[1..], fault, id);
      }
    }
  }

  lemma {:induction false} ApplyAllOthers(db: Db, e: SourceEntry, cands: seq<Article>, json: Json, env: Env, id: ArticleId)
    requires NotAmong(id, cands)
    ensures FindArticle(ApplyAll(db, e, cands, json, env).db, e.modelName, id) == FindArticle(db, e.modelName, id)
    decreases |cands|
  {
    if cands != [] {
      assert cands[0] in cands;
      ApplyOneOthers(db, e, cands[0], json, env, id);
      var st := ApplyOne(db, e, cands[0], json, env);
      if !st.aborted {
        ApplyAllOthers(st.db, e, cands[1..], json, env, id);
      }
    }
  }

  /** A source's block modifies no article of its collection other than
      the chosen candidates. */
  lemma ProcessSourceOnlyCandidates(db: Db, e: SourceEntry, env: Env, id: ArticleId)
    requires NotAmong(id, CandidatesOf(Collection(db, e.modelName)))
    ensures FindArticle(ProcessSource(db, e, env), e.modelName, id) == FindArticle(db, e.modelName, id)
  {
    var cands := CandidatesOf(Collection(db, e.modelName));
    MarkAllOthers(db, e.modelName, cands, env.fault, id);
    if !env.fault(QueryFails(e.modelName)) && cands != [] {
      var out := BatchOutcomeOf(BatchInputs(cands, e.sourceName), env);
      if out.Returned? {
        ApplyAllOthers(db, e, cands, out.json, env, id);
      }
    }
  }

  // ---- outcomes ----

  function Flag(a: Article): Article {
    a.(questionsGenerationFailed := true)
  }

  /** No database call of the flagging loop throws and every candidate's
      title is a string, so none of its log lines throws. */
  predicate MarkRunsClean(model: string, cands: seq<Article>, fault: DbFault -> bool) {
    forall c :: c in cands ==> !fault(LookupFails(model, c.id)) && !fault(SaveFails(model, c.id)) && c.title.Str?
  }

  lemma MarkOneFlags(db: Db, model: string, c: Article, fault: DbFault -> bool)
    requires !fault(LookupFails(model, c.id)) && !fault(SaveFails(model, c.id)) && c.title.Str?
    ensures var r := MarkOne(db, model, c, fault);
      && !r.aborted && r.db.questions == db.questions
      && (FindArticle(db, model, c.id).Some? && ArticleValid(Flag(FindArticle(db, model, c.id).value)) ==>
            FindArticle(r.db, model, c.id) == Some(Flag(FindArticle(db, model, c.id).value)))
  {
    var f := FindArticle(db, model, c.id);
    if f.Some? && ArticleValid(Flag(f.value)) {
      FindAfterSave(db, model, Flag(f.value), c.id);
    }
  }

  /** When the batch fails and nothing else throws, every candidate that
      can be saved ends up flagged, and no question is written. */
  lemma {:induction false} MarkAllFlags(db: Db, model: string, cands: seq<Article>, fault: DbFault -> bool)
    requires MarkRunsClean(model, cands, fault)
    ensures var r := MarkAll(db, model, cands, fault);
      && !r.aborted && r.db.questions == db.questions
      && forall c :: c in cands && FindArticle(db, model, c.id).Some? && ArticleValid(Flag(FindArticle(db, model, c.id).value)) ==>
            FindArticle(r.db, model, c.id) == Some(Flag(FindArticle(db, model, c.id).value))
    decreases |cands|
  {
    if cands != [] {
      var c0 := cands[0];
      assert c0 in cands;
      MarkOneFlags(db, model, c0, fault);
      var st := MarkOne(db, model, c0, fault);
      var rest := cands[1..];
      assert MarkRunsClean(model, rest, fault) by {
        forall c | c in rest ensures c in cands { }
      }
      MarkAllFlags(st.db, model, rest, fault);
      var r := MarkAll(st.db, model, rest, fault);
      forall c | c in cands && FindArticle(db, model, c.id).Some? && ArticleValid(Flag(FindArticle(db, model, c.id).value))
        ensures FindArticle(r.db, model, c.id) == Some(Flag(FindArticle(db, model, c.id).value))
      {
        var a := FindArticle(db, model, c.id).value;
        if c.id != c0.id {
          MarkOneOthers(db, model, c0, fault, c.id);
        }
        assert FindArticle(st.db, model, c.id) == Some(if c.id == c0.id then Flag(a) else a);
        if exists c' :: c' in rest && c'.id == c.id {
          var c' :| c' in rest && c'.id == c.id;
          assert Flag(Flag(a)) == Flag(a);
        } else {
          MarkAllOthers(st.db, model, rest, fault, c.id);
        }
      }
    }
  }

  /** A source whose batch fails, with no other fault, flags every
      candidate that can be saved and writes no question. */
  lemma FailedBatchFlagsCandidates(db: Db, e: SourceEntry, env: Env)
    requires !env.fault(QueryFails(e.modelName))
    requires var cands := CandidatesOf(Collection(db, e.modelName));
      && cands != []
      && BatchOutcomeOf(BatchInputs(cands, e.sourceName), env).Threw?
      && MarkRunsClean(e.modelName, cands, env.fault)
    ensures var cands := CandidatesOf(Collection(db, e.modelName));
      var r := ProcessSource(db, e, env);
      && r.questions == db.questions
      && forall c :: c in cands && FindArticle(db, e.modelName, c.id).Some?
                     && ArticleValid(Flag(FindArticle(db, e.modelName, c.id).value)) ==>
           FindArticle(r, e.modelName, c.id) == Some(Flag(FindArticle(db, e.modelName, c.id).value))
  {
    var cands := CandidatesOf(Collection(db, e.modelName));
    assert cands[0] in cands;
    MarkAllFlags(db, e.modelName, cands, env.fault);
  }

  /** As written, a failed batch whose first candidate has a null title
      flags nothing: the `catch` block's log line throws first. */
  lemma FailedBatchNullTitleFlagsNothing(db: Db, e: SourceEntry, env: Env)
    requires !env.fault(QueryFails(e.modelName))
    requires var cands := CandidatesOf(Collection(db, e.modelName));
      && cands != [] && cands[0].title == Null
      && BatchOutcomeOf(BatchInputs(cands, e.sourceName), env).Threw?
    ensures ProcessSource(db, e, env) == db
  {
  }

  /** No database call of the article's step throws. */
  predicate ApplyRunsClean(model: string, id: ArticleId, fault: DbFault -> bool) {
    !fault(LookupFails(model, id)) && !fault(SaveFails(model, id)) && !fault(DeleteFails(id)) && !fault(InsertFails(id))
  }

  lemma DraftsIgnoreQuestions(a: Article, e: SourceEntry, qs: seq<AiQuestion>)
    ensures Drafts(a.(questions := Some([])), e.sourceName, e.modelName, qs) == Drafts(a, e.sourceName, e.modelName, qs)
  {
  }

  /** The insert-and-save stage without faults: it succeeds exactly when
      `insertMany` does, and then the documents are appended and the
      article points at their ids. */
  lemma InsertAndSaveStores(db: Db, e: SourceEntry, a: Article, qs: seq<AiQuestion>, env: Env)
    requires !env.fault(SaveFails(e.modelName, a.id))
    requires FindArticle(db, e.modelName, a.id).Some?
    ensures var ins := InsertMany(db, Drafts(a, e.sourceName, e.modelName, qs));
      var r := InsertAndSave(db, e, a, qs, env);
      && r.aborted == !ins.ok
      && (ins.ok ==>
            && r.db.questions == db.questions + MaterializeAll(Drafts(a, e.sourceName, e.modelName, qs), db.nextQuestionId)
            && (ArticleValid(Stamped(a, ins.ids, env.now)) ==>
                  FindArticle(r.db, e.modelName, a.id) == Some(Stamped(a, IdRange(db.nextQuestionId, |qs|), env.now))))
  {
    var ins := InsertMany(db, Drafts(a, e.sourceName, e.modelName, qs));
    if ins.ok {
      InsertManyContents(db, Drafts(a, e.sourceName, e.modelName, qs));
      assert Collection(ins.db, e.modelName) == Collection(db, e.modelName);
      FindAfterSave(ins.db, e.modelName, Stamped(a, ins.ids, env.now), a.id);
    }
  }

  /** An article the reply has questions for: its old questions are deleted
      when regenerating; the step succeeds exactly when `insertMany`
      does, and then the new documents are appended and the article points
      at them, cleared of its failure flag and stamped with `now`. */
  lemma ApplyOneStores(db: Db, e: SourceEntry, c: Article, json: Json, env: Env, a: Article, qs: seq<AiQuestion>)
    requires ApplyRunsClean(e.modelName, c.id, env.fault)
    requires FindArticle(db, e.modelName, c.id) == Some(a) && a.title.Str?
    requires QuestionsFor(json, a.id) == Some(qs) && |qs| > 0
    ensures var db1 := if Regenerating(a) then DeleteQuestionsOf(db, a.id) else db;
      var a1 := if Regenerating(a) then a.(questions := Some([])) else a;
      var ins := InsertMany(db1, Drafts(a, e.sourceName, e.modelName, qs));
      var r := ApplyOne(db, e, c, json, env);
      && (Regenerating(a) ==> forall q :: q in db1.questions ==> q.articleId != a.id)
      && r.aborted == !ins.ok
      && (ins.ok ==>
            && r.db.questions == db1.questions + MaterializeAll(Drafts(a, e.sourceName, e.modelName, qs), db.nextQuestionId)
            && (ArticleValid(Stamped(a1, ins.ids, env.now)) ==>
                  FindArticle(r.db, e.modelName, a.id) == Some(Stamped(a1, IdRange(db.nextQuestionId, |qs|), env.now))))
  {
    DraftsIgnoreQuestions(a, e, qs);
    var db1 := if Regenerating(a) then DeleteQuestionsOf(db, a.id) else db;
    var a1 := if Regenerating(a) then a.(questions := Some([])) else a;
    assert ApplyOne(db, e, c, json, env) == StoreQuestions(db, e, a, qs, env);
    assert StoreQuestions(db, e, a, qs, env) == InsertAndSave(db1, e, a1, qs, env);
    assert Collection(db1, e.modelName) == Collection(db, e.modelName);
    InsertAndSaveStores(db1, e, a1, qs, env);
  }

  /** An article the reply has no questions for is flagged (when it can be
      saved) and no question is written. */
  lemma ApplyOneFlagsMissing(db: Db, e: SourceEntry, c: Article, json: Json, env: Env, a: Article)
    requires ApplyRunsClean(e.modelName, c.id, env.fault)
    requires FindArticle(db, e.modelName, c.id) == Some(a) && a.title.Str?
    requires QuestionsFor(json, a.id).None? || QuestionsFor(json, a.id) == Some([])
    ensures var r := ApplyOne(db, e, c, json, env);
      && !r.aborted && r.db.questions == db.questions
      && (ArticleValid(Flag(a)) ==> FindArticle(r.db, e.modelName, a.id) == Some(Flag(a)))
  {
    if ArticleValid(Flag(a)) {
      FindAfterSave(db, e.modelName, Flag(a), a.id);
    }
  }

  /** As written, when regeneration deletes an article's old questions and
      the insert then throws, the article is left as it was (still listing
      the deleted ids, flags unchanged) and none of its questions remain. */
  lemma DeleteThenInsertFailureGap(db: Db, e: SourceEntry, c: Article, json: Json, env: Env, a: Article)
    requires !env.fault(LookupFails(e.modelName, c.id)) && !env.fault(DeleteFails(c.id)) && env.fault(InsertFails(c.id))
    requires FindArticle(db, e.modelName, c.id) == Some(a) && a.title.Str? && Regenerating(a)
    requires QuestionsFor(json, a.id).Some? && |QuestionsFor(json, a.id).value| > 0
    ensures var r := ApplyOne(db, e, c, json, env);
      && r.aborted
      && FindArticle(r.db, e.modelName, a.id) == Some(a)
      && forall q :: q in r.db.questions ==> q.articleId != a.id
  {
  }

  // ---- the cycle over the mutable database ----

  /** One iteration of the flagging loop (services/articleProcessor.js:77-98). */
  method MarkOneStep(db: Database, model: string, c: Article, fault: DbFault -> bool) returns (aborted: bool)
    requires db.Valid()
    modifies db
    ensures db.Valid()
    ensures Flow(db.State(), aborted) == MarkOne(old(db.State()), model, c, fault)
  {
    var titleThrows := !c.title.Str?;
    if fault(LookupFails(model, c.id)) {
      return titleThrows;
    }
    var found := FindArticle(db.State(), model, c.id);
    match found {
      case None =>
        return false;
      case Some(a) =>
        if fault(SaveFails(model, c.id)) {
          return titleThrows;
        }
        var _ := db.Save(model, Flag(a));
        return titleThrows;
    }
  }

  /** One iteration of the per-article loop (services/articleProcessor.js:105-189). */
  method ApplyOneStep(db: Database, e: SourceEntry, c: Article, json: Json, env: Env) returns (aborted: bool)
    requires db.Valid()
    modifies db
    ensures db.Valid()
    ensures Flow(db.State(), aborted) == ApplyOne(old(db.State()), e, c, json, env)
  {
    var model := e.modelName;
    if env.fault(LookupFails(model, c.id)) {
      return true;
    }
    var found := FindArticle(db.State(), model, c.id);
    if found.None? {
      return false;
    }
    var article := found.value;
    var qs := QuestionsFor(json, article.id);
    if !article.title.Str? {
      return true;
    }
    if qs.Some? && |qs.value| > 0 {
      if Regenerating(article) {
        if env.fault(DeleteFails(article.id)) {
          return true;
        }
        db.DeleteMany(article.id);
        article := article.(questions := Some([]));
      }
      if env.fault(InsertFails(article.id)) {
        return true;
      }
      var ids, ok := db.InsertQuestions(Drafts(article, e.sourceName, e.modelName, qs.value));
      if !ok {
        return true;
      }
      article := Stamped(article, ids, env.now);
    } else {
      article := Flag(article);
    }
    if !env.fault(SaveFails(model, article.id)) {
      var _ := db.Save(model, article);
    }
    return false;
  }

  /** One source's block (services/articleProcessor.js:21-196). */
  method ProcessSourceStep(db: Database, e: SourceEntry, env: Env)
    requires db.Valid()
    modifies db
    ensures db.Valid()
    ensures db.State() == ProcessSource(old(db.State()), e, env)
  {
    var model := e.modelName;
    if env.fault(QueryFails(model)) {
      return;
    }
    var cands := CandidatesOf(Collection(db.State(), model));
    if |cands| == 0 {
      return;
    }
    var inputs := BatchInputs(cands, e.sourceName);
    var outcome, _, _ := GenerateQuestionsForBatch(inputs, Respond(env, inputs), env.parse);
    ghost var db0 := db.State();
    match outcome {
      case Threw(_) =>
        if !cands[0].title.Str? {
          return;
        }
        var i := 0;
        while i < |cands|
          invariant 0 <= i <= |cands| && db.Valid()
          invariant MarkAll(db0, model, cands, env.fault) == MarkAll(db.State(), model, cands[i..], env.fault)
          decreases |cands| - i
        {
          assert cands[i..][0] == cands[i] && cands[i..][1..] == cands[i + 1..];
          var aborted := MarkOneStep(db, model, cands[i], env.fault);
          if aborted {
            return;
          }
          i := i + 1;
        }
      case Returned(json) =>
        var i := 0;
        while i < |cands|
          invariant 0 <= i <= |cands| && db.Valid()
          invariant ApplyAll(db0, e, cands, json, env) == ApplyAll(db.State(), e, cands[i..], json, env)
          decreases |cands| - i
        {
          assert cands[i..][0] == cands[i] && cands[i..][1..] == cands[i + 1..];
          var aborted := ApplyOneStep(db, e, cands[i], json, env);
          if aborted {
            return;
          }
          i := i + 1;
        }
    }
  }

  /** `processArticlesForContentAndAI()`: every configured source in order
      (services/articleProcessor.js:14-201). */
  method ProcessArticlesForContentAndAI(db: Database, env: Env)
    requires db.Valid()
    modifies db
    ensures db.Valid()
    ensures db.State() == ProcessAll(old(db.State()), SourceConfig, env)
  {
    var i := 0;
    while i < |SourceConfig|
      invariant 0 <= i <= |SourceConfig| && db.Valid()
      invariant ProcessAll(old(db.State()), SourceConfig, env) == ProcessAll(db.State(), SourceConfig[i..], env)
      decreases |SourceConfig| - i
    {
      assert SourceConfig[i..][0] == SourceConfig[i] && SourceConfig[i..][1..] == SourceConfig[i + 1..];
      ProcessSourceStep(db, SourceConfig[i], env);
      i := i + 1;
    }
  }
}
