/** The in-memory stand-in for the MongoDB collections the backend reads
    and writes: one article collection per model and the shared Question
    collection, with the write primitives the code issues (`save`,
    `deleteMany({articleId})`, `insertMany`, `populate`). */
module Store {
  import opened Wrappers
  import opened Text
  import Sources

  type ArticleId = nat
  type QuestionId = nat

  /** A string field of a stored document as a query sees it: absent,
      explicitly null, or a string. */
  datatype Field = Missing | Null | Str(s: string)

  datatype Article = Article(
    id: ArticleId,
    title: Field,
    link: Field,
    description: Option<string>,
    imageUrl: Option<string>,
    content: Option<string>,
    pubDate: Option<int>,
    source: string,
    categories: seq<string>,
    isCurrentAffair: bool,
    currentAffairsCategory: string,
    questions: Option<seq<QuestionId>>,   // None: the array is absent
    questionsGenerationFailed: bool,
    lastGeneratedQuestionsAt: Option<int>,
    createdAt: int)

  /** A stored Question document (models/Question.js). */
  datatype Question = Question(
    id: QuestionId,
    articleId: ArticleId,
    articleSource: string,
    articleSourceModel: string,
    articleTitle: string,
    question: string,
    options: seq<string>,
    correctAnswer: string)

  /** A Question document as the code builds it, before schema casting. */
  datatype QuestionDraft = QuestionDraft(
    articleId: ArticleId,
    articleSource: string,
    articleSourceModel: string,
    articleTitle: Field,
    question: Option<string>,
    options: Option<seq<string>>,
    correctAnswer: Option<string>)

  /** The whole database: article collections keyed by model name, the
      Question collection in insertion order, and the next fresh ids. */
  datatype Db = Db(
    collections: map<string, seq<Article>>,
    questions: seq<Question>,
    nextQuestionId: nat,
    nextArticleId: nat)

  function Collection(db: Db, model: string): seq<Article> {
    if model in db.collections then db.collections[model] else []
  }

  /** Index of the first article with `id`, or -1. */
  function IndexOfArticle(coll: seq<Article>, id: ArticleId): (r: int)
    ensures -1 <= r < |coll|
    ensures r >= 0 ==> coll[r].id == id && forall k :: 0 <= k < r ==> coll[k].id != id
    ensures r == -1 ==> forall k :: 0 <= k < |coll| ==> coll[k].id != id
  {
    if coll == [] then -1
    else if coll[0].id == id then 0
    else var k := IndexOfArticle(coll[1..], id); if k == -1 then -1 else k + 1
  }

  /** `Model.findById(id)`. */
  function FindArticle(db: Db, model: string, id: ArticleId): (r: Option<Article>)
    ensures r.Some? ==> r.value in Collection(db, model) && r.value.id == id
    ensures r.None? ==> forall k :: 0 <= k < |Collection(db, model)| ==> Collection(db, model)[k].id != id
  {
    var i := IndexOfArticle(Collection(db, model), id);
    if i == -1 then None else Some(Collection(db, model)[i])
  }

  /** An article document passes schema validation (models/DNA.js:3-81 and
      its siblings): `title`, `link`, `pubDate` and `source` are required,
      and every category is in the enum. */
  predicate ArticleValid(a: Article) {
    && a.title.Str? && a.title.s != ""
    && a.link.Str? && a.link.s != ""
    && a.pubDate.Some?
    && JsTrim(a.source) != ""
    && (forall c :: c in a.categories ==> c in Sources.SchemaCategories)
    && a.currentAffairsCategory in Sources.SchemaCategories
  }

  /** `doc.save()` of a loaded document: the stored article with the same
      id is replaced; everything else is left alone. */
  function SaveArticle(db: Db, model: string, a: Article): (r: Db)
    ensures r.questions == db.questions && r.nextQuestionId == db.nextQuestionId
    ensures r.nextArticleId == db.nextArticleId
    ensures forall m :: m != model ==> Collection(r, m) == Collection(db, m)
    ensures |Collection(r, model)| == |Collection(db, model)|
    ensures forall k :: 0 <= k < |Collection(db, model)| ==>
      Collection(r, model)[k] == (if k == IndexOfArticle(Collection(db, model), a.id) then a else Collection(db, model)[k])
  {
    var coll := Collection(db, model);
    var i := IndexOfArticle(coll, a.id);
    if i == -1 then db
    else db.(collections := db.collections[model := coll[i := a]])
  }

  /** Replacing a document by one with the same id leaves every lookup by
      id pointing at the same position. */
  lemma IndexAfterUpdate(coll: seq<Article>, i: int, a: Article, id: ArticleId)
    requires 0 <= i < |coll| && coll[i].id == a.id
    ensures IndexOfArticle(coll[i := a], id) == IndexOfArticle(coll, id)
  {
    var r1 := IndexOfArticle(coll[i := a], id);
    var r2 := IndexOfArticle(coll, id);
    assert forall k :: 0 <= k < |coll| ==> coll[i := a][k].id == coll[k].id;
  }

  /** After saving a loaded document, looking up its id finds the saved
      version and every other lookup is unchanged. */
  lemma FindAfterSave(db: Db, model: string, a: Article, id: ArticleId)
    requires FindArticle(db, model, a.id).Some?
    ensures FindArticle(SaveArticle(db, model, a), model, id) == if id == a.id then Some(a) else FindArticle(db, model, id)
  {
    var coll := Collection(db, model);
    var i := IndexOfArticle(coll, a.id);
    IndexAfterUpdate(coll, i, a, id);
    assert Collection(SaveArticle(db, model, a), model) == coll[i := a];
  }

  /** Saving a loaded document keeps the store invariant. */
  lemma SaveKeepsWellFormed(db: Db, model: string, a: Article)
    requires WellFormed(db)
    ensures WellFormed(SaveArticle(db, model, a))
  {
    var coll := Collection(db, model);
    var i := IndexOfArticle(coll, a.id);
    if i != -1 {
      assert coll == db.collections[model];
      var r := SaveArticle(db, model, a);
      forall m, k | m in r.collections && 0 <= k < |r.collections[m]| ensures r.collections[m][k].id < r.nextArticleId {
        if m == model {
          assert r.collections[m] == coll[i := a];
          assert coll[i := a][k].id == coll[k].id;
        } else {
          assert r.collections[m] == db.collections[m];
        }
      }
    }
  }

  /** `Question.deleteMany({articleId: id})`. */
  function DeleteQuestionsOf(db: Db, id: ArticleId): (r: Db)
    ensures r.collections == db.collections && r.nextQuestionId == db.nextQuestionId
    ensures r.nextArticleId == db.nextArticleId
    ensures forall q :: q in r.questions <==> q in db.questions && q.articleId != id
  {
    db.(questions := RemoveFor(db.questions, id))
  }

  function RemoveFor(qs: seq<Question>, id: ArticleId): (r: seq<Question>)
    ensures forall q :: q in r <==> q in qs && q.articleId != id
    ensures |r| <= |qs|
  {
    if qs == [] then []
    else if qs[0].articleId == id then RemoveFor(qs[1..], id)
    else [qs[0]] + RemoveFor(qs[1..], id)
  }

  /** Mongoose's `required` test on a string after the schema's `trim`. */
  predicate RequiredText(s: Option<string>) {
    s.Some? && JsTrim(s.value) != ""
  }

  /** A draft passes schema validation (models/Question.js:5-54): the
      required strings are present and non-blank after trimming and the
      model name is in the enum. A missing `options` array takes the
      array default `[]`, which `required` accepts. */
  predicate ValidDraft(d: QuestionDraft) {
    && d.articleTitle.Str? && d.articleTitle.s != ""
    && RequiredText(Some(d.articleSource))
    && d.articleSourceModel in Sources.ModelNames
    && RequiredText(d.question)
    && RequiredText(d.correctAnswer)
  }

  /** Every draft of a batch passes validation. */
  predicate AllValid(drafts: seq<QuestionDraft>) {
    forall d :: d in drafts ==> ValidDraft(d)
  }

  /** The document the schema stores for a valid draft: `articleSource` is
      trimmed and lower-cased, `question` and `correctAnswer` trimmed. */
  function Materialize(d: QuestionDraft, id: QuestionId): Question
    requires ValidDraft(d)
  {
    Question(id, d.articleId, Lower(JsTrim(d.articleSource)), d.articleSourceModel,
             d.articleTitle.s, JsTrim(d.question.value), d.options.GetOr([]), JsTrim(d.correctAnswer.value))
  }

  /** Some stored question already has this (articleId, question) pair,
      the compound unique index of models/Question.js. */
  predicate HasPair(qs: seq<Question>, articleId: ArticleId, text: string) {
    exists q :: q in qs && q.articleId == articleId && q.question == text
  }

  /** The result of an ordered bulk insert: the new collection, the ids
      handed back, the next fresh id, and whether the call succeeded. */
  datatype Inserted = Inserted(questions: seq<Question>, ids: seq<QuestionId>, next: nat, ok: bool)

  /** Ordered insertion after validation: documents go in one by one until
      one would break the unique index; the ones before it stay inserted. */
  function InsertFrom(qs: seq<Question>, next: nat, drafts: seq<QuestionDraft>): (r: Inserted)
    requires AllValid(drafts)
    ensures r.ok ==> |r.ids| == |drafts|
    ensures r.next >= next
    decreases |drafts|
  {
    if drafts == [] then Inserted(qs, [], next, true)
    else
      var q := Materialize(drafts[0], next);
      if HasPair(qs, q.articleId, q.question) then Inserted(qs, [], next, false)
      else
        var rest := InsertFrom(qs + [q], next + 1, drafts[1..]);
        Inserted(rest.questions, [q.id] + rest.ids, rest.next, rest.ok)
  }

  datatype InsertResult = InsertResult(db: Db, ids: seq<QuestionId>, ok: bool)

  /** `Question.insertMany(drafts)`: an invalid draft rejects the whole call
      before anything is written; otherwise ordered insertion. */
  function InsertMany(db: Db, drafts: seq<QuestionDraft>): (r: InsertResult)
    ensures r.db.collections == db.collections && r.db.nextArticleId == db.nextArticleId
    ensures r.ok ==> |r.ids| == |drafts|
  {
    if !AllValid(drafts) then InsertResult(db, [], false)
    else
      var r := InsertFrom(db.questions, db.nextQuestionId, drafts);
      InsertResult(db.(questions := r.questions, nextQuestionId := r.next), r.ids, r.ok)
  }

  /** `.populate("questions")`: the referenced documents in reference order,
      dropping ids whose document no longer exists. */
  function Populate(qs: seq<Question>, ids: seq<QuestionId>): (r: seq<Question>)
    ensures |r| <= |ids|
    ensures forall q :: q in r ==> q in qs && q.id in ids
  {
    if ids == [] then []
    else
      var k := QuestionIndex(qs, ids[0]);
      var rest := Populate(qs, ids[1..]);
      if k == -1 then rest else [qs[k]] + rest
  }

  function QuestionIndex(qs: seq<Question>, id: QuestionId): (r: int)
    ensures -1 <= r < |qs|
    ensures r >= 0 ==> qs[r].id == id
    ensures r == -1 ==> forall k :: 0 <= k < |qs| ==> qs[k].id != id
  {
    if qs == [] then -1
    else if qs[0].id == id then 0
    else var k := QuestionIndex(qs[1..], id); if k == -1 then -1 else k + 1
  }

  /** The Question collection's invariant: every id is below the allocator,
      and no later document repeats an earlier one's id or its
      (articleId, question) pair. */
  ghost predicate QuestionsOk(qs: seq<Question>, next: nat)
    decreases |qs|
  {
    qs == [] ||
    (&& qs[0].id < next
     && (forall q :: q in qs[1..] ==> q.id != qs[0].id && !(q.articleId == qs[0].articleId && q.question == qs[0].question))
     && QuestionsOk(qs[1..], next))
  }

  /** The store invariant: the Question collection is well formed and the
      article ids are below the allocator. */
  ghost predicate WellFormed(db: Db) {
    && QuestionsOk(db.questions, db.nextQuestionId)
    && (forall m, k :: m in db.collections && 0 <= k < |db.collections[m]| ==> db.collections[m][k].id < db.nextArticleId)
  }

  /** Read back by position: in a well-formed collection two documents never
      share an id or an (articleId, question) pair. */
  lemma {:induction false} QuestionsOkDistinct(qs: seq<Question>, next: nat, i: int, j: int)
    requires QuestionsOk(qs, next)
    requires 0 <= i < j < |qs|
    ensures qs[i].id != qs[j].id
    ensures qs[i].articleId != qs[j].articleId || qs[i].question != qs[j].question
    ensures qs[j].id < next
    decreases |qs|
  {
    if i == 0 {
      assert qs[j] == qs[1..][j - 1];
      QuestionsOkBound(qs[1..], next, j - 1);
    } else {
      assert qs[i] == qs[1..][i - 1] && qs[j] == qs[1..][j - 1];
      QuestionsOkDistinct(qs[1..], next, i - 1, j - 1);
    }
  }

  lemma {:induction false} QuestionsOkBound(qs: seq<Question>, next: nat, j: int)
    requires QuestionsOk(qs, next)
    requires 0 <= j < |qs|
    ensures qs[j].id < next
    decreases |qs|
  {
    if j > 0 {
      assert qs[j] == qs[1..][j - 1];
      QuestionsOkBound(qs[1..], next, j - 1);
    }
  }

  lemma {:induction false} QuestionsOkMember(qs: seq<Question>, next: nat, q: Question)
    requires QuestionsOk(qs, next) && q in qs
    ensures q.id < next
    decreases |qs|
  {
    if q != qs[0] {
      assert q in qs[1..];
      QuestionsOkMember(qs[1..], next, q);
    }
  }

  lemma {:induction false} QuestionsOkWeaken(qs: seq<Question>, next: nat, next': nat)
    requires QuestionsOk(qs, next) && next <= next'
    ensures QuestionsOk(qs, next')
    decreases |qs|
  {
    if qs != [] {
      QuestionsOkWeaken(qs[1..], next, next');
    }
  }

  /** Appending a document under the fresh id whose pair is not yet taken
      keeps the collection well formed. */
  lemma {:induction false} QuestionsOkAppend(qs: seq<Question>, next: nat, q: Question)
    requires QuestionsOk(qs, next)
    requires q.id == next && !HasPair(qs, q.articleId, q.question)
    ensures QuestionsOk(qs + [q], next + 1)
    decreases |qs|
  {
    if qs == [] {
      assert (qs + [q])[1..] == [];
    } else {
      assert (qs + [q])[1..] == qs[1..] + [q];
      assert !HasPair(qs[1..], q.articleId, q.question) by {
        forall p | p in qs[1..] ensures !(p.articleId == q.articleId && p.question == q.question) {
          assert p in qs;
        }
      }
      QuestionsOkAppend(qs[1..], next, q);
      assert qs[0] in qs;
      QuestionsOkMember(qs, next, qs[0]);
      assert (qs + [q])[0] == qs[0];
    }
  }

  lemma {:induction false} InsertFromKeepsOk(qs: seq<Question>, next: nat, drafts: seq<QuestionDraft>)
    requires QuestionsOk(qs, next)
    requires AllValid(drafts)
    ensures QuestionsOk(InsertFrom(qs, next, drafts).questions, InsertFrom(qs, next, drafts).next)
    decreases |drafts|
  {
    if drafts != [] {
      var q := Materialize(drafts[0], next);
      if !HasPair(qs, q.articleId, q.question) {
        QuestionsOkAppend(qs, next, q);
        InsertFromKeepsOk(qs + [q], next + 1, drafts[1..]);
        InsertFromStep(qs, next, drafts);
      }
    }
  }

  /** One step of the ordered insert, when the head draft is accepted. */
  lemma InsertFromStep(qs: seq<Question>, next: nat, drafts: seq<QuestionDraft>)
    requires AllValid(drafts) && drafts != []
    requires !HasPair(qs, Materialize(drafts[0], next).articleId, Materialize(drafts[0], next).question)
    ensures var r := InsertFrom(qs + [Materialize(drafts[0], next)], next + 1, drafts[1..]);
      InsertFrom(qs, next, drafts) == Inserted(r.questions, [next] + r.ids, r.next, r.ok)
  {
  }

  /** The ordered insert only appends: the stored documents stay in place. */
  lemma {:induction false} InsertFromPrefix(qs: seq<Question>, next: nat, drafts: seq<QuestionDraft>)
    requires AllValid(drafts)
    ensures var r := InsertFrom(qs, next, drafts).questions; |qs| <= |r| && r[..|qs|] == qs
    decreases |drafts|
  {
    if drafts != [] {
      var q := Materialize(drafts[0], next);
      if !HasPair(qs, q.articleId, q.question) {
        InsertFromStep(qs, next, drafts);
        InsertFromPrefix(qs + [q], next + 1, drafts[1..]);
        var r := InsertFrom(qs + [q], next + 1, drafts[1..]).questions;
        assert r[..|qs|] == r[..|qs| + 1][..|qs|];
      }
    }
  }

  /** `insertMany` never breaks the unique index nor loses a stored question. */
  lemma InsertManyKeepsWellFormed(db: Db, drafts: seq<QuestionDraft>)
    requires WellFormed(db)
    ensures WellFormed(InsertMany(db, drafts).db)
    ensures forall q :: q in db.questions ==> q in InsertMany(db, drafts).db.questions
  {
    if AllValid(drafts) {
      InsertFromKeepsOk(db.questions, db.nextQuestionId, drafts);
      InsertFromPrefix(db.questions, db.nextQuestionId, drafts);
      var r := InsertFrom(db.questions, db.nextQuestionId, drafts);
      forall q | q in db.questions ensures q in r.questions {
        var k :| 0 <= k < |db.questions| && db.questions[k] == q;
        assert r.questions[k] == r.questions[..|db.questions|][k];
      }
    }
  }

  /** On success, `insertMany` validated every draft, appended exactly
      their documents under consecutive fresh ids, and returned those ids. */
  lemma InsertManyContents(db: Db, drafts: seq<QuestionDraft>)
    requires InsertMany(db, drafts).ok
    ensures AllValid(drafts)
    ensures var r := InsertMany(db, drafts);
      && r.db.questions == db.questions + MaterializeAll(drafts, db.nextQuestionId)
      && r.ids == IdRange(db.nextQuestionId, |drafts|)
      && r.db.nextQuestionId == db.nextQuestionId + |drafts|
  {
    InsertFromContents(db.questions, db.nextQuestionId, drafts);
  }

  /** The documents an all-valid batch stores, under consecutive ids. */
  function MaterializeAll(drafts: seq<QuestionDraft>, next: nat): (r: seq<Question>)
    requires AllValid(drafts)
    ensures |r| == |drafts|
    decreases |drafts|
  {
    if drafts == [] then [] else [Materialize(drafts[0], next)] + MaterializeAll(drafts[1..], next + 1)
  }

  function IdRange(next: nat, n: nat): (r: seq<QuestionId>)
    ensures |r| == n
    ensures forall k :: 0 <= k < n ==> r[k] == next + k
    decreases n
  {
    if n == 0 then [] else [next] + IdRange(next + 1, n - 1)
  }

  /** On success, `insertMany` hands back one fresh id per draft, in order,
      and appends exactly the drafts' documents stored under those ids. */
  lemma {:induction false} InsertFromContents(qs: seq<Question>, next: nat, drafts: seq<QuestionDraft>)
    requires AllValid(drafts)
    requires InsertFrom(qs, next, drafts).ok
    ensures InsertFrom(qs, next, drafts) == Inserted(qs + MaterializeAll(drafts, next), IdRange(next, |drafts|), next + |drafts|, true)
    decreases |drafts|
  {
    if drafts == [] {
      assert qs + [] == qs;
    } else {
      var q := Materialize(drafts[0], next);
      InsertFromOkHead(qs, next, drafts);
      InsertFromStep(qs, next, drafts);
      InsertFromContents(qs + [q], next + 1, drafts[1..]);
      ContentsStep(qs, next, drafts);
      IdRangeStep(next, |drafts|);
    }
  }

  lemma InsertFromOkHead(qs: seq<Question>, next: nat, drafts: seq<QuestionDraft>)
    requires AllValid(drafts) && drafts != []
    requires InsertFrom(qs, next, drafts).ok
    ensures !HasPair(qs, Materialize(drafts[0], next).articleId, Materialize(drafts[0], next).question)
  {
  }

  lemma ContentsStep(qs: seq<Question>, next: nat, drafts: seq<QuestionDraft>)
    requires AllValid(drafts) && drafts != []
    ensures (qs + [Materialize(drafts[0], next)]) + MaterializeAll(drafts[1..], next + 1) == qs + MaterializeAll(drafts, next)
  {
    var q := Materialize(drafts[0], next);
    var t := MaterializeAll(drafts[1..], next + 1);
    assert MaterializeAll(drafts, next) == [q] + t;
    assert (qs + [q]) + t == qs + ([q] + t);
  }

  lemma IdRangeStep(next: nat, n: nat)
    requires n > 0
    ensures [next] + IdRange(next + 1, n - 1) == IdRange(next, n)
  {
  }

  /** The k-th stored document is the k-th draft under id `next + k`. */
  lemma {:induction false} MaterializeAllIds(drafts: seq<QuestionDraft>, next: nat)
    requires AllValid(drafts)
    ensures forall k :: 0 <= k < |drafts| ==> MaterializeAll(drafts, next)[k] == Materialize(drafts[k], next + k)
    decreases |drafts|
  {
    if drafts != [] {
      assert AllValid(drafts[1..]);
      MaterializeAllIds(drafts[1..], next + 1);
      var t := MaterializeAll(drafts[1..], next + 1);
      assert MaterializeAll(drafts, next) == [Materialize(drafts[0], next)] + t;
      forall k | 1 <= k < |drafts| ensures MaterializeAll(drafts, next)[k] == Materialize(drafts[k], next + k) {
        assert drafts[1..][k - 1] == drafts[k];
        assert MaterializeAll(drafts, next)[k] == t[k - 1];
        assert t[k - 1] == Materialize(drafts[1..][k - 1], next + 1 + (k - 1));
      }
    }
  }

  /** In a collection whose ids are distinct, populating the ids of some
      stored documents yields exactly those documents, in order. */
  lemma {:induction false} PopulateExact(qs: seq<Question>, ids: seq<QuestionId>, docs: seq<Question>)
    requires |ids| == |docs|
    requires forall k :: 0 <= k < |docs| ==> docs[k] in qs && docs[k].id == ids[k]
    requires forall i, j :: 0 <= i < j < |qs| ==> qs[i].id != qs[j].id
    ensures Populate(qs, ids) == docs
    decreases |ids|
  {
    if ids != [] {
      var k := QuestionIndex(qs, ids[0]);
      var m :| 0 <= m < |qs| && qs[m] == docs[0];
      assert k != -1;
      assert qs[k].id == qs[m].id;
      PopulateExact(qs, ids[1..], docs[1..]);
    }
  }

  /** `insertMany` touches no article collection, so saving an article
      afterwards gives the collection a save before it would have. */
  lemma SaveAfterInsert(db: Db, drafts: seq<QuestionDraft>, model: string, a: Article)
    ensures Collection(SaveArticle(InsertMany(db, drafts).db, model, a), model) == Collection(SaveArticle(db, model, a), model)
  {
    var d1 := InsertMany(db, drafts).db;
    assert Collection(d1, model) == Collection(db, model);
  }

  lemma AppendedMembers(prefix: seq<Question>, docs: seq<Question>)
    ensures forall k :: 0 <= k < |docs| ==> docs[k] in prefix + docs
  {
    forall k | 0 <= k < |docs| ensures docs[k] in prefix + docs {
      assert (prefix + docs)[|prefix| + k] == docs[k];
    }
  }

  /** Populating the ids a successful `insertMany` returned yields exactly
      the documents it stored. */
  lemma PopulateInserted(db: Db, drafts: seq<QuestionDraft>)
    requires WellFormed(db) && InsertMany(db, drafts).ok
    ensures AllValid(drafts)
    ensures Populate(InsertMany(db, drafts).db.questions, InsertMany(db, drafts).ids) == MaterializeAll(drafts, db.nextQuestionId)
  {
    var ins := InsertMany(db, drafts);
    InsertManyContents(db, drafts);
    InsertManyKeepsWellFormed(db, drafts);
    var docs := MaterializeAll(drafts, db.nextQuestionId);
    MaterializeAllIds(drafts, db.nextQuestionId);
    var all := ins.db.questions;
    assert all == db.questions + docs;
    forall i, j | 0 <= i < j < |all| ensures all[i].id != all[j].id {
      QuestionsOkDistinct(all, ins.db.nextQuestionId, i, j);
    }
    AppendedMembers(db.questions, docs);
    PopulateExact(all, ins.ids, docs);
  }

  /** Deleting an article's questions keeps the store invariant. */
  lemma DeleteKeepsWellFormed(db: Db, id: ArticleId)
    requires WellFormed(db)
    ensures WellFormed(DeleteQuestionsOf(db, id))
  {
    RemoveForKeeps(db.questions, id, db.nextQuestionId);
  }

  lemma {:induction false} RemoveForKeeps(qs: seq<Question>, id: ArticleId, next: nat)
    requires QuestionsOk(qs, next)
    ensures QuestionsOk(RemoveFor(qs, id), next)
    decreases |qs|
  {
    if qs != [] {
      RemoveForKeeps(qs[1..], id, next);
      if qs[0].articleId != id {
        var rest := RemoveFor(qs[1..], id);
        assert ([qs[0]] + rest)[1..] == rest;
      }
    }
  }

  /** The mutable database the route handlers and the processor share. Its
      fields are the collections; `State` reads them back as a value. */
  class Database {
    var collections: map<string, seq<Article>>
    var questions: seq<Question>
    var nextQuestionId: nat
    var nextArticleId: nat

    function State(): Db
      reads this
    {
      Db(collections, questions, nextQuestionId, nextArticleId)
    }

    ghost predicate Valid()
      reads this
    {
      WellFormed(State())
    }

    constructor (initial: Db)
      requires WellFormed(initial)
      ensures Valid() && State() == initial
    {
      collections := initial.collections;
      questions := initial.questions;
      nextQuestionId := initial.nextQuestionId;
      nextArticleId := initial.nextArticleId;
    }

    /** `article.save()`: rejected, with nothing written, when the document
      fails validation. */
    method Save(model: string, a: Article) returns (ok: bool)
      requires Valid()
      modifies this
      ensures Valid()
      ensures ok == ArticleValid(a)
      ensures State() == if ok then SaveArticle(old(State()), model, a) else old(State())
    {
      ok := ArticleValid(a);
      if !ok {
        return;
      }
      var coll := if model in collections then collections[model] else [];
      var i := IndexOfArticle(coll, a.id);
      if i != -1 {
        collections := collections[model := coll[i := a]];
      }
    }

    /** `Question.deleteMany({ articleId: id })`. */
    method DeleteMany(id: ArticleId)
      requires Valid()
      modifies this
      ensures Valid()
      ensures State() == DeleteQuestionsOf(old(State()), id)
    {
      DeleteKeepsWellFormed(State(), id);
      questions := RemoveFor(questions, id);
    }

    /** `Question.insertMany(drafts)`; `ok` is false when it threw. */
    method InsertQuestions(drafts: seq<QuestionDraft>) returns (ids: seq<QuestionId>, ok: bool)
      requires Valid()
      modifies this
      ensures Valid()
      ensures InsertMany(old(State()), drafts) == InsertResult(State(), ids, ok)
    {
      InsertManyKeepsWellFormed(State(), drafts);
      var r := InsertMany(State(), drafts);
      questions, nextQuestionId := r.db.questions, r.db.nextQuestionId;
      ids, ok := r.ids, r.ok;
    }

    /** Appends a new article under a fresh id (`new Model(...).save()`). */
    method Insert(model: string, a: Article) returns (id: ArticleId)
      requires Valid()
      modifies this
      ensures Valid()
      ensures id == old(nextArticleId)
      ensures State() == AppendArticle(old(State()), model, a)
    {
      id := nextArticleId;
      var coll := if model in collections then collections[model] else [];
      collections := collections[model := coll + [a.(id := id)]];
      nextArticleId := nextArticleId + 1;
    }
  }

  /** The database after inserting `a` into `model` under the next fresh id. */
  function AppendArticle(db: Db, model: string, a: Article): (r: Db)
    ensures Collection(r, model) == Collection(db, model) + [a.(id := db.nextArticleId)]
    ensures forall m :: m != model ==> Collection(r, m) == Collection(db, m)
    ensures r.questions == db.questions && r.nextArticleId == db.nextArticleId + 1
    ensures WellFormed(db) ==> WellFormed(r)
  {
    db.(collections := db.collections[model := Collection(db, model) + [a.(id := db.nextArticleId)]],
        nextArticleId := db.nextArticleId + 1)
  }
}
