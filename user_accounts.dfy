/** The User collection of models/User.js and the three handlers of
    routes/news.js that write it: `POST /sync-user`, `POST /bookmark` and
    `DELETE /bookmark/:bookmarkId`. */
module UserAccounts {
  import opened Wrappers
  import opened Text
  import opened Store
  import opened Sources
  import NewsListing

  /** The article fields a bookmark embeds (`articleDetails`). */
  datatype Details = Details(
    title: Field,
    link: Field,
    imageUrl: Option<string>,
    description: Option<string>,
    publishedAt: Option<int>,
    categories: seq<string>,
    source: string)

  /** One bookmark sub-document; `id` is its own `_id`. */
  datatype Bookmark = Bookmark(id: nat, articleId: ArticleId, articleSourceModel: string, bookmarkedAt: int, details: Details)

  datatype User = User(
    uid: string,
    email: Option<string>,
    displayName: Option<string>,
    bookmarks: seq<Bookmark>,
    createdAt: int,
    updatedAt: int)

  /** The User collection in insertion order and the next fresh bookmark `_id`. */
  datatype Accounts = Accounts(users: seq<User>, nextBookmarkId: nat)

  /** What the handlers take from outside: ObjectId parsing (`isValid`
      together with the cast) and printing (`String(id)`), the clock, and
      whether the user read, the article read or the write fails. */
  datatype UserEnv = UserEnv(
    parseId: string -> Option<nat>,
    showId: nat -> string,
    now: int,
    userReadFails: bool,
    articleReadFails: bool,
    saveFails: bool)

  /** The JSON reply: status, `message`, and the `user` or `bookmark` sent back. */
  datatype Reply = Reply(status: nat, message: string, user: Option<User>, bookmark: Option<Bookmark>)

  datatype Outcome = Outcome(state: Accounts, reply: Reply)

  function Msg(status: nat, message: string): Reply {
    Reply(status, message, None, None)
  }

  // ---- the schema ----

  /** A bookmark passes validation: the required detail fields are
      non-empty strings and the model name is in the enum. */
  predicate BookmarkValid(b: Bookmark) {
    && b.details.title.Str? && b.details.title.s != ""
    && b.details.link.Str? && b.details.link.s != ""
    && b.details.source != ""
    && b.articleSourceModel in ModelNames
  }

  /** A user passes validation: `firebaseUid` and `email` are required. */
  predicate UserValid(u: User) {
    u.uid != "" && Truthy(u.email) && forall b :: b in u.bookmarks ==> BookmarkValid(b)
  }

  /** The unique indexes on `firebaseUid` and on `email`. */
  predicate Unique(users: seq<User>) {
    forall i, j :: 0 <= i < j < |users| ==> users[i].uid != users[j].uid && users[i].email != users[j].email
  }

  /** What every stored collection satisfies. */
  predicate AccountsOk(s: Accounts) {
    Unique(s.users) && forall u :: u in s.users ==> UserValid(u)
  }

  // ---- queries ----

  /** `User.findOne({ firebaseUid })`: the position of the user, or -1. */
  function IndexOfUid(users: seq<User>, uid: string): (r: int)
    ensures -1 <= r < |users|
    ensures r >= 0 ==> users[r].uid == uid
    ensures r == -1 <==> forall k :: 0 <= k < |users| ==> users[k].uid != uid
    decreases |users|
  {
    if users == [] then -1
    else if users[0].uid == uid then 0
    else
      var k := IndexOfUid(users[1..], uid);
      assert forall i :: 1 <= i < |users| ==> users[i] == users[1..][i - 1];
      if k == -1 then -1 else k + 1
  }

  /** `User.findOne({ email })`: the position of the user, or -1. */
  function IndexOfEmail(users: seq<User>, email: string): (r: int)
    ensures -1 <= r < |users|
    ensures r >= 0 ==> users[r].email == Some(email)
    ensures r == -1 <==> forall k :: 0 <= k < |users| ==> users[k].email != Some(email)
    decreases |users|
  {
    if users == [] then -1
    else if users[0].email == Some(email) then 0
    else
      var k := IndexOfEmail(users[1..], email);
      assert forall i :: 1 <= i < |users| ==> users[i] == users[1..][i - 1];
      if k == -1 then -1 else k + 1
  }

  /** `User.findOne({ email, firebaseUid: { $ne: uid } })` finds someone. */
  predicate EmailTakenByOther(users: seq<User>, email: string, uid: string) {
    exists j :: 0 <= j < |users| && users[j].email == Some(email) && users[j].uid != uid
  }

  // ---- user.save() ----

  datatype SaveResult = Saved(state: Accounts) | DuplicateKey | Invalid | WriteFault

  /** Another stored user than the one at `k` shares `u`'s uid or email. */
  predicate Clashes(users: seq<User>, k: int, u: User) {
    exists j :: 0 <= j < |users| && j != k && (users[j].uid == u.uid || users[j].email == u.email)
  }

  /** `user.save()` of the user at position `k`, or of a new user when `k`
      is -1: validation first, then the write, which the unique indexes can
      refuse with a duplicate-key error (code 11000). */
  function Write(s: Accounts, k: int, u: User, env: UserEnv): (r: SaveResult)
    requires -1 <= k < |s.users|
    ensures r.Saved? <==> UserValid(u) && !env.saveFails && !Clashes(s.users, k, u)
    ensures r.DuplicateKey? <==> UserValid(u) && !env.saveFails && Clashes(s.users, k, u)
    ensures r.Saved? ==> r.state.nextBookmarkId == s.nextBookmarkId
    ensures r.Saved? && k == -1 ==> r.state.users == s.users + [u]
    ensures r.Saved? && k >= 0 ==> r.state.users == s.users[k := u]
  {
    if !UserValid(u) then Invalid
    else if env.saveFails then WriteFault
    else if Clashes(s.users, k, u) then DuplicateKey
    else Saved(s.(users := if k == -1 then s.users + [u] else s.users[k := u]))
  }

  /** A successful write keeps the collection valid and unique. */
  lemma WriteKeepsOk(s: Accounts, k: int, u: User, env: UserEnv)
    requires AccountsOk(s) && -1 <= k < |s.users| && Write(s, k, u, env).Saved?
    ensures AccountsOk(Write(s, k, u, env).state)
  {
    var users := Write(s, k, u, env).state.users;
    forall i, j | 0 <= i < j < |users| ensures users[i].uid != users[j].uid && users[i].email != users[j].email {
      if k == -1 {
        if j == |s.users| {
          assert users[i] == s.users[i] && users[j] == u;
        } else {
          assert users[i] == s.users[i] && users[j] == s.users[j];
        }
      } else if i == k {
        assert users[j] == s.users[j];
      } else if j == k {
        assert users[i] == s.users[i];
      } else {
        assert users[i] == s.users[i] && users[j] == s.users[j];
      }
    }
    forall v | v in users ensures UserValid(v) {
      var i :| 0 <= i < |users| && users[i] == v;
      if i != k && i < |s.users| {
        assert s.users[i] in s.users;
      }
    }
  }

  /** A write that keeps the uid and email of the user at `k`, or adds a
      user whose uid and email nobody holds, never meets a duplicate key. */
  lemma NoClashForOwnKeys(s: Accounts, k: int, u: User)
    requires Unique(s.users) && 0 <= k < |s.users|
    requires u.uid == s.users[k].uid && u.email == s.users[k].email
    ensures !Clashes(s.users, k, u)
  {
    forall j | 0 <= j < |s.users| && j != k ensures s.users[j].uid != u.uid && s.users[j].email != u.email {
      if j < k { } else { }
    }
  }

  // ---- POST /sync-user ----

  const DuplicateUserMessage := "A user with this email or Firebase UID already exists in the system."
  const SyncFailedMessage := "Failed to sync user data due to an internal server error."

  /** The duplicate-key message is none of the handler's other replies. */
  lemma SyncMessagesDistinct()
    ensures DuplicateUserMessage != SyncFailedMessage
    ensures DuplicateUserMessage != "User synced."
    ensures DuplicateUserMessage != "User synced (Firebase UID updated)."
    ensures DuplicateUserMessage != "New user created and synced."
    ensures DuplicateUserMessage != "Email is already associated with another account."
    ensures DuplicateUserMessage != "Firebase UID not provided by middleware."
  {
  }

  /** Writes `u` and answers `status`/`message` with the user, or maps the
      write error as the handler's `catch` does. */
  function Persist(s: Accounts, k: int, u: User, env: UserEnv, status: nat, message: string): (r: Outcome)
    requires -1 <= k < |s.users|
    ensures Write(s, k, u, env).Saved? ==> r == Outcome(Write(s, k, u, env).state, Reply(status, message, Some(u), None))
    ensures !Write(s, k, u, env).Saved? ==> r.state == s && r.reply.user.None? && r.reply.status in {409, 500}
    ensures r.reply.message == DuplicateUserMessage ==> Write(s, k, u, env).DuplicateKey? || message == DuplicateUserMessage
  {
    SyncMessagesDistinct();
    match Write(s, k, u, env)
    case Saved(s2) => Outcome(s2, Reply(status, message, Some(u), None))
    case DuplicateKey => Outcome(s, Msg(409, DuplicateUserMessage))
    case _ => Outcome(s, Msg(500, SyncFailedMessage))
  }

  /** The request's display name replaces a different stored one when it is truthy. */
  function NewName(u: User, displayName: Option<string>): Option<string> {
    if Truthy(displayName) && u.displayName != displayName then displayName else u.displayName
  }

  /** The user was found by uid: display name and email are updated when
      given and different, unless the email belongs to another account. */
  function SyncFound(s: Accounts, k: int, displayName: Option<string>, email: Option<string>, env: UserEnv): Outcome
    requires 0 <= k < |s.users|
  {
    var u := s.users[k];
    var renamed := Truthy(displayName) && u.displayName != displayName;
    if Truthy(email) && u.email != email then
      if EmailTakenByOther(s.users, email.value, u.uid) then
        Outcome(s, Msg(409, "Email is already associated with another account."))
      else Persist(s, k, u.(displayName := NewName(u, displayName), email := email, updatedAt := env.now), env, 200, "User synced.")
    else if renamed then Persist(s, k, u.(displayName := displayName, updatedAt := env.now), env, 200, "User synced.")
    else Outcome(s, Reply(200, "User synced.", Some(u), None))
  }

  /** The user was found by email only: the uid is overwritten (a new
      sign-in method of the same person) and the display name updated. */
  function SyncRelink(s: Accounts, j: int, uid: string, displayName: Option<string>, env: UserEnv): Outcome
    requires 0 <= j < |s.users|
  {
    var u := s.users[j];
    var renamed := Truthy(displayName) && u.displayName != displayName;
    if u.uid != uid || renamed then
      Persist(s, j, u.(uid := uid, displayName := NewName(u, displayName), updatedAt := env.now), env, 200, "User synced (Firebase UID updated).")
    else Outcome(s, Reply(200, "User synced (Firebase UID updated).", Some(u), None))
  }

  /** `User.findOne({ email })` as the handler sends it. An absent `email`
      is `undefined`, a key Mongoose leaves out of the filter, so the filter
      is empty and matches the first stored user. */
  function EmailQuery(users: seq<User>, email: Option<string>): (r: int)
    ensures -1 <= r < |users|
    ensures email.Some? ==> r == IndexOfEmail(users, email.value)
    ensures email.None? ==> (r >= 0 <==> users != [])
  {
    if email.Some? then IndexOfEmail(users, email.value)
    else if users == [] then -1
    else 0
  }

  /** `POST /sync-user`. */
  function SyncResult(s: Accounts, uid: string, displayName: Option<string>, email: Option<string>, env: UserEnv): Outcome {
    if uid == "" then Outcome(s, Msg(401, "Firebase UID not provided by middleware."))
    else if env.userReadFails then Outcome(s, Msg(500, SyncFailedMessage))
    else
      var k := IndexOfUid(s.users, uid);
      if k >= 0 then SyncFound(s, k, displayName, email, env)
      else
        var j := EmailQuery(s.users, email);
        if j >= 0 then SyncRelink(s, j, uid, displayName, env)
        else Persist(s, -1, User(uid, email, displayName, [], env.now, env.now), env, 201, "New user created and synced.")
  }

  /** `POST /sync-user` as evidently intended: a request without `email`
      matches no stored user by email, so an unknown uid goes to the
      create branch. */
  function SyncIntended(s: Accounts, uid: string, displayName: Option<string>, email: Option<string>, env: UserEnv): Outcome {
    if uid != "" && !env.userReadFails && IndexOfUid(s.users, uid) == -1 && email.None? then
      Persist(s, -1, User(uid, email, displayName, [], env.now, env.now), env, 201, "New user created and synced.")
    else SyncResult(s, uid, displayName, email, env)
  }

  /** Sync keeps the collection valid and both indexes unique. */
  lemma SyncKeepsOk(s: Accounts, uid: string, displayName: Option<string>, email: Option<string>, env: UserEnv)
    requires AccountsOk(s)
    ensures AccountsOk(SyncResult(s, uid, displayName, email, env).state)
  {
    if uid != "" && !env.userReadFails {
      var k := IndexOfUid(s.users, uid);
      var j := EmailQuery(s.users, email);
      var u := if k >= 0 then s.users[k] else if j >= 0 then s.users[j] else User(uid, email, displayName, [], env.now, env.now);
      var at := if k >= 0 then k else j;
      if k >= 0 {
        var u1 := u.(displayName := NewName(u, displayName), email := email, updatedAt := env.now);
        var u2 := u.(displayName := displayName, updatedAt := env.now);
        if Write(s, k, u1, env).Saved? { WriteKeepsOk(s, k, u1, env); }
        if Write(s, k, u2, env).Saved? { WriteKeepsOk(s, k, u2, env); }
      } else if j >= 0 {
        var u1 := u.(uid := uid, displayName := NewName(u, displayName), updatedAt := env.now);
        if Write(s, j, u1, env).Saved? { WriteKeepsOk(s, j, u1, env); }
      } else {
        if Write(s, -1, u, env).Saved? { WriteKeepsOk(s, -1, u, env); }
      }
    }
  }

  /** Found by uid, asking for an email another account holds: 409 and
      nothing changes, not even the display name. */
  lemma SyncEmailConflict(s: Accounts, uid: string, displayName: Option<string>, email: Option<string>, env: UserEnv)
    requires uid != "" && !env.userReadFails && IndexOfUid(s.users, uid) >= 0
    requires Truthy(email) && s.users[IndexOfUid(s.users, uid)].email != email
    requires EmailTakenByOther(s.users, email.value, uid)
    ensures SyncResult(s, uid, displayName, email, env) == Outcome(s, Msg(409, "Email is already associated with another account."))
  {
  }

  /** Found by uid, no conflict and the write going through: the user keeps
      its uid, bookmarks and creation time and takes the given display name
      and email where they are truthy; everyone else is untouched. */
  lemma SyncFoundUpdates(s: Accounts, uid: string, displayName: Option<string>, email: Option<string>, env: UserEnv)
    requires AccountsOk(s) && uid != "" && !env.userReadFails && !env.saveFails
    requires IndexOfUid(s.users, uid) >= 0
    requires !(Truthy(email) && s.users[IndexOfUid(s.users, uid)].email != email && EmailTakenByOther(s.users, email.value, uid))
    ensures var k := IndexOfUid(s.users, uid);
      var r := SyncResult(s, uid, displayName, email, env);
      && r.reply.status == 200 && r.reply.message == "User synced."
      && |r.state.users| == |s.users|
      && (forall i :: 0 <= i < |s.users| && i != k ==> r.state.users[i] == s.users[i])
      && r.state.users[k].uid == uid
      && r.state.users[k].bookmarks == s.users[k].bookmarks
      && r.state.users[k].createdAt == s.users[k].createdAt
      && r.state.users[k].displayName == (if Truthy(displayName) then displayName else s.users[k].displayName)
      && r.state.users[k].email == (if Truthy(email) then email else s.users[k].email)
  {
    var k := IndexOfUid(s.users, uid);
    var u := s.users[k];
    assert u in s.users;
    if Truthy(email) && u.email != email {
      var u1 := u.(displayName := NewName(u, displayName), email := email, updatedAt := env.now);
      forall j | 0 <= j < |s.users| && j != k ensures s.users[j].uid != u1.uid && s.users[j].email != u1.email {
        if j < k { } else { }
      }
    } else if Truthy(displayName) && u.displayName != displayName {
      NoClashForOwnKeys(s, k, u.(displayName := displayName, updatedAt := env.now));
    }
  }

  /** Found by email only, with the write going through: that user now
      carries the request's uid and keeps its email and bookmarks. */
  lemma SyncRelinks(s: Accounts, uid: string, displayName: Option<string>, email: Option<string>, env: UserEnv)
    requires AccountsOk(s) && uid != "" && !env.userReadFails && !env.saveFails
    requires IndexOfUid(s.users, uid) == -1 && EmailQuery(s.users, email) >= 0
    ensures var j := EmailQuery(s.users, email);
      var r := SyncResult(s, uid, displayName, email, env);
      && r.reply.status == 200 && r.reply.message == "User synced (Firebase UID updated)."
      && r.reply.user == Some(r.state.users[j])
      && |r.state.users| == |s.users|
      && (forall i :: 0 <= i < |s.users| && i != j ==> r.state.users[i] == s.users[i])
      && r.state.users[j].uid == uid
      && r.state.users[j].email == s.users[j].email
      && (email.Some? ==> r.state.users[j].email == email)
      && r.state.users[j].bookmarks == s.users[j].bookmarks
      && r.state.users[j].displayName == (if Truthy(displayName) then displayName else s.users[j].displayName)
  {
    var j := EmailQuery(s.users, email);
    var u := s.users[j];
    assert u in s.users;
    var u1 := u.(uid := uid, displayName := NewName(u, displayName), updatedAt := env.now);
    forall i | 0 <= i < |s.users| && i != j ensures s.users[i].uid != u1.uid && s.users[i].email != u1.email {
      if i < j { } else { }
    }
  }

  /** Without `email`, an unknown uid takes over the first stored user:
      that user's different uid is overwritten with the request's, and the
      reply is 200 with that user. */
  lemma AbsentEmailRelinksFirst(s: Accounts, uid: string, displayName: Option<string>, env: UserEnv)
    requires AccountsOk(s) && uid != "" && !env.userReadFails && !env.saveFails
    requires IndexOfUid(s.users, uid) == -1 && s.users != []
    ensures var r := SyncResult(s, uid, displayName, None, env);
      && s.users[0].uid != uid
      && r.reply.status == 200
      && r.reply.user == Some(r.state.users[0])
      && r.state.users[0].uid == uid
      && r.state.users[0].email == s.users[0].email
      && r.state.users[0].bookmarks == s.users[0].bookmarks
  {
    SyncRelinks(s, uid, displayName, None, env);
  }

  /** The intended sync never rewrites a stored uid for a request without
      `email`: an unknown uid then fails validation (500) and stores
      nothing, and a known one keeps its own uid. */
  lemma SyncIntendedAbsentEmail(s: Accounts, uid: string, displayName: Option<string>, env: UserEnv)
    requires AccountsOk(s)
    ensures var r := SyncIntended(s, uid, displayName, None, env);
      && |r.state.users| == |s.users|
      && (forall i :: 0 <= i < |s.users| ==> r.state.users[i].uid == s.users[i].uid)
      && (uid != "" && !env.userReadFails && IndexOfUid(s.users, uid) == -1 ==> r == Outcome(s, Msg(500, SyncFailedMessage)))
  {
  }

  /** Found neither way: a user with the request's fields and no bookmarks
      is appended, unless the email is missing or empty, which fails
      validation (500) and stores nothing. Without `email` this happens
      only on an empty collection. */
  lemma SyncCreates(s: Accounts, uid: string, displayName: Option<string>, email: Option<string>, env: UserEnv)
    requires AccountsOk(s) && uid != "" && !env.userReadFails && !env.saveFails
    requires IndexOfUid(s.users, uid) == -1 && EmailQuery(s.users, email) == -1
    ensures var r := SyncResult(s, uid, displayName, email, env);
      && (Truthy(email) ==>
            r.reply.status == 201 && r.state.users == s.users + [User(uid, email, displayName, [], env.now, env.now)])
      && (!Truthy(email) ==> r == Outcome(s, Msg(500, SyncFailedMessage)))
  {
  }

  /** On a valid, unique collection the duplicate-key branch of the
      handler's `catch` is never taken: every write sync issues respects
      both unique indexes. */
  lemma SyncNeverDuplicates(s: Accounts, uid: string, displayName: Option<string>, email: Option<string>, env: UserEnv)
    requires AccountsOk(s)
    ensures SyncResult(s, uid, displayName, email, env).reply.message != DuplicateUserMessage
  {
    SyncMessagesDistinct();
    if uid != "" && !env.userReadFails {
      var k := IndexOfUid(s.users, uid);
      if k >= 0 {
        if !env.saveFails {
          if !(Truthy(email) && s.users[k].email != email && EmailTakenByOther(s.users, email.value, uid)) {
            SyncFoundUpdates(s, uid, displayName, email, env);
          }
        }
      } else if EmailQuery(s.users, email) >= 0 {
        if !env.saveFails {
          SyncRelinks(s, uid, displayName, email, env);
        }
      } else if !env.saveFails {
        SyncCreates(s, uid, displayName, email, env);
      }
    }
  }

  // ---- POST /bookmark ----

  /** `user.bookmarks.some(...)`: a bookmark whose printed article id is
      `text` and whose model is `model`. */
  predicate Bookmarked(bs: seq<Bookmark>, text: string, model: string, showId: nat -> string) {
    exists j :: 0 <= j < |bs| && showId(bs[j].articleId) == text && bs[j].articleSourceModel == model
  }

  /** JavaScript `x || null` on an optional string. */
  function OrNull(x: Option<string>): (r: Option<string>)
    ensures r.Some? <==> Truthy(x)
    ensures r.Some? ==> r == x
  {
    if Truthy(x) then x else None
  }

  /** The details embedded from the fetched article. */
  function DetailsOf(a: Article): Details {
    Details(a.title, a.link, OrNull(a.imageUrl), OrNull(a.description), a.pubDate, a.categories,
            NewsListing.FormatSourceForDisplay(a.source))
  }

  const ModelList := "TheHindu, DNA, HindustanTimes, IndianExpress, TimesOfIndia"

  /** `POST /bookmark`: the request checks, then the user lookup. */
  function AddResult(s: Accounts, uid: string, articleId: Option<string>, model: Option<string>, db: Db, env: UserEnv): Outcome {
    if !Truthy(articleId) || !Truthy(model) then Outcome(s, Msg(400, "Missing articleId or articleSourceModel."))
    else if env.parseId(articleId.value).None? then Outcome(s, Msg(400, "Invalid article ID format."))
    else if model.value !in ModelNames then
      Outcome(s, Msg(400, "Invalid source model name provided for bookmark: '" + model.value + "'. Allowed values are: " + ModelList))
    else if env.userReadFails then Outcome(s, Msg(500, "Failed to add bookmark."))
    else
      var k := IndexOfUid(s.users, uid);
      if k < 0 then Outcome(s, Msg(404, "User record not found. Please ensure user data is synced."))
      else AddForUser(s, k, articleId.value, env.parseId(articleId.value).value, model.value, db, env)
  }

  /** The user at `k` was found: the duplicate check, the article lookup
      and the write. */
  function AddForUser(s: Accounts, k: int, text: string, id: ArticleId, model: string, db: Db, env: UserEnv): Outcome
    requires 0 <= k < |s.users|
  {
    if Bookmarked(s.users[k].bookmarks, text, model, env.showId) then Outcome(s, Msg(409, "Article already bookmarked."))
    else if FindByModelName(SourceConfig, model).None? then
      Outcome(s, Msg(400, "Invalid articleSourceModel provided (no matching config entry to fetch article details)."))
    else if env.articleReadFails then Outcome(s, Msg(500, "Failed to add bookmark."))
    else match FindArticle(db, FindByModelName(SourceConfig, model).value.modelName, id)
      case None => Outcome(s, Msg(404, "Article not found in source collection. Cannot bookmark missing article."))
      case Some(a) => AddWrite(s, k, Bookmark(s.nextBookmarkId, id, model, env.now, DetailsOf(a)), env)
  }

  /** `user.bookmarks.push(b); await user.save()`. */
  function AddWrite(s: Accounts, k: int, b: Bookmark, env: UserEnv): Outcome
    requires 0 <= k < |s.users|
  {
    match Write(s.(nextBookmarkId := s.nextBookmarkId + 1), k, s.users[k].(bookmarks := s.users[k].bookmarks + [b]), env)
    case Saved(s2) => Outcome(s2, Reply(201, "Article bookmarked successfully!", None, Some(b)))
    case DuplicateKey => Outcome(s, Msg(409, "Article already bookmarked."))
    case _ => Outcome(s, Msg(500, "Failed to add bookmark."))
  }

  /** The write either appends `b` to the user's list and consumes one
      bookmark id (201), or changes nothing. */
  lemma AddWriteAppends(s: Accounts, k: int, b: Bookmark, env: UserEnv)
    requires 0 <= k < |s.users|
    ensures var r := AddWrite(s, k, b, env);
      && (r.reply.status != 201 ==> r.state == s)
      && (r.reply.status == 201 ==>
            && r.reply.bookmark == Some(b)
            && r.state.users == s.users[k := s.users[k].(bookmarks := s.users[k].bookmarks + [b])]
            && r.state.nextBookmarkId == s.nextBookmarkId + 1)
  {
  }

  /** The user lookup succeeded and the pair is new: a 201 is the write of
      a bookmark for the requested article and model under the next id. */
  lemma AddForUserAppends(s: Accounts, k: int, text: string, id: ArticleId, model: string, db: Db, env: UserEnv)
    requires 0 <= k < |s.users|
    ensures var r := AddForUser(s, k, text, id, model, db, env);
      && (r.reply.status != 201 ==> r.state == s)
      && (r.reply.status == 201 ==>
            && r.reply.bookmark.Some?
            && r.reply.bookmark.value.id == s.nextBookmarkId
            && r.reply.bookmark.value.articleId == id
            && r.reply.bookmark.value.articleSourceModel == model
            && r.state.users == s.users[k := s.users[k].(bookmarks := s.users[k].bookmarks + [r.reply.bookmark.value])]
            && r.state.nextBookmarkId == s.nextBookmarkId + 1)
  {
    if !Bookmarked(s.users[k].bookmarks, text, model, env.showId) && FindByModelName(SourceConfig, model).Some? && !env.articleReadFails {
      var e := FindByModelName(SourceConfig, model).value;
      match FindArticle(db, e.modelName, id)
      case None =>
      case Some(a) => AddWriteAppends(s, k, Bookmark(s.nextBookmarkId, id, model, env.now, DetailsOf(a)), env);
    }
  }

  /** The rejections before any lookup: a missing field, an id that is not
      an ObjectId and a model name outside the enum are 400s; an existing
      (printed id, model) pair is a 409; none of them changes anything. */
  lemma AddRejects(s: Accounts, uid: string, articleId: Option<string>, model: Option<string>, db: Db, env: UserEnv)
    ensures !Truthy(articleId) || !Truthy(model) ==> AddResult(s, uid, articleId, model, db, env) == Outcome(s, Msg(400, "Missing articleId or articleSourceModel."))
    ensures (Truthy(articleId) && Truthy(model) && env.parseId(articleId.value).Some? && model.value !in ModelNames) ==>
      AddResult(s, uid, articleId, model, db, env).state == s && AddResult(s, uid, articleId, model, db, env).reply.status == 400
    ensures (Truthy(articleId) && Truthy(model) && env.parseId(articleId.value).Some? && model.value in ModelNames
      && !env.userReadFails && IndexOfUid(s.users, uid) >= 0
      && Bookmarked(s.users[IndexOfUid(s.users, uid)].bookmarks, articleId.value, model.value, env.showId)) ==>
      AddResult(s, uid, articleId, model, db, env) == Outcome(s, Msg(409, "Article already bookmarked."))
  {
  }

  /** A 201 appends exactly one bookmark, for the requested article and
      model, at the end of the requesting user's list; nothing else changes.
      Any other answer changes nothing. */
  lemma AddAppends(s: Accounts, uid: string, articleId: Option<string>, model: Option<string>, db: Db, env: UserEnv)
    ensures var r := AddResult(s, uid, articleId, model, db, env);
      r.reply.status != 201 ==> r.state == s
    ensures var r := AddResult(s, uid, articleId, model, db, env);
      r.reply.status == 201 ==>
        var k := IndexOfUid(s.users, uid);
        && 0 <= k < |s.users| && r.reply.bookmark.Some?
        && r.state.users == s.users[k := s.users[k].(bookmarks := s.users[k].bookmarks + [r.reply.bookmark.value])]
        && r.reply.bookmark.value.articleId == env.parseId(articleId.value).value
        && r.reply.bookmark.value.articleSourceModel == model.value
        && r.reply.bookmark.value.id == s.nextBookmarkId
        && r.state.nextBookmarkId == s.nextBookmarkId + 1
  {
    if Truthy(articleId) && Truthy(model) && env.parseId(articleId.value).Some? && model.value in ModelNames
      && !env.userReadFails && IndexOfUid(s.users, uid) >= 0
    {
      AddForUserAppends(s, IndexOfUid(s.users, uid), articleId.value, env.parseId(articleId.value).value, model.value, db, env);
    }
  }

  /** With no fault, a known user, a fresh pair and an existing article
      whose title, link and display source are non-empty, the bookmark is
      added (201); the article's details are embedded, with empty image
      and description stored as null. */
  lemma AddSucceeds(s: Accounts, k: int, text: string, id: ArticleId, model: string, db: Db, env: UserEnv)
    requires AccountsOk(s) && 0 <= k < |s.users| && !env.articleReadFails && !env.saveFails
    requires model in ModelNames && !Bookmarked(s.users[k].bookmarks, text, model, env.showId)
    requires FindArticle(db, model, id).Some?
    requires BookmarkValid(Bookmark(0, 0, model, 0, DetailsOf(FindArticle(db, model, id).value)))
    ensures AddForUser(s, k, text, id, model, db, env).reply
      == Reply(201, "Article bookmarked successfully!", None, Some(Bookmark(s.nextBookmarkId, id, model, env.now, DetailsOf(FindArticle(db, model, id).value))))
  {
    EveryModelNameConfigured(model);
    var e := FindByModelName(SourceConfig, model).value;
    assert e.modelName == model;
    var u := s.users[k];
    assert u in s.users;
    var b := Bookmark(s.nextBookmarkId, id, model, env.now, DetailsOf(FindArticle(db, model, id).value));
    var u1 := u.(bookmarks := u.bookmarks + [b]);
    assert UserValid(u1);
    NoClashForOwnKeys(s.(nextBookmarkId := s.nextBookmarkId + 1), k, u1);
  }

  /** Adding keeps the collection valid and unique. */
  lemma AddKeepsOk(s: Accounts, uid: string, articleId: Option<string>, model: Option<string>, db: Db, env: UserEnv)
    requires AccountsOk(s)
    ensures AccountsOk(AddResult(s, uid, articleId, model, db, env).state)
  {
    if Truthy(articleId) && Truthy(model) && env.parseId(articleId.value).Some? && model.value in ModelNames
      && !env.userReadFails && IndexOfUid(s.users, uid) >= 0
    {
      AddForUserKeepsOk(s, IndexOfUid(s.users, uid), articleId.value, env.parseId(articleId.value).value, model.value, db, env);
    }
  }

  lemma AddForUserKeepsOk(s: Accounts, k: int, text: string, id: ArticleId, model: string, db: Db, env: UserEnv)
    requires AccountsOk(s) && 0 <= k < |s.users|
    ensures AccountsOk(AddForUser(s, k, text, id, model, db, env).state)
  {
    if !Bookmarked(s.users[k].bookmarks, text, model, env.showId) && FindByModelName(SourceConfig, model).Some? && !env.articleReadFails {
      var e := FindByModelName(SourceConfig, model).value;
      match FindArticle(db, e.modelName, id)
      case None =>
      case Some(a) => AddWriteKeepsOk(s, k, Bookmark(s.nextBookmarkId, id, model, env.now, DetailsOf(a)), env);
    }
  }

  lemma AddWriteKeepsOk(s: Accounts, k: int, b: Bookmark, env: UserEnv)
    requires AccountsOk(s) && 0 <= k < |s.users|
    ensures AccountsOk(AddWrite(s, k, b, env).state)
  {
    var s1 := s.(nextBookmarkId := s.nextBookmarkId + 1);
    var u := s.users[k].(bookmarks := s.users[k].bookmarks + [b]);
    if Write(s1, k, u, env).Saved? {
      WriteKeepsOk(s1, k, u, env);
    }
  }

  /** No two bookmarks of a list print the same article id under the same model. */
  predicate NoDuplicatePairs(bs: seq<Bookmark>, showId: nat -> string) {
    forall i, j :: 0 <= i < j < |bs| ==>
      !(showId(bs[i].articleId) == showId(bs[j].articleId) && bs[i].articleSourceModel == bs[j].articleSourceModel)
  }

  /** When the client sends ids in the printed form (`String(id)` gives
      back the same text), adding never creates a duplicate pair. */
  lemma AddKeepsPairsDistinct(s: Accounts, k: int, text: string, id: ArticleId, model: string, db: Db, env: UserEnv)
    requires 0 <= k < |s.users| && NoDuplicatePairs(s.users[k].bookmarks, env.showId)
    requires env.showId(id) == text
    ensures NoDuplicatePairs(AddForUser(s, k, text, id, model, db, env).state.users[k].bookmarks, env.showId)
  {
    var r := AddForUser(s, k, text, id, model, db, env);
    AddForUserAppends(s, k, text, id, model, db, env);
    if r.reply.status == 201 {
      var bs := s.users[k].bookmarks;
      var all := r.state.users[k].bookmarks;
      assert all == bs + [r.reply.bookmark.value];
      forall i, j | 0 <= i < j < |all|
        ensures !(env.showId(all[i].articleId) == env.showId(all[j].articleId) && all[i].articleSourceModel == all[j].articleSourceModel)
      {
        if j == |bs| {
          assert all[i] == bs[i];
        } else {
          assert all[i] == bs[i] && all[j] == bs[j];
        }
      }
    }
  }

  /** The in-memory check compares printed ids with the request's text, so
      a second spelling of an id that parses to the same ObjectId (an
      upper-case hex string, say) gets past it, and the write then stores a
      second bookmark of the same article: the unique index, whose keys all
      carry the same `firebaseUid`, does not refuse it. */
  lemma SecondSpellingDuplicates(s: Accounts, k: int, text: string, id: ArticleId, model: string, db: Db, env: UserEnv)
    requires AccountsOk(s) && 0 <= k < |s.users| && !env.articleReadFails && !env.saveFails
    requires model in ModelNames && FindArticle(db, model, id).Some?
    requires BookmarkValid(Bookmark(0, 0, model, 0, DetailsOf(FindArticle(db, model, id).value)))
    requires !Bookmarked(s.users[k].bookmarks, text, model, env.showId)
    requires exists j :: 0 <= j < |s.users[k].bookmarks| && s.users[k].bookmarks[j].articleId == id && s.users[k].bookmarks[j].articleSourceModel == model
    ensures var r := AddForUser(s, k, text, id, model, db, env);
      && r.reply.status == 201 && k < |r.state.users|
      && !NoDuplicatePairs(r.state.users[k].bookmarks, env.showId)
  {
    var bs := s.users[k].bookmarks;
    var b := AddedBookmark(s, k, text, id, model, db, env);
    var j :| 0 <= j < |bs| && bs[j].articleId == id && bs[j].articleSourceModel == model;
    RepeatedPair(bs, b, j, env.showId);
  }

  /** The successful add of `AddSucceeds`, as the bookmark it appends. */
  lemma AddedBookmark(s: Accounts, k: int, text: string, id: ArticleId, model: string, db: Db, env: UserEnv) returns (b: Bookmark)
    requires AccountsOk(s) && 0 <= k < |s.users| && !env.articleReadFails && !env.saveFails
    requires model in ModelNames && !Bookmarked(s.users[k].bookmarks, text, model, env.showId)
    requires FindArticle(db, model, id).Some?
    requires BookmarkValid(Bookmark(0, 0, model, 0, DetailsOf(FindArticle(db, model, id).value)))
    ensures b.articleId == id && b.articleSourceModel == model
    ensures var r := AddForUser(s, k, text, id, model, db, env);
      && r.reply.status == 201 && k < |r.state.users|
      && r.state.users[k].bookmarks == s.users[k].bookmarks + [b]
  {
    AddSucceeds(s, k, text, id, model, db, env);
    AddForUserAppends(s, k, text, id, model, db, env);
    b := AddForUser(s, k, text, id, model, db, env).reply.bookmark.value;
  }

  lemma RepeatedPair(bs: seq<Bookmark>, b: Bookmark, j: int, showId: nat -> string)
    requires 0 <= j < |bs| && bs[j].articleId == b.articleId && bs[j].articleSourceModel == b.articleSourceModel
    ensures !NoDuplicatePairs(bs + [b], showId)
  {
    var all := bs + [b];
    assert all[j] == bs[j] && all[|bs|] == b;
  }

  // ---- DELETE /bookmark/:bookmarkId ----

  /** `user.bookmarks.findIndex(b => String(b._id) === String(text))`. */
  function FindBookmark(bs: seq<Bookmark>, text: string, showId: nat -> string): (r: int)
    ensures -1 <= r < |bs|
    ensures r >= 0 ==> showId(bs[r].id) == text && forall k :: 0 <= k < r ==> showId(bs[k].id) != text
    ensures r == -1 ==> forall k :: 0 <= k < |bs| ==> showId(bs[k].id) != text
    decreases |bs|
  {
    if bs == [] then -1
    else if showId(bs[0].id) == text then 0
    else
      var k := FindBookmark(bs[1..], text, showId);
      assert forall i :: 1 <= i < |bs| ==> bs[i] == bs[1..][i - 1];
      if k == -1 then -1 else k + 1
  }

  /** `DELETE /bookmark/:bookmarkId`. */
  function DeleteResult(s: Accounts, uid: string, bookmarkId: Option<string>, env: UserEnv): Outcome {
    if !Truthy(bookmarkId) || env.parseId(bookmarkId.value).None? then
      Outcome(s, Msg(400, "Invalid or missing bookmark ID in URL parameters."))
    else if env.userReadFails then Outcome(s, Msg(500, "Failed to remove bookmark."))
    else
      var k := IndexOfUid(s.users, uid);
      if k < 0 then Outcome(s, Msg(404, "User record not found."))
      else
        var bs := s.users[k].bookmarks;
        var i := FindBookmark(bs, bookmarkId.value, env.showId);
        if i == -1 then Outcome(s, Msg(404, "Bookmark not found for this user."))
        else match Write(s, k, s.users[k].(bookmarks := bs[..i] + bs[i + 1..]), env)
          case Saved(s2) => Outcome(s2, Msg(200, "Bookmark removed successfully!"))
          case _ => Outcome(s, Msg(500, "Failed to remove bookmark."))
  }

  /** A 200 removes exactly the first bookmark whose `_id` prints as the
      parameter and keeps the others in order; no match is a 404; any
      answer but 200 changes nothing. */
  lemma DeleteRemovesFirst(s: Accounts, uid: string, bookmarkId: Option<string>, env: UserEnv)
    ensures var r := DeleteResult(s, uid, bookmarkId, env);
      r.reply.status != 200 ==> r.state == s
    ensures var r := DeleteResult(s, uid, bookmarkId, env);
      r.reply.status == 200 ==>
        var k := IndexOfUid(s.users, uid);
        && 0 <= k < |s.users|
        && var bs := s.users[k].bookmarks;
        && var i := FindBookmark(bs, bookmarkId.value, env.showId);
        && 0 <= i < |bs|
        && env.showId(bs[i].id) == bookmarkId.value
        && (forall j :: 0 <= j < i ==> env.showId(bs[j].id) != bookmarkId.value)
        && r.state == s.(users := s.users[k := s.users[k].(bookmarks := bs[..i] + bs[i + 1..])])
    ensures (Truthy(bookmarkId) && env.parseId(bookmarkId.value).Some? && !env.userReadFails
      && IndexOfUid(s.users, uid) >= 0
      && (forall j :: 0 <= j < |s.users[IndexOfUid(s.users, uid)].bookmarks| ==>
            env.showId(s.users[IndexOfUid(s.users, uid)].bookmarks[j].id) != bookmarkId.value)) ==>
      DeleteResult(s, uid, bookmarkId, env) == Outcome(s, Msg(404, "Bookmark not found for this user."))
  {
  }

  /** With no write fault a matched bookmark is always removed, and the
      collection stays valid and unique. */
  lemma DeleteKeepsOk(s: Accounts, uid: string, bookmarkId: Option<string>, env: UserEnv)
    requires AccountsOk(s)
    ensures AccountsOk(DeleteResult(s, uid, bookmarkId, env).state)
    ensures (!env.saveFails && Truthy(bookmarkId) && env.parseId(bookmarkId.value).Some? && !env.userReadFails
      && IndexOfUid(s.users, uid) >= 0
      && FindBookmark(s.users[IndexOfUid(s.users, uid)].bookmarks, bookmarkId.value, env.showId) >= 0) ==>
      DeleteResult(s, uid, bookmarkId, env).reply.status == 200
  {
    if Truthy(bookmarkId) && env.parseId(bookmarkId.value).Some? && !env.userReadFails && IndexOfUid(s.users, uid) >= 0 {
      var k := IndexOfUid(s.users, uid);
      var bs := s.users[k].bookmarks;
      var i := FindBookmark(bs, bookmarkId.value, env.showId);
      if i >= 0 {
        var u := s.users[k].(bookmarks := bs[..i] + bs[i + 1..]);
        if Write(s, k, u, env).Saved? {
          WriteKeepsOk(s, k, u, env);
        }
        if !env.saveFails {
          assert s.users[k] in s.users;
          forall b | b in u.bookmarks ensures BookmarkValid(b) {
            assert b in bs;
          }
          NoClashForOwnKeys(s, k, u);
        }
      }
    }
  }

  // ---- the handlers over the mutable collection ----

  /** The User collection the three handlers update. */
  class AccountStore {
    var users: seq<User>
    var nextBookmarkId: nat

    function State(): Accounts
      reads this
    {
      Accounts(users, nextBookmarkId)
    }

    ghost predicate Valid()
      reads this
    {
      AccountsOk(State())
    }

    constructor (initial: Accounts)
      requires AccountsOk(initial)
      ensures Valid() && State() == initial
    {
      users := initial.users;
      nextBookmarkId := initial.nextBookmarkId;
    }

    /** `user.save()` for the user at `k` (-1: a new user). */
    method Save(k: int, u: User, env: UserEnv) returns (r: SaveResult)
      requires -1 <= k < |users|
      modifies this
      ensures r == Write(old(State()), k, u, env)
      ensures State() == if r.Saved? then r.state else old(State())
    {
      r := Write(State(), k, u, env);
      if r.Saved? {
        users := r.state.users;
      }
    }

    /** The sync handler's `await user.save()` and its `catch`. */
    method Commit(k: int, u: User, env: UserEnv, status: nat, message: string) returns (reply: Reply)
      requires -1 <= k < |users|
      modifies this
      ensures Outcome(State(), reply) == Persist(old(State()), k, u, env, status, message)
    {
      var r := Save(k, u, env);
      match r
      case Saved(_) => reply := Reply(status, message, Some(u), None);
      case DuplicateKey => reply := Msg(409, DuplicateUserMessage);
      case _ => reply := Msg(500, SyncFailedMessage);
    }

    /** `POST /sync-user`. */
    method SyncUser(uid: string, displayName: Option<string>, email: Option<string>, env: UserEnv) returns (reply: Reply)
      requires Valid()
      modifies this
      ensures Valid()
      ensures Outcome(State(), reply) == SyncResult(old(State()), uid, displayName, email, env)
    {
      SyncKeepsOk(State(), uid, displayName, email, env);
      if uid == "" {
        return Msg(401, "Firebase UID not provided by middleware.");
      }
      if env.userReadFails {
        return Msg(500, SyncFailedMessage);
      }
      var k := IndexOfUid(users, uid);
      if k < 0 {
        var j := EmailQuery(users, email);
        if j >= 0 {
          reply := Relink(j, uid, displayName, env);
        } else {
          reply := Commit(-1, User(uid, email, displayName, [], env.now, env.now), env, 201, "New user created and synced.");
        }
      } else {
        var user := users[k];
        var updated := false;
        if Truthy(displayName) && user.displayName != displayName {
          user := user.(displayName := displayName);
          updated := true;
        }
        if Truthy(email) && user.email != email {
          if EmailTakenByOther(users, email.value, uid) {
            return Msg(409, "Email is already associated with another account.");
          }
          user := user.(email := email);
          updated := true;
        }
        if updated {
          user := user.(updatedAt := env.now);
          reply := Commit(k, user, env, 200, "User synced.");
        } else {
          reply := Reply(200, "User synced.", Some(user), None);
        }
      }
    }

    /** The sync handler's branch for a user found by email only. */
    method Relink(j: int, uid: string, displayName: Option<string>, env: UserEnv) returns (reply: Reply)
      requires 0 <= j < |users|
      modifies this
      ensures Outcome(State(), reply) == SyncRelink(old(State()), j, uid, displayName, env)
    {
      var user := users[j];
      var updated := false;
      if user.uid != uid {
        user := user.(uid := uid);
        updated := true;
      }
      if Truthy(displayName) && user.displayName != displayName {
        user := user.(displayName := displayName);
        updated := true;
      }
      if updated {
        user := user.(updatedAt := env.now);
        reply := Commit(j, user, env, 200, "User synced (Firebase UID updated).");
      } else {
        reply := Reply(200, "User synced (Firebase UID updated).", Some(user), None);
      }
    }

    /** `POST /bookmark`. */
    method AddBookmark(uid: string, articleId: Option<string>, model: Option<string>, db: Db, env: UserEnv) returns (reply: Reply)
      requires Valid()
      modifies this
      ensures Valid()
      ensures Outcome(State(), reply) == AddResult(old(State()), uid, articleId, model, db, env)
    {
      AddKeepsOk(State(), uid, articleId, model, db, env);
      if !Truthy(articleId) || !Truthy(model) {
        return Msg(400, "Missing articleId or articleSourceModel.");
      }
      if env.parseId(articleId.value).None? {
        return Msg(400, "Invalid article ID format.");
      }
      if model.value !in ModelNames {
        return Msg(400, "Invalid source model name provided for bookmark: '" + model.value + "'. Allowed values are: " + ModelList);
      }
      if env.userReadFails {
        return Msg(500, "Failed to add bookmark.");
      }
      var k := IndexOfUid(users, uid);
      if k < 0 {
        return Msg(404, "User record not found. Please ensure user data is synced.");
      }
      reply := AddFound(k, articleId.value, env.parseId(articleId.value).value, model.value, db, env);
    }

    /** The add handler once the user at `k` is loaded. */
    method AddFound(k: int, text: string, id: ArticleId, model: string, db: Db, env: UserEnv) returns (reply: Reply)
      requires 0 <= k < |users|
      modifies this
      ensures Outcome(State(), reply) == AddForUser(old(State()), k, text, id, model, db, env)
    {
      var seen := AlreadyBookmarked(users[k].bookmarks, text, model, env.showId);
      if seen {
        return Msg(409, "Article already bookmarked.");
      }
      var entry := FindByModelName(SourceConfig, model);
      if entry.None? {
        return Msg(400, "Invalid articleSourceModel provided (no matching config entry to fetch article details).");
      }
      if env.articleReadFails {
        return Msg(500, "Failed to add bookmark.");
      }
      var article := FindArticle(db, entry.value.modelName, id);
      if article.None? {
        return Msg(404, "Article not found in source collection. Cannot bookmark missing article.");
      }
      reply := Push(k, Bookmark(nextBookmarkId, id, model, env.now, DetailsOf(article.value)), env);
    }

    /** `user.bookmarks.push(b); await user.save()` and the add handler's `catch`. */
    method Push(k: int, b: Bookmark, env: UserEnv) returns (reply: Reply)
      requires 0 <= k < |users|
      modifies this
      ensures Outcome(State(), reply) == AddWrite(old(State()), k, b, env)
    {
      var user := users[k].(bookmarks := users[k].bookmarks + [b]);
      var r := Write(State().(nextBookmarkId := nextBookmarkId + 1), k, user, env);
      match r
      case Saved(s2) =>
        users, nextBookmarkId := s2.users, s2.nextBookmarkId;
        reply := Reply(201, "Article bookmarked successfully!", None, Some(b));
      case DuplicateKey => reply := Msg(409, "Article already bookmarked.");
      case _ => reply := Msg(500, "Failed to add bookmark.");
    }

    /** `DELETE /bookmark/:bookmarkId`. */
    method DeleteBookmark(uid: string, bookmarkId: Option<string>, env: UserEnv) returns (reply: Reply)
      requires Valid()
      modifies this
      ensures Valid()
      ensures Outcome(State(), reply) == DeleteResult(old(State()), uid, bookmarkId, env)
    {
      DeleteKeepsOk(State(), uid, bookmarkId, env);
      if !Truthy(bookmarkId) || env.parseId(bookmarkId.value).None? {
        return Msg(400, "Invalid or missing bookmark ID in URL parameters.");
      }
      if env.userReadFails {
        return Msg(500, "Failed to remove bookmark.");
      }
      var k := IndexOfUid(users, uid);
      if k < 0 {
        return Msg(404, "User record not found.");
      }
      var bs := users[k].bookmarks;
      var i := BookmarkIndex(bs, bookmarkId.value, env.showId);
      if i == -1 {
        return Msg(404, "Bookmark not found for this user.");
      }
      var r := Save(k, users[k].(bookmarks := bs[..i] + bs[i + 1..]), env);
      if r.Saved? {
        reply := Msg(200, "Bookmark removed successfully!");
      } else {
        reply := Msg(500, "Failed to remove bookmark.");
      }
    }
  }

  /** `bookmarks.some(b => String(b.articleId) === text && b.articleSourceModel === model)`. */
  method AlreadyBookmarked(bs: seq<Bookmark>, text: string, model: string, showId: nat -> string) returns (found: bool)
    ensures found == Bookmarked(bs, text, model, showId)
  {
    var i := 0;
    while i < |bs|
      invariant 0 <= i <= |bs|
      invariant forall j :: 0 <= j < i ==> !(showId(bs[j].articleId) == text && bs[j].articleSourceModel == model)
    {
      if showId(bs[i].articleId) == text && bs[i].articleSourceModel == model {
        return true;
      }
      i := i + 1;
    }
    return false;
  }

  /** `bookmarks.findIndex(b => String(b._id) === text)`. */
  method BookmarkIndex(bs: seq<Bookmark>, text: string, showId: nat -> string) returns (i: int)
    ensures i == FindBookmark(bs, text, showId)
  {
    i := 0;
    while i < |bs|
      invariant 0 <= i <= |bs|
      invariant forall j :: 0 <= j < i ==> showId(bs[j].id) != text
    {
      if showId(bs[i].id) == text {
        return;
      }
      i := i + 1;
    }
    i := -1;
  }
}
