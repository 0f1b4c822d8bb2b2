/** What the readers show after a write: the pages of threads, the lists of subforums, the searches. */
module WriteThenRead {
  import opened Options
  import opened Keys
  import opened Text
  import opened ForumLog
  import opened Forums
  import opened Stores
  import opened Databases
  import opened ViewThread
  import opened Search
  import opened SubforumIndex
  import AccountStore

  // ---------- Thread numbers ----------

  /** After a reply the same strings name threads as before. */
  lemma ThreadNumberAfterReply(f: Forum, e: Event, id: Key)
    requires e.Replied?
    ensures ThreadNumber(f.(log := f.log + [e]), id) == ThreadNumber(f, id)
    ensures Threads(f.log + [e]) == Threads(f.log)
  {
    hide KeyNumber, Threads;
    Snoc(f.log, e);
  }

  /** After a new thread there is one more name. */
  lemma ThreadNumberAfterOpen(f: Forum, e: Event, id: Key)
    requires e.Opened?
    ensures var n := |Threads(f.log)| + 1;
            && ThreadNumber(f.(log := f.log + [e]), id) == (if id == Itob(n) then Some(n) else ThreadNumber(f, id))
            && ThreadNumber(f, Itob(n)).None?
            && Threads(f.log + [e]) == Threads(f.log) + [ThreadFact(e.subforum, e.title, e.author)]
  {
    hide KeyNumber, Threads, Itob;
    Snoc(f.log, e);
    KeyRoundTrip(|Threads(f.log)| + 1);
  }

  lemma NumberOfKey(f: Forum, id: Key)
    requires ThreadNumber(f, id).Some?
    ensures id == Itob(ThreadNumber(f, id).value) && 1 <= ThreadNumber(f, id).value <= |Threads(f.log)|
  {
  }

  // ---------- Pages ----------

  lemma {:induction false} ThreadPostsKept(ps: seq<PostFact>, x: PostFact, t: nat, k: nat)
    requires k <= |ps|
    ensures ThreadPosts(ps + [x], t, k) == ThreadPosts(ps, t, k)
  {
    hide Itob;
    if k == 0 {
    } else {
      ThreadPostsKept(ps, x, t, k - 1);
    }
  }

  /** The page of a thread after one more event. */
  lemma ThreadPostsSnoc(ps: seq<PostFact>, x: PostFact, t: nat)
    ensures ThreadPosts(ps + [x], t, |ps| + 1) ==
            ThreadPosts(ps, t, |ps|)
            + if x.thread == t then [Shown(Itob(|ps| + 1), x.text, x.author, x.time)] else []
  {
    hide Itob;
    ThreadPostsKept(ps, x, t, |ps|);
  }

  lemma NoPostsYet(log: seq<Event>)
    requires WellFormed(log)
    ensures ThreadPosts(Posts(log), |Threads(log)| + 1, |log|) == []
  {
    hide Threads, Posts, WellFormed, Positions, UpTo;
    NextThreadIsEmpty(log);
    ThreadPostsAt(Posts(log), |Threads(log)| + 1, |log|);
    PositionsIsUpTo(Posts(log), InThread(|Threads(log)| + 1));
  }

  lemma PageIs(f: Forum, id: Key, t: nat)
    requires ThreadNumber(f, id) == Some(t)
    ensures PageOf(f, id)
         == Some(Page(Threads(f.log)[t - 1].title, t in f.locked, ThreadPosts(Posts(f.log), t, |f.log|)))
  {
    hide Threads, Posts, KeyNumber;
  }

  /** One more reply in the log, on the page of a thread. */
  lemma ReplyOnPage(f: Forum, e: Event, id: Key, u: nat)
    requires e.Replied? && ThreadNumber(f, id) == Some(u)
    ensures var page, f' := PageOf(f, id), f.(log := f.log + [e]);
            && page.Some?
            && PageOf(f', id).Some?
            && PageOf(f', id).value == page.value.(posts := page.value.posts
                 + if e.thread == u then [Shown(Itob(|f.log| + 1), e.text, e.author, e.time)] else [])
  {
    hide ThreadNumber, Threads, Posts, ThreadPosts, PageOf, Itob;
    ThreadNumberAfterReply(f, e, id);
    Snoc(f.log, e);
    ThreadPostsSnoc(Posts(f.log), PostOf(Threads(f.log), e), u);
    PageIs(f, id, u);
    PageIs(f.(log := f.log + [e]), id, u);
  }

  /** After a committed reply the page of its thread ends with it, and nothing else on any page is different. */
  lemma PageAfterReply(f: Forum, user: string, key: Key, text: string, priv: nat, now: Option<int>, commit: bool,
                       id: Key)
    requires ReplyError(f, user, key, priv, now, commit).None?
    ensures PageOf(f, key).Some?
    ensures var page := PageOf(f, id);
            PageOf(Reply(f, user, key, text, priv, now, commit), id) ==
            if id == key then
              Some(page.value.(posts := page.value.posts + [Shown(Itob(|f.log| + 1), text, user, now.value)]))
            else page
  {
    hide ThreadNumber, Threads, Posts, ThreadPosts, PageOf, Itob;
    var t := ThreadNumber(f, key).value;
    var e := Replied(t, user, text, now.value);
    ReplyOnPage(f, e, key, t);
    NumberOfKey(f, key);
    if ThreadNumber(f, id).Some? {
      NumberOfKey(f, id);
      ReplyOnPage(f, e, id, ThreadNumber(f, id).value);
      assert PageOf(f, id).value.posts + [] == PageOf(f, id).value.posts;
    } else {
      ThreadNumberAfterReply(f, e, id);
      NoPage(f, id);
      NoPage(f.(log := f.log + [e]), id);
    }
  }

  lemma NoPage(f: Forum, id: Key)
    requires ThreadNumber(f, id).None?
    ensures PageOf(f, id).None?
  {
  }

  lemma NextIsNotLocked(f: Forum)
    requires Forums.Sound(f)
    ensures |Threads(f.log)| + 1 !in f.locked
  {
    hide Threads, WellFormed;
  }

  /** One more thread in the log, on the page of a thread that was there and on its own. */
  lemma OpenOnOtherPage(f: Forum, e: Event, id: Key, u: nat)
    requires e.Opened? && ThreadNumber(f, id) == Some(u)
    ensures PageOf(f.(log := f.log + [e]), id) == PageOf(f, id)
  {
    hide ThreadNumber, Threads, Posts, ThreadPosts, PageOf, Itob;
    ThreadNumberAfterOpen(f, e, id);
    NumberOfKey(f, id);
    Snoc(f.log, e);
    ThreadPostsSnoc(Posts(f.log), PostOf(Threads(f.log), e), u);
    PageIs(f, id, u);
    PageIs(f.(log := f.log + [e]), id, u);
    assert ThreadPosts(Posts(f.log), u, |f.log|) + [] == ThreadPosts(Posts(f.log), u, |f.log|);
  }

  lemma OpenOnItsPage(f: Forum, e: Event)
    requires Forums.Sound(f) && e.Opened?
    ensures PageOf(f.(log := f.log + [e]), Itob(|Threads(f.log)| + 1))
         == Some(Page(e.title, false, [Shown(Itob(|f.log| + 1), e.text, e.author, e.time)]))
  {
    hide ThreadNumber, Threads, Posts, ThreadPosts, PageOf, Itob;
    var n := |Threads(f.log)| + 1;
    ThreadNumberAfterOpen(f, e, Itob(n));
    Snoc(f.log, e);
    NoPostsYet(f.log);
    NextIsNotLocked(f);
    ThreadPostsSnoc(Posts(f.log), PostOf(Threads(f.log), e), n);
    PageIs(f.(log := f.log + [e]), Itob(n), n);
    var shown := Shown(Itob(|f.log| + 1), e.text, e.author, e.time);
    assert [] + [shown] == [shown];
  }

  /** After a committed new thread there is one more page, under the next id: it has the trimmed title and one post, it
      is not locked, and all other pages are as before. */
  lemma PageAfterOpen(f: Forum, a: Alphabet, sf: string, user: string, title: string, text: string, now: Option<int>,
                      commit: bool, id: Key)
    requires Forums.Sound(f) && OpenError(f, a, sf, user, title, now, commit).None?
    ensures var next := Itob(|Threads(f.log)| + 1);
            && PageOf(f, next).None?
            && PageOf(Open(f, a, sf, user, title, text, now, commit), id) ==
               if id == next then
                 Some(Page(Trim(title, a.space), false, [Shown(Itob(|f.log| + 1), text, user, now.value)]))
               else PageOf(f, id)
  {
    hide ThreadNumber, Threads, Posts, ThreadPosts, PageOf, Itob, Trim, TitleProblem, Forums.Sound;
    var e := Opened(sf, Trim(title, a.space), user, text, now.value);
    ThreadNumberAfterOpen(f, e, id);
    OpenOnItsPage(f, e);
    NoPage(f, Itob(|Threads(f.log)| + 1));
    if ThreadNumber(f, id).Some? {
      OpenOnOtherPage(f, e, id, ThreadNumber(f, id).value);
    } else if id != Itob(|Threads(f.log)| + 1) {
      NoPage(f, id);
      NoPage(f.(log := f.log + [e]), id);
    }
  }

  /** After a committed lock or unlock exactly the page of that thread says so, and a report changes no page. */
  lemma PageAfterLock(f: Forum, key: Key, on: bool, id: Key)
    requires ThreadNumber(f, key).Some?
    ensures PageOf(f, key).Some?
    ensures PageOf(SetLock(f, key, on, true), id)
         == if id == key then Some(PageOf(f, id).value.(locked := on)) else PageOf(f, id)
  {
    hide Threads, Posts, ThreadPosts, KeyNumber, Itob;
    NumberOfKey(f, key);
    if ThreadNumber(f, id).Some? {
      NumberOfKey(f, id);
    }
  }

  lemma PageAfterReport(f: Forum, key: Key, commit: bool, id: Key)
    ensures PageOf(Report(f, key, commit), id) == PageOf(f, id)
  {
    hide Threads, Posts, ThreadPosts, KeyNumber;
  }

  // ---------- Write, then view ----------

  /** OnNewPost, and the page that it sends the client to, which was as given before. */
  method ReplyAndView(db: Database, username: string, threadID: Key, text: string, userPriv: nat, now: Option<int>,
                      commit: bool)
    returns (err: Option<Error>, before: Option<Page>, after: Option<Page>)
    requires db.Valid() && |db.forum.log| < LIMIT - 3
    modifies db
    ensures db.Valid()
    ensures err ==
            if before.None? then Some(Forums.NotFound)
            else if before.value.locked && userPriv < 1 then Some(ThreadLocked)
            else if now.None? then Some(BadClock)
            else if username == "" then Some(Forums.NameRequired)
            else if !commit then Some(CommitFailed)
            else None
    ensures err.Some? ==> after == before
    ensures err.None? ==>
      && after.Some? && |after.value.posts| == |before.value.posts| + 1
      && after.value.title == before.value.title && after.value.locked == before.value.locked
      && after.value.posts[..|before.value.posts|] == before.value.posts
      && var post := after.value.posts[|before.value.posts|];
         && post.id == Itob(old(|db.forum.log|) + 1)
         && post.text == text && post.author == username && post.time == now.value
  {
    hide Represents, Forums.Sound, Threads, Posts, ThreadPosts, KeyNumber, Itob;
    before := View(db, threadID);
    ghost var f := db.forum;
    err := db.OnNewPost(username, threadID, text, userPriv, now, commit);
    after := View(db, threadID);
    if err.None? {
      PageAfterReply(f, username, threadID, text, userPriv, now, commit, threadID);
    }
  }

  /** OnNewThread, and a page before and after it. */
  method OpenAndView(db: Database, subforum: string, username: string, rawTitle: string, text: string,
                     now: Option<int>, commit: bool, a: Alphabet, id: Key)
    returns (err: Option<Error>, before: Option<Page>, after: Option<Page>)
    requires db.Valid() && |db.forum.log| < LIMIT - 3
    modifies db
    ensures db.Valid()
    ensures err.None? <==>
      && TitleShape(Trim(rawTitle, a.space), a) && now.Some? && username != ""
      && subforum in old(db.forum.subforums) && commit
    ensures err.Some? || id != Itob(old(|Threads(db.forum.log)|) + 1) ==> after == before
    ensures err.None? && id == Itob(old(|Threads(db.forum.log)|) + 1) ==>
      && before.None? && after.Some? && |after.value.posts| == 1
      && after.value.title == Trim(rawTitle, a.space) && after.value.locked == false
      && var post := after.value.posts[0];
         && post.id == Itob(old(|db.forum.log|) + 1)
         && post.text == text && post.author == username && post.time == now.value
  {
    hide Represents, Forums.Sound, Threads, Posts, ThreadPosts, PageOf, Itob, Trim, TitleProblem, TitleShape;
    before := View(db, id);
    ghost var f := db.forum;
    err := db.OnNewThread(subforum, username, rawTitle, text, now, commit, a);
    AcceptedTitles(rawTitle, a);
    after := View(db, id);
    if err.None? {
      PageAfterOpen(f, a, subforum, username, rawTitle, text, now, commit, id);
    }
  }

  /** The command lock or unlock, and a page before and after it. */
  method LockAndView(db: Database, threadID: Key, status: bool, commit: bool, id: Key)
    returns (err: Option<Error>, before: Option<Page>, after: Option<Page>)
    requires db.Valid() && |db.forum.log| < LIMIT - 3
    modifies db
    ensures db.Valid()
    ensures id == threadID ==>
      err == if before.None? then Some(Forums.NotFound) else if !commit then Some(CommitFailed) else None
    ensures err.None? && id == threadID ==>
      && after.Some? && after.value.locked == status
      && after.value.title == before.value.title && after.value.posts == before.value.posts
    ensures err.Some? || id != threadID ==> after == before
  {
    hide Represents, Forums.Sound, Threads, Posts, ThreadPosts, KeyNumber, Itob;
    before := View(db, id);
    ghost var f := db.forum;
    err := db.SetThreadLock(threadID, status, commit);
    after := View(db, id);
    if err.None? {
      PageAfterLock(f, threadID, status, id);
    }
  }

  // ---------- Search by user ----------

  /** What the search shows of a thread does not change with later events. */
  lemma FoundThreadKept(log: seq<Event>, e: Event, t: nat)
    requires WellFormed(log) && 1 <= t <= |Threads(log)|
    ensures t <= |Threads(log + [e])|
    ensures ThreadResult(Threads(log + [e]), Posts(log + [e]), t) == ThreadResult(Threads(log), Posts(log), t)
  {
    hide Threads, Posts, Positions, WellFormed, Itob;
    Snoc(log, e);
    ThreadHasPosts(log, t);
    PositionsSnoc(Posts(log), PostOf(Threads(log), e), InThread(t));
  }

  lemma {:induction false} FoundThreadsKept(log: seq<Event>, e: Event, u: string, k: nat)
    requires WellFormed(log) && k <= |Threads(log)|
    ensures |Threads(log)| <= |Threads(log + [e])|
    ensures NewestThreads(Threads(log + [e]), Posts(log + [e]), u, k) == NewestThreads(Threads(log), Posts(log), u, k)
  {
    hide Threads, Posts, NewestThreads, ThreadResult, WellFormed;
    var ts, ps, ts', ps' := Threads(log), Posts(log), Threads(log + [e]), Posts(log + [e]);
    Snoc(log, e);
    if k == 0 {
      NothingNewest(ts, ps, u);
      NothingNewest(ts', ps', u);
    } else {
      FoundThreadsKept(log, e, u, k - 1);
      FoundThreadKept(log, e, k);
      NewestThreadsStep(ts, ps, u, k);
      NewestThreadsStep(ts', ps', u, k);
    }
  }

  lemma NewThreadFound(log: seq<Event>, e: Event)
    requires WellFormed(log) && e.Opened?
    ensures var n := |Threads(log)| + 1;
            && |Threads(log + [e])| == n
            && ThreadResult(Threads(log + [e]), Posts(log + [e]), n) == FoundThread(e.title, e.author, Itob(n), e.text)
  {
    hide Threads, Posts, Positions, WellFormed, Itob;
    Snoc(log, e);
    NextThreadIsEmpty(log);
    PositionsSnoc(Posts(log), PostOf(Threads(log), e), InThread(|Threads(log)| + 1));
  }

  /** A new thread comes first in the list of its author, with its title and its text; all other threads stay as they
      were found. */
  lemma FoundThreadsAfter(log: seq<Event>, e: Event, u: string)
    requires WellFormed(log)
    ensures var ts' := Threads(log + [e]);
            NewestThreads(ts', Posts(log + [e]), u, |ts'|) ==
            (if e.Opened? && e.author == u then [FoundThread(e.title, u, Itob(|Threads(log)| + 1), e.text)] else [])
            + NewestThreads(Threads(log), Posts(log), u, |Threads(log)|)
  {
    hide Threads, Posts, NewestThreads, ThreadResult, WellFormed, Itob;
    Snoc(log, e);
    FoundThreadsKept(log, e, u, |Threads(log)|);
    var found := NewestThreads(Threads(log), Posts(log), u, |Threads(log)|);
    assert [] + found == found;
    if e.Opened? {
      NewThreadFound(log, e);
      NewestThreadsStep(Threads(log + [e]), Posts(log + [e]), u, |Threads(log)| + 1);
    }
  }

  /** What a search shows of a post does not change with later events. */
  lemma FoundPostKept(log: seq<Event>, e: Event, n: nat, author: string)
    requires 1 <= n <= |log| && 1 <= Posts(log)[n - 1].thread <= |Threads(log)|
    ensures 1 <= Posts(log + [e])[n - 1].thread <= |Threads(log + [e])|
    ensures ReplyResult(Threads(log + [e]), Posts(log + [e]), n, author)
         == ReplyResult(Threads(log), Posts(log), n, author)
  {
    hide Threads, Posts, Itob;
    Snoc(log, e);
  }

  lemma {:induction false} FoundPostsKept(log: seq<Event>, e: Event, u: string, k: nat)
    requires WellFormed(log) && WellFormed(log + [e]) && k <= |log|
    ensures NamesThreads(Threads(log), Posts(log)) && NamesThreads(Threads(log + [e]), Posts(log + [e]))
    ensures NewestReplies(Threads(log + [e]), Posts(log + [e]), u, k) == NewestReplies(Threads(log), Posts(log), u, k)
  {
    hide Threads, Posts, NewestReplies, ReplyResult, WellFormed, Rank;
    var ts, ps, ts', ps' := Threads(log), Posts(log), Threads(log + [e]), Posts(log + [e]);
    Snoc(log, e);
    PostsNameThreadsAt(log);
    PostsNameThreadsAt(log + [e]);
    if k == 0 {
      NoRepliesYet(ts, ps, u);
      NoRepliesYet(ts', ps', u);
    } else {
      FoundPostsKept(log, e, u, k - 1);
      FoundPostKept(log, e, k, "");
      RankSnoc(ps, PostOf(ts, e));
      NewestRepliesStep(ts, ps, u, k);
      NewestRepliesStep(ts', ps', u, k);
    }
  }

  lemma NewPostFound(log: seq<Event>, e: Event, author: string)
    requires WellFormed(log) && WellFormed(log + [e]) && e.Replied?
    ensures 1 <= e.thread <= |Threads(log)| == |Threads(log + [e])|
    ensures Posts(log + [e])[|log|].thread == e.thread
    ensures var t := Threads(log)[e.thread - 1];
            ReplyResult(Threads(log + [e]), Posts(log + [e]), |log| + 1, author)
            == FoundPost(Itob(e.thread), t.title, t.author, Itob(|log| + 1), e.text, author)
  {
    hide Threads, Posts, WellFormed, Itob;
    Snoc(log, e);
  }

  lemma RankOfNewPost(log: seq<Event>, e: Event)
    requires WellFormed(log) && WellFormed(log + [e])
    ensures Rank(Posts(log + [e]), |log| + 1) == 1 <==> e.Opened?
  {
    hide Threads, Posts, WellFormed, Positions, Rank;
    Snoc(log, e);
    RankSnoc(Posts(log), PostOf(Threads(log), e));
    NextThreadIsEmpty(log);
    if e.Replied? {
      ThreadHasPosts(log, e.thread);
    }
  }

  /** A reply comes first in the list of its author, under its thread and with its text; a new thread is no reply, and
      all other replies stay as they were found. */
  lemma FoundPostsAfter(log: seq<Event>, e: Event, u: string)
    requires WellFormed(log) && WellFormed(log + [e])
    ensures NamesThreads(Threads(log), Posts(log)) && NamesThreads(Threads(log + [e]), Posts(log + [e]))
    ensures e.Replied? ==> 1 <= e.thread <= |Threads(log)|
    ensures NewestReplies(Threads(log + [e]), Posts(log + [e]), u, |log| + 1) ==
            (if e.Replied? && e.author == u then
               var t := Threads(log)[e.thread - 1];
               [FoundPost(Itob(e.thread), t.title, t.author, Itob(|log| + 1), e.text, "")]
             else [])
            + NewestReplies(Threads(log), Posts(log), u, |log|)
  {
    hide Threads, Posts, NewestReplies, ReplyResult, WellFormed, Rank, Itob;
    Snoc(log, e);
    FoundPostsKept(log, e, u, |log|);
    RankOfNewPost(log, e);
    NewestRepliesStep(Threads(log + [e]), Posts(log + [e]), u, |log| + 1);
    if e.Replied? {
      NewPostFound(log, e, "");
    }
  }

  // ---------- Keyword hits ----------

  lemma HitResultsStep(f: Forum, ids: seq<string>, k: nat)
    requires k < |ids| && NamesThreads(Threads(f.log), Posts(f.log))
    ensures HitResults(f, ids, k + 1) == HitResults(f, ids, k)
         + match HitResult(f, ids[k]) case None => [] case Some(r) => [r]
    ensures HitResults(f, ids, 0) == []
  {
    hide HitResult, NamesThreads;
  }

  /** The hits are shown one by one, in their order. */
  lemma {:induction false} HitsInOrder(f: Forum, ids: seq<string>, more: seq<string>, k: nat)
    requires k <= |ids| && NamesThreads(Threads(f.log), Posts(f.log))
    ensures HitResults(f, ids + more, k) == HitResults(f, ids, k)
  {
    hide HitResult, HitResults, NamesThreads, Threads, Posts;
    if k == 0 {
      HitsBegin(f, ids);
      HitsBegin(f, ids + more);
    } else {
      HitsInOrder(f, ids, more, k - 1);
      HitResultsStep(f, ids, k - 1);
      HitResultsStep(f, ids + more, k - 1);
    }
  }

  lemma HitsBegin(f: Forum, ids: seq<string>)
    requires NamesThreads(Threads(f.log), Posts(f.log))
    ensures HitResults(f, ids, 0) == []
  {
  }

  /** A further hit is shown behind the others, if its id names a post, and otherwise not at all. */
  lemma HitsSnoc(f: Forum, ids: seq<string>, id: string)
    requires NamesThreads(Threads(f.log), Posts(f.log))
    ensures HitResults(f, ids + [id], |ids| + 1)
         == HitResults(f, ids, |ids|) + match HitResult(f, id) case None => [] case Some(r) => [r]
    ensures HitResult(f, id).None? <==> PostNumber(f, id).None?
  {
    hide HitResults, NamesThreads, Threads, Posts, KeyNumber, ReplyResult;
    HitsInOrder(f, ids, [id], |ids|);
    HitResultsStep(f, ids + [id], |ids|);
  }

  /** Once the hit of the next id names a post, it shows that post; all other hits are shown as before. */
  lemma HitAfter(f: Forum, e: Event, id: string)
    requires WellFormed(f.log) && WellFormed(f.log + [e])
    ensures NamesThreads(Threads(f.log), Posts(f.log)) && NamesThreads(Threads(f.log + [e]), Posts(f.log + [e]))
    ensures var f', next := f.(log := f.log + [e]), Itob(|f.log| + 1);
            && HitResult(f, next).None?
            && (id != next ==> HitResult(f', id) == HitResult(f, id))
            && HitResult(f', next).Some?
            && var hit := HitResult(f', next).value;
               && hit.id == next && hit.text == e.text && hit.author == e.author
               && (e.Opened? ==> hit.threadID == Itob(|Threads(f.log)| + 1) && hit.threadTitle == e.title
                                 && hit.threadAuthor == e.author)
               && (e.Replied? ==> 1 <= e.thread <= |Threads(f.log)| && hit.threadID == Itob(e.thread)
                                  && hit.threadTitle == Threads(f.log)[e.thread - 1].title
                                  && hit.threadAuthor == Threads(f.log)[e.thread - 1].author)
  {
    hide Threads, Posts, WellFormed, KeyNumber, Itob;
    Snoc(f.log, e);
    PostsNameThreadsAt(f.log);
    PostsNameThreadsAt(f.log + [e]);
    KeyRoundTrip(|f.log| + 1);
  }

  // ---------- The list of a subforum ----------

  lemma RowIs(f: Forum, t: nat)
    requires 1 <= t <= |Threads(f.log)|
    ensures var fact, row := Threads(f.log)[t - 1], RowOf(f)(t);
            row == Row(Itob(t), fact.title, fact.author, LastModified(Posts(f.log), t), t in f.locked, false)
  {
  }

  /** A reply gives the row of its thread its time, and changes no other. */
  lemma RowAfterReply(f: Forum, e: Event, t: nat)
    requires e.Replied? && 1 <= t <= |Threads(f.log)|
    ensures var row' := RowOf(f.(log := f.log + [e]))(t);
            row' == if t == e.thread then RowOf(f)(t).(lastModified := e.time) else RowOf(f)(t)
  {
    hide Threads, Posts, LastModified, Itob, RowOf;
    Snoc(f.log, e);
    LastModifiedSnoc(Posts(f.log), PostOf(Threads(f.log), e), t);
    RowIs(f, t);
    RowIs(f.(log := f.log + [e]), t);
  }

  /** A lock or unlock shows in the row of its thread, and changes no other. */
  lemma RowAfterLock(f: Forum, key: Key, on: bool, t: nat)
    requires ThreadNumber(f, key).Some? && 1 <= t <= |Threads(f.log)|
    ensures RowOf(SetLock(f, key, on, true))(t)
         == if t == ThreadNumber(f, key).value then RowOf(f)(t).(locked := on) else RowOf(f)(t)
  {
    hide Threads, Posts, LastModified, Itob, KeyNumber;
  }

  lemma RowKept(f: Forum, e: Event, t: nat)
    requires e.Opened? && 1 <= t <= |Threads(f.log)|
    ensures RowOf(f.(log := f.log + [e]))(t) == RowOf(f)(t)
  {
    hide Threads, Posts, LastModified, Itob, RowOf;
    Snoc(f.log, e);
    LastModifiedSnoc(Posts(f.log), PostOf(Threads(f.log), e), t);
    RowIs(f, t);
    RowIs(f.(log := f.log + [e]), t);
  }

  lemma NewRow(f: Forum, e: Event)
    requires e.Opened? && Forums.Sound(f)
    ensures var n := |Threads(f.log)| + 1;
            RowOf(f.(log := f.log + [e]))(n) == Row(Itob(n), e.title, e.author, e.time, false, false)
  {
    hide Threads, Posts, LastModified, Itob, RowOf;
    Snoc(f.log, e);
    var n := |Threads(f.log)| + 1;
    LastModifiedSnoc(Posts(f.log), PostOf(Threads(f.log), e), n);
    NextIsNotLocked(f);
    RowIs(f.(log := f.log + [e]), n);
  }

  lemma {:induction false} MapAgrees<A, B>(g: A -> B, h: A -> B, xs: seq<A>)
    requires forall x :: x in xs ==> g(x) == h(x)
    ensures SubforumIndex.Map(g, xs) == SubforumIndex.Map(h, xs)
  {
    if xs == [] {
    } else {
      MapAgrees(g, h, xs[1..]);
    }
  }

  /** A new thread adds one row to the list of its subforum, and leaves all other rows and lists as they are. */
  lemma ListAfterOpen(f: Forum, e: Event, sf: string)
    requires e.Opened? && Forums.Sound(f)
    ensures var f', n := f.(log := f.log + [e]), |Threads(f.log)| + 1;
            SubforumIndex.Map(RowOf(f'), Positions(Threads(f'.log), InSubforum(sf))) ==
            SubforumIndex.Map(RowOf(f), Positions(Threads(f.log), InSubforum(sf)))
            + if sf == e.subforum then [Row(Itob(n), e.title, e.author, e.time, false, false)] else []
  {
    hide Threads, Posts, LastModified, Itob, RowOf, Positions, SubforumIndex.Map, Forums.Sound;
    var f', ts := f.(log := f.log + [e]), Threads(f.log);
    var ns := Positions(ts, InSubforum(sf));
    Snoc(f.log, e);
    PositionsSnoc(ts, ThreadFact(e.subforum, e.title, e.author), InSubforum(sf));
    forall t | t in ns ensures RowOf(f')(t) == RowOf(f)(t) {
      RowKept(f, e, t);
    }
    MapAgrees(RowOf(f'), RowOf(f), ns);
    if sf == e.subforum {
      NewRow(f, e);
      MapConcat<nat, Row>(RowOf(f'), ns, [|ts| + 1]);
      MapAt<nat, Row>(RowOf(f'), [|ts| + 1]);
      var row := Row(Itob(|ts| + 1), e.title, e.author, e.time, false, false);
      assert SubforumIndex.Map<nat, Row>(RowOf(f'), [|ts| + 1]) == [row];
    } else {
      assert SubforumIndex.Map(RowOf(f), ns) + [] == SubforumIndex.Map(RowOf(f), ns);
    }
  }

  // ---------- Write, then search or list ----------

  /** OnNewThread, and the search for a user before and after it. */
  method OpenAndSearch(db: Database, accounts: AccountStore.AccountBuckets, subforum: string, username: string,
                       rawTitle: string, text: string, now: Option<int>, commit: bool, a: Alphabet, name: string)
    returns (err: Option<Error>, threads: seq<FoundThread>, posts: seq<FoundPost>,
             threads': seq<FoundThread>, posts': seq<FoundPost>)
    requires db.Valid() && |db.forum.log| < LIMIT - 3
    modifies db
    ensures db.Valid()
    ensures posts' == posts
    ensures err.Some? || name != username || name !in accounts.users ==> threads' == threads
    ensures err.None? && name == username && name in accounts.users ==>
      var id := Itob(old(|Threads(db.forum.log)|) + 1);
      threads' == [FoundThread(Trim(rawTitle, a.space), username, id, text)] + threads
  {
    hide Represents, Forums.Sound, Threads, Posts, NewestThreads, NewestReplies, NamesThreads, Itob, Trim, WellFormed;
    hide TitleProblem;
    var _, ts, ps := SearchUser(db, accounts, name);
    threads, posts := ts, ps;
    ghost var f := db.forum;
    SoundIsWellFormed(f);
    err := db.OnNewThread(subforum, username, rawTitle, text, now, commit, a);
    SoundIsWellFormed(db.forum);
    var _, ts', ps' := SearchUser(db, accounts, name);
    threads', posts' := ts', ps';
    if err.None? {
      ghost var e := Opened(subforum, Trim(rawTitle, a.space), username, text, now.value);
      FoundThreadsAfter(f.log, e, name);
      FoundPostsAfter(f.log, e, name);
      NothingInFront(threads, posts);
    }
  }

  lemma SoundIsWellFormed(f: Forum)
    requires Forums.Sound(f)
    ensures WellFormed(f.log)
  {
  }

  lemma NothingInFront(threads: seq<FoundThread>, posts: seq<FoundPost>)
    ensures [] + threads == threads && [] + posts == posts
  {
  }

  /** OnNewPost, and the search for a user before and after it. */
  method ReplyAndSearch(db: Database, accounts: AccountStore.AccountBuckets, username: string, threadID: Key,
                        text: string, userPriv: nat, now: Option<int>, commit: bool, name: string)
    returns (err: Option<Error>, threads: seq<FoundThread>, posts: seq<FoundPost>,
             threads': seq<FoundThread>, posts': seq<FoundPost>)
    requires db.Valid() && |db.forum.log| < LIMIT - 3
    modifies db
    ensures db.Valid()
    ensures threads' == threads
    ensures err.Some? || name != username || name !in accounts.users ==> posts' == posts
    ensures err.None? && name == username && name in accounts.users ==>
      && posts' != [] && posts'[1..] == posts
      && posts'[0].threadID == threadID && posts'[0].id == Itob(old(|db.forum.log|) + 1) && posts'[0].text == text
      && var page := PageOf(db.forum, threadID); page.Some? && posts'[0].threadTitle == page.value.title
  {
    hide Represents, Forums.Sound, Threads, Posts, NewestThreads, NewestReplies, NamesThreads, Itob, WellFormed;
    hide ThreadNumber, PageOf;
    var _, ts, ps := SearchUser(db, accounts, name);
    threads, posts := ts, ps;
    ghost var f := db.forum;
    SoundIsWellFormed(f);
    err := db.OnNewPost(username, threadID, text, userPriv, now, commit);
    SoundIsWellFormed(db.forum);
    var _, ts', ps' := SearchUser(db, accounts, name);
    threads', posts' := ts', ps';
    if err.None? {
      ghost var t := ThreadNumber(f, threadID).value;
      ghost var e := Replied(t, username, text, now.value);
      FoundThreadsAfter(f.log, e, name);
      FoundPostsAfter(f.log, e, name);
      NothingInFront(threads, posts);
      NumberOfKey(f, threadID);
      ThreadNumberAfterReply(f, e, threadID);
      PageIs(db.forum, threadID, t);
    }
  }

  /** OnNewThread, and the list of a subforum before and after it. */
  method OpenAndList(db: Database, subforum: string, username: string, rawTitle: string, text: string,
                     now: Option<int>, commit: bool, a: Alphabet, listed: string)
    returns (err: Option<Error>, ok: bool, before: seq<Row>, after: seq<Row>)
    requires db.Valid() && |db.forum.log| < LIMIT - 3
    modifies db
    ensures db.Valid()
    ensures ok <==> listed in old(db.forum.subforums)
    ensures ok ==> NewestFirst(before) && NewestFirst(after)
    ensures ok && (err.Some? || listed != subforum) ==> multiset(after) == multiset(before)
    ensures err.None? ==> now.Some?
    ensures ok && err.None? && listed == subforum ==>
      var id := Itob(old(|Threads(db.forum.log)|) + 1);
      var row := Row(id, Trim(rawTitle, a.space), username, now.value, false, false);
      multiset(after) == multiset(before) + multiset{row}
  {
    hide Represents, Forums.Sound, Threads, Posts, RowOf, Positions, Itob, Trim, WellFormed, TitleProblem;
    hide SubforumIndex.Map, NewestFirst, StrictlyTimed, Board;
    var known, rows := GetThreadsForSubforum(db, listed);
    before := rows[..];
    ghost var f := db.forum;
    err := db.OnNewThread(subforum, username, rawTitle, text, now, commit, a);
    var rows';
    ok, rows' := GetThreadsForSubforum(db, listed);
    after := rows'[..];
    if err.None? {
      ListAfterOpen(f, Opened(subforum, Trim(rawTitle, a.space), username, text, now.value), listed);
    }
  }
}
