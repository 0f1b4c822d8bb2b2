/** Search by user and the display of keyword hits (search.go). */
module Search {
  import opened Options
  import opened Keys
  import opened Buckets
  import opened ForumLog
  import opened Forums
  import opened Stores
  import opened Coherence
  import opened Databases
  import AccountStore

  datatype FoundThread = FoundThread(title: string, author: string, id: Key, firstPost: string)

  datatype FoundPost = FoundPost(
    threadID: Key, threadTitle: string, threadAuthor: string, id: Key, text: string, author: string)

  // ---------- What the log says ----------

  /** The text of the post that opened thread t. */
  function OpenerText(ps: seq<PostFact>, t: nat): string {
    var ns := Positions(ps, InThread(t));
    if ns == [] then "" else ps[ns[0] - 1].text
  }

  function ThreadResult(ts: seq<ThreadFact>, ps: seq<PostFact>, t: nat): FoundThread
    requires 1 <= t <= |ts|
  {
    FoundThread(ts[t - 1].title, ts[t - 1].author, Itob(t), OpenerText(ps, t))
  }

  /** The threads of a user among the first k, newest first. */
  function NewestThreads(ts: seq<ThreadFact>, ps: seq<PostFact>, u: string, k: nat): seq<FoundThread>
    requires k <= |ts|
  {
    if k == 0 then []
    else if ts[k - 1].author == u then [ThreadResult(ts, ps, k)] + NewestThreads(ts, ps, u, k - 1)
    else NewestThreads(ts, ps, u, k - 1)
  }

  /** A reply as the search shows it: the author is left out, because the header names the user. */
  function ReplyResult(ts: seq<ThreadFact>, ps: seq<PostFact>, n: nat, author: string): FoundPost
    requires 1 <= n <= |ps| && 1 <= ps[n - 1].thread <= |ts|
  {
    var t := ps[n - 1].thread;
    FoundPost(Itob(t), ts[t - 1].title, ts[t - 1].author, Itob(n), ps[n - 1].text, author)
  }

  ghost predicate NamesThreads(ts: seq<ThreadFact>, ps: seq<PostFact>) {
    forall i :: 0 <= i < |ps| ==> 1 <= ps[i].thread <= |ts|
  }

  /** The posts of a user among the first k that do not open a thread, newest first. */
  ghost function NewestReplies(ts: seq<ThreadFact>, ps: seq<PostFact>, u: string, k: nat): seq<FoundPost>
    requires k <= |ps| && NamesThreads(ts, ps)
  {
    if k == 0 then []
    else if ps[k - 1].author == u && Rank(ps, k) != 1 then
      [ReplyResult(ts, ps, k, "")] + NewestReplies(ts, ps, u, k - 1)
    else NewestReplies(ts, ps, u, k - 1)
  }

  // ---------- The walks, from the last entry to the first ----------

  function DescendThreads(ts: seq<ThreadFact>, ps: seq<PostFact>, ns: seq<nat>, i: nat): seq<FoundThread>
    requires i <= |ns|
    requires forall j :: 0 <= j < |ns| ==> 1 <= ns[j] <= |ts|
  {
    if i == 0 then [] else [ThreadResult(ts, ps, ns[i - 1])] + DescendThreads(ts, ps, ns, i - 1)
  }

  ghost function DescendReplies(ts: seq<ThreadFact>, ps: seq<PostFact>, ns: seq<nat>, i: nat): seq<FoundPost>
    requires i <= |ns| && NamesThreads(ts, ps)
    requires forall j :: 0 <= j < |ns| ==> 1 <= ns[j] <= |ps|
  {
    if i == 0 then []
    else (if Rank(ps, ns[i - 1]) != 1 then [ReplyResult(ts, ps, ns[i - 1], "")] else [])
         + DescendReplies(ts, ps, ns, i - 1)
  }

  lemma DescendThreadsNone(ts: seq<ThreadFact>, ps: seq<PostFact>, ns: seq<nat>)
    requires forall j :: 0 <= j < |ns| ==> 1 <= ns[j] <= |ts|
    ensures DescendThreads(ts, ps, ns, 0) == []
  {
  }

  lemma DescendThreadsStep(ts: seq<ThreadFact>, ps: seq<PostFact>, ns: seq<nat>, i: nat)
    requires 0 < i <= |ns|
    requires forall j :: 0 <= j < |ns| ==> 1 <= ns[j] <= |ts|
    ensures DescendThreads(ts, ps, ns, i) == [ThreadResult(ts, ps, ns[i - 1])] + DescendThreads(ts, ps, ns, i - 1)
  {
    hide ThreadResult;
  }

  lemma {:induction false} DescendThreadsPrefix(ts: seq<ThreadFact>, ps: seq<PostFact>, ns: seq<nat>, n: nat, i: nat)
    requires i <= |ns| && 1 <= n <= |ts|
    requires forall j :: 0 <= j < |ns| ==> 1 <= ns[j] <= |ts|
    ensures DescendThreads(ts, ps, ns + [n], i) == DescendThreads(ts, ps, ns, i)
  {
    hide DescendThreads, ThreadResult;
    if i == 0 {
      DescendThreadsNone(ts, ps, ns);
      DescendThreadsNone(ts, ps, ns + [n]);
    } else {
      assert (ns + [n])[i - 1] == ns[i - 1];
      DescendThreadsStep(ts, ps, ns, i);
      DescendThreadsStep(ts, ps, ns + [n], i);
      DescendThreadsPrefix(ts, ps, ns, n, i - 1);
    }
  }

  lemma NothingNewest(ts: seq<ThreadFact>, ps: seq<PostFact>, u: string)
    ensures NewestThreads(ts, ps, u, 0) == [] && UpTo(ts, OpenedBy(u), 0) == []
  {
  }

  lemma NewestThreadsStep(ts: seq<ThreadFact>, ps: seq<PostFact>, u: string, k: nat)
    requires 0 < k <= |ts|
    ensures NewestThreads(ts, ps, u, k) == (if ts[k - 1].author == u then [ThreadResult(ts, ps, k)] else [])
                                           + NewestThreads(ts, ps, u, k - 1)
    ensures UpTo(ts, OpenedBy(u), k) == UpTo(ts, OpenedBy(u), k - 1) + if ts[k - 1].author == u then [k] else []
  {
    hide ThreadResult;
  }

  /** The walk over the entries of a user is the filter of the log. */
  lemma {:induction false} DescendIsNewest(ts: seq<ThreadFact>, ps: seq<PostFact>, u: string, k: nat)
    requires k <= |ts|
    ensures var ns := UpTo(ts, OpenedBy(u), k);
            DescendThreads(ts, ps, ns, |ns|) == NewestThreads(ts, ps, u, k)
  {
    hide DescendThreads, NewestThreads, ThreadResult, UpTo;
    if k == 0 {
      NothingNewest(ts, ps, u);
      DescendThreadsNone(ts, ps, []);
    } else {
      var ns := UpTo(ts, OpenedBy(u), k - 1);
      assert ns + [] == ns && [] + NewestThreads(ts, ps, u, k - 1) == NewestThreads(ts, ps, u, k - 1);
      DescendIsNewest(ts, ps, u, k - 1);
      NewestThreadsStep(ts, ps, u, k);
      if ts[k - 1].author == u {
        DescendThreadsStep(ts, ps, ns + [k], |ns| + 1);
        DescendThreadsPrefix(ts, ps, ns, k, |ns|);
      }
    }
  }

  lemma DescendRepliesNone(ts: seq<ThreadFact>, ps: seq<PostFact>, ns: seq<nat>)
    requires NamesThreads(ts, ps)
    requires forall j :: 0 <= j < |ns| ==> 1 <= ns[j] <= |ps|
    ensures DescendReplies(ts, ps, ns, 0) == []
  {
  }

  lemma DescendRepliesStep(ts: seq<ThreadFact>, ps: seq<PostFact>, ns: seq<nat>, i: nat)
    requires 0 < i <= |ns| && NamesThreads(ts, ps)
    requires forall j :: 0 <= j < |ns| ==> 1 <= ns[j] <= |ps|
    ensures DescendReplies(ts, ps, ns, i)
         == (if Rank(ps, ns[i - 1]) != 1 then [ReplyResult(ts, ps, ns[i - 1], "")] else [])
            + DescendReplies(ts, ps, ns, i - 1)
  {
    hide ReplyResult, Rank;
  }

  lemma {:induction false} DescendRepliesPrefix(ts: seq<ThreadFact>, ps: seq<PostFact>, ns: seq<nat>, n: nat, i: nat)
    requires i <= |ns| && 1 <= n <= |ps| && NamesThreads(ts, ps)
    requires forall j :: 0 <= j < |ns| ==> 1 <= ns[j] <= |ps|
    ensures DescendReplies(ts, ps, ns + [n], i) == DescendReplies(ts, ps, ns, i)
  {
    hide DescendReplies, ReplyResult, Rank, NamesThreads;
    if i == 0 {
      DescendRepliesNone(ts, ps, ns);
      DescendRepliesNone(ts, ps, ns + [n]);
    } else {
      assert (ns + [n])[i - 1] == ns[i - 1];
      DescendRepliesStep(ts, ps, ns, i);
      DescendRepliesStep(ts, ps, ns + [n], i);
      DescendRepliesPrefix(ts, ps, ns, n, i - 1);
    }
  }

  lemma DescendRepliesLast(ts: seq<ThreadFact>, ps: seq<PostFact>, ns: seq<nat>, n: nat)
    requires 1 <= n <= |ps| && NamesThreads(ts, ps)
    requires forall j :: 0 <= j < |ns| ==> 1 <= ns[j] <= |ps|
    ensures DescendReplies(ts, ps, ns + [n], |ns| + 1)
         == (if Rank(ps, n) != 1 then [ReplyResult(ts, ps, n, "")] else []) + DescendReplies(ts, ps, ns, |ns|)
  {
    hide ReplyResult, Rank, NamesThreads, DescendReplies;
    assert (ns + [n])[|ns|] == n;
    DescendRepliesStep(ts, ps, ns + [n], |ns| + 1);
    DescendRepliesPrefix(ts, ps, ns, n, |ns|);
  }

  lemma NewestRepliesStep(ts: seq<ThreadFact>, ps: seq<PostFact>, u: string, k: nat)
    requires 0 < k <= |ps| && NamesThreads(ts, ps)
    ensures NewestReplies(ts, ps, u, k)
         == (if ps[k - 1].author == u && Rank(ps, k) != 1 then [ReplyResult(ts, ps, k, "")] else [])
            + NewestReplies(ts, ps, u, k - 1)
  {
    hide ReplyResult, Rank;
  }

  lemma UpToStep(ps: seq<PostFact>, u: string, k: nat)
    requires 0 < k <= |ps|
    ensures UpTo(ps, WrittenBy(u), k) == UpTo(ps, WrittenBy(u), k - 1) + if ps[k - 1].author == u then [k] else []
  {
  }

  lemma NoRepliesYet(ts: seq<ThreadFact>, ps: seq<PostFact>, u: string)
    requires NamesThreads(ts, ps)
    ensures NewestReplies(ts, ps, u, 0) == [] && UpTo(ps, WrittenBy(u), 0) == []
  {
  }

  lemma {:induction false} DescendIsNewestReplies(ts: seq<ThreadFact>, ps: seq<PostFact>, u: string, k: nat)
    requires k <= |ps| && NamesThreads(ts, ps)
    ensures var ns := UpTo(ps, WrittenBy(u), k);
            DescendReplies(ts, ps, ns, |ns|) == NewestReplies(ts, ps, u, k)
  {
    hide ReplyResult, Rank, NamesThreads, DescendReplies, NewestReplies, UpTo;
    if k == 0 {
      NoRepliesYet(ts, ps, u);
      DescendRepliesNone(ts, ps, []);
    } else {
      var ns := UpTo(ps, WrittenBy(u), k - 1);
      assert ns + [] == ns && [] + NewestReplies(ts, ps, u, k - 1) == NewestReplies(ts, ps, u, k - 1);
      DescendIsNewestReplies(ts, ps, u, k - 1);
      UpToStep(ps, u, k);
      NewestRepliesStep(ts, ps, u, k);
      DescendRepliesLast(ts, ps, ns, k);
    }
  }

  lemma PostsNameThreadsAt(log: seq<Event>)
    requires WellFormed(log)
    ensures NamesThreads(Threads(log), Posts(log))
  {
    PostsNameThreads(log);
    forall i | 0 <= i < |Posts(log)| ensures 1 <= Posts(log)[i].thread <= |Threads(log)| {
      assert Posts(log)[i] in Posts(log);
    }
  }

  // ---------- Lookups on the way ----------

  /** The entry itob(1) of a thread names its opener, whose text is found. */
  lemma OpenerLookup(s: Store, f: Forum, t: nat)
    requires Represents(s, f) && Sound(f) && Room(f) && 1 <= t <= |Threads(f.log)|
    ensures var thread := s.allThreads.Get(Itob(t));
            && thread.Some?
            && var entry := thread.value.posts.Get(Itob(1));
            && entry.Some?
            && var post := s.posts.Get(entry.value);
            post.Some? && post.value.text == OpenerText(Posts(f.log), t)
  {
    hide Represents, Itob, Positions, KeysOf, NumberedItems, Posts, Rank;
    ThreadLookup(s, f, t);
    EveryThreadHasOpener(f.log, t);
    var ns := Positions(Posts(f.log), InThread(t));
    GetFound(Numbered(KeysOf(ns)), KeysOf(ns), 1);
    KeyAtRank(ns, 1);
    PostLookup(s, f, ns[0]);
  }

  lemma FirstKey()
    ensures Itob(1) == "0000000000000001"
  {
  }

  /** What the record of post n and the record of its thread say, and which posts are openers. */
  lemma PostWithThread(s: Store, f: Forum, n: nat)
    requires Represents(s, f) && Room(f) && 1 <= n <= |f.log|
    requires NamesThreads(Threads(f.log), Posts(f.log))
    ensures var ts, ps := Threads(f.log), Posts(f.log);
            var t := ps[n - 1].thread;
            && s.posts.Get(Itob(n)).Some?
            && var post := s.posts.Get(Itob(n)).value;
            && post.thread == Itob(t) && post.text == ps[n - 1].text && post.user == ps[n - 1].author
            && (post.index == "0000000000000001" <==> Rank(ps, n) == 1)
            && Copy16(Itob(n)) == Itob(n) && Copy16(post.thread) == Itob(t)
            && s.allThreads.Get(Itob(t)).Some?
            && s.allThreads.Get(Itob(t)).value.title == ts[t - 1].title
            && s.allThreads.Get(Itob(t)).value.user == ts[t - 1].author
  {
    PostLookup(s, f, n);
    ThreadLookup(s, f, Posts(f.log)[n - 1].thread);
    KeyRoundTrip(Rank(Posts(f.log), n));
    KeyRoundTrip(1);
    FirstKey();
    CopyKey(n);
    CopyKey(Posts(f.log)[n - 1].thread);
    hide Represents, Itob, Copy16, Rank, Posts, Threads, Positions, LastModified, KeysOf, NumberedItems, Room;
  }

  /** One entry of userthreads: the thread and the text of its opener. */
  method ThreadOfEntry(db: Database, id: Key, ghost n: nat) returns (found: FoundThread)
    requires db.Valid() && Room(db.forum)
    requires 1 <= n <= |Threads(db.forum.log)| && id == Itob(n)
    ensures found == ThreadResult(Threads(db.forum.log), Posts(db.forum.log), n)
  {
    hide Itob, Represents, Threads, Posts, OpenerText, LastModified, KeysOf, NumberedItems, Positions;
    ThreadLookup(db.Contents(), db.forum, n);
    OpenerLookup(db.Contents(), db.forum, n);
    var thread := db.allThreads.Get(id);
    assert thread.Some?; // "thread not found" is never returned
    var first := thread.value.posts.Get(Itob(1));
    var firstPost := db.posts.Get(first.value);
    assert firstPost.Some?; // the opener is never missing
    return FoundThread(thread.value.title, thread.value.user, id, firstPost.value.text);
  }

  /** The loop over userthreads. */
  method WalkThreads(db: Database, entries: Bucket<Key>, ghost u: string) returns (found: seq<FoundThread>)
    requires db.Valid() && Room(db.forum)
    requires entries == Numbered(KeysOf(Positions(Threads(db.forum.log), OpenedBy(u))))
    ensures found == NewestThreads(Threads(db.forum.log), Posts(db.forum.log), u, |Threads(db.forum.log)|)
  {
    hide Itob, Positions, NumberedItems, KeysOf, Represents, Threads, Posts, ThreadResult, NewestThreads, Room;
    ghost var f, ts, ps := db.forum, Threads(db.forum.log), Posts(db.forum.log);
    ghost var ns := Positions(ts, OpenedBy(u));
    found := [];
    var i := |entries.items|;
    ListLength(ns);
    while i > 0
      invariant 0 <= i <= |ns|
      invariant found + DescendThreads(ts, ps, ns, i) == DescendThreads(ts, ps, ns, |ns|)
    {
      i := i - 1;
      EntryAt(ns, i);
      var thread := ThreadOfEntry(db, entries.items[i].val, ns[i]);
      found := found + [thread];
    }
    PositionsIsUpTo(ts, OpenedBy(u));
    DescendIsNewest(ts, ps, u, |ts|);
  }

  /** One entry of userposts: nothing for a post with index 1, which is shown as a thread. */
  method ReplyOfEntry(db: Database, id: Key, ghost n: nat) returns (found: seq<FoundPost>)
    requires db.Valid() && Room(db.forum)
    requires 1 <= n <= |db.forum.log| && id == Itob(n)
    requires NamesThreads(Threads(db.forum.log), Posts(db.forum.log))
    ensures var ts, ps := Threads(db.forum.log), Posts(db.forum.log);
            found == if Rank(ps, n) != 1 then [ReplyResult(ts, ps, n, "")] else []
  {
    hide Itob, Represents, Rank, Threads, Posts, Copy16, PostRecOf, ThreadRecOf, Room;
    PostWithThread(db.Contents(), db.forum, n);
    var post := db.posts.Get(id);
    assert post.Some?; // "was deleted" never happens
    if post.value.index == "0000000000000001" {
      return [];
    }
    var threadID := Copy16(post.value.thread);
    var thread := db.allThreads.Get(threadID);
    assert thread.Some?; // the thread of a post is never missing
    return [FoundPost(threadID, thread.value.title, thread.value.user, Copy16(id), post.value.text, "")];
  }

  /** The loop over userposts. */
  method WalkPosts(db: Database, entries: Bucket<Key>, ghost u: string) returns (found: seq<FoundPost>)
    requires db.Valid() && Room(db.forum)
    requires entries == Numbered(KeysOf(Positions(Posts(db.forum.log), WrittenBy(u))))
    ensures NamesThreads(Threads(db.forum.log), Posts(db.forum.log))
    ensures found == NewestReplies(Threads(db.forum.log), Posts(db.forum.log), u, |db.forum.log|)
  {
    hide Itob, Positions, NumberedItems, KeysOf, Represents, Rank, Threads, Posts, WellFormed, Room;
    hide ReplyResult, NewestReplies;
    ghost var f, ts, ps := db.forum, Threads(db.forum.log), Posts(db.forum.log);
    ghost var ns := Positions(ps, WrittenBy(u));
    PostsNameThreadsAt(f.log);
    found := [];
    var i := |entries.items|;
    ListLength(ns);
    while i > 0
      invariant 0 <= i <= |ns|
      invariant found + DescendReplies(ts, ps, ns, i) == DescendReplies(ts, ps, ns, |ns|)
    {
      i := i - 1;
      EntryAt(ns, i);
      var reply := ReplyOfEntry(db, entries.items[i].val, ns[i]);
      found := found + reply;
    }
    PositionsIsUpTo(ps, WrittenBy(u));
    DescendIsNewestReplies(ts, ps, u, |ps|);
  }

  /** SearchUser: an unknown name is an error; otherwise the log filtered by author, newest first. */
  method SearchUser(db: Database, accounts: AccountStore.AccountBuckets, name: string)
    returns (known: bool, threads: seq<FoundThread>, posts: seq<FoundPost>)
    requires db.Valid() && Room(db.forum)
    ensures known <==> name in accounts.users
    ensures !known ==> threads == [] && posts == []
    ensures NamesThreads(Threads(db.forum.log), Posts(db.forum.log))
    ensures known ==>
      threads == NewestThreads(Threads(db.forum.log), Posts(db.forum.log), name, |Threads(db.forum.log)|)
    ensures known ==> posts == NewestReplies(Threads(db.forum.log), Posts(db.forum.log), name, |db.forum.log|)
  {
    hide Itob, Positions, NumberedItems, KeysOf, NewestThreads, NewestReplies, NamesThreads;
    threads, posts := [], [];
    PostsNameThreadsAt(db.forum.log);
    if name !in accounts.users {
      return false, [], [];
    }
    SubOfUserThreads(db.userThreads, Threads(db.forum.log), name);
    SubOfUserPosts(db.userPosts, Posts(db.forum.log), name);
    threads := WalkThreads(db, Sub(db.userThreads, name), name);
    posts := WalkPosts(db, Sub(db.userPosts, name), name);
    known := true;
  }

  lemma {:induction false} NewestThreadsCount(ts: seq<ThreadFact>, ps: seq<PostFact>, u: string, k: nat)
    requires k <= |ts|
    ensures |NewestThreads(ts, ps, u, k)| == |UpTo(ts, OpenedBy(u), k)|
  {
    hide ThreadResult;
    if k == 0 {
    } else {
      NewestThreadsCount(ts, ps, u, k - 1);
    }
  }

  lemma {:induction false} NewestRepliesCount(ts: seq<ThreadFact>, ps: seq<PostFact>, u: string, k: nat)
    requires k <= |ps| && NamesThreads(ts, ps)
    ensures |NewestReplies(ts, ps, u, k)| == |RepliesBy(ps[..k], u)|
  {
    hide ReplyResult;
    if k > 0 {
      NewestRepliesCount(ts, ps, u, k - 1);
      assert ps[..k][..k - 1] == ps[..k - 1];
      RankOfPrefix(ps, k);
    } else {
      assert ps[..0] == [];
    }
  }

  /** Conservation: the threads and replies found are together as many as the user's entries in userposts. */
  lemma SearchFindsEveryPost(s: Store, f: Forum, u: string)
    requires Represents(s, f) && Sound(f)
    ensures NamesThreads(Threads(f.log), Posts(f.log))
    ensures |NewestThreads(Threads(f.log), Posts(f.log), u, |Threads(f.log)|)|
          + |NewestReplies(Threads(f.log), Posts(f.log), u, |f.log|)| == |Sub(s.userPosts, u).items|
  {
    hide Positions, NumberedItems, KeysOf, RepliesBy, NewestThreads, NewestReplies;
    var ts, ps := Threads(f.log), Posts(f.log);
    PostsNameThreadsAt(f.log);
    NewestThreadsCount(ts, ps, u, |ts|);
    NewestRepliesCount(ts, ps, u, |ps|);
    assert ps[..|ps|] == ps;
    ThreadsAndRepliesArePosts(f.log, u);
    PositionsIsUpTo(ts, OpenedBy(u));
    SubOfUserPosts(s.userPosts, ps, u);
    ListLength(Positions(ps, WrittenBy(u)));
  }

  // ---------- Keyword hits ----------

  /** What is shown for one hit: the stored post, if the id names one. */
  ghost function HitResult(f: Forum, id: string): Option<FoundPost>
    requires NamesThreads(Threads(f.log), Posts(f.log))
  {
    match PostNumber(f, id)
    case None => None
    case Some(n) => Some(ReplyResult(Threads(f.log), Posts(f.log), n, Posts(f.log)[n - 1].author))
  }

  /** What is shown for the first k hits; hits that name no post are skipped. */
  ghost function HitResults(f: Forum, ids: seq<string>, k: nat): seq<FoundPost>
    requires k <= |ids| && NamesThreads(Threads(f.log), Posts(f.log))
  {
    if k == 0 then []
    else
      match HitResult(f, ids[k - 1])
      case None => HitResults(f, ids, k - 1)
      case Some(r) => HitResults(f, ids, k - 1) + [r]
  }

  /** The transaction of SearchHandler that reads the hits of a keyword search from the database again. */
  method ResolveHits(db: Database, ids: seq<string>) returns (results: seq<FoundPost>)
    requires db.Valid() && Room(db.forum)
    ensures NamesThreads(Threads(db.forum.log), Posts(db.forum.log))
    ensures results == HitResults(db.forum, ids, |ids|)
  {
    hide Itob, Copy16, Positions, NumberedItems, KeysOf, PostRecs, ThreadRecs, LastModified, Rank;
    hide Threads, Posts, WellFormed;
    hide UserPostsExact, UserThreadsExact, SubforumsExact, KeyNumber;
    ghost var f := db.forum;
    PostsNameThreadsAt(f.log);
    results := [];
    for i := 0 to |ids|
      invariant results == HitResults(f, ids, i)
    {
      var post := Find(db.posts, ids[i], PostRecs(f));
      if post.None? {
        continue;
      }
      ghost var n := PostNumber(f, ids[i]).value;
      PostRecAt(f, n);
      PostWithThread(db.Contents(), f, n);
      var threadID := Copy16(post.value.thread);
      var thread := db.allThreads.Get(threadID);
      assert thread.Some?; // the thread of a post is never missing
      results := results + [FoundPost(threadID, thread.value.title, thread.value.user, Copy16(ids[i]),
                                      post.value.text, post.value.user)];
    }
  }
}
