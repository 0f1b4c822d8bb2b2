/** The page of a thread (viewthread.go). */
module ViewThread {
  import opened Options
  import opened Keys
  import opened Buckets
  import opened ForumLog
  import opened Forums
  import opened Stores
  import opened Coherence
  import opened Databases

  datatype Shown = Shown(id: Key, text: string, author: string, time: int)

  datatype Page = Page(title: string, locked: bool, posts: seq<Shown>)

  function ShownPost(ps: seq<PostFact>, n: nat): Shown
    requires 1 <= n <= |ps|
  {
    Shown(Itob(n), ps[n - 1].text, ps[n - 1].author, ps[n - 1].time)
  }

  /** The first k posts of the log, filtered by thread, oldest first. */
  function ThreadPosts(ps: seq<PostFact>, t: nat, k: nat): seq<Shown>
    requires k <= |ps|
  {
    if k == 0 then []
    else if ps[k - 1].thread == t then ThreadPosts(ps, t, k - 1) + [ShownPost(ps, k)]
    else ThreadPosts(ps, t, k - 1)
  }

  function PageOf(f: Forum, id: Key): Option<Page> {
    match ThreadNumber(f, id)
    case None => None
    case Some(t) => Some(Page(Threads(f.log)[t - 1].title, t in f.locked, ThreadPosts(Posts(f.log), t, |f.log|)))
  }

  /** The filter of the log and the list of entries show the same posts. */
  lemma {:induction false} ThreadPostsAt(ps: seq<PostFact>, t: nat, k: nat)
    requires k <= |ps|
    ensures var ns := UpTo(ps, InThread(t), k);
            && |ThreadPosts(ps, t, k)| == |ns|
            && forall j :: 0 <= j < |ns| ==> ThreadPosts(ps, t, k)[j] == ShownPost(ps, ns[j])
  {
    hide Itob;
    if k == 0 {
    } else {
      ThreadPostsAt(ps, t, k - 1);
    }
  }

  /** The walk over the entries of a thread: every entry is found, in the order of the log. */
  method CollectPosts(db: Database, entries: Bucket<Key>, ghost t: nat) returns (shown: seq<Shown>)
    requires db.Valid() && Room(db.forum)
    requires entries == Numbered(KeysOf(Positions(Posts(db.forum.log), InThread(t))))
    ensures shown == ThreadPosts(Posts(db.forum.log), t, |db.forum.log|)
  {
    hide Itob, Positions, NumberedItems, KeysOf, Represents;
    ghost var f, ps := db.forum, Posts(db.forum.log);
    ghost var ns := Positions(ps, InThread(t));
    assert ns == UpTo(ps, InThread(t), |ps|) by {
      PositionsIsUpTo(ps, InThread(t));
    }
    ThreadPostsAt(ps, t, |ps|);
    shown := [];
    for i := 0 to |entries.items|
      invariant |shown| == i
      invariant shown == ThreadPosts(ps, t, |ps|)[..i]
    {
      EntryAt(ns, i);
      PostLookup(db.Contents(), f, ns[i]);
      var id := entries.items[i].val;
      var post := db.posts.Get(id);
      assert post.Some?; // the branch for a missing post is never taken
      shown := shown + [Shown(id, post.value.text, post.value.user, post.value.time)];
    }
  }

  /** ThreadViewHandler, up to the lines it prints. */
  method View(db: Database, id: Key) returns (page: Option<Page>)
    requires db.Valid() && Room(db.forum)
    ensures page == PageOf(db.forum, id)
  {
    hide Itob, Positions, NumberedItems, KeysOf, ThreadRecs, PostRecs, UserPostsExact, UserThreadsExact, SubforumsExact;
    hide KeyNumber, LastModified, ThreadPosts;
    var thread := Find(db.allThreads, id, ThreadRecs(db.forum));
    if thread.None? {
      return None;
    }
    ghost var t := ThreadNumber(db.forum, id).value;
    ThreadRecAt(db.forum, t);
    var shown := CollectPosts(db, thread.value.posts, t);
    return Some(Page(thread.value.title, thread.value.locked == "1", shown));
  }
}
