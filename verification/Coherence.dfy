/**
 What it means for the redundant indexes to agree with the records, said on the buckets alone,
 and the proof that the image of a log has it.
 */
module Coherence {
  import opened Options
  import opened Keys
  import opened Buckets
  import opened ForumLog
  import opened Forums
  import opened Stores

  function PostBy(u: string): PostRec -> bool { (p: PostRec) => p.user == u }

  function ThreadBy(u: string): ThreadRec -> bool { (t: ThreadRec) => t.user == u }

  function Named(sf: string): string -> bool { (x: string) => x == sf }

  /** Entries of a list name records that satisfy owner, and no record twice. */
  ghost predicate ListsOnly<V(!new)>(list: Bucket<Key>, records: Bucket<V>, owner: V -> bool) {
    && (forall e :: e in list.items ==> records.Get(e.val).Some? && owner(records.Get(e.val).value))
    && (forall i, j :: 0 <= i < j < |list.items| ==> list.items[i].val != list.items[j].val)
  }

  ghost predicate Lists(list: Bucket<Key>, key: Key) {
    exists e :: e in list.items && e.val == key
  }

  /** The thread of the post lists it under its stored index. */
  ghost predicate PostIsListed(s: Store, i: Item<PostRec>) {
    var thread := s.allThreads.Get(i.val.thread);
    thread.Some? && thread.value.posts.Get(i.val.index) == Some(i.key)
  }

  /** The entry of the thread is a post of the thread with that index. */
  ghost predicate EntryIsPost(s: Store, t: Item<ThreadRec>, e: Item<Key>) {
    var post := s.posts.Get(e.val);
    post.Some? && post.value.thread == t.key && post.value.index == e.key
  }

  /** Each post sits in its thread under its index, and each entry of a thread is such a post. */
  ghost predicate ThreadListsCoherent(s: Store) {
    && (forall i :: i in s.posts.items ==> PostIsListed(s, i))
    && (forall t, e :: t in s.allThreads.items && e in t.val.posts.items ==> EntryIsPost(s, t, e))
  }

  /** Each post sits once under its author, and the entries of a user are posts of that user. */
  ghost predicate UserPostsCoherent(s: Store) {
    && (forall i :: i in s.posts.items ==> i.val.user in s.userPosts && Lists(s.userPosts[i.val.user], i.key))
    && (forall u :: u in s.userPosts ==> ListsOnly(s.userPosts[u], s.posts, PostBy(u)))
  }

  /** Each thread sits once under its author, and the entries of a user are threads of that user. */
  ghost predicate UserThreadsCoherent(s: Store) {
    && (forall i :: i in s.allThreads.items ==> i.val.user in s.userThreads && Lists(s.userThreads[i.val.user], i.key))
    && (forall u :: u in s.userThreads ==> ListsOnly(s.userThreads[u], s.allThreads, ThreadBy(u)))
  }

  /** Each thread sits once in the subforum that threadtosubforum names, and in no other. */
  ghost predicate SubforumsCoherent(s: Store) {
    && (forall i :: i in s.allThreads.items ==>
          var sf := s.threadToSubforum.Get(i.key);
          sf.Some? && sf.value in s.subforums && Lists(s.subforums[sf.value], i.key))
    && (forall sf :: sf in s.subforums ==> ListsOnly(s.subforums[sf], s.threadToSubforum, Named(sf)))
    && (forall i :: i in s.threadToSubforum.items ==> s.allThreads.Get(i.key).Some?)
  }

  ghost predicate Room(f: Forum) {
    |f.log| < LIMIT - 2
  }

  // ---------- Lookups in the image ----------

  lemma PostLookup(s: Store, f: Forum, n: nat)
    requires Represents(s, f) && Room(f) && 1 <= n <= |f.log|
    ensures s.posts.Get(Itob(n)) == Some(PostRecOf(Posts(f.log), f.reported, n))
  {
    hide PostRecs, UserPostsExact, UserThreadsExact, SubforumsExact, PostRecOf, NumberedItems, Itob;
    GetFound(s.posts, PostRecs(f), n);
    PostRecAt(f, n);
  }

  lemma ThreadLookup(s: Store, f: Forum, t: nat)
    requires Represents(s, f) && Room(f) && 1 <= t <= |Threads(f.log)|
    ensures s.allThreads.Get(Itob(t)) == Some(ThreadRecOf(Threads(f.log), Posts(f.log), f.locked, t))
  {
    hide ThreadRecs, UserPostsExact, UserThreadsExact, SubforumsExact, ThreadRecOf, NumberedItems, Itob;
    GetFound(s.allThreads, ThreadRecs(f), t);
    ThreadRecAt(f, t);
  }

  /** Item number n of a numbered bucket. */
  lemma NumberedAt<V>(vs: seq<V>, n: nat)
    requires 1 <= n <= |vs|
    ensures NumberedItems(vs)[n - 1] == Item(Itob(n), vs[n - 1])
  {
    ItemsAt(vs, |vs|);
  }

  lemma {:induction false} KeyAt(ns: seq<nat>, j: nat, k: nat)
    requires j < k <= |ns|
    ensures KeysUpTo(ns, k)[j] == Itob(ns[j])
  {
    if j < k - 1 {
      KeyAt(ns, j, k - 1);
    }
  }

  /** Entry j of a list of keys. */
  lemma EntryAt(ns: seq<nat>, j: nat)
    requires j < |ns|
    ensures Numbered(KeysOf(ns)).items[j] == Item(Itob(j + 1), Itob(ns[j]))
  {
    KeyAt(ns, j, |ns|);
    NumberedAt(KeysOf(ns), j + 1);
  }

  lemma ItemNumber<V>(b: Bucket<V>, vs: seq<V>, i: Item<V>) returns (n: nat)
    requires b.items == NumberedItems(vs) && i in b.items
    ensures 1 <= n <= |vs| && i == Item(Itob(n), vs[n - 1])
  {
    var at :| 0 <= at < |b.items| && b.items[at] == i;
    n := at + 1;
    NumberedAt(vs, n);
  }

  /** A list made from exact positions lists exactly the records that satisfy p. */
  lemma ListFromPositions<T(!new), V(!new)>(list: Bucket<Key>, facts: seq<T>, p: T -> bool, records: Bucket<V>,
                                            owner: V -> bool)
    requires list == Numbered(KeysOf(Positions(facts, p)))
    requires forall n :: 1 <= n <= |facts| ==>
      records.Get(Itob(n)).Some? && (owner(records.Get(Itob(n)).value) <==> p(facts[n - 1]))
    ensures ListsOnly(list, records, owner)
    ensures forall n :: 1 <= n <= |facts| && p(facts[n - 1]) ==> Lists(list, Itob(n))
  {
    hide Numbered, KeysOf, Positions, Itob;
    var ns := Positions(facts, p);
    PositionsExact(facts, p);
    ListLength(ns);
    forall j | 0 <= j < |ns|
      ensures list.items[j].val == Itob(ns[j]) && ns[j] in ns
    {
      EntryAt(ns, j);
    }
    forall i, j | 0 <= i < j < |list.items| ensures list.items[i].val != list.items[j].val {
      KeyRoundTrip(ns[i]);
      KeyRoundTrip(ns[j]);
    }
    forall n | 1 <= n <= |facts| && p(facts[n - 1]) ensures Lists(list, Itob(n)) {
      assert n in ns;
      var j :| 0 <= j < |ns| && ns[j] == n;
      assert list.items[j] in list.items;
    }
  }

  lemma ListLength(ns: seq<nat>)
    ensures |Numbered(KeysOf(ns)).items| == |ns|
  {
  }

  // ---------- The image is coherent ----------

  lemma ThreadEntry(s: Store, f: Forum, t: nat, j: nat)
    requires Represents(s, f) && Room(f) && 1 <= t <= |Threads(f.log)|
    requires j < |Positions(Posts(f.log), InThread(t))|
    ensures var post := s.posts.Get(Itob(Positions(Posts(f.log), InThread(t))[j]));
            post.Some? && post.value.thread == Itob(t) && post.value.index == Itob(j + 1)
  {
    hide Represents, Positions, Itob, Posts;
    RankOfEntry(Posts(f.log), t);
    PostLookup(s, f, Positions(Posts(f.log), InThread(t))[j]);
  }

  lemma PostEntry(s: Store, f: Forum, n: nat)
    requires Represents(s, f) && Sound(f) && Room(f) && 1 <= n <= |f.log|
    ensures var post := PostRecOf(Posts(f.log), f.reported, n);
            var thread := s.allThreads.Get(post.thread);
            thread.Some? && thread.value.posts.Get(post.index) == Some(Itob(n))
  {
    hide Represents, Itob, Rank, Positions, KeysOf, NumberedItems;
    var ps := Posts(f.log);
    var t := ps[n - 1].thread;
    PostsNameThreads(f.log);
    assert ps[n - 1] in ps;
    ThreadLookup(s, f, t);
    EntryAtRank(ps, n);
    var ns := Positions(ps, InThread(t));
    GetFound(Numbered(KeysOf(ns)), KeysOf(ns), Rank(ps, n));
    KeyAtRank(ns, Rank(ps, n));
  }

  lemma KeyAtRank(ns: seq<nat>, r: nat)
    requires 1 <= r <= |ns|
    ensures KeysOf(ns)[r - 1] == Itob(ns[r - 1])
  {
    KeyAt(ns, r - 1, |ns|);
  }

  lemma ThreadEntryItem(s: Store, f: Forum, t: Item<ThreadRec>, e: Item<Key>)
    requires Represents(s, f) && Room(f)
    requires t in s.allThreads.items && e in t.val.posts.items
    ensures EntryIsPost(s, t, e)
  {
    hide Itob, PostRecs, ThreadRecs, NumberedItems, KeysOf, Positions, UserPostsExact, UserThreadsExact, SubforumsExact;
    hide LastModified, PostRecOf;
    var k := ItemNumber(s.allThreads, ThreadRecs(f), t);
    ThreadRecAt(f, k);
    var ns := Positions(Posts(f.log), InThread(k));
    var j := ItemNumber(t.val.posts, KeysOf(ns), e);
    KeyAtRank(ns, j);
    ThreadEntry(s, f, k, j - 1);
  }

  lemma PostItemEntry(s: Store, f: Forum, i: Item<PostRec>)
    requires Represents(s, f) && Sound(f) && Room(f) && i in s.posts.items
    ensures PostIsListed(s, i)
  {
    hide Itob, PostRecs, ThreadRecs, NumberedItems, KeysOf, Positions, PostRecOf;
    hide UserPostsExact, UserThreadsExact, SubforumsExact;
    var n := ItemNumber(s.posts, PostRecs(f), i);
    PostRecAt(f, n);
    PostEntry(s, f, n);
  }

  lemma ThreadListsAreCoherent(s: Store, f: Forum)
    requires Represents(s, f) && Sound(f) && Room(f)
    ensures ThreadListsCoherent(s)
  {
    hide Represents, Sound, Room, PostIsListed, EntryIsPost;
    forall i | i in s.posts.items ensures PostIsListed(s, i) {
      PostItemEntry(s, f, i);
    }
    forall t, e | t in s.allThreads.items && e in t.val.posts.items ensures EntryIsPost(s, t, e) {
      ThreadEntryItem(s, f, t, e);
    }
  }

  lemma UserPostsAreCoherent(s: Store, f: Forum)
    requires Represents(s, f) && Room(f)
    ensures UserPostsCoherent(s)
  {
    hide Itob, PostRecs, ThreadRecs, NumberedItems, KeysOf, Positions, UserThreadsExact, SubforumsExact;
    hide Lists, ListsOnly, Rank;
    var ps := Posts(f.log);
    forall u | u in s.userPosts
      ensures ListsOnly(s.userPosts[u], s.posts, PostBy(u))
      ensures forall n :: 1 <= n <= |ps| && ps[n - 1].author == u ==> Lists(s.userPosts[u], Itob(n))
    {
      forall n | 1 <= n <= |ps|
        ensures s.posts.Get(Itob(n)).Some? && s.posts.Get(Itob(n)).value.user == ps[n - 1].author
      {
        PostLookup(s, f, n);
      }
      ListFromPositions(s.userPosts[u], ps, WrittenBy(u), s.posts, PostBy(u));
    }
    forall i | i in s.posts.items
      ensures i.val.user in s.userPosts && Lists(s.userPosts[i.val.user], i.key)
    {
      var n := ItemNumber(s.posts, PostRecs(f), i);
      PostRecAt(f, n);
      PositionsExact(ps, WrittenBy(i.val.user));
      assert n in Positions(ps, WrittenBy(i.val.user));
    }
  }

  lemma UserThreadsAreCoherent(s: Store, f: Forum)
    requires Represents(s, f) && Room(f)
    ensures UserThreadsCoherent(s)
  {
    hide Itob, PostRecs, ThreadRecs, NumberedItems, KeysOf, Positions, UserPostsExact, SubforumsExact;
    hide Lists, ListsOnly, LastModified;
    var ts := Threads(f.log);
    forall u | u in s.userThreads
      ensures ListsOnly(s.userThreads[u], s.allThreads, ThreadBy(u))
      ensures forall n :: 1 <= n <= |ts| && ts[n - 1].author == u ==> Lists(s.userThreads[u], Itob(n))
    {
      forall n | 1 <= n <= |ts|
        ensures s.allThreads.Get(Itob(n)).Some? && s.allThreads.Get(Itob(n)).value.user == ts[n - 1].author
      {
        ThreadLookup(s, f, n);
      }
      ListFromPositions(s.userThreads[u], ts, OpenedBy(u), s.allThreads, ThreadBy(u));
    }
    forall i | i in s.allThreads.items
      ensures i.val.user in s.userThreads && Lists(s.userThreads[i.val.user], i.key)
    {
      var n := ItemNumber(s.allThreads, ThreadRecs(f), i);
      ThreadRecAt(f, n);
      PositionsExact(ts, OpenedBy(i.val.user));
      assert n in Positions(ts, OpenedBy(i.val.user));
    }
  }

  lemma {:induction false} SubforumAt(ts: seq<ThreadFact>, n: nat, k: nat)
    requires 1 <= n <= k <= |ts|
    ensures SubforumsUpTo(ts, k)[n - 1] == ts[n - 1].subforum
  {
    if n < k {
      SubforumAt(ts, n, k - 1);
    }
  }

  /** threadtosubforum gives the subforum in which a thread was opened. */
  lemma SubforumLookup(s: Store, f: Forum, t: nat)
    requires Represents(s, f) && Room(f) && 1 <= t <= |Threads(f.log)|
    ensures s.threadToSubforum.Get(Itob(t)) == Some(Threads(f.log)[t - 1].subforum)
  {
    hide Itob, PostRecs, ThreadRecs, NumberedItems, UserPostsExact, UserThreadsExact, SubforumsExact;
    var sfs := Subforums(Threads(f.log));
    GetFound(s.threadToSubforum, sfs, t);
    SubforumAt(Threads(f.log), t, |Threads(f.log)|);
  }

  lemma SubforumsAreCoherent(s: Store, f: Forum)
    requires Represents(s, f) && Sound(f) && Room(f)
    ensures SubforumsCoherent(s)
  {
    hide Itob, PostRecs, ThreadRecs, NumberedItems, KeysOf, Positions, UserPostsExact, UserThreadsExact;
    hide Lists, ListsOnly, Subforums;
    var ts := Threads(f.log);
    forall n | 1 <= n <= |ts| ensures s.threadToSubforum.Get(Itob(n)) == Some(ts[n - 1].subforum) {
      SubforumLookup(s, f, n);
    }
    forall sf | sf in s.subforums
      ensures ListsOnly(s.subforums[sf], s.threadToSubforum, Named(sf))
      ensures forall n :: 1 <= n <= |ts| && ts[n - 1].subforum == sf ==> Lists(s.subforums[sf], Itob(n))
    {
      ListFromPositions(s.subforums[sf], ts, InSubforum(sf), s.threadToSubforum, Named(sf));
    }
    forall i | i in s.allThreads.items
      ensures var sf := s.threadToSubforum.Get(i.key);
              sf.Some? && sf.value in s.subforums && Lists(s.subforums[sf.value], i.key)
    {
      var n := ItemNumber(s.allThreads, ThreadRecs(f), i);
      assert ts[n - 1] in ts;
    }
    forall i | i in s.threadToSubforum.items ensures s.allThreads.Get(i.key).Some? {
      var n := ItemNumber(s.threadToSubforum, Subforums(ts), i);
      ThreadLookup(s, f, n);
    }
  }

  /** In every state that represents a forum the indexes are exact inverses of the records. */
  lemma IndexesAreExact(s: Store, f: Forum)
    requires Represents(s, f) && Sound(f) && Room(f)
    ensures ThreadListsCoherent(s) && UserPostsCoherent(s) && UserThreadsCoherent(s) && SubforumsCoherent(s)
  {
    ThreadListsAreCoherent(s, f);
    UserPostsAreCoherent(s, f);
    UserThreadsAreCoherent(s, f);
    SubforumsAreCoherent(s, f);
    hide ThreadListsCoherent, UserPostsCoherent, UserThreadsCoherent, SubforumsCoherent;
  }
}
