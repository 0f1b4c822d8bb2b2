/**
 The buckets of the database that hold threads and posts, and the exact image of a forum in
 them. Each post appears in four buckets and each thread in four; the image says what every
 bucket holds, down to keys, order and counters.
 */
module Stores {
  import opened Options
  import opened Keys
  import opened Buckets
  import opened ForumLog
  import opened Forums

  datatype PostRec = PostRec(
    text: string, user: string, time: int, thread: Key, index: Key, archived: string, reports: string)

  datatype ThreadRec = ThreadRec(
    title: string, user: string, lastmodified: int, locked: string, archived: string, posts: Bucket<Key>)

  datatype Store = Store(
    allThreads: Bucket<ThreadRec>,
    posts: Bucket<PostRec>,
    userThreads: map<string, Bucket<Key>>,
    userPosts: map<string, Bucket<Key>>,
    subforums: map<string, Bucket<Key>>,
    threadToSubforum: Bucket<string>)

  function Flag(on: bool): string {
    if on then "1" else "0"
  }

  function KeysUpTo(ns: seq<nat>, k: nat): (ks: seq<Key>)
    requires k <= |ns|
    ensures |ks| == k
  {
    if k == 0 then [] else KeysUpTo(ns, k - 1) + [Itob(ns[k - 1])]
  }

  function KeysOf(ns: seq<nat>): (ks: seq<Key>)
    ensures |ks| == |ns|
  {
    KeysUpTo(ns, |ns|)
  }

  lemma {:induction false} KeysPrefix(ns: seq<nat>, n: nat, k: nat)
    requires k <= |ns|
    ensures KeysUpTo(ns + [n], k) == KeysUpTo(ns, k)
  {
    if k == 0 {
    } else {
      KeysPrefix(ns, n, k - 1);
    }
  }

  lemma KeysSnoc(ns: seq<nat>, n: nat)
    ensures KeysOf(ns + [n]) == KeysOf(ns) + [Itob(n)]
  {
    KeysPrefix(ns, n, |ns|);
  }

  // ---------- Records ----------

  function PostRecOf(ps: seq<PostFact>, reported: set<nat>, n: nat): PostRec
    requires 1 <= n <= |ps|
  {
    var p := ps[n - 1];
    PostRec(p.text, p.author, p.time, Itob(p.thread), Itob(Rank(ps, n)), "0", Flag(n in reported))
  }

  function PostRecsUpTo(ps: seq<PostFact>, reported: set<nat>, k: nat): (rs: seq<PostRec>)
    requires k <= |ps|
    ensures |rs| == k
  {
    if k == 0 then [] else PostRecsUpTo(ps, reported, k - 1) + [PostRecOf(ps, reported, k)]
  }

  function PostRecs(f: Forum): (rs: seq<PostRec>)
    ensures |rs| == |f.log|
  {
    PostRecsUpTo(Posts(f.log), f.reported, |f.log|)
  }

  lemma {:induction false} PostRecsPrefix(ps: seq<PostFact>, x: PostFact, reported: set<nat>, k: nat)
    requires k <= |ps|
    ensures PostRecsUpTo(ps + [x], reported, k) == PostRecsUpTo(ps, reported, k)
  {
    if k == 0 {
    } else {
      PostRecsPrefix(ps, x, reported, k - 1);
      RankSnoc(ps, x);
    }
  }

  lemma PostRecReported(ps: seq<PostFact>, reported: set<nat>, n: nat, k: nat)
    requires 1 <= k <= |ps|
    ensures PostRecOf(ps, reported + {n}, k) ==
            if k == n then PostRecOf(ps, reported, k).(reports := "1") else PostRecOf(ps, reported, k)
  {
    hide Rank, Itob;
  }

  lemma {:induction false} PostRecsReported(ps: seq<PostFact>, reported: set<nat>, n: nat, k: nat)
    requires 1 <= n && k <= |ps|
    ensures PostRecsUpTo(ps, reported + {n}, k) ==
            if n <= k then PostRecsUpTo(ps, reported, k)[n - 1 := PostRecOf(ps, reported, n).(reports := "1")]
            else PostRecsUpTo(ps, reported, k)
  {
    hide PostRecOf;
    if k == 0 {
    } else {
      PostRecsReported(ps, reported, n, k - 1);
      PostRecReported(ps, reported, n, k);
    }
  }

  function ThreadRecOf(ts: seq<ThreadFact>, ps: seq<PostFact>, locked: set<nat>, t: nat): ThreadRec
    requires 1 <= t <= |ts|
  {
    ThreadRec(ts[t - 1].title, ts[t - 1].author, LastModified(ps, t), Flag(t in locked), "0",
              Numbered(KeysOf(Positions(ps, InThread(t)))))
  }

  function ThreadRecsUpTo(ts: seq<ThreadFact>, ps: seq<PostFact>, locked: set<nat>, k: nat): (rs: seq<ThreadRec>)
    requires k <= |ts|
    ensures |rs| == k
  {
    if k == 0 then [] else ThreadRecsUpTo(ts, ps, locked, k - 1) + [ThreadRecOf(ts, ps, locked, k)]
  }

  function ThreadRecs(f: Forum): (rs: seq<ThreadRec>)
    ensures |rs| == |Threads(f.log)|
  {
    ThreadRecsUpTo(Threads(f.log), Posts(f.log), f.locked, |Threads(f.log)|)
  }

  /** The record stored for thread t. */
  lemma ThreadRecAt(f: Forum, t: nat)
    requires 1 <= t <= |Threads(f.log)|
    ensures ThreadRecs(f)[t - 1] == ThreadRecOf(Threads(f.log), Posts(f.log), f.locked, t)
  {
    ThreadRecsAt(Threads(f.log), Posts(f.log), f.locked, t, |Threads(f.log)|);
  }

  lemma {:induction false} ThreadRecsAt(ts: seq<ThreadFact>, ps: seq<PostFact>, locked: set<nat>, t: nat, k: nat)
    requires 1 <= t <= k <= |ts|
    ensures ThreadRecsUpTo(ts, ps, locked, k)[t - 1] == ThreadRecOf(ts, ps, locked, t)
  {
    hide ThreadRecOf;
    if t < k {
      ThreadRecsAt(ts, ps, locked, t, k - 1);
    }
  }

  /** The record stored for post n. */
  lemma PostRecAt(f: Forum, n: nat)
    requires 1 <= n <= |f.log|
    ensures PostRecs(f)[n - 1] == PostRecOf(Posts(f.log), f.reported, n)
  {
    PostRecsAt(Posts(f.log), f.reported, n, |f.log|);
  }

  lemma {:induction false} PostRecsAt(ps: seq<PostFact>, reported: set<nat>, n: nat, k: nat)
    requires 1 <= n <= k <= |ps|
    ensures PostRecsUpTo(ps, reported, k)[n - 1] == PostRecOf(ps, reported, n)
  {
    hide PostRecOf;
    if n < k {
      PostRecsAt(ps, reported, n, k - 1);
    }
  }

  function SubforumsUpTo(ts: seq<ThreadFact>, k: nat): (sfs: seq<string>)
    requires k <= |ts|
    ensures |sfs| == k
  {
    if k == 0 then [] else SubforumsUpTo(ts, k - 1) + [ts[k - 1].subforum]
  }

  function Subforums(ts: seq<ThreadFact>): (sfs: seq<string>)
    ensures |sfs| == |ts|
  {
    SubforumsUpTo(ts, |ts|)
  }

  // ---------- Indexes ----------

  ghost predicate UserPostsExact(m: map<string, Bucket<Key>>, ps: seq<PostFact>) {
    && (forall u :: u in m <==> Positions(ps, WrittenBy(u)) != [])
    && (forall u :: u in m ==> m[u] == Numbered(KeysOf(Positions(ps, WrittenBy(u)))))
  }

  ghost predicate UserThreadsExact(m: map<string, Bucket<Key>>, ts: seq<ThreadFact>) {
    && (forall u :: u in m <==> Positions(ts, OpenedBy(u)) != [])
    && (forall u :: u in m ==> m[u] == Numbered(KeysOf(Positions(ts, OpenedBy(u)))))
  }

  ghost predicate SubforumsExact(m: map<string, Bucket<Key>>, sfs: set<string>, ts: seq<ThreadFact>) {
    && m.Keys == sfs
    && (forall sf :: sf in m ==> m[sf] == Numbered(KeysOf(Positions(ts, InSubforum(sf)))))
  }

  /** The store holds exactly what the forum says, and nothing else. */
  ghost predicate Represents(s: Store, f: Forum) {
    && s.allThreads == Numbered(ThreadRecs(f))
    && s.posts == Numbered(PostRecs(f))
    && UserThreadsExact(s.userThreads, Threads(f.log))
    && UserPostsExact(s.userPosts, Posts(f.log))
    && SubforumsExact(s.subforums, f.subforums, Threads(f.log))
    && s.threadToSubforum == Bucket(0, NumberedItems(Subforums(Threads(f.log))))
  }

  /** The bucket that CreateBucketIfNotExists leaves under a name. */
  function Sub(m: map<string, Bucket<Key>>, name: string): Bucket<Key> {
    if name in m then m[name] else Empty()
  }

  /** NextSequence and Put of a key in a list of keys. */
  method AppendKey(b: Bucket<Key>, v: Key, ghost ns: seq<nat>, ghost n: nat) returns (b': Bucket<Key>, index: Key)
    requires b == Numbered(KeysOf(ns)) && |ns| < LIMIT - 1 && v == Itob(n)
    ensures index == Itob(|ns| + 1) && b' == Numbered(KeysOf(ns + [n]))
  {
    var i;
    b', i := Append(b, v, KeysOf(ns));
    KeysSnoc(ns, n);
    index := Itob(i);
  }

  lemma EmptyKeys()
    ensures Empty() == Numbered(KeysOf([]))
  {
  }

  lemma SubOfUserPosts(m: map<string, Bucket<Key>>, ps: seq<PostFact>, u: string)
    requires UserPostsExact(m, ps)
    ensures Sub(m, u) == Numbered(KeysOf(Positions(ps, WrittenBy(u))))
  {
  }

  lemma SubOfUserThreads(m: map<string, Bucket<Key>>, ts: seq<ThreadFact>, u: string)
    requires UserThreadsExact(m, ts)
    ensures Sub(m, u) == Numbered(KeysOf(Positions(ts, OpenedBy(u))))
  {
  }

  /** A subforum that was not known has no threads, so its new bucket is exact. */
  lemma NewSubforum(m: map<string, Bucket<Key>>, sfs: set<string>, ts: seq<ThreadFact>, sf: string)
    requires SubforumsExact(m, sfs, ts)
    requires forall t :: t in ts ==> t.subforum in sfs
    ensures SubforumsExact(m[sf := Sub(m, sf)], sfs + {sf}, ts)
  {
    if sf !in m {
      NoneSatisfies(ts, InSubforum(sf), |ts|);
      assert Numbered(KeysOf([])) == Empty();
    }
  }

  /** A push to the entry of its author keeps the index of posts exact. */
  lemma PushUserPost(m: map<string, Bucket<Key>>, ps: seq<PostFact>, x: PostFact, b: Bucket<Key>)
    requires UserPostsExact(m, ps)
    requires b == Numbered(KeysOf(Positions(ps, WrittenBy(x.author)) + [|ps| + 1]))
    ensures UserPostsExact(m[x.author := b], ps + [x])
  {
    var m' := m[x.author := b];
    forall u
      ensures u in m' <==> Positions(ps + [x], WrittenBy(u)) != []
      ensures u in m' ==> m'[u] == Numbered(KeysOf(Positions(ps + [x], WrittenBy(u))))
    {
      PositionsSnoc(ps, x, WrittenBy(u));
    }
  }

  lemma PushUserThread(m: map<string, Bucket<Key>>, ts: seq<ThreadFact>, y: ThreadFact, b: Bucket<Key>)
    requires UserThreadsExact(m, ts)
    requires b == Numbered(KeysOf(Positions(ts, OpenedBy(y.author)) + [|ts| + 1]))
    ensures UserThreadsExact(m[y.author := b], ts + [y])
  {
    var m' := m[y.author := b];
    forall u
      ensures u in m' <==> Positions(ts + [y], OpenedBy(u)) != []
      ensures u in m' ==> m'[u] == Numbered(KeysOf(Positions(ts + [y], OpenedBy(u))))
    {
      PositionsSnoc(ts, y, OpenedBy(u));
    }
  }

  lemma PushSubforum(m: map<string, Bucket<Key>>, sfs: set<string>, ts: seq<ThreadFact>, y: ThreadFact, b: Bucket<Key>)
    requires SubforumsExact(m, sfs, ts)
    requires y.subforum in sfs
    requires b == Numbered(KeysOf(Positions(ts, InSubforum(y.subforum)) + [|ts| + 1]))
    ensures SubforumsExact(m[y.subforum := b], sfs, ts + [y])
  {
    var m' := m[y.subforum := b];
    assert m'.Keys == sfs;
    forall sf | sf in m' ensures m'[sf] == Numbered(KeysOf(Positions(ts + [y], InSubforum(sf)))) {
      PositionsSnoc(ts, y, InSubforum(sf));
    }
  }

  // ---------- Records after one more event ----------

  lemma PostRecsSnoc(f: Forum, e: Event)
    requires forall n :: n in f.reported ==> n <= |f.log|
    ensures var x := PostOf(Threads(f.log), e);
            PostRecs(f.(log := f.log + [e])) == PostRecs(f)
              + [PostRec(x.text, x.author, x.time, Itob(x.thread),
                         Itob(|Positions(Posts(f.log), InThread(x.thread))| + 1), "0", "0")]
  {
    Snoc(f.log, e);
    var ps, x := Posts(f.log), PostOf(Threads(f.log), e);
    RankSnoc(ps, x);
    PostRecsPrefix(ps, x, f.reported, |ps|);
    assert |f.log| + 1 !in f.reported;
  }

  lemma OtherThreadAfterPost(ts: seq<ThreadFact>, ps: seq<PostFact>, x: PostFact, locked: set<nat>, t: nat)
    requires 1 <= t <= |ts| && t != x.thread
    ensures ThreadRecOf(ts, ps + [x], locked, t) == ThreadRecOf(ts, ps, locked, t)
  {
    PositionsSnoc(ps, x, InThread(t));
    LastModifiedSnoc(ps, x, t);
  }

  lemma ThreadAfterPost(ts: seq<ThreadFact>, ps: seq<PostFact>, x: PostFact, locked: set<nat>)
    requires 1 <= x.thread <= |ts|
    ensures ThreadRecOf(ts, ps + [x], locked, x.thread) == ThreadRecOf(ts, ps, locked, x.thread).(
              lastmodified := x.time,
              posts := Numbered(KeysOf(Positions(ps, InThread(x.thread)) + [|ps| + 1])))
  {
    PositionsSnoc(ps, x, InThread(x.thread));
    LastModifiedSnoc(ps, x, x.thread);
  }

  /** A reply changes the record of its thread and no other. */
  lemma {:induction false} ThreadRecsAfterReply(ts: seq<ThreadFact>, ps: seq<PostFact>, x: PostFact,
                                                locked: set<nat>, k: nat)
    requires 1 <= x.thread <= |ts| && k <= |ts|
    ensures ThreadRecsUpTo(ts, ps + [x], locked, k) ==
            if x.thread <= k then
              ThreadRecsUpTo(ts, ps, locked, k)[x.thread - 1 := ThreadRecOf(ts, ps + [x], locked, x.thread)]
            else ThreadRecsUpTo(ts, ps, locked, k)
  {
    hide ThreadRecOf;
    if k == 0 {
    } else {
      ThreadRecsAfterReply(ts, ps, x, locked, k - 1);
      if k != x.thread {
        OtherThreadAfterPost(ts, ps, x, locked, k);
      }
    }
  }

  /** A new thread changes no record. */
  lemma {:induction false} ThreadRecsAfterOpen(ts: seq<ThreadFact>, y: ThreadFact, ps: seq<PostFact>, x: PostFact,
                                               locked: set<nat>, k: nat)
    requires x.thread == |ts| + 1 && k <= |ts|
    ensures ThreadRecsUpTo(ts + [y], ps + [x], locked, k) == ThreadRecsUpTo(ts, ps, locked, k)
  {
    hide Numbered, KeysOf, Positions, LastModified;
    if k == 0 {
    } else {
      ThreadRecsAfterOpen(ts, y, ps, x, locked, k - 1);
      OtherThreadAfterPost(ts + [y], ps, x, locked, k);
      assert (ts + [y])[k - 1] == ts[k - 1];
    }
  }

  lemma {:induction false} ThreadRecsLocked(ts: seq<ThreadFact>, ps: seq<PostFact>, locked: set<nat>, t: nat,
                                            on: bool, k: nat)
    requires 1 <= t && k <= |ts|
    ensures ThreadRecsUpTo(ts, ps, if on then locked + {t} else locked - {t}, k) ==
            if t <= k then
              ThreadRecsUpTo(ts, ps, locked, k)[t - 1 := ThreadRecOf(ts, ps, locked, t).(locked := Flag(on))]
            else ThreadRecsUpTo(ts, ps, locked, k)
  {
    hide Numbered, KeysOf, Positions, LastModified;
    if k == 0 {
    } else {
      ThreadRecsLocked(ts, ps, locked, t, on, k - 1);
    }
  }

  lemma {:induction false} SubforumsPrefix(ts: seq<ThreadFact>, y: ThreadFact, k: nat)
    requires k <= |ts|
    ensures SubforumsUpTo(ts + [y], k) == SubforumsUpTo(ts, k)
  {
    if k == 0 {
    } else {
      SubforumsPrefix(ts, y, k - 1);
    }
  }

  lemma NewThreadAfterOpen(ts: seq<ThreadFact>, y: ThreadFact, ps: seq<PostFact>, x: PostFact, locked: set<nat>)
    requires x.thread == |ts| + 1 && x.thread !in locked
    requires Positions(ps, InThread(x.thread)) == []
    ensures ThreadRecOf(ts + [y], ps + [x], locked, x.thread)
         == ThreadRec(y.title, y.author, x.time, "0", "0", Numbered(KeysOf([|ps| + 1])))
  {
    ThreadAfterPost(ts + [y], ps, x, locked);
    assert [] + [|ps| + 1] == [|ps| + 1];
  }

  // ---------- Transactions ----------

  /** The buckets that OnNewPost leaves are the image of the log with the reply. */
  lemma RepresentsReply(s: Store, f: Forum, e: Event, s': Store)
    requires Represents(s, f) && Sound(f)
    requires e.Replied? && 1 <= e.thread <= |Threads(f.log)|
    requires var ns := Positions(Posts(f.log), InThread(e.thread));
             && s'.allThreads == Numbered(ThreadRecs(f)[e.thread - 1 :=
                  ThreadRecOf(Threads(f.log), Posts(f.log), f.locked, e.thread).(
                    lastmodified := e.time, posts := Numbered(KeysOf(ns + [|f.log| + 1])))])
             && s'.posts == Numbered(PostRecs(f)
                  + [PostRec(e.text, e.author, e.time, Itob(e.thread), Itob(|ns| + 1), "0", "0")])
    requires UserPostsExact(s'.userPosts, Posts(f.log) + [PostFact(e.thread, e.author, e.text, e.time)])
    requires s'.userThreads == s.userThreads && s'.subforums == s.subforums && s'.threadToSubforum == s.threadToSubforum
    ensures Represents(s', f.(log := f.log + [e]))
  {
    hide Numbered, NumberedItems, KeysOf, UserPostsExact, UserThreadsExact, SubforumsExact, Positions;
    hide ThreadRecOf, PostRecOf, ThreadRecsUpTo, PostRecsUpTo, SubforumsUpTo, Threads, Posts;
    var ts, ps, x := Threads(f.log), Posts(f.log), PostOf(Threads(f.log), e);
    Snoc(f.log, e);
    PostRecsSnoc(f, e);
    ThreadAfterPost(ts, ps, x, f.locked);
    ThreadRecsAfterReply(ts, ps, x, f.locked, |ts|);
  }

  /** The buckets that OnNewThread leaves are the image of the log with the new thread. */
  lemma RepresentsOpen(s: Store, f: Forum, e: Event, s': Store)
    requires Represents(s, f) && Sound(f)
    requires e.Opened?
    requires s'.allThreads == Numbered(ThreadRecs(f)
               + [ThreadRec(e.title, e.author, e.time, "0", "0", Numbered(KeysOf([|f.log| + 1])))])
    requires s'.posts == Numbered(PostRecs(f)
               + [PostRec(e.text, e.author, e.time, Itob(|Threads(f.log)| + 1), Itob(1), "0", "0")])
    requires UserPostsExact(s'.userPosts, Posts(f.log) + [PostOf(Threads(f.log), e)])
    requires UserThreadsExact(s'.userThreads, Threads(f.log) + [ThreadFact(e.subforum, e.title, e.author)])
    requires SubforumsExact(s'.subforums, f.subforums, Threads(f.log) + [ThreadFact(e.subforum, e.title, e.author)])
    requires s'.threadToSubforum == Bucket(0, NumberedItems(Subforums(Threads(f.log)) + [e.subforum]))
    ensures Represents(s', f.(log := f.log + [e]))
  {
    hide Numbered, NumberedItems, KeysOf, UserPostsExact, UserThreadsExact, SubforumsExact, Positions;
    hide ThreadRecOf, PostRecOf, PostRecsUpTo, Threads, Posts;
    var ts, ps, x := Threads(f.log), Posts(f.log), PostOf(Threads(f.log), e);
    var y := ThreadFact(e.subforum, e.title, e.author);
    Snoc(f.log, e);
    PostRecsSnoc(f, e);
    NextThreadIsEmpty(f.log);
    NewThreadAfterOpen(ts, y, ps, x, f.locked);
    ThreadRecsAfterOpen(ts, y, ps, x, f.locked, |ts|);
    SubforumsPrefix(ts, y, |ts|);
  }

  /** Putting the field locked of one thread. */
  lemma RepresentsLock(s: Store, f: Forum, t: nat, on: bool, s': Store)
    requires Represents(s, f) && 1 <= t <= |Threads(f.log)|
    requires s' == s.(allThreads := Numbered(ThreadRecs(f)[t - 1 :=
               ThreadRecOf(Threads(f.log), Posts(f.log), f.locked, t).(locked := Flag(on))]))
    ensures Represents(s', f.(locked := if on then f.locked + {t} else f.locked - {t}))
  {
    hide Numbered, NumberedItems, KeysOf, UserPostsExact, UserThreadsExact, SubforumsExact, Positions;
    hide ThreadRecOf, PostRecOf, ThreadRecsUpTo, PostRecsUpTo, SubforumsUpTo, Threads, Posts;
    ThreadRecsLocked(Threads(f.log), Posts(f.log), f.locked, t, on, |Threads(f.log)|);
  }

  /** Putting the field reports of one post. */
  lemma RepresentsReport(s: Store, f: Forum, n: nat, s': Store)
    requires Represents(s, f) && 1 <= n <= |f.log|
    requires s' == s.(posts := Numbered(PostRecs(f)[n - 1 :=
               PostRecOf(Posts(f.log), f.reported, n).(reports := "1")]))
    ensures Represents(s', f.(reported := f.reported + {n}))
  {
    hide Numbered, NumberedItems, KeysOf, UserPostsExact, UserThreadsExact, SubforumsExact, Positions;
    hide ThreadRecOf, PostRecOf, ThreadRecsUpTo, PostRecsUpTo, SubforumsUpTo, Threads, Posts;
    PostRecsReported(Posts(f.log), f.reported, n, |f.log|);
  }
}
