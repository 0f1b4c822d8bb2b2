/** Counting the entries of the indexes: every post is listed once per thread and once per author. */
module Conservation {
  import opened Options
  import opened Keys
  import opened Buckets
  import opened ForumLog
  import opened Forums
  import opened Stores
  import opened Coherence

  /** The sum of count over a set of names. */
  ghost function SumOf(us: set<string>, count: string -> nat): nat {
    if us == {} then 0 else var u :| u in us; count(u) + SumOf(us - {u}, count)
  }

  ghost function EntriesOf(m: map<string, Bucket<Key>>): string -> nat {
    (u: string) => |Sub(m, u).items|
  }

  ghost function Authored(ps: seq<PostFact>): string -> nat {
    (u: string) => |Positions(ps, WrittenBy(u))|
  }

  lemma {:induction false} SumSnoc(us: set<string>, ps: seq<PostFact>, x: PostFact)
    ensures SumOf(us, Authored(ps + [x])) == SumOf(us, Authored(ps)) + if x.author in us then 1 else 0
  {
    if us == {} {
    } else {
      var u :| u in us && SumOf(us, Authored(ps)) == Authored(ps)(u) + SumOf(us - {u}, Authored(ps))
                 && SumOf(us, Authored(ps + [x])) == Authored(ps + [x])(u) + SumOf(us - {u}, Authored(ps + [x]));
      SumSnoc(us - {u}, ps, x);
      PositionsSnoc(ps, x, WrittenBy(u));
    }
  }

  lemma {:induction false} SumOfNone(us: set<string>)
    ensures SumOf(us, Authored([])) == 0
  {
    if us == {} {
    } else {
      var u :| u in us && SumOf(us, Authored([])) == Authored([])(u) + SumOf(us - {u}, Authored([]));
      SumOfNone(us - {u});
    }
  }

  lemma {:induction false} SumOfAll(us: set<string>, ps: seq<PostFact>)
    requires forall p :: p in ps ==> p.author in us
    ensures SumOf(us, Authored(ps)) == |ps|
  {
    if ps == [] {
      SumOfNone(us);
    } else {
      var rest, x := ps[..|ps| - 1], ps[|ps| - 1];
      assert ps == rest + [x];
      SumOfAll(us, rest);
      SumSnoc(us, rest, x);
    }
  }

  lemma {:induction false} SumCongruence(us: set<string>, f: string -> nat, g: string -> nat)
    requires forall u :: u in us ==> f(u) == g(u)
    ensures SumOf(us, f) == SumOf(us, g)
  {
    if us == {} {
    } else {
      var u :| u in us && SumOf(us, f) == f(u) + SumOf(us - {u}, f) && SumOf(us, g) == g(u) + SumOf(us - {u}, g);
      SumCongruence(us - {u}, f, g);
    }
  }

  /** Summed over all users, the entries of userposts are as many as the posts. */
  lemma EveryPostUnderOneAuthor(s: Store, f: Forum)
    requires Represents(s, f)
    ensures SumOf(s.userPosts.Keys, EntriesOf(s.userPosts)) == |s.posts.items|
  {
    hide Numbered, KeysOf, Positions;
    var ps := Posts(f.log);
    assert |s.posts.items| == |ps| by {
      PostCount(s, f);
    }
    forall p | p in ps ensures p.author in s.userPosts.Keys {
      PositionsExact(ps, WrittenBy(p.author));
      var i :| 0 <= i < |ps| && ps[i] == p;
      assert i + 1 in Positions(ps, WrittenBy(p.author));
    }
    SumOfAll(s.userPosts.Keys, ps);
    forall u | u in s.userPosts.Keys ensures EntriesOf(s.userPosts)(u) == Authored(ps)(u) {
      SubOfUserPosts(s.userPosts, ps, u);
      ListLength(Positions(ps, WrittenBy(u)));
    }
    SumCongruence(s.userPosts.Keys, EntriesOf(s.userPosts), Authored(ps));
  }

  lemma PostCount(s: Store, f: Forum)
    requires Represents(s, f)
    ensures |s.posts.items| == |f.log|
  {
  }

  /** The entries in the post lists of the first k threads of the bucket. */
  ghost function EntriesInThreads(items: seq<Item<ThreadRec>>, k: nat): nat
    requires k <= |items|
  {
    if k == 0 then 0 else EntriesInThreads(items, k - 1) + |items[k - 1].val.posts.items|
  }

  lemma {:induction false} EntriesMatch(s: Store, f: Forum, k: nat)
    requires Represents(s, f) && k <= |Threads(f.log)|
    ensures |s.allThreads.items| == |Threads(f.log)|
    ensures EntriesInThreads(s.allThreads.items, k) == EntriesOfThreads(Posts(f.log), k)
  {
    hide ThreadRecs, PostRecs, KeysOf, Positions, ItemsUpTo, UserPostsExact, UserThreadsExact, SubforumsExact;
    if k == 0 {
    } else {
      EntriesMatch(s, f, k - 1);
      NumberedAt(ThreadRecs(f), k);
      ThreadRecAt(f, k);
      ListLength(Positions(Posts(f.log), InThread(k)));
    }
  }

  /** Summed over all threads, the entries of their post lists are as many as the posts. */
  lemma EveryPostUnderOneThread(s: Store, f: Forum)
    requires Represents(s, f) && Forums.Sound(f)
    ensures EntriesInThreads(s.allThreads.items, |s.allThreads.items|) == |s.posts.items|
  {
    EntriesMatch(s, f, |Threads(f.log)|);
    PostsNameThreads(f.log);
    EveryPostInOneThread(Posts(f.log), |Threads(f.log)|);
    PostCount(s, f);
    hide Represents, Threads, Posts;
  }
}
