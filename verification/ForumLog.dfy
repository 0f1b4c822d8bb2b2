/**
 The reference model of the forum: one append-only log of "thread opened" and "reply added"
 events. Thread n is the n-th opened thread and post n is the n-th event, counted from 1.
 Everything that the database stores or shows is a function of this log.
 */
module ForumLog {

  datatype Event =
    | Opened(subforum: string, title: string, author: string, text: string, time: int)
    | Replied(thread: nat, author: string, text: string, time: int)

  datatype ThreadFact = ThreadFact(subforum: string, title: string, author: string)

  datatype PostFact = PostFact(thread: nat, author: string, text: string, time: int)

  /** The opened threads, oldest first. */
  function Threads(log: seq<Event>): (ts: seq<ThreadFact>)
    ensures |ts| <= |log|
  {
    if log == [] then []
    else
      var ts := Threads(log[..|log| - 1]);
      match log[|log| - 1]
      case Opened(sf, title, author, _, _) => ts + [ThreadFact(sf, title, author)]
      case Replied(_, _, _, _) => ts
  }

  function PostOf(ts: seq<ThreadFact>, e: Event): PostFact {
    match e
    case Opened(_, _, author, text, time) => PostFact(|ts| + 1, author, text, time)
    case Replied(t, author, text, time) => PostFact(t, author, text, time)
  }

  /** One post for each event: an opened thread brings its first post. */
  function Posts(log: seq<Event>): (ps: seq<PostFact>)
    ensures |ps| == |log|
  {
    if log == [] then []
    else
      var rest := log[..|log| - 1];
      Posts(rest) + [PostOf(Threads(rest), log[|log| - 1])]
  }

  /** Replies name threads that were opened before them. */
  ghost predicate WellFormed(log: seq<Event>) {
    log != [] ==>
      var rest := log[..|log| - 1];
      && WellFormed(rest)
      && (log[|log| - 1].Replied? ==> 1 <= log[|log| - 1].thread <= |Threads(rest)|)
  }

  lemma Snoc(log: seq<Event>, e: Event)
    ensures Threads(log + [e]) ==
            if e.Opened? then Threads(log) + [ThreadFact(e.subforum, e.title, e.author)] else Threads(log)
    ensures Posts(log + [e]) == Posts(log) + [PostOf(Threads(log), e)]
    ensures WellFormed(log + [e]) <==>
            WellFormed(log) && (e.Replied? ==> 1 <= e.thread <= |Threads(log)|)
  {
    assert (log + [e])[..|log|] == log;
  }

  // ---------- Filters ----------

  /** The numbers, from 1, of those among the first k elements that satisfy p. */
  function UpTo<T>(s: seq<T>, p: T -> bool, k: nat): (ns: seq<nat>)
    requires k <= |s|
    ensures |ns| <= k
    ensures forall i :: 0 <= i < |ns| ==> 1 <= ns[i] <= k
  {
    if k == 0 then []
    else if p(s[k - 1]) then UpTo(s, p, k - 1) + [k]
    else UpTo(s, p, k - 1)
  }

  /** The numbers, from 1, of the elements that satisfy p. */
  function Positions<T>(s: seq<T>, p: T -> bool): (ns: seq<nat>)
    ensures |ns| <= |s|
    ensures forall i :: 0 <= i < |ns| ==> 1 <= ns[i] <= |s|
  {
    UpTo(s, p, |s|)
  }

  function InThread(t: nat): PostFact -> bool { (p: PostFact) => p.thread == t }

  function WrittenBy(u: string): PostFact -> bool { (p: PostFact) => p.author == u }

  function OpenedBy(u: string): ThreadFact -> bool { (t: ThreadFact) => t.author == u }

  function InSubforum(sf: string): ThreadFact -> bool { (t: ThreadFact) => t.subforum == sf }

  lemma {:induction false} UpToSnoc<T>(s: seq<T>, x: T, p: T -> bool, k: nat)
    requires k <= |s|
    ensures UpTo(s + [x], p, k) == UpTo(s, p, k)
  {
    if k == 0 {
    } else {
      UpToSnoc(s, x, p, k - 1);
    }
  }

  lemma PositionsSnoc<T>(s: seq<T>, x: T, p: T -> bool)
    ensures Positions(s + [x], p) == if p(x) then Positions(s, p) + [|s| + 1] else Positions(s, p)
  {
    UpToSnoc(s, x, p, |s|);
  }

  lemma {:induction false} NoneSatisfies<T>(s: seq<T>, p: T -> bool, k: nat)
    requires k <= |s|
    requires forall x :: x in s ==> !p(x)
    ensures UpTo(s, p, k) == []
  {
    if k == 0 {
    } else {
      NoneSatisfies(s, p, k - 1);
      assert s[k - 1] in s;
    }
  }

  lemma {:induction false} UpToExact<T>(s: seq<T>, p: T -> bool, k: nat)
    requires k <= |s|
    ensures forall n :: n in UpTo(s, p, k) <==> 1 <= n <= k && p(s[n - 1])
    ensures forall i, j :: 0 <= i < j < |UpTo(s, p, k)| ==> UpTo(s, p, k)[i] < UpTo(s, p, k)[j]
  {
    if k == 0 {
    } else {
      UpToExact(s, p, k - 1);
      var ns := UpTo(s, p, k - 1);
      assert forall n :: n in UpTo(s, p, k) <==> n in ns || (n == k && p(s[k - 1]));
    }
  }

  /** Positions lists exactly the satisfying elements, in increasing order. */
  lemma PositionsExact<T>(s: seq<T>, p: T -> bool)
    ensures forall n :: n in Positions(s, p) <==> 1 <= n <= |s| && p(s[n - 1])
    ensures forall i, j :: 0 <= i < j < |Positions(s, p)| ==> Positions(s, p)[i] < Positions(s, p)[j]
  {
    UpToExact(s, p, |s|);
  }

  /** The place of post n in its own thread, from 1. */
  function Rank(ps: seq<PostFact>, n: nat): nat
    requires 1 <= n <= |ps|
  {
    |UpTo(ps, InThread(ps[n - 1].thread), n)|
  }

  lemma RankSnoc(ps: seq<PostFact>, x: PostFact)
    ensures Rank(ps + [x], |ps| + 1) == |Positions(ps, InThread(x.thread))| + 1
    ensures forall n :: 1 <= n <= |ps| ==> Rank(ps + [x], n) == Rank(ps, n)
  {
    PositionsSnoc(ps, x, InThread(x.thread));
    forall n | 1 <= n <= |ps| ensures Rank(ps + [x], n) == Rank(ps, n) {
      UpToSnoc(ps, x, InThread(ps[n - 1].thread), n);
    }
  }

  lemma PositionsIsUpTo<T>(s: seq<T>, p: T -> bool)
    ensures Positions(s, p) == UpTo(s, p, |s|)
  {
  }

  lemma {:induction false} UpToPrefix<T>(s: seq<T>, p: T -> bool, k: nat, m: nat)
    requires k <= m <= |s|
    ensures UpTo(s, p, k) <= UpTo(s, p, m)
  {
    if k < m {
      UpToPrefix(s, p, k, m - 1);
    }
  }

  lemma {:induction false} UpToOfPrefix<T>(s: seq<T>, p: T -> bool, k: nat, m: nat)
    requires k <= m <= |s|
    ensures UpTo(s[..m], p, k) == UpTo(s, p, k)
  {
    if k == 0 {
    } else {
      UpToOfPrefix(s, p, k - 1, m);
    }
  }

  /** The rank of a post does not depend on later posts. */
  lemma RankOfPrefix(ps: seq<PostFact>, n: nat)
    requires 1 <= n <= |ps|
    ensures Rank(ps[..n], n) == Rank(ps, n)
  {
    UpToOfPrefix(ps, InThread(ps[n - 1].thread), n, n);
  }

  /** A post stands in its thread at its rank. */
  lemma EntryAtRank(ps: seq<PostFact>, n: nat)
    requires 1 <= n <= |ps|
    ensures var ns := Positions(ps, InThread(ps[n - 1].thread));
            1 <= Rank(ps, n) <= |ns| && ns[Rank(ps, n) - 1] == n
  {
    UpToPrefix(ps, InThread(ps[n - 1].thread), n, |ps|);
  }

  /** Entry j of thread t is a post of the thread, and its rank is its place. */
  ghost predicate EntryRanked(ps: seq<PostFact>, t: nat, j: nat)
    requires j < |Positions(ps, InThread(t))|
  {
    var n := Positions(ps, InThread(t))[j];
    1 <= n <= |ps| && ps[n - 1].thread == t && Rank(ps, n) == j + 1
  }

  lemma EntryRankedSnoc(ps: seq<PostFact>, x: PostFact, t: nat, j: nat)
    requires j < |Positions(ps + [x], InThread(t))|
    requires j < |Positions(ps, InThread(t))| ==> EntryRanked(ps, t, j)
    ensures EntryRanked(ps + [x], t, j)
  {
    hide Rank, Positions;
    RankSnoc(ps, x);
    PositionsSnoc(ps, x, InThread(t));
  }

  lemma NoEntries(t: nat)
    ensures Positions([], InThread(t)) == []
  {
  }

  /** The j-th entry of a thread is the post whose rank is j. */
  lemma {:induction false} RankOfEntry(ps: seq<PostFact>, t: nat)
    ensures forall j :: 0 <= j < |Positions(ps, InThread(t))| ==>
      var n := Positions(ps, InThread(t))[j];
      1 <= n <= |ps| && ps[n - 1].thread == t && Rank(ps, n) == j + 1
  {
    hide Rank, Positions;
    if ps == [] {
      NoEntries(t);
    } else {
      var rest, x := ps[..|ps| - 1], ps[|ps| - 1];
      assert ps == rest + [x];
      RankOfEntry(rest, t);
      forall j | 0 <= j < |Positions(ps, InThread(t))|
        ensures var n := Positions(ps, InThread(t))[j];
                1 <= n <= |ps| && ps[n - 1].thread == t && Rank(ps, n) == j + 1
      {
        EntryRankedSnoc(rest, x, t, j);
        assert EntryRanked(ps, t, j);
      }
    }
  }

  /** The time of the last post of thread t. */
  function LastModified(ps: seq<PostFact>, t: nat): int {
    var ns := Positions(ps, InThread(t));
    if ns == [] then 0 else ps[ns[|ns| - 1] - 1].time
  }

  lemma LastModifiedSnoc(ps: seq<PostFact>, x: PostFact, t: nat)
    ensures LastModified(ps + [x], t) == if x.thread == t then x.time else LastModified(ps, t)
  {
    PositionsSnoc(ps, x, InThread(t));
  }

  // ---------- Openers ----------

  ghost predicate HasOpener(log: seq<Event>, t: nat)
    requires 1 <= t <= |Threads(log)|
  {
    var ns := Positions(Posts(log), InThread(t));
    && ns != []
    && 1 <= ns[0] <= |log|
    && Posts(log)[ns[0] - 1].author == Threads(log)[t - 1].author
    && Rank(Posts(log), ns[0]) == 1
  }

  /** One more event leaves the openers in place. */
  lemma OpenerKept(log: seq<Event>, e: Event, t: nat)
    requires 1 <= t <= |Threads(log)| && HasOpener(log, t)
    ensures |Threads(log + [e])| >= t && HasOpener(log + [e], t)
  {
    Snoc(log, e);
    var x := PostOf(Threads(log), e);
    PositionsSnoc(Posts(log), x, InThread(t));
    RankSnoc(Posts(log), x);
    hide Positions, Rank, Posts, Threads;
  }

  lemma NewOpener(log: seq<Event>, e: Event)
    requires e.Opened?
    requires Positions(Posts(log), InThread(|Threads(log)| + 1)) == []
    ensures |Threads(log + [e])| == |Threads(log)| + 1 && HasOpener(log + [e], |Threads(log)| + 1)
  {
    Snoc(log, e);
    var x := PostOf(Threads(log), e);
    PositionsSnoc(Posts(log), x, InThread(x.thread));
    RankSnoc(Posts(log), x);
    hide Positions, Rank, Posts, Threads;
  }

  /** Posts name threads that exist. */
  lemma {:induction false} PostsNameThreads(log: seq<Event>)
    requires WellFormed(log)
    ensures forall p :: p in Posts(log) ==> 1 <= p.thread <= |Threads(log)|
  {
    if log == [] {
    } else {
      PostsNameThreads(log[..|log| - 1]);
    }
  }

  /** A thread number that was not given out yet has no posts. */
  lemma NextThreadIsEmpty(log: seq<Event>)
    requires WellFormed(log)
    ensures Positions(Posts(log), InThread(|Threads(log)| + 1)) == []
  {
    PostsNameThreads(log);
    NoneSatisfies(Posts(log), InThread(|Threads(log)| + 1), |log|);
  }

  /** Every thread starts with a post of the user who opened it. */
  lemma {:induction false} EveryThreadHasOpener(log: seq<Event>, t: nat)
    requires WellFormed(log) && 1 <= t <= |Threads(log)|
    ensures HasOpener(log, t)
  {
    hide HasOpener, Threads, Posts, WellFormed;
    var rest, e := log[..|log| - 1], log[|log| - 1];
    assert log == rest + [e];
    Snoc(rest, e);
    if t <= |Threads(rest)| {
      EveryThreadHasOpener(rest, t);
      OpenerKept(rest, e, t);
    } else {
      NextThreadIsEmpty(rest);
      NewOpener(rest, e);
    }
  }

  // ---------- Conservation ----------

  /** The posts of u that SearchUser shows as replies: those that do not open a thread. */
  function RepliesBy(ps: seq<PostFact>, u: string): seq<nat> {
    if ps == [] then []
    else
      var rest := RepliesBy(ps[..|ps| - 1], u);
      if ps[|ps| - 1].author == u && Rank(ps, |ps|) != 1 then rest + [|ps|] else rest
  }

  lemma RepliesSnoc(ps: seq<PostFact>, x: PostFact, u: string)
    ensures RepliesBy(ps + [x], u) ==
            if x.author == u && Positions(ps, InThread(x.thread)) != [] then RepliesBy(ps, u) + [|ps| + 1]
            else RepliesBy(ps, u)
  {
    RankSnoc(ps, x);
    assert (ps + [x])[..|ps|] == ps;
  }

  lemma NothingPosted(u: string)
    ensures Positions(Threads([]), OpenedBy(u)) == [] && RepliesBy(Posts([]), u) == []
    ensures Positions(Posts([]), WrittenBy(u)) == []
  {
  }

  lemma ThreadHasPosts(log: seq<Event>, t: nat)
    requires WellFormed(log) && 1 <= t <= |Threads(log)|
    ensures Positions(Posts(log), InThread(t)) != []
  {
    hide Posts, Threads, WellFormed, Positions, Rank;
    EveryThreadHasOpener(log, t);
  }

  /** The threads and the replies of a user together are exactly the user's posts. */
  lemma {:induction false} ThreadsAndRepliesArePosts(log: seq<Event>, u: string)
    requires WellFormed(log)
    ensures |Positions(Threads(log), OpenedBy(u))| + |RepliesBy(Posts(log), u)|
            == |Positions(Posts(log), WrittenBy(u))|
  {
    hide Posts, Threads, WellFormed, Positions, RepliesBy;
    if log == [] {
      NothingPosted(u);
    } else {
      var rest, e := log[..|log| - 1], log[|log| - 1];
      assert log == rest + [e];
      Snoc(rest, e);
      ThreadsAndRepliesArePosts(rest, u);
      var x := PostOf(Threads(rest), e);
      RepliesSnoc(Posts(rest), x, u);
      PositionsSnoc(Posts(rest), x, WrittenBy(u));
      match e
      case Opened(sf, title, author, _, _) =>
        PositionsSnoc(Threads(rest), ThreadFact(sf, title, author), OpenedBy(u));
        NextThreadIsEmpty(rest);
      case Replied(t, _, _, _) =>
        ThreadHasPosts(rest, t);
    }
  }

  /** The number of entries in the post lists of threads 1 to k. */
  function EntriesOfThreads(ps: seq<PostFact>, k: nat): nat {
    if k == 0 then 0 else EntriesOfThreads(ps, k - 1) + |Positions(ps, InThread(k))|
  }

  lemma {:induction false} EntriesSnoc(ps: seq<PostFact>, x: PostFact, k: nat)
    requires x.thread >= 1
    ensures EntriesOfThreads(ps + [x], k) == EntriesOfThreads(ps, k) + if x.thread <= k then 1 else 0
  {
    if k == 0 {
    } else {
      EntriesSnoc(ps, x, k - 1);
      PositionsSnoc(ps, x, InThread(k));
    }
  }

  lemma {:induction false} EntriesOfNone(k: nat)
    ensures EntriesOfThreads([], k) == 0
  {
    if k == 0 {
    } else {
      EntriesOfNone(k - 1);
    }
  }

  /** Summed over all threads, the post lists have as many entries as there are posts. */
  lemma {:induction false} EveryPostInOneThread(ps: seq<PostFact>, k: nat)
    requires forall p :: p in ps ==> 1 <= p.thread <= k
    ensures EntriesOfThreads(ps, k) == |ps|
  {
    if ps == [] {
      EntriesOfNone(k);
    } else {
      EveryPostInOneThread(ps[..|ps| - 1], k);
      assert ps == ps[..|ps| - 1] + [ps[|ps| - 1]];
      EntriesSnoc(ps[..|ps| - 1], ps[|ps| - 1], k);
    }
  }
}
