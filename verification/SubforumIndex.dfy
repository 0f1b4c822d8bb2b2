/** The list of threads of a subforum (subforumIndex.go), sorted in place by the last post. */
module SubforumIndex {
  import opened Options
  import opened Keys
  import opened Buckets
  import opened ForumLog
  import opened Forums
  import opened Stores
  import opened Coherence
  import opened Databases

  datatype Row = Row(id: Key, title: string, user: string, lastModified: int, locked: bool, archived: bool)

  // ---------- Sorting ----------

  /** Less of SubforumThreads. It is reflexive, so it is not a strict order. */
  predicate Less(rows: seq<Row>, i: nat, j: nat)
    requires i < |rows| && j < |rows|
  {
    !(rows[i].lastModified < rows[j].lastModified)
  }

  ghost predicate NewestFirst(rows: seq<Row>) {
    forall i, j :: 0 <= i < j < |rows| ==> rows[i].lastModified >= rows[j].lastModified
  }

  method Swap(s: array<Row>, i: nat, j: nat)
    requires i < s.Length && j < s.Length
    modifies s
    ensures s[..] == old(s[..])[i := old(s[j])][j := old(s[i])]
  {
    var a := s[i];
    s[i] := s[j];
    s[j] := a;
  }

  lemma SwapKeepsRows(rows: seq<Row>, j: nat)
    requires 1 <= j < |rows|
    ensures multiset(rows[j := rows[j - 1]][j - 1 := rows[j]]) == multiset(rows)
  {
    assert rows == rows[..j - 1] + [rows[j - 1], rows[j]] + rows[j + 1..];
    assert rows[j := rows[j - 1]][j - 1 := rows[j]] == rows[..j - 1] + [rows[j], rows[j - 1]] + rows[j + 1..];
  }

  /** All but position j stand in order, and the row at j belongs at j or before. */
  ghost predicate Sinking(rows: seq<Row>, j: nat) {
    forall p, q :: 0 <= p < q < |rows| && q != j ==> rows[p].lastModified >= rows[q].lastModified
  }

  lemma SinkOne(rows: seq<Row>, j: nat)
    requires 1 <= j < |rows| && Sinking(rows, j) && Less(rows, j, j - 1)
    ensures Sinking(rows[j := rows[j - 1]][j - 1 := rows[j]], j - 1)
  {
  }

  lemma SunkIsSorted(rows: seq<Row>, j: nat)
    requires j < |rows| && Sinking(rows, j) && (j == 0 || !Less(rows, j, j - 1))
    ensures NewestFirst(rows)
  {
  }

  /** One round of insertion: the first n rows are in order, and the next one sinks to its place. */
  method Insert(s: array<Row>, n: nat)
    requires n < s.Length && NewestFirst(s[..n])
    modifies s
    ensures NewestFirst(s[..n + 1])
    ensures multiset(s[..]) == multiset(old(s[..]))
    ensures s[n + 1..] == old(s[n + 1..])
  {
    var j := n;
    while j > 0 && Less(s[..], j, j - 1)
      invariant 0 <= j <= n
      invariant Sinking(s[..n + 1], j)
      invariant multiset(s[..]) == multiset(old(s[..]))
      invariant s[n + 1..] == old(s[n + 1..])
    {
      ghost var before := s[..];
      SinkOne(s[..n + 1], j);
      SwapKeepsRows(before, j);
      Swap(s, j, j - 1);
      assert s[..n + 1] == before[..n + 1][j := before[j - 1]][j - 1 := before[j]];
      assert s[n + 1..] == before[n + 1..];
      j := j - 1;
    }
    SunkIsSorted(s[..n + 1], j);
  }

  /** sort.Sort, as an insertion sort over Less and Swap. */
  method Sort(s: array<Row>)
    modifies s
    ensures NewestFirst(s[..])
    ensures multiset(s[..]) == multiset(old(s[..]))
  {
    for n := 0 to s.Length
      invariant NewestFirst(s[..n])
      invariant multiset(s[..]) == multiset(old(s[..]))
    {
      Insert(s, n);
    }
    assert s[..s.Length] == s[..];
  }

  lemma RemoveOne<A>(ys: seq<A>, i: nat)
    requires i < |ys|
    ensures multiset(ys[..i] + ys[i + 1..]) == multiset(ys) - multiset{ys[i]}
    ensures ys == ys[..i] + ([ys[i]] + ys[i + 1..])
  {
    assert ys == ys[..i] + ([ys[i]] + ys[i + 1..]);
  }

  ghost predicate StrictlyNewestFirst(rows: seq<Row>) {
    forall i, j :: 0 <= i < j < |rows| ==> rows[i].lastModified > rows[j].lastModified
  }

  lemma NewestAgree(a: seq<Row>, b: seq<Row>)
    requires multiset(a) == multiset(b) && a != [] && b != []
    requires NewestFirst(a) && StrictlyNewestFirst(b)
    ensures a[0] == b[0]
  {
    assert a[0] in multiset(b) && b[0] in multiset(a);
    var i :| 0 <= i < |b| && b[i] == a[0];
    var k :| 0 <= k < |a| && a[k] == b[0];
    assert k > 0 ==> a[0].lastModified >= a[k].lastModified;
  }

  lemma RestsAgree(a: seq<Row>, b: seq<Row>)
    requires multiset(a) == multiset(b) && a != [] && b != [] && a[0] == b[0]
    ensures multiset(a[1..]) == multiset(b[1..])
  {
    RemoveOne(a, 0);
    RemoveOne(b, 0);
    assert a[..0] + a[1..] == a[1..] && b[..0] + b[1..] == b[1..];
  }

  lemma RestSorted(a: seq<Row>)
    requires a != []
    ensures NewestFirst(a) ==> NewestFirst(a[1..])
    ensures StrictlyNewestFirst(a) ==> StrictlyNewestFirst(a[1..])
  {
  }

  /** With distinct times there is only one order. */
  lemma {:induction false} SortedIsUnique(a: seq<Row>, b: seq<Row>)
    requires multiset(a) == multiset(b)
    requires NewestFirst(a) && StrictlyNewestFirst(b)
    ensures a == b
  {
    hide NewestFirst, StrictlyNewestFirst;
    assert |multiset(a)| == |a| && |multiset(b)| == |b|;
    if a == [] {
    } else {
      NewestAgree(a, b);
      RestsAgree(a, b);
      RestSorted(a);
      RestSorted(b);
      SortedIsUnique(a[1..], b[1..]);
      assert a == [a[0]] + a[1..] && b == [b[0]] + b[1..];
    }
  }

  // ---------- Rows ----------

  function Map<A, B>(f: A -> B, xs: seq<A>): (ys: seq<B>)
    ensures |ys| == |xs|
  {
    if xs == [] then [] else [f(xs[0])] + Map(f, xs[1..])
  }

  lemma {:induction false} MapAt<A, B>(f: A -> B, xs: seq<A>)
    ensures forall i :: 0 <= i < |xs| ==> Map(f, xs)[i] == f(xs[i])
  {
    if xs == [] {
    } else {
      MapAt(f, xs[1..]);
    }
  }

  lemma MapConcat<A, B>(f: A -> B, xs: seq<A>, ys: seq<A>)
    ensures Map(f, xs + ys) == Map(f, xs) + Map(f, ys)
  {
    MapAt(f, xs);
    MapAt(f, ys);
    MapAt(f, xs + ys);
    hide Map;
    assert |Map(f, xs + ys)| == |xs| + |ys|;
  }

  lemma MultisetMiddle<B>(p: seq<B>, y: B, q: seq<B>)
    ensures multiset(p + ([y] + q)) == multiset{y} + multiset(p + q)
  {
  }

  lemma MapSplit<A, B>(f: A -> B, ys: seq<A>, i: nat)
    requires i < |ys|
    ensures multiset(Map(f, ys)) == multiset{f(ys[i])} + multiset(Map(f, ys[..i] + ys[i + 1..]))
  {
    MapConcat(f, ys[..i], ys[i + 1..]);
    MapConcat(f, ys[..i], [ys[i]] + ys[i + 1..]);
    MapConcat(f, [ys[i]], ys[i + 1..]);
    assert Map(f, [ys[i]]) == [f(ys[i])];
    hide Map;
    RemoveOne(ys, i);
    MultisetMiddle(Map(f, ys[..i]), f(ys[i]), Map(f, ys[i + 1..]));
  }

  /** Rearranged arguments give rearranged results. */
  lemma {:induction false} MapOfPermutation<A, B>(f: A -> B, xs: seq<A>, ys: seq<A>)
    requires multiset(xs) == multiset(ys)
    ensures multiset(Map(f, xs)) == multiset(Map(f, ys))
  {
    assert |multiset(xs)| == |xs| && |multiset(ys)| == |ys|;
    if xs == [] {
    } else {
      hide Map;
      assert xs[0] in multiset(ys);
      var i :| 0 <= i < |ys| && ys[i] == xs[0];
      var xs', ys' := xs[..0] + xs[1..], ys[..i] + ys[i + 1..];
      RemoveOne(xs, 0);
      RemoveOne(ys, i);
      MapOfPermutation(f, xs', ys');
      MapSplit(f, xs, 0);
      MapSplit(f, ys, i);
    }
  }

  /** What the list shows of thread t. */
  function RowOf(f: Forum): nat -> Row {
    (t: nat) =>
      var ts := Threads(f.log);
      if 1 <= t <= |ts| then
        Row(Itob(t), ts[t - 1].title, ts[t - 1].author, LastModified(Posts(f.log), t), t in f.locked, false)
      else Row("", "", "", 0, false, false)
  }

  // ---------- The board as a move-to-front list ----------

  function Without(ns: seq<nat>, t: nat): seq<nat> {
    if ns == [] then [] else if ns[0] == t then ns[1..] else [ns[0]] + Without(ns[1..], t)
  }

  /** A new thread goes to the front; a reply moves its thread to the front and keeps the others' order. */
  function Board(log: seq<Event>, sf: string): seq<nat> {
    if log == [] then []
    else
      var rest := log[..|log| - 1];
      match log[|log| - 1]
      case Opened(sf', _, _, _, _) =>
        if sf' == sf then [|Threads(rest)| + 1] + Board(rest, sf) else Board(rest, sf)
      case Replied(t, _, _, _) =>
        if t in Board(rest, sf) then [t] + Without(Board(rest, sf), t) else Board(rest, sf)
  }

  /** Every committed write has a later time than the one before it. */
  ghost predicate StrictlyTimed(log: seq<Event>) {
    forall i, j :: 0 <= i < j < |log| ==> log[i].time < log[j].time
  }

  lemma {:induction false} WithoutFacts(ns: seq<nat>, t: nat)
    requires t in ns
    ensures multiset([t] + Without(ns, t)) == multiset(ns)
  {
    assert ns == [ns[0]] + ns[1..];
    if ns[0] != t {
      WithoutFacts(ns[1..], t);
      assert multiset([t] + Without(ns, t)) == multiset{t, ns[0]} + multiset(Without(ns[1..], t));
    }
  }

  /** The board holds the threads of the subforum, each once. */
  lemma {:induction false} BoardHoldsThreads(log: seq<Event>, sf: string)
    ensures multiset(Board(log, sf)) == multiset(Positions(Threads(log), InSubforum(sf)))
  {
    if log != [] {
      hide Positions, Threads, Without;
      var rest, e := log[..|log| - 1], log[|log| - 1];
      assert log == rest + [e];
      Snoc(rest, e);
      BoardHoldsThreads(rest, sf);
      match e
      case Opened(sf', title, author, _, _) =>
        PositionsSnoc(Threads(rest), ThreadFact(sf', title, author), InSubforum(sf));
      case Replied(t, _, _, _) =>
        if t in Board(rest, sf) {
          WithoutFacts(Board(rest, sf), t);
        }
    } else {
      assert Positions(Threads([]), InSubforum(sf)) == [];
    }
  }

  /** No post is later than the last event. */
  lemma LastModifiedBefore(log: seq<Event>, e: Event, t: nat)
    requires StrictlyTimed(log + [e]) && WellFormed(log) && 1 <= t <= |Threads(log)|
    ensures LastModified(Posts(log), t) < e.time
  {
    hide Positions, Posts, Threads, Rank, WellFormed;
    EveryThreadHasOpener(log, t);
    var ns := Positions(Posts(log), InThread(t));
    TimesOfPosts(log);
    var n := ns[|ns| - 1];
    assert (log + [e])[n - 1].time < (log + [e])[|log|].time;
  }

  lemma {:induction false} TimesOfPosts(log: seq<Event>)
    ensures forall i :: 0 <= i < |log| ==> Posts(log)[i].time == log[i].time
  {
    if log == [] {
    } else {
      TimesOfPosts(log[..|log| - 1]);
    }
  }

  /** The threads exist and stand in the order of their last posts, newest first. */
  ghost predicate BoardSorted(log: seq<Event>, ns: seq<nat>) {
    ns != [] ==>
      && 1 <= ns[0] <= |Threads(log)|
      && (forall n :: n in ns[1..] ==> LastModified(Posts(log), ns[0]) > LastModified(Posts(log), n))
      && BoardSorted(log, ns[1..])
  }

  lemma {:induction false} WithoutSubset(ns: seq<nat>, t: nat)
    ensures forall n :: n in Without(ns, t) ==> n in ns
  {
    if ns != [] && ns[0] != t {
      WithoutSubset(ns[1..], t);
    }
  }

  /** Removing one thread keeps the others' order; a sorted list has the thread once. */
  lemma {:induction false} WithoutSorted(log: seq<Event>, ns: seq<nat>, t: nat)
    requires BoardSorted(log, ns)
    ensures BoardSorted(log, Without(ns, t)) && t !in Without(ns, t)
  {
    hide Threads, Posts, LastModified;
    if ns != [] && ns[0] != t {
      WithoutSorted(log, ns[1..], t);
      WithoutSubset(ns[1..], t);
      assert Without(ns, t)[1..] == Without(ns[1..], t);
    }
  }

  /** One more event leaves the order of the threads it does not concern, and its own thread is newest. */
  lemma {:induction false} OthersKeepOrder(log: seq<Event>, e: Event, ns: seq<nat>)
    requires WellFormed(log + [e]) && StrictlyTimed(log + [e])
    requires BoardSorted(log, ns) && PostOf(Threads(log), e).thread !in ns
    ensures BoardSorted(log + [e], ns)
    ensures forall n :: n in ns ==> LastModified(Posts(log + [e]), n) < e.time
  {
    hide LastModified, StrictlyTimed, WellFormed, Threads, Posts;
    Snoc(log, e);
    if ns == [] {
    } else {
      OthersKeepOrder(log, e, ns[1..]);
      LastModifiedBefore(log, e, ns[0]);
      forall n | n in ns ensures LastModified(Posts(log + [e]), n) == LastModified(Posts(log), n) {
        LastModifiedSnoc(Posts(log), PostOf(Threads(log), e), n);
      }
    }
  }

  lemma FrontIsNewest(log: seq<Event>, e: Event, ns: seq<nat>)
    requires WellFormed(log + [e]) && StrictlyTimed(log + [e])
    requires BoardSorted(log, ns) && PostOf(Threads(log), e).thread !in ns
    ensures BoardSorted(log + [e], ns)
    ensures BoardSorted(log + [e], [PostOf(Threads(log), e).thread] + ns)
  {
    hide LastModified, StrictlyTimed, WellFormed, Threads, Posts;
    var x := PostOf(Threads(log), e);
    Snoc(log, e);
    OthersKeepOrder(log, e, ns);
    LastModifiedSnoc(Posts(log), x, x.thread);
    assert ([x.thread] + ns)[1..] == ns;
  }

  lemma EarlierTimed(log: seq<Event>, e: Event)
    requires StrictlyTimed(log + [e])
    ensures StrictlyTimed(log)
  {
    assert forall i :: 0 <= i < |log| ==> (log + [e])[i] == log[i];
  }

  /** With strictly increasing times the board is ordered by the time of the last post. */
  lemma {:induction false} BoardIsSorted(log: seq<Event>, sf: string)
    requires WellFormed(log) && StrictlyTimed(log)
    ensures BoardSorted(log, Board(log, sf))
  {
    if log != [] {
      hide BoardSorted, StrictlyTimed, WellFormed, Threads, Posts, Without, LastModified;
      var rest, e := log[..|log| - 1], log[|log| - 1];
      assert log == rest + [e];
      Snoc(rest, e);
      EarlierTimed(rest, e);
      BoardIsSorted(rest, sf);
      match e
      case Opened(_, _, _, _, _) =>
        NewThreadNotListed(rest, Board(rest, sf));
        FrontIsNewest(rest, e, Board(rest, sf));
      case Replied(t, _, _, _) =>
        WithoutSorted(rest, Board(rest, sf), t);
        if t in Board(rest, sf) {
          FrontIsNewest(rest, e, Without(Board(rest, sf), t));
        } else {
          FrontIsNewest(rest, e, Board(rest, sf));
        }
    } else {
      assert BoardSorted(log, []);
    }
  }

  lemma {:induction false} NewThreadNotListed(log: seq<Event>, ns: seq<nat>)
    requires BoardSorted(log, ns)
    ensures |Threads(log)| + 1 !in ns
  {
    hide Threads, Posts, LastModified;
    if ns == [] {
    } else {
      NewThreadNotListed(log, ns[1..]);
    }
  }

  lemma RowTime(f: Forum, t: nat)
    requires 1 <= t <= |Threads(f.log)|
    ensures RowOf(f)(t).lastModified == LastModified(Posts(f.log), t)
  {
  }

  lemma {:induction false} BoardInRange(log: seq<Event>, ns: seq<nat>, n: nat)
    requires BoardSorted(log, ns) && n in ns
    ensures 1 <= n <= |Threads(log)|
  {
    hide Threads, Posts, LastModified;
    if n != ns[0] {
      BoardInRange(log, ns[1..], n);
    }
  }

  lemma ConsSorted(r: Row, rows: seq<Row>)
    requires StrictlyNewestFirst(rows)
    requires forall x :: x in rows ==> r.lastModified > x.lastModified
    ensures StrictlyNewestFirst([r] + rows)
  {
  }

  /** The rows of a sorted board are sorted. */
  lemma {:induction false} BoardRowsSorted(f: Forum, ns: seq<nat>)
    requires BoardSorted(f.log, ns)
    ensures StrictlyNewestFirst(Map(RowOf(f), ns))
  {
    hide Threads, Posts, LastModified, RowOf, StrictlyNewestFirst;
    if ns != [] {
      BoardRowsSorted(f, ns[1..]);
      RowTime(f, ns[0]);
      var rows := Map(RowOf(f), ns[1..]);
      MapAt(RowOf(f), ns[1..]);
      forall x | x in rows ensures RowOf(f)(ns[0]).lastModified > x.lastModified {
        var j :| 0 <= j < |rows| && rows[j] == x;
        BoardInRange(f.log, ns[1..], ns[1..][j]);
        RowTime(f, ns[1..][j]);
      }
      ConsSorted(RowOf(f)(ns[0]), rows);
    } else {
      assert StrictlyNewestFirst([]) by { EmptySorted(); }
    }
  }

  lemma EmptySorted()
    ensures StrictlyNewestFirst([])
  {
  }

  /** Whatever order the sort finds, with strictly increasing times it is the move-to-front list. */
  lemma SortedIsBoard(f: Forum, sf: string, rows: seq<Row>)
    requires WellFormed(f.log) && StrictlyTimed(f.log)
    requires NewestFirst(rows)
    requires multiset(rows) == multiset(Map(RowOf(f), Positions(Threads(f.log), InSubforum(sf))))
    ensures rows == Map(RowOf(f), Board(f.log, sf))
  {
    hide NewestFirst, StrictlyNewestFirst, Positions, Board, Map, RowOf, BoardSorted;
    BoardHoldsThreads(f.log, sf);
    MapOfPermutation(RowOf(f), Board(f.log, sf), Positions(Threads(f.log), InSubforum(sf)));
    BoardIsSorted(f.log, sf);
    BoardRowsSorted(f, Board(f.log, sf));
    SortedIsUnique(rows, Map(RowOf(f), Board(f.log, sf)));
  }

  // ---------- The transaction and the sort ----------

  /** The walk over the entries of a subforum: every thread is found. */
  method CollectRows(db: Database, entries: Bucket<Key>, ghost sf: string) returns (rows: seq<Row>)
    requires db.Valid() && Room(db.forum)
    requires entries == Numbered(KeysOf(Positions(Threads(db.forum.log), InSubforum(sf))))
    ensures rows == Map(RowOf(db.forum), Positions(Threads(db.forum.log), InSubforum(sf)))
  {
    hide Itob, Positions, NumberedItems, KeysOf, Represents, LastModified, Map, Threads, Posts;
    ghost var f, ts := db.forum, Threads(db.forum.log);
    ghost var ns := Positions(ts, InSubforum(sf));
    rows := [];
    ListLength(ns);
    MapAt(RowOf(f), ns);
    for i := 0 to |entries.items|
      invariant |rows| == i
      invariant forall j :: 0 <= j < i ==> rows[j] == RowOf(f)(ns[j])
    {
      EntryAt(ns, i);
      ThreadLookup(db.Contents(), f, ns[i]);
      var id := entries.items[i].val;
      var thread := db.allThreads.Get(id);
      assert thread.Some?; // "threadInfo == nil" is never returned
      rows := rows + [Row(id, thread.value.title, thread.value.user, thread.value.lastmodified,
                          thread.value.locked == "1", thread.value.archived == "1")];
    }
    assert rows == Map(RowOf(f), ns);
  }

  /** GetThreadsForSubforum: fails only for an unknown subforum; newest threads first. */
  method GetThreadsForSubforum(db: Database, subforum: string) returns (ok: bool, threads: array<Row>)
    requires db.Valid() && Room(db.forum)
    ensures fresh(threads)
    ensures ok <==> subforum in db.forum.subforums
    ensures ok ==> NewestFirst(threads[..])
    ensures ok ==>
      multiset(threads[..]) == multiset(Map(RowOf(db.forum), Positions(Threads(db.forum.log), InSubforum(subforum))))
    ensures ok && StrictlyTimed(db.forum.log) ==> threads[..] == Map(RowOf(db.forum), Board(db.forum.log, subforum))
  {
    hide Numbered, KeysOf, Positions, UserPostsExact, UserThreadsExact, NewestFirst, Board, StrictlyTimed, Map, RowOf;
    threads := new Row[0];
    if subforum !in db.subforums {
      return false, threads;
    }
    var rows := CollectRows(db, db.subforums[subforum], subforum);
    threads := new Row[|rows|](i requires 0 <= i < |rows| => rows[i]);
    assert threads[..] == rows;
    Sort(threads);
    if StrictlyTimed(db.forum.log) {
      SortedIsBoard(db.forum, subforum, threads[..]);
    }
    ok := true;
  }
}
