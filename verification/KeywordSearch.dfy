/** The keyword search from the index to the page: a query is a predicate on documents. */
module KeywordSearch {
  import opened Options
  import opened Keys
  import opened ForumLog
  import opened Forums
  import opened Keyword
  import opened Requests
  import opened Safety
  import opened IndexRuns
  import opened Search

  /** The search engine returns ids of documents that satisfy the query, the best of them or all of them. */
  ghost predicate AreHits(docs: Docs, query: Message -> bool, ids: seq<Key>) {
    forall id :: id in ids ==> id in docs && query(docs[id])
  }

  ghost predicate AreAllHits(docs: Docs, query: Message -> bool, ids: seq<Key>) {
    forall id :: id in ids <==> id in docs && query(docs[id])
  }

  /** Post n as the page shows it. */
  ghost function ShownHit(f: Forum, n: nat): FoundPost
    requires NamesThreads(Threads(f.log), Posts(f.log)) && 1 <= n <= |f.log|
  {
    ReplyResult(Threads(f.log), Posts(f.log), n, Posts(f.log)[n - 1].author)
  }

  lemma HitOfKey(f: Forum, n: nat)
    requires NamesThreads(Threads(f.log), Posts(f.log)) && 1 <= n <= |f.log|
    ensures HitResult(f, Itob(n)) == Some(ShownHit(f, n))
  {
    hide Itob, KeyNumber, ReplyResult, NamesThreads;
    KeyRoundTrip(n);
  }

  lemma HitIsPost(f: Forum, id: Key) returns (n: nat)
    requires NamesThreads(Threads(f.log), Posts(f.log)) && HitResult(f, id).Some?
    ensures 1 <= n <= |f.log| && id == Itob(n) && HitResult(f, id).value == ShownHit(f, n)
  {
    hide Itob, ReplyResult, NamesThreads;
    n := PostNumber(f, id).value;
  }

  /** What is shown comes from the hits, and every hit with a post is shown. */
  lemma {:induction false} ShownAreHits(f: Forum, ids: seq<Key>, k: nat)
    requires k <= |ids| && NamesThreads(Threads(f.log), Posts(f.log))
    ensures forall r :: r in HitResults(f, ids, k) ==>
              exists i :: 0 <= i < k && HitResult(f, ids[i]) == Some(r)
    ensures forall i :: 0 <= i < k && HitResult(f, ids[i]).Some? ==> HitResult(f, ids[i]).value in HitResults(f, ids, k)
  {
    hide HitResult, NamesThreads;
    if k == 0 {
    } else {
      ShownAreHits(f, ids, k - 1);
    }
  }

  /** A document that agrees with the database is the document of its post. */
  lemma DocumentOfPost(f: Forum, docs: Docs, n: nat)
    requires Agrees(Posts(f.log), docs) && 1 <= n <= |f.log|
    ensures Itob(n) in docs && docs[Itob(n)] == DocOf(Posts(f.log), n)
  {
    hide Itob, DocOf, Posts;
  }

  /** With an index that agrees, every post shown satisfies the query as it stands in the database, and every post that
      does is shown if its id is among the hits. */
  lemma PageShowsMatches(f: Forum, docs: Docs, query: Message -> bool, ids: seq<Key>)
    requires NamesThreads(Threads(f.log), Posts(f.log)) && Agrees(Posts(f.log), docs) && AreHits(docs, query, ids)
    ensures forall r :: r in HitResults(f, ids, |ids|) ==>
              exists n :: 1 <= n <= |f.log| && query(DocOf(Posts(f.log), n)) && r == ShownHit(f, n)
    ensures forall n :: 1 <= n <= |f.log| && Itob(n) in ids ==> ShownHit(f, n) in HitResults(f, ids, |ids|)
  {
    hide HitResult, HitResults, NamesThreads, ShownHit, Itob, DocOf, Posts, Threads, Agrees;
    ShownAreHits(f, ids, |ids|);
    forall r | r in HitResults(f, ids, |ids|)
      ensures exists n :: 1 <= n <= |f.log| && query(DocOf(Posts(f.log), n)) && r == ShownHit(f, n)
    {
      var i :| 0 <= i < |ids| && HitResult(f, ids[i]) == Some(r);
      var n := HitIsPost(f, ids[i]);
      assert ids[i] in ids;
      DocumentOfPost(f, docs, n);
    }
    forall n | 1 <= n <= |f.log| && Itob(n) in ids ensures ShownHit(f, n) in HitResults(f, ids, |ids|) {
      var i :| 0 <= i < |ids| && ids[i] == Itob(n);
      HitOfKey(f, n);
    }
  }

  /** In every run that lost no needed message since the index was last repopulated, once the channel is empty: a
      keyword search over all hits shows exactly the committed posts whose author, text and ids satisfy the query, and
      over some of the hits only such posts. Documents of aborted posts are never shown. */
  lemma SearchShowsExactlyTheMatches(cfg: Settings, run: seq<Action>, query: Message -> bool, ids: seq<Key>)
    requires IndexSafe(cfg, run)
    requires var w := Run(cfg, Start(cfg), run); w.chan == [] && AreHits(w.docs, query, ids)
    ensures var f := Run(cfg, Start(cfg), run).forum;
            && NamesThreads(Threads(f.log), Posts(f.log))
            && (forall r :: r in HitResults(f, ids, |ids|) ==>
                  exists n :: 1 <= n <= |f.log| && query(DocOf(Posts(f.log), n)) && r == ShownHit(f, n))
    ensures var w := Run(cfg, Start(cfg), run);
            var f := w.forum;
            AreAllHits(w.docs, query, ids) ==>
              forall n :: 1 <= n <= |f.log| && query(DocOf(Posts(f.log), n)) ==>
                ShownHit(f, n) in HitResults(f, ids, |ids|)
  {
    hide Run, IndexSafe, WillAgree, Agrees, HitResults, ShownHit, Itob, DocOf, Posts, Threads, NamesThreads;
    var w := Run(cfg, Start(cfg), run);
    IndexIsRightOnceDrained(cfg, run);
    LogIsWellFormed(cfg, run);
    PostsNameThreadsAt(w.forum.log);
    PageShowsMatches(w.forum, w.docs, query, ids);
    if AreAllHits(w.docs, query, ids) {
      forall n | 1 <= n <= |w.forum.log| && query(DocOf(Posts(w.forum.log), n))
        ensures ShownHit(w.forum, n) in HitResults(w.forum, ids, |ids|)
      {
        DocumentOfPost(w.forum, w.docs, n);
      }
    }
  }

  lemma LogIsWellFormed(cfg: Settings, run: seq<Action>)
    ensures WellFormed(Run(cfg, Start(cfg), run).forum.log)
  {
    hide Run, WellFormed, PcOk;
    RunKeepsBase(cfg, run);
  }

  lemma {:induction false} PostOfEvent(log: seq<Event>, i: nat)
    requires i < |log|
    ensures Posts(log)[i] == PostOf(Threads(log[..i]), log[i])
  {
    hide Threads;
    var init := log[..|log| - 1];
    assert log == init + [log[|log| - 1]];
    if i < |init| {
      PostOfEvent(init, i);
      assert init[..i] == log[..i];
    } else {
      assert init == log[..i];
    }
  }

  /** In every run that lost no needed message since the index was last repopulated, once the channel is empty, the
      document of post n has the author and the text of event n of the log, under the id of the thread that a reply
      names, or that the new thread was given. */
  lemma DocumentsAreTheEvents(cfg: Settings, run: seq<Action>, n: nat)
    requires IndexSafe(cfg, run) && Run(cfg, Start(cfg), run).chan == []
    requires 1 <= n <= |Run(cfg, Start(cfg), run).forum.log|
    ensures var w := Run(cfg, Start(cfg), run);
            && Itob(n) in w.docs
            && var m, e := w.docs[Itob(n)], w.forum.log[n - 1];
               && m.id == Itob(n) && m.author == e.author && m.text == e.text
               && m.thread == if e.Replied? then Itob(e.thread) else Itob(|Threads(w.forum.log[..n - 1])| + 1)
  {
    hide Run, IndexSafe, WillAgree, Itob, Posts, Threads, Agrees;
    var w := Run(cfg, Start(cfg), run);
    IndexIsRightOnceDrained(cfg, run);
    DocumentOfPost(w.forum, w.docs, n);
    PostOfEvent(w.forum.log, n - 1);
  }
}
