/**
 The keyword index (searchkey.go): messages leave their transaction before it commits and are
 applied in the order sent. Aborted transactions leave messages behind, and their ids are given
 out again.
 */
module Keyword {
  import opened Options
  import opened Keys
  import opened Buckets
  import opened Text
  import opened ForumLog
  import opened Forums
  import opened Stores
  import opened Coherence
  import opened Databases

  type Docs = map<Key, Message>

  /** The index after the messages, each one replacing the document of its id. */
  function IndexAll(docs: Docs, ms: seq<Message>): Docs {
    if ms == [] then docs else IndexAll(docs, ms[..|ms| - 1])[ms[|ms| - 1].id := ms[|ms| - 1]]
  }

  /** The document of committed post n. */
  function DocOf(ps: seq<PostFact>, n: nat): Message
    requires 1 <= n <= |ps|
  {
    Message(ps[n - 1].author, ps[n - 1].text, Itob(n), Itob(ps[n - 1].thread))
  }

  /** Every committed post has exactly its own document. */
  ghost predicate Agrees(ps: seq<PostFact>, docs: Docs) {
    forall n :: 1 <= n <= |ps| ==> Itob(n) in docs && docs[Itob(n)] == DocOf(ps, n)
  }

  /** Apart from committed posts, only the id that comes next may be indexed. */
  ghost predicate OnlyNext(ps: seq<PostFact>, docs: Docs) {
    forall k :: k in docs ==> exists n :: 1 <= n <= |ps| + 1 && k == Itob(n)
  }

  /** What holds at every moment of the index together with the messages still in the channel. */
  ghost predicate WillAgree(f: Forum, docs: Docs, chan: seq<Message>) {
    Agrees(Posts(f.log), IndexAll(docs, chan)) && OnlyNext(Posts(f.log), IndexAll(docs, chan))
  }

  lemma IndexSnoc(docs: Docs, ms: seq<Message>, m: Message)
    ensures IndexAll(docs, ms + [m]) == IndexAll(docs, ms)[m.id := m]
  {
    assert (ms + [m])[..|ms|] == ms;
  }

  lemma {:induction false} IndexCons(docs: Docs, m: Message, ms: seq<Message>)
    ensures IndexAll(docs, [m] + ms) == IndexAll(docs[m.id := m], ms)
  {
    if ms == [] {
      IndexSnoc(docs, [], m);
      assert [m] + [] == [] + [m];
    } else {
      var init, last := ms[..|ms| - 1], ms[|ms| - 1];
      IndexCons(docs, m, init);
      assert [m] + ms == ([m] + init) + [last];
      IndexSnoc(docs, [m] + init, last);
    }
  }

  /** A message for the next id disturbs no committed document. */
  lemma NextMessage(ps: seq<PostFact>, docs: Docs, m: Message)
    requires Agrees(ps, docs) && OnlyNext(ps, docs) && m.id == Itob(|ps| + 1)
    ensures Agrees(ps, docs[m.id := m]) && OnlyNext(ps, docs[m.id := m])
  {
    hide Itob;
    forall n | 1 <= n <= |ps| ensures Itob(n) != m.id {
      KeyRoundTrip(n);
      KeyRoundTrip(|ps| + 1);
    }
  }

  /** When the post commits as well, its document is the message, whatever was indexed under its id before. */
  lemma CommittedMessage(ps: seq<PostFact>, docs: Docs, x: PostFact, m: Message)
    requires Agrees(ps, docs) && OnlyNext(ps, docs)
    requires m == Message(x.author, x.text, Itob(|ps| + 1), Itob(x.thread))
    ensures Agrees(ps + [x], docs[m.id := m]) && OnlyNext(ps + [x], docs[m.id := m])
  {
    NextMessage(ps, docs, m);
    hide Itob;
    var docs' := docs[m.id := m];
    forall n | 1 <= n <= |ps + [x]| ensures Itob(n) in docs' && docs'[Itob(n)] == DocOf(ps + [x], n) {
      if n <= |ps| {
        assert docs'[Itob(n)] == DocOf(ps, n);
        assert (ps + [x])[n - 1] == ps[n - 1];
      }
    }
  }

  /** Replying keeps the promise of the index, also when the transaction aborts after the send. */
  lemma ReplyKeepsIndex(f: Forum, docs: Docs, chan: seq<Message>, user: string, key: Key, text: string, priv: nat,
                        now: Option<int>, commit: bool)
    requires WillAgree(f, docs, chan)
    ensures WillAgree(Reply(f, user, key, text, priv, now, commit), docs,
                      chan + ReplySends(f, user, key, text, priv, now, commit))
  {
    hide Agrees, OnlyNext, Posts, Threads, IndexAll, Itob;
    var err := ReplyError(f, user, key, priv, now, commit);
    assert chan + [] == chan;
    if err.None? || err == Some(CommitFailed) {
      var m := Message(user, text, Itob(|f.log| + 1), key);
      IndexSnoc(docs, chan, m);
      if err.None? {
        var e := Replied(ThreadNumber(f, key).value, user, text, now.value);
        Snoc(f.log, e);
        CommittedMessage(Posts(f.log), IndexAll(docs, chan), PostOf(Threads(f.log), e), m);
      } else {
        NextMessage(Posts(f.log), IndexAll(docs, chan), m);
      }
    }
  }

  /** Opening a thread keeps it too; here a missing subforum also aborts after the send. */
  lemma OpenKeepsIndex(f: Forum, docs: Docs, chan: seq<Message>, a: Alphabet, subforum: string, user: string,
                       title: string, text: string, now: Option<int>, commit: bool)
    requires WillAgree(f, docs, chan)
    ensures WillAgree(Open(f, a, subforum, user, title, text, now, commit), docs,
                      chan + OpenSends(f, a, subforum, user, title, text, now, commit))
  {
    hide Agrees, OnlyNext, Posts, Threads, IndexAll, Itob, TitleProblem, Trim;
    var err := OpenError(f, a, subforum, user, title, now, commit);
    assert chan + [] == chan;
    if err.None? || err == Some(CommitFailed) || err == Some(SubforumMissing) {
      var m := Message(user, text, Itob(|f.log| + 1), Itob(|Threads(f.log)| + 1));
      IndexSnoc(docs, chan, m);
      if err.None? {
        var e := Opened(subforum, Trim(title, a.space), user, text, now.value);
        Snoc(f.log, e);
        CommittedMessage(Posts(f.log), IndexAll(docs, chan), PostOf(Threads(f.log), e), m);
      } else {
        NextMessage(Posts(f.log), IndexAll(docs, chan), m);
      }
    }
  }

  /** Applying the oldest message keeps it as well. */
  lemma DeliverKeepsIndex(f: Forum, docs: Docs, chan: seq<Message>)
    requires WillAgree(f, docs, chan) && chan != []
    ensures WillAgree(f, docs[chan[0].id := chan[0]], chan[1..])
  {
    IndexCons(docs, chan[0], chan[1..]);
    assert [chan[0]] + chan[1..] == chan;
  }

  /** Until its message is applied, a stale document can stand under a committed id, but never for long: once the
      channel is empty, every committed post has its own document and at most one other id is indexed. */
  lemma DrainedIndexAgrees(f: Forum, docs: Docs)
    requires WillAgree(f, docs, [])
    ensures Agrees(Posts(f.log), docs)
    ensures forall k :: k in docs ==> PostNumber(f, k).Some? || k == Itob(|f.log| + 1)
  {
    hide Itob, Posts;
    forall k | k in docs ensures PostNumber(f, k).Some? || k == Itob(|f.log| + 1) {
      var n :| 1 <= n <= |f.log| + 1 && k == Itob(n);
      KeyRoundTrip(n);
    }
  }

  class KeywordIndex {
    var docs: Docs

    constructor ()
      ensures docs == map[]
    {
      docs := map[];
    }

    /** keywordDBloop until the channel is empty. */
    method Drain(db: Database)
      modifies this, db`keywordChan
      ensures db.keywordChan == []
      ensures docs == IndexAll(old(docs), old(db.keywordChan))
    {
      while db.keywordChan != []
        invariant IndexAll(docs, db.keywordChan) == IndexAll(old(docs), old(db.keywordChan))
        decreases |db.keywordChan|
      {
        var m := db.keywordChan[0];
        IndexCons(docs, m, db.keywordChan[1..]);
        assert db.keywordChan == [m] + db.keywordChan[1..];
        db.keywordChan := db.keywordChan[1..];
        docs := docs[m.id := m];
      }
    }
  }

  ghost predicate OnlyCommitted(ps: seq<PostFact>, docs: Docs, k: nat)
    requires k <= |ps|
  {
    && (forall n :: 1 <= n <= k ==> Itob(n) in docs && docs[Itob(n)] == DocOf(ps, n))
    && (forall x :: x in docs ==> exists n :: 1 <= n <= k && x == Itob(n))
  }

  /** The documents that the first k posts give. */
  function Rebuilt(ps: seq<PostFact>, k: nat): Docs
    requires k <= |ps|
  {
    if k == 0 then map[] else Rebuilt(ps, k - 1)[Itob(k) := DocOf(ps, k)]
  }

  lemma OneMoreCommitted(ps: seq<PostFact>, docs: Docs, k: nat)
    requires k < |ps| && OnlyCommitted(ps, docs, k)
    ensures OnlyCommitted(ps, docs[Itob(k + 1) := DocOf(ps, k + 1)], k + 1)
  {
    hide Itob, DocOf;
    var docs' := docs[Itob(k + 1) := DocOf(ps, k + 1)];
    forall n | 1 <= n <= k + 1 ensures Itob(n) in docs' && docs'[Itob(n)] == DocOf(ps, n) {
      KeyRoundTrip(n);
      KeyRoundTrip(k + 1);
    }
    forall x | x in docs' ensures exists n :: 1 <= n <= k + 1 && x == Itob(n) {
      if x != Itob(k + 1) {
        var n :| 1 <= n <= k && x == Itob(n);
      }
    }
  }

  /** A rebuilt index holds the documents of the posts and no others. */
  lemma {:induction false} RebuiltIsCommitted(ps: seq<PostFact>, k: nat)
    requires k <= |ps|
    ensures OnlyCommitted(ps, Rebuilt(ps, k), k)
  {
    hide OnlyCommitted, Itob, DocOf;
    if k == 0 {
      NoneCommitted(ps);
    } else {
      RebuiltIsCommitted(ps, k - 1);
      OneMoreCommitted(ps, Rebuilt(ps, k - 1), k - 1);
    }
  }

  /** The rebuild of initKeyword: a cursor over all posts fills an empty index. */
  method Rebuild(db: Database) returns (docs: Docs)
    requires db.Valid() && Room(db.forum)
    ensures docs == Rebuilt(Posts(db.forum.log), |db.forum.log|)
  {
    hide Itob, PostRecs, ThreadRecs, ItemsUpTo, UserPostsExact, UserThreadsExact, SubforumsExact, Rank, Posts, Threads;
    docs := map[];
    for i := 0 to |db.posts.items|
      invariant docs == Rebuilt(Posts(db.forum.log), i)
    {
      NumberedAt(PostRecs(db.forum), i + 1);
      PostRecAt(db.forum, i + 1);
      CopyKey(i + 1);
      ThreadKeyFits(db.forum, i + 1);
      var k := db.posts.items[i].key;
      var post := db.posts.items[i].val;
      docs := docs[k := Message(post.user, post.text, Copy16(k), Copy16(post.thread))];
    }
  }

  lemma NoneCommitted(ps: seq<PostFact>)
    ensures OnlyCommitted(ps, map[], 0)
  {
  }

  lemma ThreadKeyFits(f: Forum, n: nat)
    requires Sound(f) && Room(f) && 1 <= n <= |f.log|
    ensures Copy16(Itob(Posts(f.log)[n - 1].thread)) == Itob(Posts(f.log)[n - 1].thread)
  {
    hide Itob, Copy16;
    PostsNameThreads(f.log);
    assert Posts(f.log)[n - 1] in Posts(f.log);
    CopyKey(Posts(f.log)[n - 1].thread);
  }

  /** A rebuilt index with an empty channel keeps the promise of the index. */
  lemma RebuiltAgrees(f: Forum)
    ensures WillAgree(f, Rebuilt(Posts(f.log), |f.log|), [])
  {
    hide Itob, DocOf, Posts, Rebuilt;
    RebuiltIsCommitted(Posts(f.log), |f.log|);
  }

  /** The rebuilt index and the drained index have the same documents for all committed posts. */
  lemma RebuildAgreesWithDrain(f: Forum, drained: Docs)
    requires WillAgree(f, drained, [])
    ensures var rebuilt := Rebuilt(Posts(f.log), |f.log|);
            && (forall k :: k in rebuilt ==> k in drained && drained[k] == rebuilt[k])
            && (forall k :: k in drained && k !in rebuilt ==> k == Itob(|f.log| + 1))
  {
    hide Itob, Posts, Rebuilt;
    RebuiltIsCommitted(Posts(f.log), |f.log|);
    var rebuilt := Rebuilt(Posts(f.log), |f.log|);
    forall k | k in drained && k !in rebuilt ensures k == Itob(|f.log| + 1) {
      var n :| 1 <= n <= |f.log| + 1 && k == Itob(n);
    }
  }

  // ---------- Losing the channel ----------

  /** Every queued message about a committed post is one whose document is in the index already. */
  ghost predicate NothingToLose(f: Forum, docs: Docs, chan: seq<Message>) {
    forall m :: m in chan && PostNumber(f, m.id).Some? ==>
      m.id in docs && docs[m.id] == DocOf(Posts(f.log), PostNumber(f, m.id).value)
  }

  lemma {:induction false} UntouchedDocument(docs: Docs, ms: seq<Message>, k: Key)
    ensures k in docs ==> k in IndexAll(docs, ms)
    ensures (forall m :: m in ms ==> m.id != k) ==>
              (k in IndexAll(docs, ms) <==> k in docs) && (k in docs ==> IndexAll(docs, ms)[k] == docs[k])
  {
    if ms == [] {
    } else {
      UntouchedDocument(docs, ms[..|ms| - 1], k);
      assert ms[|ms| - 1] in ms;
    }
  }

  lemma CommittedId(f: Forum, n: nat)
    requires 1 <= n <= |f.log|
    ensures PostNumber(f, Itob(n)) == Some(n)
  {
    KeyRoundTrip(n);
  }

  /** A restart that keeps the index but forgets the channel does no harm exactly if there was nothing to lose. */
  lemma ForgettingTheChannel(f: Forum, docs: Docs, chan: seq<Message>)
    requires WillAgree(f, docs, chan)
    ensures WillAgree(f, docs, []) <==> NothingToLose(f, docs, chan)
  {
    hide Itob, Posts, DocOf, PostNumber;
    var ps := Posts(f.log);
    assert IndexAll(docs, []) == docs;
    forall k | k in docs ensures k in IndexAll(docs, chan) {
      UntouchedDocument(docs, chan, k);
    }
    hide IndexAll;
    forall n | 1 <= n <= |ps| ensures PostNumber(f, Itob(n)) == Some(n) {
      CommittedId(f, n);
    }
    forall m | m in chan && PostNumber(f, m.id).Some?
      ensures 1 <= PostNumber(f, m.id).value <= |ps| && Itob(PostNumber(f, m.id).value) == m.id
    {
      CommittedNumber(f, m.id);
    }
    if NothingToLose(f, docs, chan) {
      forall n | 1 <= n <= |ps| ensures Itob(n) in docs && docs[Itob(n)] == DocOf(ps, n) {
        UntouchedDocument(docs, chan, Itob(n));
      }
    }
  }

  lemma CommittedNumber(f: Forum, k: Key)
    requires PostNumber(f, k).Some?
    ensures 1 <= PostNumber(f, k).value <= |f.log| && Itob(PostNumber(f, k).value) == k
  {
  }

  /** The order of application matters: were two loops to apply an aborted message after the message of the
      committed post, the stale document would stay. */
  lemma ReversedOrderIsWrong()
    ensures var f := Forum([Opened("s", "t", "u", "kept", 0)], {}, {}, {"s"});
            var stale, good := Message("u", "aborted", Itob(1), Itob(1)), Message("u", "kept", Itob(1), Itob(1));
            && WillAgree(f, map[], [stale, good])
            && !Agrees(Posts(f.log), IndexAll(map[], [good, stale]))
  {
    var e := Opened("s", "t", "u", "kept", 0);
    var stale, good := Message("u", "aborted", Itob(1), Itob(1)), Message("u", "kept", Itob(1), Itob(1));
    Snoc([], e);
    assert [] + [e] == [e];
    assert Posts([e]) == [PostFact(1, "u", "kept", 0)];
    IndexSnoc(map[], [stale], good);
    IndexSnoc(map[], [good], stale);
    assert [stale] + [good] == [stale, good] && [good] + [stale] == [good, stale];
    assert IndexAll(map[], [stale]) == map[Itob(1) := stale];
    hide Itob, IndexAll;
    assert DocOf(Posts([e]), 1) == good;
  }
}
