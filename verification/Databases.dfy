/**
 The writing transactions over threads and posts, step by step as the program makes them.
 Each one either commits or restores every bucket together with its counter; the channel of
 keyword messages is outside the transaction and keeps what was sent.
 */
module Databases {
  import opened Options
  import opened Keys
  import opened Buckets
  import opened Text
  import opened ForumLog
  import opened Forums
  import opened Stores

  class Database {
    var allThreads: Bucket<ThreadRec>
    var posts: Bucket<PostRec>
    var userThreads: map<string, Bucket<Key>>
    var userPosts: map<string, Bucket<Key>>
    var subforums: map<string, Bucket<Key>>
    var threadToSubforum: Bucket<string>

    var keywordChan: seq<Message>

    ghost var forum: Forum

    function Contents(): Store
      reads this
    {
      Store(allThreads, posts, userThreads, userPosts, subforums, threadToSubforum)
    }

    /** The buckets are the exact image of the forum. */
    ghost predicate Valid()
      reads this
    {
      Represents(Contents(), forum) && Sound(forum)
    }

    /** A new database file. */
    constructor ()
      ensures Valid()
      ensures forum == Forum([], {}, {}, {}) && keywordChan == []
    {
      allThreads, posts, threadToSubforum := Empty(), Empty(), Empty();
      userThreads, userPosts, subforums := map[], map[], map[];
      keywordChan := [];
      forum := Forum([], {}, {}, {});
    }

    /** Rollback. */
    method Restore(s: Store)
      modifies `allThreads, `posts, `userThreads, `userPosts, `subforums, `threadToSubforum
      ensures Contents() == s
    {
      allThreads, posts, userThreads := s.allThreads, s.posts, s.userThreads;
      userPosts, subforums, threadToSubforum := s.userPosts, s.subforums, s.threadToSubforum;
    }

    /** The loop of dbCreateBuckets. */
    method AddSubforumBuckets(ids: seq<string>, ghost sfs: set<string>, ghost ts: seq<ThreadFact>) returns (ok: bool)
      requires SubforumsExact(subforums, sfs, ts)
      requires forall t :: t in ts ==> t.subforum in sfs
      modifies `subforums
      ensures ok <==> "" !in ids
      ensures ok ==> SubforumsExact(subforums, sfs + (set n | n in ids), ts)
    {
      hide SubforumsExact;
      ghost var added := {};
      assert sfs + added == sfs;
      for i := 0 to |ids|
        invariant "" !in ids[..i]
        invariant added == set n | n in ids[..i]
        invariant SubforumsExact(subforums, sfs + added, ts)
      {
        if ids[i] == "" {
          return false;
        }
        NewSubforum(subforums, sfs + added, ts, ids[i]);
        subforums := subforums[ids[i] := Sub(subforums, ids[i])];
        assert sfs + added + {ids[i]} == sfs + (added + {ids[i]});
        added := added + {ids[i]};
      }
      assert ids[..|ids|] == ids;
      return true;
    }

    /** dbCreateBuckets: a bucket for every configured subforum; an empty id fails. */
    method CreateBuckets(ids: seq<string>, commit: bool) returns (err: Option<Error>)
      requires Valid()
      modifies `subforums, `forum
      ensures Valid()
      ensures err == if "" in ids then Some(NameRequired) else if !commit then Some(CommitFailed) else None
      ensures forum ==
              if err.Some? then old(forum) else old(forum).(subforums := old(forum).subforums + (set n | n in ids))
    {
      hide SubforumsExact, UserPostsExact, UserThreadsExact, Numbered, NumberedItems;
      var saved := subforums;
      var ok := AddSubforumBuckets(ids, forum.subforums, Threads(forum.log));
      if !ok || !commit {
        subforums := saved;
        return if ok then Some(CommitFailed) else Some(NameRequired);
      }
      forum := forum.(subforums := forum.subforums + (set n | n in ids));
      return None;
    }

    /** makeKeywordIndex: the copies of the ids go into fresh arrays of sixteen bytes. */
    method MakeKeywordIndex(author: string, text: string, id: Key, thread: Key) returns (current: Message)
      ensures current == Message(author, text, Copy16(id), Copy16(thread))
    {
      var idBytes := CopyInto(id);
      var threadBytes := CopyInto(thread);
      current := Message(author, text, idBytes[..], threadBytes[..]);
    }

    /** make and copy: as many bytes as both have, and zeros behind them. */
    method CopyInto(src: string) returns (dst: array<char>)
      ensures fresh(dst) && dst[..] == Copy16(src)
    {
      dst := new char[KEY_LENGTH](_ => '\0');
      var n := if |src| < KEY_LENGTH then |src| else KEY_LENGTH;
      for i := 0 to n
        invariant dst[..i] == src[..i]
        invariant forall k :: i <= k < KEY_LENGTH ==> dst[k] == '\0'
      {
        dst[i] := src[i];
      }
      assert dst[..] == Copy16(src);
    }

    /** sendPostToKeywordDB: the message goes behind those already sent, and an id of sixteen bytes is sent whole. */
    method Send(author: string, text: string, id: Key, thread: Key)
      modifies `keywordChan
      ensures keywordChan == old(keywordChan) + [Message(author, text, Copy16(id), Copy16(thread))]
    {
      var current := MakeKeywordIndex(author, text, id, thread);
      keywordChan := keywordChan + [current];
    }

    /**
     The first half of AddNewPostToDatabase, inside a transaction: the post, and its entry in the
     thread, which gives the post its index. The ghost arguments describe the buckets at that point.
     */
    method AddPost(post: PostRec, key: Key, ghost t: nat, ghost ns: seq<nat>,
                   ghost prs: seq<PostRec>, ghost trs: seq<ThreadRec>)
      returns (postID: nat)
      requires posts == Numbered(prs) && |prs| < LIMIT - 2
      requires allThreads == Numbered(trs) && 1 <= t <= |trs| < LIMIT - 1 && key == Itob(t)
      requires trs[t - 1].posts == Numbered(KeysOf(ns)) && |ns| <= |prs|
      modifies `posts, `allThreads
      ensures postID == |prs| + 1
      ensures posts == Numbered(prs + [post.(index := Itob(|ns| + 1))])
      ensures allThreads == Numbered(trs[t - 1 := trs[t - 1].(posts := Numbered(KeysOf(ns + [postID])))])
    {
      posts, postID := Append(posts, post, prs);
      var postIDBytes := Itob(postID);

      KeyRoundTrip(t);
      var thread := Find(allThreads, key, trs);
      var threadPosts, index := AppendKey(thread.value.posts, postIDBytes, ns, postID);
      allThreads := Replace(allThreads, key, thread.value.(posts := threadPosts), trs, t);

      posts := Replace(posts, postIDBytes, post.(index := index), prs + [post], postID);
      assert (prs + [post])[postID - 1 := post.(index := index)] == prs + [post.(index := index)];
    }

    /** The second half: the entry under the author. A bucket cannot have an empty name. */
    method AddUserPost(username: string, postIDBytes: Key, ghost x: PostFact, ghost ps: seq<PostFact>)
      returns (err: Option<Error>)
      requires UserPostsExact(userPosts, ps)
      requires |ps| < LIMIT - 2 && postIDBytes == Itob(|ps| + 1) && x.author == username
      modifies `userPosts
      ensures err == if username == "" then Some(NameRequired) else None
      ensures err.None? ==> UserPostsExact(userPosts, ps + [x])
    {
      if username == "" {
        return Some(NameRequired);
      }
      SubOfUserPosts(userPosts, ps, username);
      var sub, _ := AppendKey(Sub(userPosts, username), postIDBytes, Positions(ps, WrittenBy(username)), |ps| + 1);
      PushUserPost(userPosts, ps, x, sub);
      userPosts := userPosts[username := sub];
      return None;
    }

    /** Step 2 of OnNewThread: the entry under the author. */
    method AddUserThread(username: string, threadIDBytes: Key, ghost y: ThreadFact, ghost ts: seq<ThreadFact>)
      returns (err: Option<Error>)
      requires UserThreadsExact(userThreads, ts)
      requires |ts| < LIMIT - 2 && threadIDBytes == Itob(|ts| + 1) && y.author == username
      modifies `userThreads
      ensures err == if username == "" then Some(NameRequired) else None
      ensures err.None? ==> UserThreadsExact(userThreads, ts + [y])
    {
      if username == "" {
        return Some(NameRequired);
      }
      SubOfUserThreads(userThreads, ts, username);
      var sub, _ := AppendKey(Sub(userThreads, username), threadIDBytes, Positions(ts, OpenedBy(username)), |ts| + 1);
      PushUserThread(userThreads, ts, y, sub);
      userThreads := userThreads[username := sub];
      return None;
    }

    /** Step 6 of OnNewThread: the entry in the subforum, which has to exist. */
    method AddSubforumThread(subforum: string, threadIDBytes: Key, ghost y: ThreadFact, ghost sfs: set<string>,
                             ghost ts: seq<ThreadFact>)
      returns (ok: bool)
      requires SubforumsExact(subforums, sfs, ts)
      requires |ts| < LIMIT - 2 && threadIDBytes == Itob(|ts| + 1) && y.subforum == subforum
      modifies `subforums
      ensures ok <==> subforum in sfs
      ensures ok ==> SubforumsExact(subforums, sfs, ts + [y])
    {
      if subforum !in subforums {
        return false;
      }
      var sub, _ := AppendKey(subforums[subforum], threadIDBytes, Positions(ts, InSubforum(subforum)), |ts| + 1);
      PushSubforum(subforums, sfs, ts, y, sub);
      subforums := subforums[subforum := sub];
      return true;
    }

    /** AddNewPostToDatabase. */
    method AddNewPost(text: string, username: string, now: int, key: Key, ghost t: nat,
                      ghost ps: seq<PostFact>, ghost prs: seq<PostRec>, ghost trs: seq<ThreadRec>)
      returns (err: Option<Error>, postID: nat)
      requires posts == Numbered(prs) && |prs| == |ps| < LIMIT - 2
      requires allThreads == Numbered(trs) && 1 <= t <= |trs| < LIMIT - 1 && key == Itob(t)
      requires trs[t - 1].posts == Numbered(KeysOf(Positions(ps, InThread(t))))
      requires UserPostsExact(userPosts, ps)
      modifies `posts, `allThreads, `userPosts
      ensures err == if username == "" then Some(NameRequired) else None
      ensures err.None? ==>
        var ns := Positions(ps, InThread(t));
        && postID == |ps| + 1
        && posts == Numbered(prs + [PostRec(text, username, now, key, Itob(|ns| + 1), "0", "0")])
        && allThreads == Numbered(trs[t - 1 := trs[t - 1].(posts := Numbered(KeysOf(ns + [postID])))])
        && UserPostsExact(userPosts, ps + [PostFact(t, username, text, now)])
    {
      hide Numbered, NumberedItems, KeysOf, UserPostsExact;
      postID := AddPost(PostRec(text, username, now, key, "", "0", "0"), key, t, Positions(ps, InThread(t)), prs, trs);
      err := AddUserPost(username, Itob(postID), PostFact(t, username, text, now), ps);
    }

    /** The transaction of OnNewPost, before it commits. */
    method PostInTransaction(username: string, threadID: Key, text: string, userPriv: nat, now: Option<int>)
      returns (err: Option<Error>)
      requires Valid() && |forum.log| < LIMIT - 2
      modifies `posts, `allThreads, `userPosts, `keywordChan
      ensures err == ReplyError(forum, username, threadID, userPriv, now, true)
      ensures err.None? ==> Represents(Contents(), Reply(forum, username, threadID, text, userPriv, now, true))
      ensures keywordChan == old(keywordChan) + ReplySends(forum, username, threadID, text, userPriv, now, true)
    {
      hide Numbered, NumberedItems, KeysOf, UserPostsExact, UserThreadsExact, SubforumsExact, Itob, Copy16, KeyNumber;
      hide PostRecs, ThreadRecs, Threads, Posts, Positions, LastModified, WellFormed;
      ghost var f, ts, ps, saved := forum, Threads(forum.log), Posts(forum.log), Contents();
      var thread := Find(allThreads, threadID, ThreadRecs(f));
      if thread.None? {
        return Some(NotFound);
      }
      ghost var t := ThreadNumber(f, threadID).value;
      ThreadRecAt(f, t);
      if thread.value.locked == "1" && userPriv < MOD {
        return Some(ThreadLocked);
      }
      if now.None? {
        return Some(BadClock);
      }
      ghost var trs := ThreadRecs(f)[t - 1 := thread.value.(lastmodified := now.value)];
      allThreads := Replace(allThreads, threadID, thread.value.(lastmodified := now.value), ThreadRecs(f), t);
      var postID;
      err, postID := AddNewPost(text, username, now.value, threadID, t, ps, PostRecs(f), trs);
      if err.Some? {
        return;
      }
      CopyKey(t);
      CopyKey(postID);
      Send(username, text, Itob(postID), threadID);
      ghost var ids := Numbered(KeysOf(Positions(ps, InThread(t)) + [postID]));
      assert trs[t - 1 := trs[t - 1].(posts := ids)]
          == ThreadRecs(f)[t - 1 := thread.value.(lastmodified := now.value, posts := ids)];
      RepresentsReply(saved, f, Replied(t, username, text, now.value), Contents());
    }

    /** OnNewPost. The flag commit says whether the final commit of the transaction succeeds. */
    method OnNewPost(username: string, threadID: Key, text: string, userPriv: nat, now: Option<int>, commit: bool)
      returns (err: Option<Error>)
      requires Valid() && |forum.log| < LIMIT - 2
      modifies this
      ensures Valid()
      ensures err == ReplyError(old(forum), username, threadID, userPriv, now, commit)
      ensures forum == Reply(old(forum), username, threadID, text, userPriv, now, commit)
      ensures keywordChan == old(keywordChan) + ReplySends(old(forum), username, threadID, text, userPriv, now, commit)
    {
      hide Represents, Sound;
      var saved := Contents();
      err := PostInTransaction(username, threadID, text, userPriv, now);
      if err.Some? || !commit {
        Restore(saved);
        return if err.Some? then err else Some(CommitFailed);
      }
      ReplyKeepsSound(forum, username, threadID, text, userPriv, now, commit);
      forum := Reply(forum, username, threadID, text, userPriv, now, commit);
    }

    /** Steps 1 to 5 of OnNewThread: the thread, its entry under its author, its first post, the message. */
    method AddThreadWithOpener(username: string, title: string, text: string, now: int, ghost subforum: string)
      returns (err: Option<Error>, threadIDBytes: Key)
      requires Valid() && |forum.log| < LIMIT - 2
      modifies `allThreads, `posts, `userThreads, `userPosts, `keywordChan
      ensures err == if username == "" then Some(NameRequired) else None
      ensures err.Some? ==> keywordChan == old(keywordChan)
      ensures err.None? ==>
        var ts, ps := Threads(forum.log), Posts(forum.log);
        && threadIDBytes == Itob(|ts| + 1)
        && allThreads == Numbered(ThreadRecs(forum)
             + [ThreadRec(title, username, now, "0", "0", Numbered(KeysOf([|forum.log| + 1])))])
        && posts == Numbered(PostRecs(forum) + [PostRec(text, username, now, threadIDBytes, Itob(1), "0", "0")])
        && UserThreadsExact(userThreads, ts + [ThreadFact(subforum, title, username)])
        && UserPostsExact(userPosts, ps + [PostFact(|ts| + 1, username, text, now)])
        && keywordChan == old(keywordChan) + [Message(username, text, Itob(|forum.log| + 1), threadIDBytes)]
    {
      hide Numbered, NumberedItems, KeysOf, UserPostsExact, UserThreadsExact, SubforumsExact, Itob, Copy16;
      hide PostRecs, ThreadRecs, Threads, Posts, Positions, WellFormed;
      ghost var f, ts, ps := forum, Threads(forum.log), Posts(forum.log);
      NextThreadIsEmpty(f.log);
      EmptyKeys();
      ghost var trs := ThreadRecs(f) + [ThreadRec(title, username, now, "0", "0", Empty())];
      var threadID;
      allThreads, threadID := Append(allThreads, ThreadRec(title, username, now, "0", "0", Empty()), ThreadRecs(f));
      threadIDBytes := Itob(threadID);
      err := AddUserThread(username, threadIDBytes, ThreadFact(subforum, title, username), ts);
      if err.Some? {
        return;
      }
      var postID;
      err, postID := AddNewPost(text, username, now, threadIDBytes, threadID, ps, PostRecs(f), trs);
      CopyKey(threadID);
      CopyKey(postID);
      Send(username, text, Itob(postID), threadIDBytes);
      assert [] + [postID] == [postID];
      ghost var rec := ThreadRec(title, username, now, "0", "0", Numbered(KeysOf([postID])));
      assert trs[threadID - 1 := rec] == ThreadRecs(f) + [rec];
    }

    /** The transaction of OnNewThread, before it commits. The message leaves before the subforum is looked up. */
    method OpenInTransaction(subforum: string, username: string, title: string, text: string, now: Option<int>,
                             a: Alphabet)
      returns (err: Option<Error>)
      requires Valid() && |forum.log| < LIMIT - 2
      requires Trim(title, a.space) == title && TitleProblem(title, a).None?
      modifies this
      ensures forum == old(forum)
      ensures err == OpenError(forum, a, subforum, username, title, now, true)
      ensures err.None? ==> Represents(Contents(), Open(forum, a, subforum, username, title, text, now, true))
      ensures keywordChan == old(keywordChan) + OpenSends(forum, a, subforum, username, title, text, now, true)
    {
      hide Numbered, NumberedItems, KeysOf, UserPostsExact, UserThreadsExact, SubforumsExact, Itob;
      hide PostRecs, ThreadRecs, Threads, Posts, Positions, WellFormed, TitleProblem, Trim, Subforums;
      ghost var f, ts, saved := forum, Threads(forum.log), Contents();
      if now.None? {
        return Some(BadClock);
      }
      var threadIDBytes;
      err, threadIDBytes := AddThreadWithOpener(username, title, text, now.value, subforum);
      if err.Some? {
        return;
      }
      // 6. Its entry in the subforum.
      var ok := AddSubforumThread(subforum, threadIDBytes, ThreadFact(subforum, title, username), f.subforums, ts);
      if !ok {
        return Some(SubforumMissing);
      }
      // 7. The way back from the thread to its subforum.
      threadToSubforum := AppendItem(threadToSubforum, threadIDBytes, subforum, Subforums(ts));
      RepresentsOpen(saved, f, Opened(subforum, title, username, text, now.value), Contents());
    }

    /** OnNewThread. */
    method OnNewThread(subforum: string, username: string, rawTitle: string, text: string, now: Option<int>,
                       commit: bool, a: Alphabet)
      returns (err: Option<Error>)
      requires Valid() && |forum.log| < LIMIT - 2
      modifies this
      ensures Valid()
      ensures err == OpenError(old(forum), a, subforum, username, rawTitle, now, commit)
      ensures forum == Open(old(forum), a, subforum, username, rawTitle, text, now, commit)
      ensures keywordChan
           == old(keywordChan) + OpenSends(old(forum), a, subforum, username, rawTitle, text, now, commit)
    {
      hide Represents, Sound, TitleProblem, Trim;
      var title := Trim(rawTitle, a.space);
      TrimFacts(rawTitle, a.space);
      var problem := ValidateThreadTitle(title, a);
      if problem.Some? {
        return Some(BadTitle(problem.value));
      }
      var saved := Contents();
      err := OpenInTransaction(subforum, username, title, text, now, a);
      if err.Some? || !commit {
        Restore(saved);
        return if err.Some? then err else Some(CommitFailed);
      }
      OpenKeepsSound(forum, a, subforum, username, rawTitle, text, now, commit);
      forum := Open(forum, a, subforum, username, rawTitle, text, now, commit);
    }

    /** MuteOrUnmuteThread: puts "1" or "0" in the field locked. */
    method SetThreadLock(id: Key, status: bool, commit: bool) returns (err: Option<Error>)
      requires Valid() && |forum.log| < LIMIT - 2
      modifies `allThreads, `forum
      ensures Valid()
      ensures err == LockError(old(forum), id, commit)
      ensures forum == SetLock(old(forum), id, status, commit)
    {
      hide Numbered, NumberedItems, KeysOf, UserPostsExact, UserThreadsExact, SubforumsExact, Itob, KeyNumber;
      hide PostRecs, ThreadRecs, Threads, Posts, WellFormed;
      var saved := allThreads;
      ghost var s := Contents();
      var thread := Find(allThreads, id, ThreadRecs(forum));
      if thread.None? {
        return Some(NotFound);
      }
      ghost var t := ThreadNumber(forum, id).value;
      ThreadRecAt(forum, t);
      allThreads := Replace(allThreads, id, thread.value.(locked := Flag(status)), ThreadRecs(forum), t);
      if !commit {
        allThreads := saved;
        return Some(CommitFailed);
      }
      RepresentsLock(s, forum, t, status, Contents());
      forum := SetLock(forum, id, status, commit);
      return None;
    }

    /** The test-and-set of ReportHandler. */
    method ReportPost(id: Key, commit: bool) returns (err: Option<Error>)
      requires Valid() && |forum.log| < LIMIT - 2
      modifies `posts, `forum
      ensures Valid()
      ensures err == ReportError(old(forum), id, commit)
      ensures forum == Report(old(forum), id, commit)
    {
      hide Numbered, NumberedItems, KeysOf, UserPostsExact, UserThreadsExact, SubforumsExact, Itob, KeyNumber;
      hide PostRecs, ThreadRecs, Threads, Posts, WellFormed;
      var saved := posts;
      ghost var s := Contents();
      var post := Find(posts, id, PostRecs(forum));
      if post.None? {
        return Some(NotFound);
      }
      ghost var n := PostNumber(forum, id).value;
      PostRecAt(forum, n);
      if post.value.reports != "0" {
        return Some(AlreadyReported);
      }
      posts := Replace(posts, id, post.value.(reports := "1"), PostRecs(forum), n);
      if !commit {
        posts := saved;
        return Some(CommitFailed);
      }
      RepresentsReport(s, forum, n, Contents());
      forum := Report(forum, id, commit);
      return None;
    }
  }
}
