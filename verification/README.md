# larigot, modelled and verified

larigot is a bulletin board served over the Gemini protocol. Its state is one bbolt database of
threads, posts, users, validation codes and logged-in certificates, with several redundant
indexes, and next to it a bleve keyword index that is fed through a channel. This project models
that state, the transactions that change it, the readers that walk it, and the requests that run
several transactions each and interleave.

`dafny verify dfyconfig.toml` checks the whole project.

## How the model is built

* **One log behind everything** (`ForumLog.dfy`, `Forums.dfy`). The reference is an append-only log of
  "thread opened" and "reply added" events, plus the set of locked threads and the set of reported
  posts. Every writing transaction has a function for its first error, its new forum and the keyword
  messages that it sends.
* **The database** (`Keys.dfy`, `Buckets.dfy`, `Stores.dfy`, `Databases.dfy`, `Coherence.dfy`). A bucket is a
  sequence of items in byte order of their keys plus its sequence counter. The class `Database` makes
  each transaction put by put, and rolls back every bucket and every counter when it fails; each
  method is proved to leave the exact image of the log. From that image the indexes are proved to be
  inverses of the records.
* **The readers** (`ViewThread.dfy`, `Search.dfy`, `SubforumIndex.dfy`, `Conservation.dfy`). The cursor
  loops are proved to return filters of the log. Every lookup that the program guards with a "not found"
  branch is proved to succeed; the branch stands as an assertion in the loop.
* **The keyword index** (`Keyword.dfy`). Messages leave before the commit, aborted transactions leave
  stale ones behind, and rolled-back ids are given out again. The invariant is about the index together
  with the messages still queued.
* **Accounts and mutes** (`AccountStore.dfy`, `Mutes.dfy`, `Rfc3339.dfy`). A user's bucket is a text under each
  field name; the methods put field by field, and a user is what the texts stand for. A deadline is stored
  as a date and time in the local zone and parsed back.
* **Write, then read** (`WriteThenRead.dfy`). What each reader shows after each write: the page of a thread, the
  list of a subforum, the search by user and the keyword hits, through the methods and for all other pages.
* **Configuration** (`Config.dfy`) and **text** (`Text.dfy`).
* **Requests** (`Requests.dfy`, `Safety.dfy`, `Invariants.dfy`). A request is a small program whose steps are
  transactions. A run is any sequence of steps: requests begin, take a step, mails are attempted, messages
  are applied, commits fail, the server restarts.
* **Handlers** (`Handlers.dfy`). Each handler as one function of the state, written without steps. A request that no
  other one interrupts is proved to end as its handler says, from every state that a run leads to.
* **Sources** (`Origins.dfy`, `Sources.dfy`). What a request began with and whose certificate opened it are taken from
  the run. In every run, behind each event, certificate, lock, mute, report, user and verification stands a request
  that asked for exactly this.
* **Runs** (`Runs.dfy`, `EventRuns.dfy`, `AccountRuns.dfy`, `MuteRuns.dfy`, `LateMutes.dfy`, `NameRuns.dfy`, `NudgeRuns.dfy`,
  `ReportRuns.dfy`, `IndexRuns.dfy`, `KeywordSearch.dfy`, `ClockRuns.dfy`, `SerialRuns.dfy`,
  `Witnesses.dfy`). The main results hold of every run from the empty database. Where a promise of the
  program fails when requests interleave or the server stops, the exact condition is proved for all runs,
  and `Witnesses.dfy` gives a run that breaks the promise.
* **The server** (`Servers.dfy`). The class `Server` owns the database, the accounts and the index as objects
  and takes one transaction at a time through their methods. Every step is proved to be the step of the
  request machine, so what holds of all runs holds of the buckets: `Servers.Serve` takes a configuration and a
  new database through any run and ends with exact indexes.

## What came out differently from what the program says

* The nudge page says that it is displayed only once (nudge.go:53). In every run,
  `NudgeRuns.NudgePagesInAnyRun` gives the exact number and `NudgeRuns.NudgeShownOnceIff` the exact condition;
  requests one at a time meet it (`SerialRuns.NudgePagesAreCounted`), and
  `Witnesses.NudgeCanBeShownTwice` is a run that does not.
* User names are meant to be unique up to case (users.go:377-388). The test and the write are separate
  transactions. `NameRuns.NamesUniqueIff` says for every run exactly when the names stay unique; requests one at
  a time do (`SerialRuns.NamesUniqueUpToCase`), and `Witnesses.BothNamesCanBeStored` is a run that stores two
  names that fold together.
* A mute for more than 106751 days overflows the duration (console.go:115). `Mutes.DeadlineExact` is exact
  in both directions; `Mutes.OneDayTooMany` shows a command that reports success and mutes nobody.
* A mute should keep the user from writing (console.go:87). It is read in the first transaction of a reply or a new
  thread only. `MuteRuns.MutedUserIsSilentIff` says for every run exactly which posts of a muted user still get
  committed, and when none does; `Witnesses.MutedUserCanPost` is a run that commits one. A lock is read by the
  write itself and has no such gap (`Runs.LocksHold`).
* A report should reach the administrators by mail (report.go:94). `ReportRuns.ReportsReachTheirMailIff` says for
  every run exactly when all do; `Witnesses.ReportCanBeForgotten` is a run that loses one.
* A password is stored trimmed (users.go:316) and compared as typed (users.go:185). `Handlers.TypedPasswordWorksIff`
  says exactly when the password of a registration logs its user in.
* A restart that keeps the keyword index forgets the queued messages. `IndexRuns.IndexIsRightOnceDrained` says for
  every run exactly when the index still comes out right, and `Witnesses.StaleDocumentStays` is a run after
  which it stays wrong until it is repopulated.
* `LoadConfig` accepts an empty subforum id, for which `dbCreateBuckets` then fails (`Databases.Database.CreateBuckets`).
* The comment on `itob` speaks of eight bytes, big endian; the code prints sixteen hexadecimal digits. The
  message `TitleIllegalCharacter` speaks of ASCII; the code accepts Latin letters, spaces and punctuation. The
  model follows the code.

## Model

| member | source | states |
|---|---|---|
| Keys.KeyLength | itob.go:15-19 | a key has sixteen bytes if and only if the number is below 2^64, and is then its fixed-width form |
| Keys.KeyOrder | itob.go:15-19 | for all uint64 numbers, byte order of the keys is numeric order and equal keys mean equal numbers |
| Keys.KeyRoundTrip | itob.go:15-19 | every number can be read back from its key, at any width |
| Keys.KeyOf255 | itob.go:15-19 | the digits are lower case |
| Keys.Copy16 | searchkey.go:57-60 | the copy into a sixteen-byte buffer always has sixteen bytes and is the source if that has sixteen |
| Keys.CopyKey | search.go:244-247 | copying the key of any uint64 loses nothing |
| Buckets.GetNumbered | threads.go:69-73 | a lookup by an arbitrary client string finds a value exactly for the keys that were issued; the next key is free |
| Buckets.PutNext | threads.go:208-213 | a put under the next key appends behind all items in cursor order and overwrites nothing |
| Buckets.PutExisting | threads.go:216 | a put under an issued key replaces that value and moves nothing |
| Buckets.Append | threads.go:179-188 | `NextSequence` and `CreateBucket`: the fresh id never collides, and the bucket then holds exactly the keys 1 to its counter |
| Buckets.AppendItem | threads.go:390-391 | a put under a key issued by another bucket keeps the two in step |
| Buckets.Replace | threads.go:87 | rewriting one record leaves the numbered bucket with that one value changed |
| Buckets.Find | threads.go:69 | finding a record is looking up the number of the key |
| ForumLog.PositionsExact | search.go:180-181 | the entries of an index are exactly the records of its owner, in creation order |
| ForumLog.RankOfEntry | threads.go:204-216 | the j-th entry of a thread is the post whose index is j |
| ForumLog.EntryAtRank | threads.go:204-216 | a post stands in its thread's list at its index |
| ForumLog.PostsNameThreads | search.go:253-256 | every post names a thread that exists |
| ForumLog.NextThreadIsEmpty | threads.go:322-341 | a thread id about to be given out has no posts |
| ForumLog.EveryThreadHasOpener | search.go:195-200 | every thread starts with a post of index 1 by the thread's author |
| ForumLog.ThreadsAndRepliesArePosts | search.go:176-262 | for every user, the threads and the posts that do not open a thread are as many as the user's posts |
| ForumLog.EveryPostInOneThread | threads.go:204-213 | summed over threads, the lists have as many entries as there are posts |
| Forums.ReplyKeepsSound | threads.go:59-100 | however a reply ends, replies name existing threads and locks and reports name existing records |
| Forums.OpenKeepsSound | threads.go:268-400 | the same for a new thread, whose subforum then exists |
| Stores.AppendKey | threads.go:204-213 | one more entry in a list of ids, whose key is the returned index |
| Stores.NewSubforum | database.go:38-43 | creating a missing subforum bucket keeps the subforum index exact, because no thread can be in it yet |
| Stores.PushUserPost | threads.go:222-236 | one more entry under the author keeps the index of posts by author exact for every user |
| Stores.PushUserThread | threads.go:347-361 | the same for the index of threads by author |
| Stores.PushSubforum | threads.go:372-385 | the same for the index of threads by subforum |
| Stores.ThreadRecsAfterReply | threads.go:82-91 | one more post changes the record of its own thread, in `lastmodified` and in the list, and no other record |
| Stores.RepresentsReply | threads.go:59-100 | the buckets after all puts of a reply are the image of the longer log |
| Stores.RepresentsOpen | threads.go:305-393 | the buckets after all puts of a new thread are the image of the longer log |
| Stores.RepresentsLock | console.go:204-213 | writing `locked` changes one record and nothing else |
| Stores.RepresentsReport | report.go:59-81 | writing `reports` changes one record and nothing else |
| Databases.Database.constructor | database.go:27-47 | a new file is the image of the empty log |
| Databases.Database.Restore | threads.go:96-98 | rollback brings back every bucket and every counter |
| Databases.Database.AddSubforumBuckets | database.go:38-43 | the loop succeeds if and only if no id is empty, and then adds exactly the given subforums |
| Databases.Database.CreateBuckets | database.go:27-47 | afterwards every configured subforum has a bucket, or nothing changed; an empty id is an error |
| Databases.Database.CopyInto | searchkey.go:57-60 | the copy loop into a fresh array of sixteen bytes takes what fits and leaves zeros behind it |
| Databases.Database.MakeKeywordIndex | searchkey.go:53-63 | the message owns copies of both ids |
| Databases.Database.AddPost | threads.go:175-216 | the post and its entry in the thread agree on the index |
| Databases.Database.AddUserPost | threads.go:222-236 | the entry under the author; an empty name is the one failure |
| Databases.Database.AddUserThread | threads.go:343-361 | the entry under the author of the thread; an empty name is the one failure |
| Databases.Database.AddSubforumThread | threads.go:372-385 | the entry in the subforum succeeds if and only if the subforum has a bucket |
| Databases.Database.AddNewPost | threads.go:166-239 | all three places of a post are written consistently, with the next id |
| Databases.Database.PostInTransaction | threads.go:60-96 | which error comes first, the image of the longer log before the commit, and the message already sent |
| Databases.Database.OnNewPost | threads.go:59-100 | all or nothing: on success the log has one more reply, on any error everything but the channel is as before |
| Databases.Database.AddThreadWithOpener | threads.go:312-367 | steps 1 to 5 write the thread and its opener consistently and send the message before step 6 |
| Databases.Database.OpenInTransaction | threads.go:305-394 | which error comes first, and the image of the longer log; a missing subforum fails after the send |
| Databases.Database.OnNewThread | threads.go:268-400 | all or nothing, with the title validated on the trimmed text |
| Databases.Database.SetThreadLock | console.go:204-213 | exactly the named thread is locked or unlocked, or nothing changes |
| Databases.Database.ReportPost | report.go:59-81 | the first report of a post succeeds, every later one is refused |
| Coherence.PostLookup | search.go:228 | the record found under a post id is the one of that post |
| Coherence.ThreadLookup | search.go:183 | the record found under a thread id is the one of that thread |
| Coherence.SubforumLookup | threads.go:127-134 | `threadtosubforum` gives the subforum in which the thread was opened |
| Coherence.ThreadListsAreCoherent | threads.go:204-216 | each post sits in its thread under its stored index, and each entry of a thread is such a post |
| Coherence.UserPostsAreCoherent | threads.go:222-236 | each post is listed once, under its author, and no list has other entries |
| Coherence.UserThreadsAreCoherent | threads.go:347-361 | each thread is listed once, under its author, and no list has other entries |
| Coherence.SubforumsAreCoherent | threads.go:372-391 | each thread is listed once, in the subforum that `threadtosubforum` names |
| Coherence.IndexesAreExact | threads.go:166-393 | in every state that represents a forum all four indexes are exact inverses of the records |
| ViewThread.ThreadPostsAt | viewthread.go:67-87 | walking the entries of a thread gives the log filtered by thread, oldest first |
| ViewThread.CollectPosts | viewthread.go:67-87 | the loop shows exactly those posts; its nil branch is unreachable |
| ViewThread.View | viewthread.go:45-95 | an unknown id is not found; otherwise title, lock and posts are those of the log |
| WriteThenRead.PageAfterReply | viewthread.go:67-86 | after a committed reply the page of its thread ends with it, under the next id and with its text, author and time; nothing else on any page is different |
| WriteThenRead.PageAfterOpen | viewthread.go:54-86 | after a committed new thread there is one more page, under the next id, with the trimmed title and one post, not locked; all other pages are as before |
| WriteThenRead.PageAfterLock | viewthread.go:59-62 | a lock or unlock changes what exactly the page of that thread says |
| WriteThenRead.PageAfterReport | report.go:59-81 | a report changes no page |
| WriteThenRead.ReplyAndView | threads.go:59-100 | OnNewPost and the page that it redirects to: which error comes first, read off the page; on success the posts before plus one with the id, text, author and time of the reply |
| WriteThenRead.OpenAndView | threads.go:268-400 | OnNewThread succeeds if and only if the trimmed title has the shape of a title, the clock marshals, there is a name, the subforum exists and the commit does not fail; the new page has the title, one post and no lock, and every other page stays |
| WriteThenRead.LockAndView | console.go:204-213 | the command changes the lock on the page of its thread, and no other page |
| Search.DescendIsNewest | search.go:180-203 | walking the entries of a user from last to first gives the threads newest first |
| Search.DescendIsNewestReplies | search.go:225-261 | walking them from last to first gives the replies newest first |
| Search.OpenerLookup | search.go:195-200 | entry `itob(1)` of every thread exists and names the opening post |
| Search.PostWithThread | search.go:236-258 | index "0000000000000001" marks exactly the openers, the copied ids are the ids, and the thread exists |
| Search.ThreadOfEntry | search.go:182-202 | an entry is shown with the title, author and first text of its thread; "thread not found" and a missing opener are unreachable |
| Search.WalkThreads | search.go:176-204 | the threads of the user, newest first; "thread not found" is unreachable |
| Search.ReplyOfEntry | search.go:228-260 | an opener is skipped, any other post is shown with its thread; both "not found" branches are unreachable |
| Search.WalkPosts | search.go:222-262 | the replies of the user, newest first |
| Search.SearchUser | search.go:150-268 | an unknown user is the one error; otherwise the log filtered by author, newest first |
| Search.SearchFindsEveryPost | search.go:176-262 | threads and replies found are together as many as the entries of the user's `userposts` |
| WriteThenRead.FoundThreadsAfter | search.go:176-204 | a new thread comes first in the list of its author, with its title and its text; all other threads stay as they were found |
| WriteThenRead.FoundPostsAfter | search.go:226-262 | a reply comes first in the list of its author, under its thread and with its text; a new thread is no reply; all other replies stay |
| WriteThenRead.OpenAndSearch | search.go:150-262 | OnNewThread, then SearchUser: for the author one more thread in front, for anyone else no change |
| WriteThenRead.ReplyAndSearch | search.go:150-262 | OnNewPost, then SearchUser: for the author one more reply in front, whose thread title is that of the page |
| Search.ResolveHits | search.go:78-112 | each shown hit carries the committed author, text and thread of its id; hits without a post are skipped, in order |
| WriteThenRead.HitsSnoc | search.go:71-108 | the hits are shown in their order, each one that names a post once |
| WriteThenRead.HitAfter | search.go:71-108 | the hit of the next id shows nothing until the post is committed, and then its text, its author and its thread; all other hits are shown as before |
| Conservation.EveryPostUnderOneAuthor | threads.go:222-236 | summed over users, `userposts` has as many entries as there are posts |
| Conservation.EveryPostUnderOneThread | threads.go:204-213 | summed over threads, their `posts` buckets have as many entries as there are posts |
| SubforumIndex.Swap | threads.go:44-48 | exactly two rows are exchanged |
| SubforumIndex.Insert | subforumIndex.go:67 | one round of insertion over the reflexive `Less` sorts a prefix and loses no row |
| SubforumIndex.Sort | subforumIndex.go:67 | newest first, and a permutation |
| SubforumIndex.SortedIsUnique | threads.go:40-42 | with distinct times any sort over `Less` ends in the same order |
| SubforumIndex.BoardHoldsThreads | subforumIndex.go:43-61 | the move-to-front list has each thread of the subforum exactly once |
| SubforumIndex.BoardIsSorted | threads.go:82-87 | with strictly increasing times the move-to-front list is ordered by the last post |
| SubforumIndex.SortedIsBoard | subforumIndex.go:67 | whatever order a sort finds, it is the move-to-front list |
| SubforumIndex.CollectRows | subforumIndex.go:43-61 | one row for each thread of the subforum, with its own fields; "threadInfo == nil" is unreachable |
| SubforumIndex.GetThreadsForSubforum | subforumIndex.go:32-69 | fails only for an unknown subforum; all its threads newest first; with increasing times the move-to-front list |
| WriteThenRead.RowAfterReply | subforumIndex.go:49-60 | a reply gives the row of its thread its time, and changes no other row |
| WriteThenRead.RowAfterLock | subforumIndex.go:57 | a lock or unlock shows in the row of its thread and in no other |
| WriteThenRead.ListAfterOpen | subforumIndex.go:44-61 | a new thread adds one row to the list of its subforum, with its id, title, author and time, not locked and not archived, and changes no other row or list |
| WriteThenRead.OpenAndList | threads.go:396-398 | OnNewThread, then the list that it redirects to: newest first, the rows before and the new one |
| Keyword.ReplyKeepsIndex | threads.go:89-98 | whether the reply commits or aborts after the send, the index with its queue still promises the right documents |
| Keyword.OpenKeepsIndex | threads.go:362-396 | the same for a new thread, also when the subforum is missing |
| Keyword.DeliverKeepsIndex | searchkey.go:79-86 | applying the oldest message keeps the promise |
| Keyword.DrainedIndexAgrees | searchkey.go:65-86 | once drained, every committed post has its own author, text and thread, and at most the next id is indexed besides |
| Keyword.KeywordIndex.Drain | searchkey.go:79-86 | the loop applies all messages in the order sent |
| Keyword.Rebuild | searchkey.go:106-131 | the cursor loop gives the documents of the committed posts |
| Keyword.RebuiltIsCommitted | searchkey.go:106-131 | those documents are right for each post, and there are no others |
| Keyword.RebuiltAgrees | searchkey.go:93-131 | a rebuilt index starts with the promise kept |
| Keyword.RebuildAgreesWithDrain | searchkey.go:79-131 | rebuilding and draining give the same document for every committed post |
| Keyword.ForgettingTheChannel | searchkey.go:88-90 | a restart that keeps the index does no harm if and only if each queued message about a committed post is one already indexed |
| Keyword.ReversedOrderIsWrong | searchkey.go:79-86 | applying two messages of one id in the other order leaves the aborted one in the index |
| Mutes.Wrap | console.go:115 | the product of durations is an int64 congruent to the true one |
| Mutes.DeadlineExact | console.go:98-118 | the stored deadline is the one asked for if and only if there are at most 106751 days |
| Mutes.MutedUntilDeadline | certfp.go:77-105 | up to that, the user is muted until the deadline, which comes less than a second early, and not after it |
| Mutes.MutedAsAskedIff | console.go:98-118 | the user is muted at every instant up to a second before the deadline asked for if and only if that is at most 106751 days away |
| Mutes.OneDayTooMany | console.go:112-118 | 106752 days are accepted and mute nobody, at that instant or ever after |
| Mutes.AcceptedTerms | console.go:99-116 | a mute for ever holds at every instant; numbers are accepted if and only if they are positive |
| Mutes.MuteRoundTrip | certfp.go:84-99 | what is stored in `muted` is empty, "permanent" or a time that parses, and reads back as the mute that was stored |
| Mutes.DeadlinesAreStorable | console.go:115-117 | every deadline the command computes has a year of four digits in every zone |
| Mutes.IsUserCurrentlyMuted | certfp.go:77-105 | the branches over the text decide whether the stored mute holds |
| Rfc3339.TextRoundTrip | console.go:117 | for every second of the years 0 to 9999 and every zone of whole minutes, parsing what was formatted gives that second |
| Rfc3339.DateRoundTrip | console.go:117 | every day of these years has a date that reads back as that day, leap years included |
| Rfc3339.EpochIs1970 | console.go:115-117 | the day from which instants count is 1 January 1970 in the same calendar |
| Rfc3339.WritesDateAndTime | console.go:117 | the text of every date and time of day in every zone of whole minutes has their digits, in this order |
| Rfc3339.MonthLengths | console.go:117 | the lengths of the months |
| Rfc3339.WrittenZones | console.go:117 | the zones of New York in summer and of India as they are written |
| AccountStore.RegisterKeeps | users.go:220-252 | registering keeps certificates with verified users and overwrites no user record |
| AccountStore.VerifyKeeps | users.go:44-63 | a validation code always names a user, so an unknown code is the only "not found" |
| AccountStore.LoginKeeps | users.go:191-194 | writing a login keeps certificates with verified users, given that its user is verified |
| AccountStore.LogoutKeeps | users.go:80-83 | a logout keeps them too |
| AccountStore.ClearNudgeKeeps | nudge.go:30-39 | clearing the nudge takes nothing else back |
| AccountStore.MuteKeeps | console.go:90-142 | muting and unmuting leave password, mail, verification and nudge of every user |
| AccountStore.AccountBuckets.constructor | database.go:27-33 | a new file has no users |
| AccountStore.AccountBuckets.OnRegister | users.go:220-252 | the puts of the five fields stand for the registered user; every other user's bucket and every other code is untouched, and an error leaves both buckets alone |
| AccountStore.AccountBuckets.VerifyUser | users.go:44-63 | only the field `verified` of the user of the code changes, and the code is gone; an error leaves both buckets alone |
| AccountStore.AccountBuckets.UpdateForPostNudge | nudge.go:30-39 | only the field `postnudge` of that user changes, and it stands for a cleared nudge; an error changes nothing |
| AccountStore.AccountBuckets.Mute | console.go:90-121 | only the field `muted` of that user changes, and its text stands for the deadline; an unknown user, a bad term or a failed commit change nothing |
| AccountStore.AccountBuckets.Unmute | console.go:126-142 | only the field `muted` of that user changes, to the empty text; an unknown user or a failed commit change nothing |
| AccountStore.AccountBuckets.GetUsernameFromFP | certfp.go:49-75 | the user of the certificate and the mute; with sound accounts the "programming error" branch is unreachable |
| AccountStore.AccountBuckets.CheckForPostNudge | nudge.go:16-28 | no error if and only if the user exists and has the nudge cleared |
| AccountStore.AccountBuckets.CheckPassword | users.go:158-187 | which error comes first; without one the user is verified |
| AccountStore.AccountBuckets.ValidateUsername | users.go:357-389 | which error comes first; without one the trimmed name has the shape of a user name and folds to no stored name |
| Text.ValidateThreadTitle | threads.go:251-266 | which error comes first; the character test reads the untrimmed text |
| Text.TrimFacts | threads.go:301 | trimming is idempotent and keeps every visible character in order |
| Text.TrimIsMiddle | threads.go:252 | trimming takes spaces away at both ends, all of them, and nothing else |
| Text.BytesAddUp | users.go:363 | lengths are counted in bytes of UTF-8 |
| Text.AcceptedTitles | threads.go:250-266 | a trimmed title is accepted if and only if it is not empty, has no space at its ends, at most 96 bytes and only allowed characters; which problem an empty and a long one have |
| Text.GetLinesOfPost | viewthread.go:146-154 | the loop gives the trimmed non-empty lines |
| Text.LinesAreStable | viewthread.go:146-154 | every line is non-empty, trimmed and without line feed, and showing the joined lines again gives the same |
| Text.LinesConserveText | viewthread.go:146-154 | the visible characters are conserved in order |
| Text.LinesEndAtFeeds | viewthread.go:146-154 | a text without line feed is one line, trimmed; the lines of two texts joined by a line feed are the lines of both |
| Config.CheckDuplicates | config.go:96-113 | the error is that of the first duplicate in scan order, or there is no duplicate |
| Config.AcceptedIffDistinct | config.go:96-113 | a configuration is accepted if and only if forum names are distinct and subforum ids are distinct across all forums |
| Config.SubforumIsUnique | config.go:106-112 | in an accepted configuration an id names one subforum, so the two lookups agree |
| Config.TableHolds | config.go:106-112 | the table of subforums by id has exactly the configured ids |
| Config.TableIs | config.go:106-112 | in an accepted configuration its entry is the one subforum with that id |
| Config.GetSubforumPrivFromID | threads.go:468-480 | fails if and only if no subforum has the id; in an accepted configuration the priviledges are those of the table's entry |
| Config.SubforumExists | subforumIndex.go:125-134 | fails if and only if no subforum has the id; in an accepted configuration the name is that of the same entry |
| Config.GetAllSubforumIDs | forums.go:24-32 | exactly the configured ids, which are the keys of the table |
| Safety.CheckedFactsStay | threads.go:102-164 | what a request has checked (user exists, thread exists, nudge cleared, user verified, name well formed) stays true whatever other requests commit |
| Safety.PostStepGood | threads.go:102-164 | every transaction of a reply establishes the facts that its next one relies on |
| Safety.ThreadStepGood | threads.go:402-464 | the same for a new thread |
| Safety.AccountOutcomeOk | users.go:94-204 | the same for login, logout, registration and verification; a login is written only for a user whose check found it verified |
| Safety.ReportStepGood | report.go:17-118 | the same for a report; a mail is about a post that is reported |
| Safety.ConsoleStepGood | console.go:215-248 | the same for a moderator's command |
| Safety.MarkStepGood | nudge.go:30-39 | the same for the clearing of the nudge |
| Safety.RunKeepsBase | certfp.go:49-75 | in every run the accounts and the forum are sound and every request's checked facts hold |
| Handlers.UndisturbedReply | threads.go:102-164 | a reply that no other request interrupts ends, from every reachable state, as its handler says: nobody, a muted user, an unknown thread, a priviledge below that of the subforum, a nudge, a missing text and a lock stop it; otherwise the message is sent, and the post is in the log if the commit succeeds |
| Handlers.UndisturbedThread | threads.go:402-464 | the same for a new thread, where the nudge comes before the priviledge and the title is validated after both |
| Handlers.UndisturbedAccount | users.go:44-204 | a login, logout, registration or verification that no other request interrupts changes the accounts as its handler says, and nothing else |
| Handlers.UndisturbedReport | report.go:17-118 | the first report of a post by a user is stored and mailed; any other changes nothing |
| Handlers.UndisturbedCommand | console.go:215-248 | a command from a moderator or from standard input locks, unlocks, mutes or unmutes as its words say; from anyone else it does nothing |
| Handlers.TypedPasswordWorksIff | users.go:316 | without mail, the password of a registration logs its user in if and only if it neither begins nor ends with a space |
| Handlers.RefusalsSayWhy | users.go:357-389 | which refusal a login and a name get |
| Origins.RunIsTraced | threads.go:102-164 | in every run, each request stands where its beginning and the user of its certificate allow |
| Sources.EventsComeFromRequests | threads.go:159-163 | in every run, behind each event stands the request that wrote it: a reply has the typed text in the named thread, a new thread the subforum, the trimmed title and the text of its request, and the author is the user of its certificate |
| Sources.AuthorsHeldTheCertificate | certfp.go:49-75 | in every run, the author of each event is the one that the bucket gave for the certificate of the request, in the step of the run that opened it |
| Sources.CertificatesComeFromPasswords | users.go:184-194 | in every run, behind each certificate stands a login with a password that matches the hash of its user |
| Sources.CommandsComeFromModerators | console.go:224-229 | in every run, a command that is about to be carried out came from standard input or from a request whose certificate was a moderator's |
| Sources.LocksComeFromModerators | console.go:204-213 | in every run, behind each locked thread stands such a command that locks it |
| Sources.MutesComeFromModerators | console.go:86-121 | in every run, behind each mute stands such a command, and the mute is the deadline of its term |
| Sources.ReportsComeFromUsers | report.go:22-25 | in every run, behind each reported post stands a report of it whose certificate was a user's |
| Sources.UsersComeFromRegistrations | users.go:308-318 | in every run, behind each user stands a registration: name and address trimmed, a password of at least eight bytes, stored as the hash of the trimmed text |
| Sources.CodesComeFromRegistrations | users.go:247-248 | in every run, a stored code is that of a registration of the user it is stored for |
| Sources.VerifiedUsersSentTheCode | users.go:44-63 | in every run with mail enabled, a user is verified only if the code of a registration of this name was sent in |
| EventRuns.AuthorsHavePriviledge | threads.go:436-439 | in every run, the author of each thread and each reply has the priviledge that its subforum asks for; users without a configured priviledge have none |
| EventRuns.TitlesHaveTheirShape | threads.go:300-305 | in every run, each stored title is not empty, is trimmed, has at most 96 bytes and only allowed characters |
| Servers.AuthorsMeetTheConfiguration | threads.go:139-146 | from the configuration to the log, over every run: each author has at least the priviledge that the configuration gives for the subforum |
| Invariants.WhoWrites | threads.go:102-164 | only the last transaction of a reply or a new thread writes an event, once, and a request found muted never gets there |
| Invariants.WrittenEvent | threads.go:69-91 | a written event has the request's own user, thread and text, and if its thread is locked at the write the user is Mod or above |
| Invariants.ReportMoves | report.go:59-95 | a mail becomes due only by the step that sets `reports`, when it was not set |
| Invariants.WhoRegisters | users.go:220-252 | only a registration adds a user, under the validated name, never over an existing one |
| Invariants.StepKeepsIndex | searchkey.go:65-150 | a step of the server keeps the promise of the index if and only if it is not a restart that forgets a needed message |
| Runs.CertificatesAreVerified | certfp.go:49-75 | in every run each certificate names an existing verified user and is recognised as that user |
| Runs.CheckedErrorsAreUnreachable | threads.go:139-163 | in every run no request meets a missing user, thread, configured subforum or subforum bucket after its checks |
| Runs.IndexesAreExactInEveryRun | threads.go:166-393 | in every run a database that holds the forum has exact indexes |
| Runs.NothingIsTakenBack | users.go:220-252 | however a run goes on, no user record is overwritten, `verified` and `postnudge` only move one way, no post changes, `reports` never falls back |
| Runs.MutedRequestsWriteNothing | threads.go:107-113 | each event has one writing request, no request writes two, and none of them had found its user muted |
| Runs.MutedAtStartMeansNoPost | threads.go:408-414 | a request whose opening snapshot finds the user muted commits no thread or reply, whatever follows, an unmute included |
| Runs.AuthorsWereNudged | threads.go:148-153 | in every run every author of a post exists and has `postnudge` "0" |
| Runs.FlagsAreBinary | users.go:232-237 | in every run each stored `verified` and `postnudge` is "0" or "1" |
| Runs.OneMailPerPost | report.go:94-95 | in every run at most one mail is attempted per post, and only about reported posts |
| ReportRuns.ReportsReachTheirMailIff | report.go:59-95 | in every run, the mail about each reported post was attempted or is due if and only if the server never stopped between a report and its mail |
| ReportRuns.ForgottenReportsStay | report.go:67-81 | a report cut off before its mail is never mailed, however the run goes on |
| Runs.NamesHaveTheirShape | users.go:357-372 | in every run stored names are 1 to 24 bytes of letters, numbers and underscore |
| Runs.RestartsEndRequests | main.go:107-118 | a request that is under way when the server stops has ended, however the run goes on, and writes nothing any more |
| Runs.LocksHold | console.go:204-213 | from a committed lock to the next committed unlock, in every interleaving and over restarts, the thread is locked, exactly the replies of users below Mod are refused as locked, and every post committed to it is by a user of priviledge Mod or above |
| Runs.UnlocksHold | threads.go:75-80 | from a committed unlock to the next lock, in every interleaving, no reply to the thread is refused as locked |
| IndexRuns.IndexIsRightOnceDrained | searchkey.go:65-150 | in every run, the index comes out right if and only if no restart forgot a needed message since the index was last repopulated |
| IndexRuns.RepopulatingRepairs | searchkey.go:93-134 | whatever was lost, a restart that repopulates makes the index right from then on |
| IndexRuns.LosingHarms | searchkey.go:88-90 | a restart that forgets a needed message leaves a committed post with a wrong document or none, and no message to mend it |
| IndexRuns.HarmStaysOverRuns | searchkey.go:79-150 | that stays so in every further run that does not repopulate the index |
| KeywordSearch.PageShowsMatches | search.go:71-108 | with an index that agrees, every post shown satisfies the query as it stands in the database, and every post among the hits is shown |
| KeywordSearch.SearchShowsExactlyTheMatches | search.go:71-108 | in every run with a safe index and an empty channel, a search over all hits shows exactly the committed posts that satisfy the query |
| KeywordSearch.DocumentsAreTheEvents | searchkey.go:53-63 | in every run with a safe index and an empty channel, the document of post n has the author, the text and the thread of event n |
| AccountRuns.LoginsHold | users.go:189-194 | from a committed login to the next login or logout of the certificate, in every interleaving, its requests are that user's; from a logout, nobody's |
| AccountRuns.MutesHold | certfp.go:60-68 | one request: a reply or new thread that opens with a certificate of the user while the mute holds never writes anything, also after the mute has ended |
| AccountRuns.MutesAreSeenIff | certfp.go:77-110 | from a committed mute to the next mute or unmute of the user, each certificate of the user is found muted at an instant if and only if the deadline holds at it |
| AccountRuns.UnmutesHold | console.go:126-142 | from a committed unmute to the next committed mute of the user, in every interleaving, no certificate of the user is found muted at any instant, and no request is turned away for it |
| MuteRuns.MutedUserIsSilentIff | console.go:86-121 | from a committed mute on, while it holds and is not replaced: an event is the muted user's if and only if a request of the user that was past its opening at the mute writes it; each writes at most one, and the user is silent if and only if none does |
| AccountRuns.RegistrationsWaitForTheCode | users.go:164-169 | with mail enabled, until the code of a committed registration is used, no password logs the user in and no certificate is the user's |
| AccountRuns.CodesWorkOnce | users.go:44-63 | the code of a committed registration verifies its user, then exactly the password of the registration logs in for good, and the code works no second time, as long as no other registration commits the same code |
| LateMutes.RunAlike | threads.go:107-113 | until one of the users opens a reply or a new thread, nothing that happens depends on what is in their `muted` fields |
| LateMutes.LateMuteIsTooLate | threads.go:408-414 | until the muted user opens another request, everything written, sent, indexed and shown is the same as without the mute |
| NameRuns.NamesUniqueIff | users.go:220-231 | in every run, stored names are unique up to case if and only if no registration committed a new name that folds to one stored by then |
| NameRuns.UniqueStep | users.go:220-231 | a step keeps names unique up to case exactly if it is not such a registration |
| NameRuns.CheckedNameIsFresh | users.go:377-388 | a registration goes on only with a name that folds to no stored name |
| NudgeRuns.NudgePagesInAnyRun | nudge.go:16-39 | in every run, how often a user saw the nudge page: failed clearings, one if cleared, and the clearings that came after another one |
| NudgeRuns.NudgeShownOnceIff | nudge.go:49-56 | in every run in which clearing never failed for a user, the page was shown at most once if and only if no clearing came late |
| ClockRuns.LogHasWritingTimes | threads.go:83-89 | the times in the log are the instants of the steps that wrote it, in their order |
| ClockRuns.StrictlyTimedIff | threads.go:83-89 | in every run, the log is strictly timed if and only if the clock advanced between any two writing steps |
| ClockRuns.RunOrdersTheBoard | subforumIndex.go:67 | after a run with such a clock the sorted subforum list is the move-to-front list |
| Witnesses.InterleavedNamesMayFoldTogether | users.go:377-388 | two interleaved registrations both store their names, whether or not the names fold together |
| Witnesses.BothNamesCanBeStored | users.go:308-318 | from the empty database a run stores any two acceptable names; if they fold together, names are then not unique up to case |
| Witnesses.InterleavedNudgesShowTwice | threads.go:416-418 | two interleaved requests of one user both show the nudge page |
| Witnesses.NudgeCanBeShownTwice | threads.go:416-418 | a run from the empty database shows one user the page twice, although clearing it never failed |
| Witnesses.StaleDocumentStays | searchkey.go:79-150 | a run from the empty database leaves the text of an aborted thread indexed under a committed post, and every further run keeps it there until the index is repopulated |
| Witnesses.MutedUserCanPost | threads.go:107-113 | a run from the empty database mutes a user for ever, and its next step puts a thread of the muted user in the log |
| Witnesses.ReportCanBeForgotten | report.go:59-95 | a run from the empty database leaves a post reported whose mail is never attempted |
| SerialRuns.NamesUniqueUpToCase | users.go:357-389 | requests one at a time never collide, so two stored names fold together if and only if they are the same |
| SerialRuns.NudgePagesAreCounted | nudge.go:16-39 | requests one at a time never clear late: a user sees the nudge page once for each failed clearing, and once more exactly if the nudge is cleared |
| Servers.SubforumOfKey | threads.go:127-134 | for an arbitrary client string, `threadtosubforum` has an entry if and only if the thread exists |
| Servers.SubforumOfThread | threads.go:127-137 | the transaction finds the subforum in which the thread was opened, or nothing |
| Servers.Server.constructor | database.go:49-62 | a server on a new database, with the priviledges of the loaded configuration, is where every run starts |
| Servers.Server.ReadForReply | threads.go:103-161 | the reading transactions of a reply decide, on the buckets, what the request machine decides on the log |
| Servers.Server.ReadForThread | threads.go:404-438 | the reading transactions of a new thread decide the same as the request machine |
| Servers.Server.TakeReply | threads.go:102-164 | each transaction of a reply is one step of the request machine |
| Servers.Server.TakeOpening | threads.go:402-464 | each transaction of a new thread is one step of the request machine |
| Servers.Server.TakeMarking | threads.go:148-150 | the clearing of the nudge is one step, whether or not it fails |
| Servers.Server.TakeAccount | users.go:77-204 | each transaction of login, logout, registration and verification is one step |
| Servers.Server.TakeReport | report.go:17-118 | each step of a report is one step |
| Servers.Server.TakeCommand | console.go:51-142 | the methods of a lock, unlock, mute or unmute change accounts and forum as the step of the request machine does, and send nothing |
| Servers.Server.TakeConsole | console.go:215-248 | each transaction of a console request is one step |
| Servers.Server.Take | searchkey.go:79-150 | one step of the server over the objects, restart and delivery included, is one step of the request machine |
| Servers.StartServer | main.go:71-118 | the server starts if and only if forum names and subforum ids are distinct, no id is empty and the buckets could be made |
| Servers.Serve | main.go:107-118 | from any list of groups that lets the server start, any run ends in the state of the request machine under that configuration, with exact indexes in the buckets |
| Servers.SubforumPage | subforumIndex.go:83-97 | after any run there is a page exactly for the configured ids, under the configured name, with all threads newest first; "Subforum not found" is unreachable |

## Left out

- Sequence counters at 2^64: contracts over the database ask for fewer than 2^64 - 2 events.
- bbolt itself: a single writer, snapshot reads, byte-ordered cursors and a rollback that includes counters are
  the meaning of a transaction here. Missing top-level buckets, key and value size limits, and byte slices used
  after their transaction ended are not modelled.
- Times are integers in nanoseconds. `MarshalText` may fail (an absent clock); the times of posts and threads are
  not modelled as text, so reading them back does not fail. The clock shows a year between 1653 and 8307.
- Rfc3339.TextRoundTrip: zones have whole minutes. Texts that the Go parser also accepts but `Format` never writes,
  such as fractions of a second, are not modelled.
- A certificate fingerprint, a password hash, the Unicode tables and case folding are parameters; the form of
  mail addresses and URL escaping are not modelled. Folding is taken to be an equivalence where it matters.
- TLS, SMTP, bcrypt, the rate limiter, backups, signals, page text and displayed dates. A bleve query is any
  predicate on documents; which of the hits are returned, and in which order, is left to the engine.
- The console commands `read`, `help` and `log` and the console log, whose RFC3339Nano keys are not in time order.
- `NewPostHandler` with fewer than three path parts, where the check at threads.go:116-118 does not return.
- The second loop that `initKeyword` starts when it falls back to rebuilding (searchkey.go:139-144): one loop is
  assumed, and `Keyword.ReversedOrderIsWrong` shows why the order matters. The channel is unbounded, its indexing
  never fails, and the rebuild is one step.
- A restart with another configuration: the settings stay the same over a run.
- SubforumIndex.Sort: `sort.Sort` of the Go library is an insertion sort here; `SortedIsUnique` makes the choice
  immaterial for distinct times, and nothing is said about the order of equal times.
- Keyword.Rebuild: posts are never deleted, so the branch that skips a deleted post does not occur.
- The steps of a login and of a registration that only ask for the next input, and pages that only read.
