/**
 The forum as a value: the log, the locked threads, the reported posts and the configured
 subforums, with one function for the outcome of every writing transaction.
 */
module Forums {
  import opened Options
  import opened Keys
  import opened Text
  import opened ForumLog

  datatype Forum = Forum(log: seq<Event>, locked: set<nat>, reported: set<nat>, subforums: set<string>)

  datatype Message = Message(author: string, text: string, id: Key, thread: Key)

  datatype Error =
    | BadTitle(problem: TitleError)
    | NotFound
    | ThreadLocked
    | BadClock
    | NameRequired
    | SubforumMissing
    | AlreadyReported
    | CommitFailed

  // The least priviledge that may reply to a locked thread.
  const MOD: nat := 1

  ghost predicate Sound(f: Forum) {
    && WellFormed(f.log)
    && (forall t :: t in f.locked ==> 1 <= t <= |Threads(f.log)|)
    && (forall n :: n in f.reported ==> 1 <= n <= |f.log|)
    && (forall t :: t in Threads(f.log) ==> t.subforum in f.subforums)
  }

  /** The thread that a key names, if it exists. */
  function ThreadNumber(f: Forum, key: Key): Option<nat> {
    match KeyNumber(key)
    case Some(n) => if 1 <= n <= |Threads(f.log)| then Some(n) else None
    case None => None
  }

  function PostNumber(f: Forum, key: Key): Option<nat> {
    match KeyNumber(key)
    case Some(n) => if 1 <= n <= |f.log| then Some(n) else None
    case None => None
  }

  // ---------- Replies ----------

  /** The first failure of OnNewPost. The last one is a commit that fails after the send. */
  function ReplyError(f: Forum, user: string, key: Key, priv: nat, now: Option<int>, commit: bool): Option<Error> {
    if ThreadNumber(f, key).None? then Some(NotFound)
    else if ThreadNumber(f, key).value in f.locked && priv < MOD then Some(ThreadLocked)
    else if now.None? then Some(BadClock)
    else if user == "" then Some(NameRequired)
    else if !commit then Some(CommitFailed)
    else None
  }

  function Reply(f: Forum, user: string, key: Key, text: string, priv: nat, now: Option<int>, commit: bool): Forum {
    if ReplyError(f, user, key, priv, now, commit).Some? then f
    else f.(log := f.log + [Replied(ThreadNumber(f, key).value, user, text, now.value)])
  }

  /** The keyword message leaves before the commit, so an aborted transaction sends it too. */
  function ReplySends(f: Forum, user: string, key: Key, text: string, priv: nat, now: Option<int>, commit: bool)
    : seq<Message>
  {
    match ReplyError(f, user, key, priv, now, commit)
    case None => [Message(user, text, Itob(|f.log| + 1), key)]
    case Some(CommitFailed) => [Message(user, text, Itob(|f.log| + 1), key)]
    case Some(_) => []
  }

  // ---------- New threads ----------

  function OpenError(f: Forum, a: Alphabet, subforum: string, user: string, title: string, now: Option<int>,
                     commit: bool): Option<Error>
  {
    var problem := TitleProblem(Trim(title, a.space), a);
    if problem.Some? then Some(BadTitle(problem.value))
    else if now.None? then Some(BadClock)
    else if user == "" then Some(NameRequired)
    else if subforum !in f.subforums then Some(SubforumMissing)
    else if !commit then Some(CommitFailed)
    else None
  }

  function Open(f: Forum, a: Alphabet, subforum: string, user: string, title: string, text: string,
                now: Option<int>, commit: bool): Forum
  {
    if OpenError(f, a, subforum, user, title, now, commit).Some? then f
    else f.(log := f.log + [Opened(subforum, Trim(title, a.space), user, text, now.value)])
  }

  /** The message leaves before the subforum is looked up. */
  function OpenSends(f: Forum, a: Alphabet, subforum: string, user: string, title: string, text: string,
                     now: Option<int>, commit: bool): seq<Message>
  {
    var m := Message(user, text, Itob(|f.log| + 1), Itob(|Threads(f.log)| + 1));
    match OpenError(f, a, subforum, user, title, now, commit)
    case None => [m]
    case Some(CommitFailed) => [m]
    case Some(SubforumMissing) => [m]
    case Some(_) => []
  }

  // ---------- Locks and reports ----------

  function LockError(f: Forum, key: Key, commit: bool): Option<Error> {
    if ThreadNumber(f, key).None? then Some(NotFound) else if !commit then Some(CommitFailed) else None
  }

  function SetLock(f: Forum, key: Key, on: bool, commit: bool): Forum {
    if LockError(f, key, commit).Some? then f
    else if on then f.(locked := f.locked + {ThreadNumber(f, key).value})
    else f.(locked := f.locked - {ThreadNumber(f, key).value})
  }

  function ReportError(f: Forum, key: Key, commit: bool): Option<Error> {
    if PostNumber(f, key).None? then Some(NotFound)
    else if PostNumber(f, key).value in f.reported then Some(AlreadyReported)
    else if !commit then Some(CommitFailed)
    else None
  }

  function Report(f: Forum, key: Key, commit: bool): Forum {
    if ReportError(f, key, commit).Some? then f
    else f.(reported := f.reported + {PostNumber(f, key).value})
  }

  // ---------- What every transaction keeps ----------

  /** Transactions keep a forum sound, whatever their arguments and however they end. */
  lemma ReplyKeepsSound(f: Forum, user: string, key: Key, text: string, priv: nat, now: Option<int>, commit: bool)
    requires Sound(f)
    ensures Sound(Reply(f, user, key, text, priv, now, commit))
  {
    if ReplyError(f, user, key, priv, now, commit).None? {
      Snoc(f.log, Replied(ThreadNumber(f, key).value, user, text, now.value));
    }
  }

  lemma OpenKeepsSound(f: Forum, a: Alphabet, subforum: string, user: string, title: string, text: string,
                       now: Option<int>, commit: bool)
    requires Sound(f)
    ensures Sound(Open(f, a, subforum, user, title, text, now, commit))
  {
    if OpenError(f, a, subforum, user, title, now, commit).None? {
      Snoc(f.log, Opened(subforum, Trim(title, a.space), user, text, now.value));
    }
  }
}
