/** Properties of whole runs from the empty database, with any interleaving of requests and any aborted commits. */
module Runs {
  import opened Options
  import opened Keys
  import opened Text
  import opened Mutes
  import opened ForumLog
  import opened Forums
  import opened Keyword
  import opened Requests
  import opened Safety
  import opened Invariants
  import opened Stores
  import opened Coherence
  import AS = AccountStore

  ghost predicate Invariant(cfg: Settings, w: World) {
    && Base(cfg, w)
    && WritersOk(w)
    && AuthorsNudged(w)
    && MailsOk(w)
    && NamesOk(cfg, w)
    && FlagsOk(w.acc)
  }

  lemma StartKeeps(cfg: Settings)
    ensures Invariant(cfg, Start(cfg))
  {
    assert Posts([]) == [];
  }

  lemma StepKeeps(cfg: Settings, w: World, a: Action)
    requires Invariant(cfg, w)
    ensures Invariant(cfg, Step(cfg, w, a))
  {
    hide Base, WritersOk, AuthorsNudged, MailsOk, NamesOk, FlagsOk, Step;
    StepKeepsBase(cfg, w, a);
    StepKeepsWriters(cfg, w, a);
    StepKeepsAuthors(cfg, w, a);
    StepKeepsMails(cfg, w, a);
    StepKeepsNames(cfg, w, a);
    StepKeepsFlags(cfg, w, a);
  }

  lemma {:induction false} RunKeeps(cfg: Settings, run: seq<Action>)
    ensures Invariant(cfg, Run(cfg, Start(cfg), run))
  {
    hide Invariant, Step;
    if run == [] {
      StartKeeps(cfg);
    } else {
      RunKeeps(cfg, run[..|run| - 1]);
      StepKeeps(cfg, Run(cfg, Start(cfg), run[..|run| - 1]), run[|run| - 1]);
    }
  }

  lemma RunStarts(cfg: Settings, w: World)
    ensures Run(cfg, w, []) == w
  {
  }

  lemma RunSnoc(cfg: Settings, w: World, run: seq<Action>, a: Action)
    ensures Run(cfg, w, run + [a]) == Step(cfg, Run(cfg, w, run), a)
  {
    hide Step;
    assert (run + [a])[..|run|] == run;
  }

  lemma {:induction false} RunConcat(cfg: Settings, w: World, before: seq<Action>, more: seq<Action>)
    ensures Run(cfg, w, before + more) == Run(cfg, Run(cfg, w, before), more)
  {
    hide Step;
    if more == [] {
      assert before + more == before;
    } else {
      var init, a := more[..|more| - 1], more[|more| - 1];
      RunConcat(cfg, w, before, init);
      assert before + more == (before + init) + [a];
      RunSnoc(cfg, w, before + init, a);
    }
  }

  /** No step of the run, in the state in which it is taken, is a bad one. */
  predicate Never(cfg: Settings, w: World, run: seq<Action>, bad: (World, Action) -> bool) {
    run != [] ==>
      var init := run[..|run| - 1];
      Never(cfg, w, init, bad) && !bad(Run(cfg, w, init), run[|run| - 1])
  }

  // ---------- Certificates, users, posts ----------

  /** Each certificate of the bucket belongs to an existing, verified user, and WhoIs finds that user. */
  lemma CertificatesAreVerified(cfg: Settings, run: seq<Action>, fp: string, now: int)
    ensures var acc := Run(cfg, Start(cfg), run).acc;
            && (fp in acc.certfp ==>
                  AS.Verified(acc, acc.certfp[fp]) && AS.WhoIs(acc, fp, now).0 == acc.certfp[fp] != "")
            && (fp !in acc.certfp ==> AS.WhoIs(acc, fp, now).0 == "")
  {
    hide Run, PcOk, Forums.Sound, IsMuted;
    RunKeepsBase(cfg, run);
  }

  lemma SubforumIsConfigured(cfg: Settings, w: World, thread: Key)
    requires Base(cfg, w) && ThreadNumber(w.forum, thread).Some?
    ensures Threads(w.forum.log)[ThreadNumber(w.forum, thread).value - 1].subforum in cfg.subs
  {
    hide Threads, WellFormed, KeyNumber, PcOk, AS.Sound;
    assert Threads(w.forum.log)[ThreadNumber(w.forum, thread).value - 1] in Threads(w.forum.log);
  }

  /** The step of a request that has passed its checks meets none of the errors that it checked for. */
  lemma CheckedErrorsAreUnreachable(cfg: Settings, run: seq<Action>, id: nat, env: Env)
    requires id in Run(cfg, Start(cfg), run).reqs
    ensures var w := Run(cfg, Start(cfg), run);
            match w.reqs[id]
            case Replying(PostRoute(_, thread, _)) =>
              var t := ThreadNumber(w.forum, thread);
              t.Some? ==> Threads(w.forum.log)[t.value - 1].subforum in cfg.subs
            case Replying(PostNudge(user, _, _)) => AS.CheckNudge(w.acc, user) != Some(AS.UserNotFound)
            case Replying(PostWrite(user, thread, _)) =>
              var e := ReplyError(w.forum, user, thread, cfg.PrivOf(user), env.Clock(), env.commit);
              e != Some(Forums.NotFound) && e != Some(Forums.NameRequired)
            case Opening(ThreadNudge(user, _, _, _)) => AS.CheckNudge(w.acc, user) != Some(AS.UserNotFound)
            case Opening(ThreadWrite(user, subforum, title, _)) =>
              var e := OpenError(w.forum, cfg.alphabet, subforum, user, title, env.Clock(), env.commit);
              e != Some(Forums.SubforumMissing) && e != Some(Forums.NameRequired)
            case Marking(user) => AS.ClearNudge(w.acc, user, env.commit).err != Some(AS.UserNotFound)
            case Account(LoginWrite(_, user)) => AS.Verified(w.acc, user)
            case _ => true
  {
    hide Run, Trim, TitleProblem, ThreadNumber, WellFormed, Threads;
    RunKeepsBase(cfg, run);
    var w := Run(cfg, Start(cfg), run);
    assert PcOk(cfg, w.acc, w.forum, w.reqs[id]);
    match w.reqs[id]
    case Replying(PostRoute(_, thread, _)) =>
      if ThreadNumber(w.forum, thread).Some? {
        SubforumIsConfigured(cfg, w, thread);
      }
    case _ =>
  }

  /** However a run went, a database that holds its forum has exact indexes. */
  lemma IndexesAreExactInEveryRun(cfg: Settings, run: seq<Action>, s: Store)
    requires var f := Run(cfg, Start(cfg), run).forum; Represents(s, f) && Room(f)
    ensures ThreadListsCoherent(s) && UserPostsCoherent(s) && UserThreadsCoherent(s) && SubforumsCoherent(s)
  {
    hide Run, Represents, PcOk, AS.Sound, Forums.Sound;
    hide ThreadListsCoherent, UserPostsCoherent, UserThreadsCoherent, SubforumsCoherent;
    RunKeepsBase(cfg, run);
    IndexesAreExact(s, Run(cfg, Start(cfg), run).forum);
  }

  ghost predicate Kept(w: World, w': World) {
    AS.Grows(w.acc, w'.acc) && w.forum.log <= w'.forum.log && w.forum.reported <= w'.forum.reported
  }

  lemma KeptFurther(w: World, w': World, w'': World)
    requires Kept(w, w') && Later(w', w'')
    ensures Kept(w, w'')
  {
    var log, log', log'' := w.forum.log, w'.forum.log, w''.forum.log;
    assert log == log'[..|log|] == log''[..|log|];
  }

  /** However a run goes on, no user record is removed or overwritten, nobody is unverified or sent the nudge page
      again, no post is lost or changed, and no report is forgotten. */
  lemma {:induction false} NothingIsTakenBack(cfg: Settings, before: seq<Action>, more: seq<Action>)
    ensures Kept(Run(cfg, Start(cfg), before), Run(cfg, Start(cfg), before + more))
  {
    hide Run, Step, Base, Later, AS.Grows;
    var w := Run(cfg, Start(cfg), before);
    if more == [] {
      assert before + more == before;
      AccountsStay(w.acc);
    } else {
      var init, a := more[..|more| - 1], more[|more| - 1];
      NothingIsTakenBack(cfg, before, init);
      assert before + more == (before + init) + [a];
      RunSnoc(cfg, Start(cfg), before + init, a);
      RunKeepsBase(cfg, before + init);
      StepKeepsBase(cfg, Run(cfg, Start(cfg), before + init), a);
      KeptFurther(w, Run(cfg, Start(cfg), before + init), Run(cfg, Start(cfg), before + more));
    }
  }

  /** Requests whose first snapshot found the user muted write no event, every event has one writing request, and no
      request writes two. */
  lemma MutedRequestsWriteNothing(cfg: Settings, run: seq<Action>)
    ensures var w := Run(cfg, Start(cfg), run);
            && |w.hist.writers| == |w.forum.log|
            && (forall i, j :: 0 <= i < j < |w.hist.writers| ==> w.hist.writers[i] != w.hist.writers[j])
            && forall id :: id in w.hist.mutedAtStart ==> id !in w.hist.writers
  {
    hide Run, Base, AuthorsNudged, MailsOk, NamesOk, FlagsOk;
    RunKeeps(cfg, run);
  }

  lemma StepRemembersMuted(cfg: Settings, w: World, a: Action)
    ensures w.hist.mutedAtStart <= Step(cfg, w, a).hist.mutedAtStart
  {
    hide AdvanceStep;
    if a.Advance? && a.id in w.reqs {
      WhoWrites(cfg, w, a.id, w.reqs[a.id], a.env);
    }
  }

  lemma {:induction false} RunRemembersMuted(cfg: Settings, before: seq<Action>, more: seq<Action>)
    ensures Run(cfg, Start(cfg), before).hist.mutedAtStart <= Run(cfg, Start(cfg), before + more).hist.mutedAtStart
  {
    hide Run, Step;
    if more == [] {
      assert before + more == before;
    } else {
      var init, a := more[..|more| - 1], more[|more| - 1];
      RunRemembersMuted(cfg, before, init);
      assert before + more == (before + init) + [a];
      RunSnoc(cfg, Start(cfg), before + init, a);
      StepRemembersMuted(cfg, Run(cfg, Start(cfg), before + init), a);
    }
  }

  /** The request is about to read whose certificate this is. */
  predicate OpensWith(pc: Pc, fp: string) {
    match pc
    case Replying(PostOpen(fp', _, _)) => fp' == fp
    case Opening(ThreadOpen(fp', _, _, _)) => fp' == fp
    case _ => false
  }

  lemma OpeningSnapshot(cfg: Settings, w: World, id: nat, env: Env, fp: string)
    requires id in w.reqs && OpensWith(w.reqs[id], fp) && AS.Sound(w.acc) && AS.WhoIs(w.acc, fp, env.now).1
    ensures id in Step(cfg, w, Advance(id, env)).hist.mutedAtStart
  {
    hide IsMuted, Reply, ReplySends, Open, OpenSends, ThreadNumber, Threads;
  }

  /** A user who is muted in the opening snapshot of a request gets no thread and no reply out of that request,
      whatever happens afterwards, an unmute included. */
  lemma MutedAtStartMeansNoPost(cfg: Settings, before: seq<Action>, id: nat, env: Env, fp: string, more: seq<Action>)
    requires var w := Run(cfg, Start(cfg), before);
             id in w.reqs && OpensWith(w.reqs[id], fp) && AS.WhoIs(w.acc, fp, env.now).1
    ensures id !in Run(cfg, Start(cfg), before + [Advance(id, env)] + more).hist.writers
  {
    hide Run, Step, AS.WhoIs, AS.Sound, OpensWith, AuthorsNudged, MailsOk, NamesOk, PcOk, Forums.Sound;
    var start, first := Start(cfg), before + [Advance(id, env)];
    RunKeepsBase(cfg, before);
    RunSnoc(cfg, start, before, Advance(id, env));
    OpeningSnapshot(cfg, Run(cfg, start, before), id, env, fp);
    RunRemembersMuted(cfg, first, more);
    MutedRequestsWriteNothing(cfg, first + more);
  }

  /** Every author of a post exists, and has the nudge cleared. */
  lemma AuthorsWereNudged(cfg: Settings, run: seq<Action>, n: nat)
    requires 1 <= n <= |Run(cfg, Start(cfg), run).forum.log|
    ensures var w := Run(cfg, Start(cfg), run);
            var author := Posts(w.forum.log)[n - 1].author;
            author in w.acc.users && w.acc.users[author].postnudge == "0"
  {
    hide Run, Posts, Base, WritersOk, MailsOk, NamesOk, WillAgree;
    RunKeeps(cfg, run);
    var w := Run(cfg, Start(cfg), run);
    assert Posts(w.forum.log)[n - 1] in Posts(w.forum.log);
  }

  /** In every state each user's fields verified and postnudge are "0" or "1". */
  lemma FlagsAreBinary(cfg: Settings, run: seq<Action>)
    ensures FlagsOk(Run(cfg, Start(cfg), run).acc)
  {
    hide Run, Base, WritersOk, AuthorsNudged, MailsOk, NamesOk, FlagsOk;
    RunKeeps(cfg, run);
  }

  /** At most one mail is attempted for each post, and only for posts that were reported. */
  lemma OneMailPerPost(cfg: Settings, run: seq<Action>)
    ensures var w := Run(cfg, Start(cfg), run);
            && (forall i, j :: 0 <= i < j < |w.hist.mails| ==> w.hist.mails[i] != w.hist.mails[j])
            && (forall n :: n in w.hist.mails ==> n in w.forum.reported && 1 <= n <= |w.forum.log|)
  {
    hide Run, PcOk, WritersOk, AuthorsNudged, NamesOk, WillAgree, AS.Sound;
    RunKeeps(cfg, run);
  }

  /** All stored names have the shape of a user name, however registrations interleave. */
  lemma NamesHaveTheirShape(cfg: Settings, run: seq<Action>, name: string)
    requires name in Run(cfg, Start(cfg), run).acc.users
    ensures UsernameShape(name, cfg.alphabet)
  {
    hide Run, UsernameShape, Base, WritersOk, AuthorsNudged, MailsOk, FlagsOk;
    RunKeeps(cfg, run);
  }

  // ---------- Restarts ----------

  lemma EndedStep(cfg: Settings, w: World, a: Action, id: nat)
    requires Base(cfg, w) && id in w.reqs && w.reqs[id] == Done
    ensures var v := Step(cfg, w, a);
            && id in v.reqs && v.reqs[id] == Done && (id in v.hist.writers <==> id in w.hist.writers)
            && (id in v.hist.mutedAtStart <==> id in w.hist.mutedAtStart)
  {
    hide AdvanceStep, AS.Sound, Forums.Sound, PcOk, Later, Rebuilt;
    if a.Advance? && a.id in w.reqs {
      DoneStays(cfg, w, id, a.env);
      AdvanceGood(cfg, w, a.id, a.env);
      WhoWrites(cfg, w, a.id, w.reqs[a.id], a.env);
    }
  }

  lemma RestartEnds(cfg: Settings, w: World, repopulate: bool, id: nat)
    requires id in w.reqs
    ensures var v := Step(cfg, w, Restart(repopulate));
            v.acc == w.acc && v.forum == w.forum && v.hist == w.hist && v.reqs.Keys == w.reqs.Keys && v.reqs[id] == Done
  {
    hide Rebuilt;
  }

  /** A request that is under way when the server stops has ended, however the run goes on: it writes nothing any more. */
  lemma {:induction false} RestartsEndRequests(cfg: Settings, before: seq<Action>, repopulate: bool,
                                               more: seq<Action>, id: nat)
    requires id in Run(cfg, Start(cfg), before).reqs
    ensures var v := Run(cfg, Start(cfg), before + [Restart(repopulate)] + more);
            && id in v.reqs && v.reqs[id] == Done
            && (id in v.hist.writers <==> id in Run(cfg, Start(cfg), before).hist.writers)
  {
    hide Run, Step, Base;
    var first := before + [Restart(repopulate)];
    if more == [] {
      assert first + more == first;
      RunSnoc(cfg, Start(cfg), before, Restart(repopulate));
      RestartEnds(cfg, Run(cfg, Start(cfg), before), repopulate, id);
    } else {
      var init, a := more[..|more| - 1], more[|more| - 1];
      RestartsEndRequests(cfg, before, repopulate, init, id);
      assert first + more == (first + init) + [a];
      RunSnoc(cfg, Start(cfg), first + init, a);
      RunKeepsBase(cfg, first + init);
      EndedStep(cfg, Run(cfg, Start(cfg), first + init), a, id);
    }
  }

  // ---------- Locks ----------

  predicate IsUnlock(f: Forum, pc: Pc, t: nat) {
    match pc
    case Console(ConsoleWrite(Unlock(thread))) => ThreadNumber(f, thread) == Some(t)
    case _ => false
  }

  /** The step commits an unlock of the thread, from a request or from standard input. */
  function Unlocks(t: nat): (World, Action) -> bool {
    (w: World, a: Action) => a.Advance? && a.id in w.reqs && a.env.commit && IsUnlock(w.forum, w.reqs[a.id], t)
  }

  lemma StaysLocked(cfg: Settings, w: World, id: nat, pc: Pc, env: Env, t: nat)
    requires id in w.reqs && w.reqs[id] == pc && t in w.forum.locked && !Unlocks(t)(w, Advance(id, env))
    ensures t in AdvanceStep(cfg, w, id, pc, env).forum.locked
  {
    hide PostRead, ThreadRead, ReplyError, OpenError, ReplySends, OpenSends, AccountOutcome, ReportError, AS.WhoIs;
    hide AS.ClearNudge, AS.MuteUser, AS.UnmuteUser, ThreadNumber, PostNumber, Trim;
  }

  /** The posts after the first k that are in thread t are by moderators. */
  ghost predicate ByModerators(cfg: Settings, log: seq<Event>, k: nat, t: nat) {
    forall n :: k <= n < |log| && Posts(log)[n].thread == t ==> cfg.PrivOf(Posts(log)[n].author) >= MOD
  }

  lemma NewPostByModerator(cfg: Settings, log: seq<Event>, e: Event, k: nat, t: nat)
    requires ByModerators(cfg, log, k, t) && 1 <= t <= |Threads(log)|
    requires e.Replied? && e.thread == t ==> cfg.PrivOf(e.author) >= MOD
    ensures ByModerators(cfg, log + [e], k, t) && t <= |Threads(log + [e])|
  {
    Snoc(log, e);
  }

  lemma LockedStep(cfg: Settings, w: World, a: Action, k: nat, t: nat)
    requires t in w.forum.locked && 1 <= t <= |Threads(w.forum.log)| && ByModerators(cfg, w.forum.log, k, t)
    requires !Unlocks(t)(w, a)
    ensures var f := Step(cfg, w, a).forum;
            t in f.locked && t <= |Threads(f.log)| && ByModerators(cfg, f.log, k, t)
  {
    hide AdvanceStep, ByModerators, Threads, NewEvent, Unlocks;
    if a.Advance? && a.id in w.reqs {
      var pc := w.reqs[a.id];
      StaysLocked(cfg, w, a.id, pc, a.env, t);
      if AdvanceStep(cfg, w, a.id, pc, a.env).forum.log != w.forum.log {
        WrittenEvent(cfg, w, a.id, pc, a.env);
        NewPostByModerator(cfg, w.forum.log, NewEvent(cfg, w, pc, a.env), k, t);
      }
    }
  }

  lemma {:induction false} LockedRun(cfg: Settings, w: World, run: seq<Action>, t: nat)
    requires t in w.forum.locked && 1 <= t <= |Threads(w.forum.log)|
    requires Never(cfg, w, run, Unlocks(t))
    ensures var f := Run(cfg, w, run).forum;
            t in f.locked && t <= |Threads(f.log)| && ByModerators(cfg, f.log, |w.forum.log|, t)
  {
    hide Step, ByModerators, Threads, Unlocks;
    if run == [] {
      NothingYet(cfg, w.forum.log, t);
    } else {
      LockedRun(cfg, w, run[..|run| - 1], t);
      LockedStep(cfg, Run(cfg, w, run[..|run| - 1]), run[|run| - 1], |w.forum.log|, t);
    }
  }

  lemma NothingYet(cfg: Settings, log: seq<Event>, t: nat)
    ensures ByModerators(cfg, log, |log|, t)
  {
  }

  predicate IsLock(f: Forum, pc: Pc, t: nat) {
    match pc
    case Console(ConsoleWrite(Lock(thread))) => ThreadNumber(f, thread) == Some(t)
    case _ => false
  }

  /** The step commits a lock of the thread. */
  function Locks(t: nat): (World, Action) -> bool {
    (w: World, a: Action) => a.Advance? && a.id in w.reqs && a.env.commit && IsLock(w.forum, w.reqs[a.id], t)
  }

  lemma StaysUnlocked(cfg: Settings, w: World, a: Action, t: nat)
    requires t !in w.forum.locked && !Locks(t)(w, a)
    ensures t !in Step(cfg, w, a).forum.locked
  {
    hide PostRead, ThreadRead, ReplyError, OpenError, ReplySends, OpenSends, AccountOutcome, ReportError, AS.WhoIs;
    hide AS.ClearNudge, AS.MuteUser, AS.UnmuteUser, ThreadNumber, PostNumber, Trim, Rebuilt;
  }

  lemma {:induction false} UnlockedRun(cfg: Settings, w: World, run: seq<Action>, t: nat)
    requires t !in w.forum.locked && Never(cfg, w, run, Locks(t))
    ensures t !in Run(cfg, w, run).forum.locked
  {
    hide Step, Locks;
    if run == [] {
    } else {
      UnlockedRun(cfg, w, run[..|run| - 1], t);
      StaysUnlocked(cfg, Run(cfg, w, run[..|run| - 1]), run[|run| - 1], t);
    }
  }

  lemma LockIsWritten(cfg: Settings, w: World, a: Action, t: nat)
    requires Locks(t)(w, a)
    ensures t in Step(cfg, w, a).forum.locked && Step(cfg, w, a).forum.log == w.forum.log
    ensures 1 <= t <= |Threads(w.forum.log)|
  {
    hide PostStep, ThreadStep, MarkStep, AccountStep, ReportStep, KeyNumber, Threads;
  }

  lemma LockedReply(f: Forum, t: nat, user: string, thread: Key, priv: nat, now: Option<int>, commit: bool)
    requires t in f.locked && 1 <= t <= |Threads(f.log)| && KeyNumber(thread) == Some(t)
    ensures ReplyError(f, user, thread, priv, now, commit) == Some(ThreadLocked) <==> priv < 1
  {
    hide KeyNumber, Threads;
  }

  /** From a committed lock of a thread, by whatever command, to the next committed unlock of it, in every interleaving
      and over restarts: the thread is locked, exactly the replies of users below Mod are refused as locked, and every
      post committed to it since is by a user of priviledge Mod or above. */
  lemma LocksHold(cfg: Settings, before: seq<Action>, a: Action, run: seq<Action>, t: nat,
                  user: string, thread: Key, priv: nat, now: Option<int>, commit: bool)
    requires var w := Run(cfg, Start(cfg), before); Locks(t)(w, a) && Never(cfg, Step(cfg, w, a), run, Unlocks(t))
    requires KeyNumber(thread) == Some(t)
    ensures var f := Run(cfg, Start(cfg), before + [a] + run).forum;
            && t in f.locked
            && (ReplyError(f, user, thread, priv, now, commit) == Some(ThreadLocked) <==> priv < 1)
            && forall n :: |Run(cfg, Start(cfg), before).forum.log| <= n < |f.log| && Posts(f.log)[n].thread == t
                 ==> Posts(f.log)[n].author in cfg.privs && cfg.privs[Posts(f.log)[n].author] >= 1
  {
    hide Run, Step, Posts, Threads, Never, Locks, Unlocks, KeyNumber, ReplyError;
    var w := Run(cfg, Start(cfg), before);
    LockIsWritten(cfg, w, a, t);
    LockedRun(cfg, Step(cfg, w, a), run, t);
    RunSnoc(cfg, Start(cfg), before, a);
    RunConcat(cfg, Start(cfg), before + [a], run);
    LockedReply(Run(cfg, Start(cfg), before + [a] + run).forum, t, user, thread, priv, now, commit);
  }

  lemma UnlockIsWritten(cfg: Settings, w: World, a: Action, t: nat)
    requires Unlocks(t)(w, a)
    ensures t !in Step(cfg, w, a).forum.locked
  {
    hide PostStep, ThreadStep, MarkStep, AccountStep, ReportStep, ThreadNumber;
  }

  /** From a committed unlock of a thread to the next lock of it, in every interleaving and over restarts, no reply to
      the thread is refused as locked, whoever writes it. */
  lemma UnlocksHold(cfg: Settings, before: seq<Action>, a: Action, run: seq<Action>, t: nat,
                    user: string, thread: Key, priv: nat, now: Option<int>, commit: bool)
    requires var w := Run(cfg, Start(cfg), before); Unlocks(t)(w, a) && Never(cfg, Step(cfg, w, a), run, Locks(t))
    requires ThreadNumber(Run(cfg, Start(cfg), before + [a] + run).forum, thread) == Some(t)
    ensures ReplyError(Run(cfg, Start(cfg), before + [a] + run).forum, user, thread, priv, now, commit)
         != Some(ThreadLocked)
  {
    hide Run, Step, Never, Locks, Unlocks, ThreadNumber;
    var w := Run(cfg, Start(cfg), before);
    UnlockIsWritten(cfg, w, a, t);
    UnlockedRun(cfg, Step(cfg, w, a), run, t);
    RunSnoc(cfg, Start(cfg), before, a);
    RunConcat(cfg, Start(cfg), before + [a], run);
  }
}
