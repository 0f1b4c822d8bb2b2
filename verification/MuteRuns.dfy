/** Which posts of a muted user are still committed while the mute holds, over any run. */
module MuteRuns {
  import opened Options
  import opened Keys
  import opened Text
  import opened Mutes
  import opened ForumLog
  import opened Forums
  import opened Keyword
  import opened Requests
  import opened Safety
  import opened Invariants
  import opened Runs
  import opened AccountRuns
  import AS = AccountStore

  /** A reply or a new thread of the user that has been opened, was not found muted and has not ended. */
  predicate UnderWay(pc: Pc, user: string) {
    match pc
    case Replying(PostRoute(u, _, _)) => u == user
    case Replying(PostNudge(u, _, _)) => u == user
    case Replying(PostWrite(u, _, _)) => u == user
    case Opening(ThreadNudge(u, _, _, _)) => u == user
    case Opening(ThreadWrite(u, _, _, _)) => u == user
    case _ => false
  }

  /** The requests of the user that are under way. */
  function LateRequests(w: World, user: string): set<nat> {
    set id | id in w.reqs && UnderWay(w.reqs[id], user)
  }

  /** The step commits another mute or an unmute of the user, or is taken when the mute does not hold. */
  function EndsMute(user: string, m: Mute): (World, Action) -> bool {
    (w: World, a: Action) => Remutes(user)(w, a) || (a.Advance? && !IsMuted(m, a.env.now))
  }

  // ---------- No request gets under way ----------

  /** Only requests in s are under way, and a request in s is so, is clearing the nudge, or has ended. */
  ghost predicate Confined(w: World, s: set<nat>, user: string) {
    && (forall id :: id in w.reqs && UnderWay(w.reqs[id], user) ==> id in s)
    && (forall id :: id in s ==>
          id in w.reqs && (UnderWay(w.reqs[id], user) || w.reqs[id].Marking? || w.reqs[id] == Done))
  }

  lemma PostReadConfined(cfg: Settings, acc: AS.Accounts, f: Forum, pc: PostPc, now: int, user: string, m: Mute)
    requires !pc.PostWrite? && MutedAs(acc, user, m) && IsMuted(m, now)
    ensures var r := PostRead(cfg, acc, f, pc, now);
            && (r.Next? && UnderWay(r.pc, user) ==> UnderWay(Replying(pc), user))
            && (r.Next? && UnderWay(Replying(pc), user) ==> UnderWay(r.pc, user) || r.pc.Marking? || r.pc == Done)
  {
    hide ThreadNumber, Threads, IsMuted;
  }

  lemma ThreadReadConfined(cfg: Settings, acc: AS.Accounts, pc: ThreadPc, now: int, user: string, m: Mute)
    requires !pc.ThreadWrite? && MutedAs(acc, user, m) && IsMuted(m, now)
    ensures var r := ThreadRead(cfg, acc, pc, now);
            && (r.Next? && UnderWay(r.pc, user) ==> UnderWay(Opening(pc), user))
            && (r.Next? && UnderWay(Opening(pc), user) ==> UnderWay(r.pc, user) || r.pc.Marking? || r.pc == Done)
  {
    hide IsMuted;
  }

  /** While the user is muted no step brings a request of the user under way; those that are end or go on. */
  lemma AdvanceConfined(cfg: Settings, w: World, id: nat, pc: Pc, env: Env, user: string, m: Mute)
    requires id in w.reqs && MutedAs(w.acc, user, m) && IsMuted(m, env.now) && pc != Done
    ensures var w' := AdvanceStep(cfg, w, id, pc, env);
            && id in w'.reqs
            && (UnderWay(w'.reqs[id], user) ==> UnderWay(pc, user))
            && (UnderWay(pc, user) ==> UnderWay(w'.reqs[id], user) || w'.reqs[id].Marking? || w'.reqs[id] == Done)
            && (pc.Marking? ==> w'.reqs[id] == Done)
  {
    hide PostRead, ThreadRead, Reply, ReplySends, Open, OpenSends, AccountOutcome, CommandOutcome, ReportError;
    hide AS.WhoIs, AS.ClearNudge, MutedAs, IsMuted;
    match pc
    case Replying(p) =>
      if !p.PostWrite? {
        PostReadConfined(cfg, w.acc, w.forum, p, env.now, user, m);
      }
    case Opening(t) =>
      if !t.ThreadWrite? {
        ThreadReadConfined(cfg, w.acc, t, env.now, user, m);
      }
    case Account(a) => NoMailFromAccounts(cfg, w.acc, a, env);
    case _ =>
  }

  lemma StepConfined(cfg: Settings, w: World, a: Action, s: set<nat>, user: string, m: Mute)
    requires Base(cfg, w) && Confined(w, s, user) && MutedAs(w.acc, user, m) && !EndsMute(user, m)(w, a)
    ensures Confined(Step(cfg, w, a), s, user)
  {
    hide AdvanceStep, Base, PcOk, Later, AS.Sound, Forums.Sound, MutedAs, IsMuted, Rebuilt, TouchesMute;
    if a.Advance? && a.id in w.reqs {
      if w.reqs[a.id] == Done {
        DoneStays(cfg, w, a.id, a.env);
      } else {
        AdvanceGood(cfg, w, a.id, a.env);
        AdvanceConfined(cfg, w, a.id, w.reqs[a.id], a.env, user, m);
      }
    }
  }

  // ---------- Who writes for the user ----------

  /** From event k on, the events of the user are those written by requests in s; the writers before are as given. */
  ghost predicate WrittenBySet(w: World, k: nat, first: seq<nat>, s: set<nat>, user: string) {
    && |first| == k <= |w.hist.writers| == |w.forum.log|
    && w.hist.writers[..k] == first
    && (forall i :: k <= i < |w.forum.log| ==> (Posts(w.forum.log)[i].author == user <==> w.hist.writers[i] in s))
  }

  lemma EventOfSet(cfg: Settings, w: World, id: nat, env: Env, s: set<nat>, user: string)
    requires id in w.reqs && Confined(w, s, user) && Writes(w.reqs[id])
    requires env.marshals && (w.reqs[id].Replying? ==> ThreadNumber(w.forum, w.reqs[id].post.thread).Some?)
    ensures NewEvent(cfg, w, w.reqs[id], env).author == user <==> id in s
  {
    hide Trim, ThreadNumber;
  }

  lemma OneMoreEvent(w: World, w': World, k: nat, first: seq<nat>, s: set<nat>, user: string, id: nat, e: Event)
    requires WrittenBySet(w, k, first, s, user)
    requires w'.forum.log == w.forum.log + [e] && w'.hist.writers == w.hist.writers + [id]
    requires e.author == user <==> id in s
    ensures WrittenBySet(w', k, first, s, user)
  {
    Snoc(w.forum.log, e);
  }

  lemma StepWrittenBySet(cfg: Settings, w: World, a: Action, k: nat, first: seq<nat>, s: set<nat>, user: string)
    requires Confined(w, s, user) && WrittenBySet(w, k, first, s, user)
    ensures WrittenBySet(Step(cfg, w, a), k, first, s, user)
  {
    hide AdvanceStep, Confined, NewEvent, Posts, Rebuilt;
    if a.Advance? && a.id in w.reqs {
      var w' := Step(cfg, w, a);
      WhoWrites(cfg, w, a.id, w.reqs[a.id], a.env);
      if w'.forum.log != w.forum.log {
        WrittenEvent(cfg, w, a.id, w.reqs[a.id], a.env);
        EventOfSet(cfg, w, a.id, a.env, s, user);
        OneMoreEvent(w, w', k, first, s, user, a.id, NewEvent(cfg, w, w.reqs[a.id], a.env));
      }
    }
  }

  lemma StepKeepsMute(cfg: Settings, w: World, a: Action, user: string, m: Mute)
    requires MutedAs(w.acc, user, m) && !EndsMute(user, m)(w, a)
    ensures MutedAs(Step(cfg, w, a).acc, user, m)
  {
    hide AdvanceStep, MutedAs, Rebuilt, TouchesMute, IsMuted;
    assert !Remutes(user)(w, a);
    if a.Advance? && a.id in w.reqs {
      AdvanceKeepsMute(cfg, w, a.id, w.reqs[a.id], a.env, user, m);
    }
  }

  lemma {:induction false} MutedRun(cfg: Settings, w: World, run: seq<Action>, s: set<nat>, user: string, m: Mute)
    requires Base(cfg, w) && Confined(w, s, user) && MutedAs(w.acc, user, m)
    requires |w.hist.writers| == |w.forum.log|
    requires Never(cfg, w, run, EndsMute(user, m))
    ensures var v := Run(cfg, w, run);
            && Base(cfg, v) && Confined(v, s, user) && MutedAs(v.acc, user, m)
            && WrittenBySet(v, |w.forum.log|, w.hist.writers, s, user)
  {
    hide Step, Base, Confined, MutedAs, EndsMute;
    if run == [] {
      assert w.hist.writers[..|w.forum.log|] == w.hist.writers;
    } else {
      var init, a := run[..|run| - 1], run[|run| - 1];
      var v := Run(cfg, w, init);
      MutedRun(cfg, w, init, s, user, m);
      hide WrittenBySet;
      StepKeepsBase(cfg, v, a);
      StepConfined(cfg, v, a, s, user, m);
      StepKeepsMute(cfg, v, a, user, m);
      StepWrittenBySet(cfg, v, a, |w.forum.log|, w.hist.writers, s, user);
    }
  }

  lemma LateAreConfined(w: World, user: string)
    ensures Confined(w, LateRequests(w, user), user)
  {
  }

  /** The step of the mute leaves the log and all other requests alone. */
  lemma MuteLeavesRequests(cfg: Settings, w: World, mod: nat, env: Env, user: string, term: Term)
    requires mod in w.reqs && w.reqs[mod] == Console(ConsoleWrite(Mute(user, term)))
    ensures var w' := Step(cfg, w, Advance(mod, env));
            w'.forum == w.forum && w'.hist == w.hist && w'.reqs == w.reqs[mod := Done]
  {
    hide PostStep, ThreadStep, MarkStep, AccountStep, ReportStep, AS.MuteUser;
  }

  lemma SameLateRequests(w: World, w': World, mod: nat, user: string)
    requires mod in w.reqs && w.reqs[mod].Console? && w'.reqs == w.reqs[mod := Done]
    ensures LateRequests(w', user) == LateRequests(w, user)
  {
  }

  /** A request that is under way has written nothing yet. */
  lemma LateHaveNotWritten(w: World, user: string)
    requires WritersOk(w)
    ensures forall id :: id in LateRequests(w, user) ==> id !in w.hist.writers
  {
  }

  /** None of the events from k on is the user's. */
  ghost predicate Silent(log: seq<Event>, k: nat, user: string) {
    forall i :: k <= i < |log| ==> Posts(log)[i].author != user
  }

  lemma WriterBreaksSilence(v: World, k: nat, first: seq<nat>, s: set<nat>, user: string, id: nat)
    requires WrittenBySet(v, k, first, s, user) && id in s && id !in first && id in v.hist.writers
    ensures !Silent(v.forum.log, k, user)
  {
    var i :| 0 <= i < |v.hist.writers| && v.hist.writers[i] == id;
    assert forall j :: 0 <= j < k ==> v.hist.writers[j] == first[j] && first[j] in first;
    assert Posts(v.forum.log)[i].author == user;
  }

  /** The user is silent exactly if none of the requests is a writer. */
  lemma SilentIff(v: World, k: nat, first: seq<nat>, s: set<nat>, user: string)
    requires WrittenBySet(v, k, first, s, user) && forall id :: id in s ==> id !in first
    ensures Silent(v.forum.log, k, user) <==> (forall id :: id in s ==> id !in v.hist.writers)
  {
    forall id | id in s && id in v.hist.writers ensures !Silent(v.forum.log, k, user) {
      WriterBreaksSilence(v, k, first, s, user, id);
    }
    if !Silent(v.forum.log, k, user) {
      var i :| k <= i < |v.forum.log| && Posts(v.forum.log)[i].author == user;
      assert v.hist.writers[i] in s && v.hist.writers[i] in v.hist.writers;
    }
  }

  /** From a committed mute on, as long as it holds and is not replaced, in every interleaving and over restarts: an
      event that is committed is the muted user's if and only if it is written by one of the requests of the user that
      were past their opening at the mute. Each of those writes at most one event, so the user is silent if and only if
      none of them writes; without any, the user is silent. */
  lemma MutedUserIsSilentIff(cfg: Settings, before: seq<Action>, mod: nat, menv: Env, user: string, term: Term,
                             run: seq<Action>)
    requires var w := Run(cfg, Start(cfg), before);
             && mod in w.reqs && w.reqs[mod] == Console(ConsoleWrite(Mute(user, term)))
             && menv.commit && user in w.acc.users && Deadline(term, menv.now).Some?
             && Never(cfg, Step(cfg, w, Advance(mod, menv)), run, EndsMute(user, Deadline(term, menv.now).value))
    ensures var w, v := Run(cfg, Start(cfg), before), AfterMute(cfg, before, mod, menv, run);
            var late := LateRequests(w, user);
            && v == Run(cfg, Start(cfg), before + [Advance(mod, menv)] + run)
            && |w.forum.log| <= |v.forum.log| == |v.hist.writers|
            && (forall i :: |w.forum.log| <= i < |v.forum.log| ==>
                  (Posts(v.forum.log)[i].author == user <==> v.hist.writers[i] in late))
            && (forall i, j :: 0 <= i < j < |v.hist.writers| ==> v.hist.writers[i] != v.hist.writers[j])
            && (Silent(v.forum.log, |w.forum.log|, user) <==> (forall id :: id in late ==> id !in v.hist.writers))
  {
    hide Run, Step, Never, EndsMute, MutedAs, Base, Confined, LateRequests, Deadline, Posts, Silent;
    var start, w := Start(cfg), Run(cfg, Start(cfg), before);
    var w1 := Step(cfg, w, Advance(mod, menv));
    var m, s := Deadline(term, menv.now).value, LateRequests(w, user);
    RunKeepsWriters(cfg, before);
    RunKeepsBase(cfg, before);
    StepKeepsBase(cfg, w, Advance(mod, menv));
    MuteIsWritten(cfg, w, mod, menv, user, term);
    MuteLeavesRequests(cfg, w, mod, menv, user, term);
    SameLateRequests(w, w1, mod, user);
    LateAreConfined(w1, user);
    LateHaveNotWritten(w, user);
    MutedRun(cfg, w1, run, s, user, m);
    SilentIff(AfterMute(cfg, before, mod, menv, run), |w.forum.log|, w.hist.writers, s, user);
    RunSnoc(cfg, start, before, Advance(mod, menv));
    RunConcat(cfg, start, before + [Advance(mod, menv)], run);
    RunKeepsWriters(cfg, before + [Advance(mod, menv)] + run);
    hide Later;
  }

  lemma RunKeepsWriters(cfg: Settings, run: seq<Action>)
    ensures WritersOk(Run(cfg, Start(cfg), run))
  {
    hide Run, Base, WritersOk, AuthorsNudged, MailsOk, NamesOk, FlagsOk;
    RunKeeps(cfg, run);
  }
}
