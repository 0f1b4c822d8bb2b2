/** What every event of every run satisfies: its author had the priviledge that the subforum asks for, and a stored
    title has its shape. */
module EventRuns {
  import opened Keys
  import opened Text
  import opened ForumLog
  import opened Forums
  import opened Keyword
  import opened Requests
  import opened Safety
  import opened Invariants
  import AS = AccountStore

  // ---------- Priviledges ----------

  /** The user may open threads in the subforum. */
  predicate MayOpen(cfg: Settings, user: string, sf: string) {
    sf in cfg.subs && cfg.PrivOf(user) >= cfg.subs[sf].0
  }

  /** The user may reply in the subforum of the thread. */
  predicate MayReply(cfg: Settings, ts: seq<ThreadFact>, user: string, t: nat) {
    && 1 <= t <= |ts| && ts[t - 1].subforum in cfg.subs
    && cfg.PrivOf(user) >= cfg.subs[ts[t - 1].subforum].1
  }

  predicate MayReplyTo(cfg: Settings, f: Forum, user: string, thread: Key) {
    ThreadNumber(f, thread).Some? && MayReply(cfg, Threads(f.log), user, ThreadNumber(f, thread).value)
  }

  /** A request that has passed the check of the priviledge has the priviledge. */
  predicate Allowed(cfg: Settings, f: Forum, pc: Pc) {
    match pc
    case Replying(PostNudge(user, thread, _)) => MayReplyTo(cfg, f, user, thread)
    case Replying(PostWrite(user, thread, _)) => MayReplyTo(cfg, f, user, thread)
    case Opening(ThreadWrite(user, sf, _, _)) => MayOpen(cfg, user, sf)
    case _ => true
  }

  predicate EventAllowed(cfg: Settings, ts: seq<ThreadFact>, e: Event) {
    match e
    case Opened(sf, _, u, _, _) => MayOpen(cfg, u, sf)
    case Replied(t, u, _, _) => MayReply(cfg, ts, u, t)
  }

  ghost predicate AllAllowed(cfg: Settings, w: World) {
    && (forall id :: id in w.reqs ==> Allowed(cfg, w.forum, w.reqs[id]))
    && (forall i :: 0 <= i < |w.forum.log| ==> EventAllowed(cfg, Threads(w.forum.log), w.forum.log[i]))
  }

  lemma {:induction false} ThreadsOfPrefix(log: seq<Event>, log': seq<Event>)
    requires log <= log'
    ensures Threads(log) <= Threads(log')
  {
    hide Threads;
    if log == log' {
    } else {
      var init, e := log'[..|log'| - 1], log'[|log'| - 1];
      assert log' == init + [e] && log <= init;
      ThreadsOfPrefix(log, init);
      Snoc(init, e);
    }
  }

  lemma ReplyRightStays(cfg: Settings, f: Forum, f': Forum, user: string, thread: Key)
    requires f.log <= f'.log && MayReplyTo(cfg, f, user, thread)
    ensures MayReplyTo(cfg, f', user, thread)
  {
    hide KeyNumber, Threads;
    ThreadsOfPrefix(f.log, f'.log);
  }

  lemma AllowedStays(cfg: Settings, f: Forum, f': Forum, pc: Pc)
    requires f.log <= f'.log && Allowed(cfg, f, pc)
    ensures Allowed(cfg, f', pc)
  {
    hide MayReplyTo;
    match pc
    case Replying(PostNudge(user, thread, _)) => ReplyRightStays(cfg, f, f', user, thread);
    case Replying(PostWrite(user, thread, _)) => ReplyRightStays(cfg, f, f', user, thread);
    case _ =>
  }

  lemma PostReadAllowed(cfg: Settings, acc: AS.Accounts, f: Forum, pc: PostPc, now: int)
    requires !pc.PostWrite? && Allowed(cfg, f, Replying(pc))
    ensures var r := PostRead(cfg, acc, f, pc, now); r.Next? ==> Allowed(cfg, f, r.pc)
  {
    hide KeyNumber, Threads, AS.WhoIs, AS.CheckNudge;
  }

  lemma ThreadReadAllowed(cfg: Settings, acc: AS.Accounts, f: Forum, pc: ThreadPc, now: int)
    requires !pc.ThreadWrite?
    ensures var r := ThreadRead(cfg, acc, pc, now); r.Next? ==> Allowed(cfg, f, r.pc)
  {
    hide AS.WhoIs, AS.CheckNudge;
  }

  lemma OthersAreAllowed(cfg: Settings, f: Forum, pc: Pc)
    ensures !pc.Replying? && !pc.Opening? ==> Allowed(cfg, f, pc)
  {
  }

  /** A request goes on to a place where it is allowed to be. */
  lemma AdvanceAllowed(cfg: Settings, w: World, id: nat, pc: Pc, env: Env)
    requires id in w.reqs && w.reqs[id] == pc && Allowed(cfg, w.forum, pc)
    ensures var w' := AdvanceStep(cfg, w, id, pc, env);
            id in w'.reqs && (w'.forum.log == w.forum.log || w'.reqs[id] == Done)
            && Allowed(cfg, w.forum, w'.reqs[id])
  {
    hide PostRead, ThreadRead, Reply, Open, ReplySends, OpenSends, AccountOutcome, CommandOutcome, Report, ReportError;
    hide PostNumber, AS.WhoIs, AS.ClearNudge, Allowed;
    OthersAreAllowed(cfg, w.forum, Done);
    WhoWrites(cfg, w, id, pc, env);
    match pc
    case Replying(p) =>
      if !p.PostWrite? {
        PostReadAllowed(cfg, w.acc, w.forum, p, env.now);
      }
    case Opening(t) =>
      if !t.ThreadWrite? {
        ThreadReadAllowed(cfg, w.acc, w.forum, t, env.now);
      }
    case Account(a) =>
      NoMailFromAccounts(cfg, w.acc, a, env);
      OthersAreAllowed(cfg, w.forum, AccountOutcome(cfg, w.acc, a, env).1);
    case Reporting(_) => OthersAreAllowed(cfg, w.forum, AdvanceStep(cfg, w, id, pc, env).reqs[id]);
    case Console(_) => OthersAreAllowed(cfg, w.forum, AdvanceStep(cfg, w, id, pc, env).reqs[id]);
    case _ =>
  }

  lemma NewEventAllowed(cfg: Settings, w: World, pc: Pc, env: Env)
    requires Writes(pc) && env.marshals && (pc.Replying? ==> ThreadNumber(w.forum, pc.post.thread).Some?)
    requires Allowed(cfg, w.forum, pc)
    ensures EventAllowed(cfg, Threads(w.forum.log), NewEvent(cfg, w, pc, env))
  {
    hide Threads, KeyNumber, Trim;
  }

  lemma EventStaysAllowed(cfg: Settings, ts: seq<ThreadFact>, ts': seq<ThreadFact>, e: Event)
    requires ts <= ts' && EventAllowed(cfg, ts, e)
    ensures EventAllowed(cfg, ts', e)
  {
  }

  lemma LogStaysAllowed(cfg: Settings, log: seq<Event>, e: Event)
    requires forall i :: 0 <= i < |log| ==> EventAllowed(cfg, Threads(log), log[i])
    requires EventAllowed(cfg, Threads(log), e)
    ensures var log' := log + [e]; forall i :: 0 <= i < |log'| ==> EventAllowed(cfg, Threads(log'), log'[i])
  {
    hide Threads, EventAllowed;
    var log' := log + [e];
    ThreadsOfPrefix(log, log');
    forall i | 0 <= i < |log'| ensures EventAllowed(cfg, Threads(log'), log'[i]) {
      EventStaysAllowed(cfg, Threads(log), Threads(log'), if i < |log| then log[i] else e);
    }
  }

  lemma StepKeepsAllowed(cfg: Settings, w: World, a: Action)
    requires Base(cfg, w) && AllAllowed(cfg, w)
    ensures AllAllowed(cfg, Step(cfg, w, a))
  {
    hide AdvanceStep, AS.Sound, Forums.Sound, PcOk, AS.Grows, Rebuilt, NewEvent, Allowed, EventAllowed, Threads;
    var w' := Step(cfg, w, a);
    OthersAreAllowed(cfg, w.forum, Done);
    if a.Advance? && a.id in w.reqs {
      AdvanceGood(cfg, w, a.id, a.env);
      AdvanceAllowed(cfg, w, a.id, w.reqs[a.id], a.env);
      forall id | id in w'.reqs ensures Allowed(cfg, w'.forum, w'.reqs[id]) {
        AllowedStays(cfg, w.forum, w'.forum, w'.reqs[id]);
      }
      if w'.forum.log != w.forum.log {
        WrittenEvent(cfg, w, a.id, w.reqs[a.id], a.env);
        NewEventAllowed(cfg, w, w.reqs[a.id], a.env);
        LogStaysAllowed(cfg, w.forum.log, NewEvent(cfg, w, w.reqs[a.id], a.env));
      }
    } else if a.Begin? {
      BeginningsAreAllowed(cfg, w.forum, a.pc);
    }
  }

  lemma BeginningsAreAllowed(cfg: Settings, f: Forum, pc: Pc)
    ensures Starts(pc) ==> Allowed(cfg, f, pc)
  {
  }

  lemma {:induction false} RunKeepsAllowed(cfg: Settings, run: seq<Action>)
    ensures AllAllowed(cfg, Run(cfg, Start(cfg), run))
  {
    hide AllAllowed, Step, Base;
    if run == [] {
      NothingDisallowed(cfg);
    } else {
      RunKeepsAllowed(cfg, run[..|run| - 1]);
      RunKeepsBase(cfg, run[..|run| - 1]);
      StepKeepsAllowed(cfg, Run(cfg, Start(cfg), run[..|run| - 1]), run[|run| - 1]);
    }
  }

  lemma NothingDisallowed(cfg: Settings)
    ensures AllAllowed(cfg, Start(cfg))
  {
  }

  /** In every run, whoever opened a thread has the priviledge that its subforum asks of those who open threads, and
      whoever replied has the one that the subforum of the thread asks of those who reply. A user without a configured
      priviledge has none. */
  lemma AuthorsHavePriviledge(cfg: Settings, run: seq<Action>, i: nat)
    requires i < |Run(cfg, Start(cfg), run).forum.log|
    ensures var log := Run(cfg, Start(cfg), run).forum.log;
            var author := log[i].author;
            var priv := if author in cfg.privs then cfg.privs[author] else 0;
            match log[i]
            case Opened(sf, _, _, _, _) => sf in cfg.subs && priv >= cfg.subs[sf].0
            case Replied(t, _, _, _) =>
              && 1 <= t <= |Threads(log)| && Threads(log)[t - 1].subforum in cfg.subs
              && priv >= cfg.subs[Threads(log)[t - 1].subforum].1
  {
    hide Run, Threads, Allowed;
    RunKeepsAllowed(cfg, run);
    assert EventAllowed(cfg, Threads(Run(cfg, Start(cfg), run).forum.log), Run(cfg, Start(cfg), run).forum.log[i]);
  }

  // ---------- Titles ----------

  /** In every run, every stored title has its shape. */
  lemma {:induction false} TitlesHaveTheirShape(cfg: Settings, run: seq<Action>, i: nat)
    requires i < |Run(cfg, Start(cfg), run).forum.log| && Run(cfg, Start(cfg), run).forum.log[i].Opened?
    ensures TitleShape(Run(cfg, Start(cfg), run).forum.log[i].title, cfg.alphabet)
  {
    hide Step, TitleShape, NewEvent;
    if run == [] {
      assert false;
    } else {
      var init, a := run[..|run| - 1], run[|run| - 1];
      var w := Run(cfg, Start(cfg), init);
      if i < |w.forum.log| {
        RunKeepsBase(cfg, init);
        StepKeepsBase(cfg, w, a);
        TitlesHaveTheirShape(cfg, init, i);
      } else {
        NewTitle(cfg, w, a, i);
      }
    }
  }

  lemma NewTitle(cfg: Settings, w: World, a: Action, i: nat)
    requires |w.forum.log| <= i < |Step(cfg, w, a).forum.log| && Step(cfg, w, a).forum.log[i].Opened?
    ensures TitleShape(Step(cfg, w, a).forum.log[i].title, cfg.alphabet)
  {
    hide PostRead, ThreadRead, ReplySends, OpenSends, AccountOutcome, ReportError, AS.WhoIs, TitleShape, TitleProblem;
    hide AS.ClearNudge, AS.MuteUser, AS.UnmuteUser, ThreadNumber, PostNumber, Trim, Rebuilt;
    if a.Advance? && a.id in w.reqs && w.reqs[a.id].Opening? && w.reqs[a.id].thread.ThreadWrite? {
      var title := w.reqs[a.id].thread.title;
      if TitleProblem(Trim(title, cfg.alphabet.space), cfg.alphabet).None? {
        AcceptedTitles(title, cfg.alphabet);
      }
    }
  }
}
