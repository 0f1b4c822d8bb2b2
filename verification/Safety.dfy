/** What every interleaving of requests keeps. */
module Safety {
  import opened Options
  import opened Keys
  import opened Text
  import opened Mutes
  import opened ForumLog
  import opened Forums
  import opened Keyword
  import opened Requests
  import AS = AccountStore

  // ---------- Facts that a request has checked ----------

  /** What the reads of a request established and what is still true when it goes on. */
  ghost predicate PcOk(cfg: Settings, acc: AS.Accounts, f: Forum, pc: Pc) {
    match pc
    case Replying(PostRoute(user, _, _)) => user in acc.users
    case Replying(PostNudge(user, thread, _)) => user in acc.users && ThreadNumber(f, thread).Some?
    case Replying(PostWrite(user, thread, _)) => AS.Nudged(acc, user) && ThreadNumber(f, thread).Some?
    case Opening(ThreadNudge(user, _, _, _)) => user in acc.users
    case Opening(ThreadWrite(user, subforum, _, _)) => AS.Nudged(acc, user) && subforum in cfg.subs
    case Marking(user) => user in acc.users
    case Account(LoginWrite(_, user)) => AS.Verified(acc, user)
    case Account(RegisterWrite(name, _, _, _)) => UsernameShape(name, cfg.alphabet)
    case Reporting(ReportMail(n)) => n in f.reported
    case _ => true
  }

  ghost predicate Base(cfg: Settings, w: World) {
    && AS.Sound(w.acc)
    && Forums.Sound(w.forum)
    && cfg.subs.Keys == w.forum.subforums
    && (forall id :: id in w.reqs ==> PcOk(cfg, w.acc, w.forum, w.reqs[id]))
  }

  ghost predicate ForumGrows(f: Forum, f': Forum) {
    && f.log <= f'.log && |f'.log| <= |f.log| + 1
    && |Threads(f.log)| <= |Threads(f'.log)|
    && f.reported <= f'.reported
    && f.subforums == f'.subforums
  }

  /** A step takes nothing back: users, verifications, cleared nudges, events and reports stay. */
  ghost predicate Later(w: World, w': World) {
    AS.Grows(w.acc, w'.acc) && ForumGrows(w.forum, w'.forum)
  }

  /** Checked facts survive whatever other requests do in between. */
  lemma CheckedFactsStay(cfg: Settings, w: World, w': World, pc: Pc)
    requires Later(w, w') && PcOk(cfg, w.acc, w.forum, pc)
    ensures PcOk(cfg, w'.acc, w'.forum, pc)
  {
    hide KeyNumber, Threads;
  }

  // ---------- One request's own step ----------

  /** A step leaves the world sound, takes nothing back, and moves only its own request. */
  ghost predicate GoodStep(cfg: Settings, w: World, w': World, id: nat) {
    && Later(w, w')
    && AS.Sound(w'.acc) && Forums.Sound(w'.forum)
    && id in w'.reqs && w'.reqs == w.reqs[id := w'.reqs[id]]
    && PcOk(cfg, w'.acc, w'.forum, w'.reqs[id])
  }

  lemma ReplyGrows(f: Forum, user: string, key: Key, text: string, priv: nat, now: Option<int>, commit: bool)
    ensures ForumGrows(f, Reply(f, user, key, text, priv, now, commit))
  {
    hide KeyNumber, Threads;
    if ReplyError(f, user, key, priv, now, commit).None? {
      Snoc(f.log, Replied(ThreadNumber(f, key).value, user, text, now.value));
    }
  }

  lemma OpenGrows(f: Forum, a: Alphabet, subforum: string, user: string, title: string, text: string,
                  now: Option<int>, commit: bool)
    ensures ForumGrows(f, Open(f, a, subforum, user, title, text, now, commit))
  {
    hide TitleProblem, Threads, Trim;
    if OpenError(f, a, subforum, user, title, now, commit).None? {
      Snoc(f.log, Opened(subforum, Trim(title, a.space), user, text, now.value));
    }
  }

  lemma PostReadOk(cfg: Settings, acc: AS.Accounts, f: Forum, pc: PostPc, now: int)
    requires !pc.PostWrite? && PcOk(cfg, acc, f, Replying(pc))
    ensures var r := PostRead(cfg, acc, f, pc, now); r.Next? ==> PcOk(cfg, acc, f, r.pc)
  {
    hide KeyNumber, Threads, IsMuted;
  }

  lemma ThreadReadOk(cfg: Settings, acc: AS.Accounts, f: Forum, pc: ThreadPc, now: int)
    requires !pc.ThreadWrite? && PcOk(cfg, acc, f, Opening(pc))
    ensures var r := ThreadRead(cfg, acc, pc, now); r.Next? ==> PcOk(cfg, acc, f, r.pc)
  {
    hide KeyNumber, Threads, IsMuted;
  }

  /** A step that leaves accounts and forum alone only has to go on to a place whose facts it has checked. */
  lemma ReadingIsGood(cfg: Settings, w: World, id: nat, r: Read)
    requires Base(cfg, w)
    requires r.Next? ==> PcOk(cfg, w.acc, w.forum, r.pc)
    ensures GoodStep(cfg, w, AfterRead(w, id, r), id)
  {
    hide PcOk, AS.Sound, Forums.Sound, AS.Grows, ForumGrows;
    StayingIsLater(w);
    DoneIsOk(cfg, w.acc, w.forum);
  }

  lemma DoneIsOk(cfg: Settings, acc: AS.Accounts, f: Forum)
    ensures PcOk(cfg, acc, f, Done)
  {
  }

  lemma PostStepGood(cfg: Settings, w: World, id: nat, pc: PostPc, env: Env)
    requires Base(cfg, w) && id in w.reqs && w.reqs[id] == Replying(pc)
    ensures GoodStep(cfg, w, PostStep(cfg, w, id, pc, env), id)
  {
    hide Forums.Sound, Reply, ReplySends, AS.Sound, AS.Grows, ForumGrows, PcOk, GoodStep, AfterRead, PostRead;
    match pc
    case PostWrite(user, thread, text) =>
      var f := Reply(w.forum, user, thread, text, cfg.PrivOf(user), env.Clock(), env.commit);
      ReplyGrows(w.forum, user, thread, text, cfg.PrivOf(user), env.Clock(), env.commit);
      ReplyKeepsSound(w.forum, user, thread, text, cfg.PrivOf(user), env.Clock(), env.commit);
      ForumWriteIsGood(cfg, w, id, f,
                       ReplySends(w.forum, user, thread, text, cfg.PrivOf(user), env.Clock(), env.commit));
    case _ =>
      PostReadOk(cfg, w.acc, w.forum, pc, env.now);
      ReadingIsGood(cfg, w, id, PostRead(cfg, w.acc, w.forum, pc, env.now));
  }

  lemma ThreadStepGood(cfg: Settings, w: World, id: nat, pc: ThreadPc, env: Env)
    requires Base(cfg, w) && id in w.reqs && w.reqs[id] == Opening(pc)
    ensures GoodStep(cfg, w, ThreadStep(cfg, w, id, pc, env), id)
  {
    hide Forums.Sound, Open, OpenSends, AS.Sound, AS.Grows, ForumGrows, PcOk, GoodStep, AfterRead, ThreadRead;
    match pc
    case ThreadWrite(user, subforum, title, text) =>
      var f := Open(w.forum, cfg.alphabet, subforum, user, title, text, env.Clock(), env.commit);
      OpenGrows(w.forum, cfg.alphabet, subforum, user, title, text, env.Clock(), env.commit);
      OpenKeepsSound(w.forum, cfg.alphabet, subforum, user, title, text, env.Clock(), env.commit);
      ForumWriteIsGood(cfg, w, id, f,
                       OpenSends(w.forum, cfg.alphabet, subforum, user, title, text, env.Clock(), env.commit));
    case _ =>
      ThreadReadOk(cfg, w.acc, w.forum, pc, env.now);
      ReadingIsGood(cfg, w, id, ThreadRead(cfg, w.acc, pc, env.now));
  }

  lemma ForumWriteIsGood(cfg: Settings, w: World, id: nat, f: Forum, sent: seq<Message>)
    requires Base(cfg, w) && Forums.Sound(f) && ForumGrows(w.forum, f)
    ensures GoodStep(cfg, w, AfterWrite(w, id, f, sent), id)
  {
    hide PcOk, AS.Sound, Forums.Sound, AS.Grows, ForumGrows;
    StayingIsLater(w);
    DoneIsOk(cfg, w.acc, f);
  }

  lemma NameFits(acc: AS.Accounts, rawName: string, a: Alphabet)
    requires AS.CheckName(acc, rawName, a).None?
    ensures UsernameShape(Trim(rawName, a.space), a)
  {
  }

  /** Login, logout, registration and verification keep the accounts sound. */
  lemma AccountOutcomeOk(cfg: Settings, acc: AS.Accounts, f: Forum, pc: AccountPc, env: Env)
    requires AS.Sound(acc) && PcOk(cfg, acc, f, Account(pc))
    ensures var (acc', pc') := AccountOutcome(cfg, acc, pc, env);
            AS.Keeps(acc, acc') && PcOk(cfg, acc', f, pc')
  {
    hide Trim, UsernameShape, AS.CheckName, AS.Sound, AS.Grows, AS.Register, AS.Verify, AS.Login, AS.Logout;
    AccountsStay(acc);
    match pc
    case LoginCheck(_, _, _) =>
    case LoginWrite(fp, user) => AS.LoginKeeps(acc, fp, user, env.commit);
    case LogoutWrite(fp) => AS.LogoutKeeps(acc, fp, env.commit);
    case RegisterCheck(rawName, _, _, _) =>
      if AS.CheckName(acc, rawName, cfg.alphabet).None? {
        NameFits(acc, rawName, cfg.alphabet);
      }
    case RegisterWrite(name, email, pass, code) =>
      AS.RegisterKeeps(acc, name, email, cfg.hash(pass), code, cfg.smtp, env.commit);
    case VerifyWrite(code) => AS.VerifyKeeps(acc, code, env.commit);
  }

  lemma AccountsStay(acc: AS.Accounts)
    ensures AS.Grows(acc, acc)
  {
  }

  lemma AccountStepGood(cfg: Settings, w: World, id: nat, pc: AccountPc, env: Env)
    requires Base(cfg, w) && id in w.reqs && w.reqs[id] == Account(pc)
    ensures GoodStep(cfg, w, AccountStep(cfg, w, id, pc, env), id)
  {
    hide AccountOutcome, PcOk, AS.Sound, Forums.Sound, AS.Grows, ForumGrows;
    StayingIsLater(w);
    AccountOutcomeOk(cfg, w.acc, w.forum, pc, env);
  }

  lemma ReportGrows(f: Forum, key: Key, commit: bool)
    requires Forums.Sound(f)
    ensures ForumGrows(f, Report(f, key, commit)) && Forums.Sound(Report(f, key, commit))
    ensures ReportError(f, key, commit).None? ==> PostNumber(f, key).value in Report(f, key, commit).reported
  {
    hide KeyNumber, Threads, WellFormed;
  }

  lemma ReportStepGood(cfg: Settings, w: World, id: nat, pc: ReportPc, env: Env)
    requires Base(cfg, w) && id in w.reqs && w.reqs[id] == Reporting(pc)
    ensures GoodStep(cfg, w, ReportStep(w, id, pc, env), id)
  {
    hide KeyNumber, Report, ReportError, AS.Sound, Forums.Sound, AS.Grows, ForumGrows, AS.WhoIs;
    StayingIsLater(w);
    if pc.ReportWrite? {
      ReportGrows(w.forum, pc.post, env.commit);
    }
  }

  lemma LockGrows(f: Forum, key: Key, on: bool, commit: bool)
    requires Forums.Sound(f)
    ensures ForumGrows(f, SetLock(f, key, on, commit)) && Forums.Sound(SetLock(f, key, on, commit))
  {
    hide KeyNumber, Threads, WellFormed;
  }

  lemma CommandOutcomeOk(acc: AS.Accounts, f: Forum, command: Command, env: Env)
    requires AS.Sound(acc) && Forums.Sound(f)
    ensures var (acc', f') := CommandOutcome(acc, f, command, env);
            AS.Keeps(acc, acc') && ForumGrows(f, f') && Forums.Sound(f')
  {
    hide SetLock, AS.Sound, AS.Grows, AS.MuteUser, AS.UnmuteUser, ForumGrows, Forums.Sound;
    AccountsStay(acc);
    ForumStays(f);
    match command
    case Lock(thread) => LockGrows(f, thread, true, env.commit);
    case Unlock(thread) => LockGrows(f, thread, false, env.commit);
    case Mute(user, term) => AS.MuteKeeps(acc, user, term, env.now, env.commit);
    case Unmute(user) => AS.MuteKeeps(acc, user, Forever, env.now, env.commit);
  }

  lemma ForumStays(f: Forum)
    ensures ForumGrows(f, f)
  {
  }

  lemma ConsoleStepGood(cfg: Settings, w: World, id: nat, pc: ConsolePc, env: Env)
    requires Base(cfg, w) && id in w.reqs && w.reqs[id] == Console(pc)
    ensures GoodStep(cfg, w, ConsoleStep(cfg, w, id, pc, env), id)
  {
    hide CommandOutcome, AS.Sound, Forums.Sound, AS.Grows, ForumGrows, AS.WhoIs;
    StayingIsLater(w);
    if pc.ConsoleWrite? {
      CommandOutcomeOk(w.acc, w.forum, pc.command, env);
    }
  }

  lemma MarkStepGood(cfg: Settings, w: World, id: nat, user: string, env: Env)
    requires Base(cfg, w) && id in w.reqs && w.reqs[id] == Marking(user)
    ensures GoodStep(cfg, w, MarkStep(w, id, user, env), id)
  {
    hide Forums.Sound, AS.Sound, AS.Grows, AS.ClearNudge, ForumGrows;
    StayingIsLater(w);
    AS.ClearNudgeKeeps(w.acc, user, env.commit);
  }

  /** Every step of every request is good. */
  lemma AdvanceGood(cfg: Settings, w: World, id: nat, env: Env)
    requires Base(cfg, w) && id in w.reqs
    ensures GoodStep(cfg, w, AdvanceStep(cfg, w, id, w.reqs[id], env), id)
  {
    hide GoodStep, Base, PostStep, ThreadStep, AccountStep, ReportStep, ConsoleStep, MarkStep;
    match w.reqs[id]
    case Replying(p) => PostStepGood(cfg, w, id, p, env);
    case Opening(t) => ThreadStepGood(cfg, w, id, t, env);
    case Marking(user) => MarkStepGood(cfg, w, id, user, env);
    case Account(a) => AccountStepGood(cfg, w, id, a, env);
    case Reporting(r) => ReportStepGood(cfg, w, id, r, env);
    case Console(c) => ConsoleStepGood(cfg, w, id, c, env);
    case Done => DoneIsGood(cfg, w, id);
  }

  lemma DoneIsGood(cfg: Settings, w: World, id: nat)
    requires Base(cfg, w) && id in w.reqs
    ensures GoodStep(cfg, w, w, id)
  {
    hide PcOk, AS.Sound, Forums.Sound, AS.Grows, ForumGrows;
    StayingIsLater(w);
  }

  /** One step of the server keeps the checked facts of all requests. */
  lemma StepKeepsBase(cfg: Settings, w: World, a: Action)
    requires Base(cfg, w)
    ensures Base(cfg, Step(cfg, w, a)) && Later(w, Step(cfg, w, a))
  {
    hide AdvanceStep, AS.Sound, Forums.Sound, PcOk, AS.Grows, ForumGrows, Rebuilt;
    var w' := Step(cfg, w, a);
    StayingIsLater(w);
    if a.Advance? && a.id in w.reqs {
      AdvanceGood(cfg, w, a.id, a.env);
      assert w'.forum.subforums == w.forum.subforums by { SubforumsStay(w, w'); }
      forall id | id in w'.reqs && id != a.id ensures PcOk(cfg, w'.acc, w'.forum, w'.reqs[id]) {
        CheckedFactsStay(cfg, w, w', w.reqs[id]);
      }
    } else if a.Begin? {
      StartIsOk(cfg, w, a.pc);
    } else if a.Restart? {
      DoneIsOk(cfg, w.acc, w.forum);
    }
  }

  lemma StayingIsLater(w: World)
    ensures AS.Grows(w.acc, w.acc) && ForumGrows(w.forum, w.forum)
  {
  }

  lemma SubforumsStay(w: World, w': World)
    requires Later(w, w')
    ensures w'.forum.subforums == w.forum.subforums
  {
  }

  lemma StartIsOk(cfg: Settings, w: World, pc: Pc)
    ensures Starts(pc) ==> PcOk(cfg, w.acc, w.forum, pc)
  {
  }

  lemma StartKeepsBase(cfg: Settings)
    ensures Base(cfg, Start(cfg))
  {
  }

  lemma {:induction false} RunKeepsBase(cfg: Settings, run: seq<Action>)
    ensures Base(cfg, Run(cfg, Start(cfg), run))
  {
    hide Base, Step;
    if run == [] {
      StartKeepsBase(cfg);
    } else {
      RunKeepsBase(cfg, run[..|run| - 1]);
      StepKeepsBase(cfg, Run(cfg, Start(cfg), run[..|run| - 1]), run[|run| - 1]);
    }
  }
}
