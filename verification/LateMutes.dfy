/** A mute is seen by the opening steps of replies and new threads, and by nothing else. */
module LateMutes {
  import opened Options
  import opened Keys
  import opened Text
  import opened Mutes
  import opened ForumLog
  import opened Forums
  import opened Keyword
  import opened Requests
  import opened Safety
  import opened Invariants
  import opened Runs
  import AS = AccountStore

  /** The same accounts but for the field muted of some users. */
  ghost predicate AlikeAccounts(a: AS.Accounts, b: AS.Accounts, who: set<string>) {
    && a.certfp == b.certfp && a.validation == b.validation && a.users.Keys == b.users.Keys
    && (forall u :: u in a.users ==>
          b.users[u] == if u in who then a.users[u].(muted := b.users[u].muted) else a.users[u])
  }

  ghost predicate AlikeRequests(r: map<nat, Pc>, q: map<nat, Pc>, mod: nat) {
    && r.Keys == q.Keys && mod in r
    && (forall id :: id in r && id != mod ==> q[id] == r[id])
  }

  lemma SameMove(r: map<nat, Pc>, q: map<nat, Pc>, mod: nat, id: nat, pc: Pc)
    requires AlikeRequests(r, q, mod)
    ensures AlikeRequests(r[id := pc], q[id := pc], mod)
  {
  }

  /** The same world but for that field of these users, and for where one request stands. */
  ghost predicate Alike(w: World, v: World, who: set<string>, mod: nat) {
    && AlikeAccounts(w.acc, v.acc, who)
    && v.forum == w.forum && v.docs == w.docs && v.chan == w.chan && v.hist == w.hist
    && AlikeRequests(w.reqs, v.reqs, mod)
  }

  /** A reply or a new thread is about to read whose certificate it has, and it is one of theirs. */
  predicate Opens(acc: AS.Accounts, pc: Pc, who: set<string>) {
    match pc
    case Replying(PostOpen(fp, _, _)) => AS.WhoIs(acc, fp, 0).0 in who
    case Opening(ThreadOpen(fp, _, _, _)) => AS.WhoIs(acc, fp, 0).0 in who
    case _ => false
  }

  /** The step is such an opening, or the step of the request mod. */
  function OpensOr(who: set<string>, mod: nat): (World, Action) -> bool {
    (w: World, a: Action) => a.Advance? && a.id in w.reqs && (a.id == mod || Opens(w.acc, w.reqs[a.id], who))
  }

  lemma WhoIsAlike(a: AS.Accounts, b: AS.Accounts, who: set<string>, fp: string, now: int)
    requires AlikeAccounts(a, b, who)
    ensures AS.WhoIs(a, fp, now).0 == AS.WhoIs(b, fp, now).0 == AS.WhoIs(a, fp, 0).0
    ensures AS.WhoIs(a, fp, now).0 !in who ==> AS.WhoIs(a, fp, now) == AS.WhoIs(b, fp, now)
  {
    hide IsMuted;
  }

  lemma PostReadAlike(cfg: Settings, a: AS.Accounts, b: AS.Accounts, f: Forum, pc: PostPc, now: int, who: set<string>)
    requires AlikeAccounts(a, b, who) && !pc.PostWrite? && !Opens(a, Replying(pc), who)
    ensures PostRead(cfg, a, f, pc, now) == PostRead(cfg, b, f, pc, now)
  {
    hide AS.WhoIs, ThreadNumber, Threads;
    if pc.PostOpen? {
      WhoIsAlike(a, b, who, pc.fp, now);
    }
  }

  lemma ThreadReadAlike(cfg: Settings, a: AS.Accounts, b: AS.Accounts, pc: ThreadPc, now: int, who: set<string>)
    requires AlikeAccounts(a, b, who) && !pc.ThreadWrite? && !Opens(a, Opening(pc), who)
    ensures ThreadRead(cfg, a, pc, now) == ThreadRead(cfg, b, pc, now)
  {
    hide AS.WhoIs;
    if pc.ThreadOpen? {
      WhoIsAlike(a, b, who, pc.fp, now);
    }
  }

  lemma LoginsAlike(a: AS.Accounts, b: AS.Accounts, fp: string, name: string, env: Env, who: set<string>)
    requires AlikeAccounts(a, b, who)
    ensures AlikeAccounts(AS.Login(a, fp, name, env.commit).acc, AS.Login(b, fp, name, env.commit).acc, who)
    ensures AlikeAccounts(AS.Logout(a, fp, env.commit).acc, AS.Logout(b, fp, env.commit).acc, who)
  {
  }

  lemma NamesAlike(a: AS.Accounts, b: AS.Accounts, rawName: string, alphabet: Alphabet, who: set<string>)
    requires AlikeAccounts(a, b, who)
    ensures AS.CheckName(a, rawName, alphabet) == AS.CheckName(b, rawName, alphabet)
  {
    hide Trim, ByteLength;
    assert forall k :: k in a.users <==> k in b.users;
  }

  lemma RegistersAlike(a: AS.Accounts, b: AS.Accounts, name: string, email: string, hash: string, code: string,
                       smtp: bool, env: Env, who: set<string>)
    requires AlikeAccounts(a, b, who)
    ensures AlikeAccounts(AS.Register(a, name, email, hash, code, smtp, env.commit).acc,
                          AS.Register(b, name, email, hash, code, smtp, env.commit).acc, who)
  {
  }

  lemma VerifiesAlike(a: AS.Accounts, b: AS.Accounts, code: string, env: Env, who: set<string>)
    requires AlikeAccounts(a, b, who)
    ensures AlikeAccounts(AS.Verify(a, code, env.commit).acc, AS.Verify(b, code, env.commit).acc, who)
  {
  }

  lemma AccountsAlike(cfg: Settings, a: AS.Accounts, b: AS.Accounts, pc: AccountPc, env: Env, who: set<string>)
    requires AlikeAccounts(a, b, who)
    ensures var (a', pc') := AccountOutcome(cfg, a, pc, env);
            var (b', pc'') := AccountOutcome(cfg, b, pc, env);
            AlikeAccounts(a', b', who) && pc' == pc''
  {
    hide Trim, ByteLength, AS.Register, AS.Verify, AS.Login, AS.Logout, AS.CheckName;
    match pc
    case LoginCheck(_, _, _) =>
    case LoginWrite(fp, name) => LoginsAlike(a, b, fp, name, env, who);
    case LogoutWrite(fp) => LoginsAlike(a, b, fp, "", env, who);
    case RegisterCheck(rawName, _, _, _) => NamesAlike(a, b, rawName, cfg.alphabet, who);
    case RegisterWrite(name, email, pass, code) =>
      RegistersAlike(a, b, name, email, cfg.hash(pass), code, cfg.smtp, env, who);
    case VerifyWrite(code) => VerifiesAlike(a, b, code, env, who);
  }

  lemma CommandsAlike(a: AS.Accounts, b: AS.Accounts, f: Forum, command: Command, env: Env, who: set<string>)
    requires AlikeAccounts(a, b, who)
    ensures var (a', f') := CommandOutcome(a, f, command, env);
            var (b', f'') := CommandOutcome(b, f, command, env);
            AlikeAccounts(a', b', who) && f' == f''
  {
    hide SetLock, Deadline;
  }

  lemma MarksAlike(a: AS.Accounts, b: AS.Accounts, name: string, env: Env, who: set<string>)
    requires AlikeAccounts(a, b, who)
    ensures var (a', b') := (AS.ClearNudge(a, name, env.commit), AS.ClearNudge(b, name, env.commit));
            AlikeAccounts(a'.acc, b'.acc, who) && a'.err == b'.err
  {
  }

  lemma ReadingAlike(w: World, v: World, id: nat, r: Read, who: set<string>, mod: nat)
    requires Alike(w, v, who, mod)
    ensures Alike(AfterRead(w, id, r), AfterRead(v, id, r), who, mod)
  {
    hide AlikeAccounts;
  }

  lemma WritingAlike(w: World, v: World, id: nat, f: Forum, sent: seq<Message>, who: set<string>, mod: nat)
    requires Alike(w, v, who, mod)
    ensures Alike(AfterWrite(w, id, f, sent), AfterWrite(v, id, f, sent), who, mod)
  {
    hide AlikeAccounts;
  }

  lemma PostStepAlike(cfg: Settings, w: World, v: World, id: nat, pc: PostPc, env: Env, who: set<string>, mod: nat)
    requires Alike(w, v, who, mod) && !Opens(w.acc, Replying(pc), who)
    ensures Alike(PostStep(cfg, w, id, pc, env), PostStep(cfg, v, id, pc, env), who, mod)
  {
    hide PostRead, Reply, ReplySends, AfterRead, AfterWrite, Opens, AlikeAccounts, AlikeRequests;
    match pc
    case PostWrite(u, thread, text) =>
      WritingAlike(w, v, id, Reply(w.forum, u, thread, text, cfg.PrivOf(u), env.Clock(), env.commit),
                   ReplySends(w.forum, u, thread, text, cfg.PrivOf(u), env.Clock(), env.commit), who, mod);
    case _ =>
      PostReadAlike(cfg, w.acc, v.acc, w.forum, pc, env.now, who);
      ReadingAlike(w, v, id, PostRead(cfg, w.acc, w.forum, pc, env.now), who, mod);
  }

  lemma ThreadStepAlike(cfg: Settings, w: World, v: World, id: nat, pc: ThreadPc, env: Env, who: set<string>, mod: nat)
    requires Alike(w, v, who, mod) && !Opens(w.acc, Opening(pc), who)
    ensures Alike(ThreadStep(cfg, w, id, pc, env), ThreadStep(cfg, v, id, pc, env), who, mod)
  {
    hide ThreadRead, Open, OpenSends, AfterRead, AfterWrite, Opens, AlikeAccounts, AlikeRequests;
    match pc
    case ThreadWrite(u, subforum, title, text) =>
      WritingAlike(w, v, id, Open(w.forum, cfg.alphabet, subforum, u, title, text, env.Clock(), env.commit),
                   OpenSends(w.forum, cfg.alphabet, subforum, u, title, text, env.Clock(), env.commit), who, mod);
    case _ =>
      ThreadReadAlike(cfg, w.acc, v.acc, pc, env.now, who);
      ReadingAlike(w, v, id, ThreadRead(cfg, w.acc, pc, env.now), who, mod);
  }

  /** Except for an opening of these users, a step does the same whatever the mute. */
  lemma AdvanceAlike(cfg: Settings, w: World, v: World, id: nat, pc: Pc, env: Env, who: set<string>, mod: nat)
    requires Alike(w, v, who, mod) && id != mod && !Opens(w.acc, pc, who)
    ensures Alike(AdvanceStep(cfg, w, id, pc, env), AdvanceStep(cfg, v, id, pc, env), who, mod)
  {
    hide PostStep, ThreadStep, AS.WhoIs, AS.ClearNudge, AccountOutcome, CommandOutcome;
    hide Report, ReportError, PostNumber, AlikeAccounts, Opens;
    match pc
    case Replying(p) => PostStepAlike(cfg, w, v, id, p, env, who, mod);
    case Opening(t) => ThreadStepAlike(cfg, w, v, id, t, env, who, mod);
    case Marking(name) => MarksAlike(w.acc, v.acc, name, env, who);
    case Account(a) => AccountsAlike(cfg, w.acc, v.acc, a, env, who);
    case Reporting(r) =>
      if r.ReportOpen? {
        WhoIsAlike(w.acc, v.acc, who, r.fp, env.now);
      }
    case Console(ConsoleOpen(fp, _)) => WhoIsAlike(w.acc, v.acc, who, fp, env.now);
    case Console(ConsoleWrite(command)) => CommandsAlike(w.acc, v.acc, w.forum, command, env, who);
    case Done =>
  }

  lemma StepAlike(cfg: Settings, w: World, v: World, a: Action, who: set<string>, mod: nat)
    requires Alike(w, v, who, mod) && !OpensOr(who, mod)(w, a)
    requires a.Advance? && a.id == mod ==> a.id !in w.reqs
    ensures Alike(Step(cfg, w, a), Step(cfg, v, a), who, mod)
  {
    hide AdvanceStep, AlikeAccounts, Opens, Rebuilt;
    assert forall id :: id in w.reqs <==> id in v.reqs by {
      assert w.reqs.Keys == v.reqs.Keys;
    }
    match a
    case Begin(id, pc) => SameMove(w.reqs, v.reqs, mod, id, pc);
    case Deliver =>
    case Advance(id, env) =>
      if id in w.reqs {
        AdvanceAlike(cfg, w, v, id, w.reqs[id], env, who, mod);
      }
    case Restart(_) =>
  }

  /** Until one of the users opens a reply or a new thread, nothing that happens depends on their mutes. */
  lemma {:induction false} RunAlike(cfg: Settings, w: World, v: World, run: seq<Action>, who: set<string>, mod: nat)
    requires Alike(w, v, who, mod) && Never(cfg, w, run, OpensOr(who, mod))
    ensures Alike(Run(cfg, w, run), Run(cfg, v, run), who, mod)
  {
    hide Step, Alike, Opens;
    if run == [] {
    } else {
      var init, a := run[..|run| - 1], run[|run| - 1];
      RunAlike(cfg, w, v, init, who, mod);
      StepAlike(cfg, Run(cfg, w, init), Run(cfg, v, init), a, who, mod);
    }
  }

  lemma MuteIsAlike(cfg: Settings, w: World, mod: nat, user: string, term: Term, env: Env)
    requires mod in w.reqs && w.reqs[mod] == Console(ConsoleWrite(Mute(user, term)))
    ensures Alike(w, Step(cfg, w, Advance(mod, env)), {user}, mod)
  {
    hide Deadline, PostStep, ThreadStep, MarkStep, ReportStep, AccountStep;
  }

  /** A mute of a user, or a mute that fails, makes no difference to what is written, sent, indexed, reported or shown,
      or to where any other request stands, until a reply or a new thread opens with a certificate of the user. In
      particular every request past its opening step goes on as if there was no mute. */
  lemma LateMuteIsTooLate(cfg: Settings, w: World, mod: nat, user: string, term: Term, env: Env, run: seq<Action>)
    requires mod in w.reqs && w.reqs[mod] == Console(ConsoleWrite(Mute(user, term)))
    requires Never(cfg, w, run, OpensOr({user}, mod))
    ensures var with, without := Run(cfg, Step(cfg, w, Advance(mod, env)), run), Run(cfg, w, run);
            && with.forum == without.forum && with.docs == without.docs && with.chan == without.chan
            && with.hist == without.hist
            && with.reqs.Keys == without.reqs.Keys
            && (forall id :: id in without.reqs && id != mod ==> with.reqs[id] == without.reqs[id])
  {
    hide Run, Step, Never, AlikeAccounts;
    MuteIsAlike(cfg, w, mod, user, term, env);
    RunAlike(cfg, w, Step(cfg, w, Advance(mod, env)), run, {user}, mod);
  }
}
