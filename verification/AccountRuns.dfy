/** What a committed login, mute or registration means for everything that happens until the next one. */
module AccountRuns {
  import opened Options
  import opened Keys
  import opened Text
  import opened Mutes
  import opened ForumLog
  import opened Forums
  import opened Keyword
  import opened Requests
  import opened Safety
  import opened Invariants
  import opened Runs
  import AS = AccountStore

  // ---------- Logins ----------

  /** A login or logout of the certificate. */
  predicate TouchesLogin(pc: Pc, fp: string) {
    match pc
    case Account(LoginWrite(fp', _)) => fp' == fp
    case Account(LogoutWrite(fp')) => fp' == fp
    case _ => false
  }

  /** The step commits a login or logout of the certificate. */
  function Relogs(fp: string): (World, Action) -> bool {
    (w: World, a: Action) => a.Advance? && a.id in w.reqs && a.env.commit && TouchesLogin(w.reqs[a.id], fp)
  }

  /** The bucket's entry for a certificate. */
  function Entry(acc: AS.Accounts, fp: string): Option<string> {
    if fp in acc.certfp then Some(acc.certfp[fp]) else None
  }

  lemma AccountsKeepEntry(cfg: Settings, acc: AS.Accounts, pc: AccountPc, env: Env, fp: string)
    requires env.commit ==> !TouchesLogin(Account(pc), fp)
    ensures Entry(AccountOutcome(cfg, acc, pc, env).0, fp) == Entry(acc, fp)
  {
    hide AS.CheckLogin, AS.CheckName, Trim;
  }

  lemma CommandsKeepEntry(acc: AS.Accounts, f: Forum, command: Command, env: Env, fp: string)
    ensures Entry(CommandOutcome(acc, f, command, env).0, fp) == Entry(acc, fp)
  {
    hide SetLock, Deadline;
  }

  lemma AdvanceKeepsEntry(cfg: Settings, w: World, id: nat, pc: Pc, env: Env, fp: string)
    requires env.commit ==> !TouchesLogin(pc, fp)
    ensures Entry(AdvanceStep(cfg, w, id, pc, env).acc, fp) == Entry(w.acc, fp)
  {
    hide PostRead, ThreadRead, Reply, Open, ReplySends, OpenSends, AS.WhoIs, AccountOutcome, CommandOutcome;
    hide Report, ReportError, PostNumber, Entry;
    match pc
    case Account(a) => AccountsKeepEntry(cfg, w.acc, a, env, fp);
    case Console(ConsoleWrite(command)) => CommandsKeepEntry(w.acc, w.forum, command, env, fp);
    case Marking(user) => MarkingKeepsEntry(w.acc, user, env, fp);
    case _ =>
  }

  lemma MarkingKeepsEntry(acc: AS.Accounts, user: string, env: Env, fp: string)
    ensures Entry(AS.ClearNudge(acc, user, env.commit).acc, fp) == Entry(acc, fp)
  {
  }

  lemma {:induction false} EntryStays(cfg: Settings, w: World, run: seq<Action>, fp: string)
    requires Never(cfg, w, run, Relogs(fp))
    ensures Entry(Run(cfg, w, run).acc, fp) == Entry(w.acc, fp)
  {
    hide AdvanceStep, Entry, Rebuilt, TouchesLogin;
    if run == [] {
    } else {
      var init, a := run[..|run| - 1], run[|run| - 1];
      var was := Run(cfg, w, init);
      EntryStays(cfg, w, init, fp);
      if a.Advance? && a.id in was.reqs {
        AdvanceKeepsEntry(cfg, was, a.id, was.reqs[a.id], a.env, fp);
      }
    }
  }

  lemma LoginIsWritten(cfg: Settings, w: World, id: nat, env: Env, fp: string, user: string)
    requires id in w.reqs && env.commit
    ensures w.reqs[id] == Account(LoginWrite(fp, user)) ==>
              Entry(Step(cfg, w, Advance(id, env)).acc, fp) == Some(user)
    ensures w.reqs[id] == Account(LogoutWrite(fp)) ==> Entry(Step(cfg, w, Advance(id, env)).acc, fp).None?
  {
    hide PostStep, ThreadStep, MarkStep, ReportStep, ConsoleStep;
  }

  lemma EntryIsWho(cfg: Settings, run: seq<Action>, fp: string, now: int)
    ensures var acc := Run(cfg, Start(cfg), run).acc;
            AS.WhoIs(acc, fp, now).0 == match Entry(acc, fp) case Some(user) => user case None => ""
  {
    hide Run, AS.WhoIs, AS.Verified;
    CertificatesAreVerified(cfg, run, fp, now);
  }

  /** From a committed login to the next committed login or logout of the certificate, in every interleaving and over
      restarts, every request with the certificate is a request of that user; from a committed logout, of nobody. */
  lemma LoginsHold(cfg: Settings, before: seq<Action>, id: nat, env: Env, fp: string, user: string, run: seq<Action>,
                   now: int)
    requires var w := Run(cfg, Start(cfg), before);
             && id in w.reqs && env.commit
             && Never(cfg, Step(cfg, w, Advance(id, env)), run, Relogs(fp))
    ensures var w := Run(cfg, Start(cfg), before);
            var who := AS.WhoIs(Run(cfg, Start(cfg), before + [Advance(id, env)] + run).acc, fp, now).0;
            && (w.reqs[id] == Account(LoginWrite(fp, user)) ==> who == user)
            && (w.reqs[id] == Account(LogoutWrite(fp)) ==> who == "")
  {
    hide Run, Step, Never, AS.WhoIs, Entry;
    var w, start := Run(cfg, Start(cfg), before), Start(cfg);
    LoginIsWritten(cfg, w, id, env, fp, user);
    RunSnoc(cfg, start, before, Advance(id, env));
    RunConcat(cfg, start, before + [Advance(id, env)], run);
    EntryStays(cfg, Step(cfg, w, Advance(id, env)), run, fp);
    EntryIsWho(cfg, before + [Advance(id, env)] + run, fp, now);
  }

  // ---------- Mutes ----------

  predicate TouchesMute(pc: Pc, user: string) {
    match pc
    case Console(ConsoleWrite(Mute(u, _))) => u == user
    case Console(ConsoleWrite(Unmute(u))) => u == user
    case _ => false
  }

  /** The step commits a mute or an unmute of the user. */
  function Remutes(user: string): (World, Action) -> bool {
    (w: World, a: Action) => a.Advance? && a.id in w.reqs && a.env.commit && TouchesMute(w.reqs[a.id], user)
  }

  ghost predicate MutedAs(acc: AS.Accounts, user: string, m: Mute) {
    user in acc.users && acc.users[user].muted == m
  }

  lemma AccountsKeepMute(cfg: Settings, acc: AS.Accounts, pc: AccountPc, env: Env, user: string, m: Mute)
    requires MutedAs(acc, user, m)
    ensures MutedAs(AccountOutcome(cfg, acc, pc, env).0, user, m)
  {
    hide AS.CheckLogin, AS.CheckName, Trim;
  }

  lemma CommandsKeepMute(acc: AS.Accounts, f: Forum, command: Command, env: Env, user: string, m: Mute)
    requires MutedAs(acc, user, m) && (env.commit ==> !TouchesMute(Console(ConsoleWrite(command)), user))
    ensures MutedAs(CommandOutcome(acc, f, command, env).0, user, m)
  {
    hide SetLock, Deadline;
  }

  lemma MarkingKeepsMute(acc: AS.Accounts, who: string, env: Env, user: string, m: Mute)
    requires MutedAs(acc, user, m)
    ensures MutedAs(AS.ClearNudge(acc, who, env.commit).acc, user, m)
  {
  }

  lemma AdvanceKeepsMute(cfg: Settings, w: World, id: nat, pc: Pc, env: Env, user: string, m: Mute)
    requires MutedAs(w.acc, user, m) && (env.commit ==> !TouchesMute(pc, user))
    ensures MutedAs(AdvanceStep(cfg, w, id, pc, env).acc, user, m)
  {
    hide PostRead, ThreadRead, Reply, Open, ReplySends, OpenSends, AS.WhoIs, AccountOutcome, CommandOutcome;
    hide Report, ReportError, PostNumber, MutedAs, AS.ClearNudge;
    match pc
    case Account(a) => AccountsKeepMute(cfg, w.acc, a, env, user, m);
    case Console(ConsoleWrite(command)) => CommandsKeepMute(w.acc, w.forum, command, env, user, m);
    case Marking(who) => MarkingKeepsMute(w.acc, who, env, user, m);
    case _ =>
  }

  lemma {:induction false} MuteStays(cfg: Settings, w: World, run: seq<Action>, user: string, m: Mute)
    requires MutedAs(w.acc, user, m) && Never(cfg, w, run, Remutes(user))
    ensures MutedAs(Run(cfg, w, run).acc, user, m)
  {
    hide AdvanceStep, MutedAs, Rebuilt, TouchesMute;
    if run == [] {
    } else {
      var init, a := run[..|run| - 1], run[|run| - 1];
      var was := Run(cfg, w, init);
      MuteStays(cfg, w, init, user, m);
      if a.Advance? && a.id in was.reqs {
        AdvanceKeepsMute(cfg, was, a.id, was.reqs[a.id], a.env, user, m);
      }
    }
  }

  lemma MuteIsWritten(cfg: Settings, w: World, mod: nat, env: Env, user: string, term: Term)
    requires mod in w.reqs && w.reqs[mod] == Console(ConsoleWrite(Mute(user, term)))
    requires env.commit && user in w.acc.users && Deadline(term, env.now).Some?
    ensures MutedAs(Step(cfg, w, Advance(mod, env)).acc, user, Deadline(term, env.now).value)
  {
    hide PostStep, ThreadStep, MarkStep, ReportStep, AccountStep, Deadline;
  }

  lemma MutedIsSeen(acc: AS.Accounts, fp: string, user: string, m: Mute, now: int)
    requires MutedAs(acc, user, m) && Entry(acc, fp) == Some(user) && IsMuted(m, now)
    ensures AS.WhoIs(acc, fp, now).1
  {
  }

  /** The state after a committed mute and a further run. */
  function AfterMute(cfg: Settings, before: seq<Action>, mod: nat, env: Env, run: seq<Action>): World {
    Run(cfg, Step(cfg, Run(cfg, Start(cfg), before), Advance(mod, env)), run)
  }

  /** From a committed mute to the next committed mute or unmute of the user, in every interleaving and over restarts:
      a reply or new thread that opens with a certificate of the user before the deadline never writes anything. */
  lemma MutesHold(cfg: Settings, before: seq<Action>, mod: nat, menv: Env, user: string, term: Term, run: seq<Action>,
                  id: nat, env: Env, fp: string, more: seq<Action>)
    requires var w := Run(cfg, Start(cfg), before);
             && mod in w.reqs && w.reqs[mod] == Console(ConsoleWrite(Mute(user, term)))
             && menv.commit && user in w.acc.users && Deadline(term, menv.now).Some?
             && Never(cfg, Step(cfg, w, Advance(mod, menv)), run, Remutes(user))
    requires var w := AfterMute(cfg, before, mod, menv, run);
             && id in w.reqs && OpensWith(w.reqs[id], fp) && Entry(w.acc, fp) == Some(user)
             && IsMuted(Deadline(term, menv.now).value, env.now)
    ensures id !in Run(cfg, Start(cfg), before + [Advance(mod, menv)] + run + [Advance(id, env)] + more).hist.writers
  {
    hide Run, Step, Never, AS.WhoIs, Entry, MutedAs, OpensWith, IsMuted, Deadline;
    var start, w := Start(cfg), Run(cfg, Start(cfg), before);
    var m := Deadline(term, menv.now).value;
    MuteIsWritten(cfg, w, mod, menv, user, term);
    MuteStays(cfg, Step(cfg, w, Advance(mod, menv)), run, user, m);
    RunSnoc(cfg, start, before, Advance(mod, menv));
    RunConcat(cfg, start, before + [Advance(mod, menv)], run);
    MutedIsSeen(AfterMute(cfg, before, mod, menv, run).acc, fp, user, m, env.now);
    MutedAtStartMeansNoPost(cfg, before + [Advance(mod, menv)] + run, id, env, fp, more);
  }

  lemma MutedIsSeenIff(acc: AS.Accounts, fp: string, user: string, m: Mute, now: int)
    requires MutedAs(acc, user, m) && Entry(acc, fp) == Some(user)
    ensures AS.WhoIs(acc, fp, now) == (user, IsMuted(m, now))
  {
    hide IsMuted;
  }

  /** From a committed mute to the next committed mute or unmute of the user, in every interleaving and over restarts:
      at every instant, each certificate of the user is found muted if and only if the deadline of the command holds. */
  lemma MutesAreSeenIff(cfg: Settings, before: seq<Action>, mod: nat, menv: Env, user: string, term: Term,
                        run: seq<Action>, fp: string, now: int)
    requires var w := Run(cfg, Start(cfg), before);
             && mod in w.reqs && w.reqs[mod] == Console(ConsoleWrite(Mute(user, term)))
             && menv.commit && user in w.acc.users && Deadline(term, menv.now).Some?
             && Never(cfg, Step(cfg, w, Advance(mod, menv)), run, Remutes(user))
    ensures var acc := Run(cfg, Start(cfg), before + [Advance(mod, menv)] + run).acc;
            Entry(acc, fp) == Some(user) ==>
              AS.WhoIs(acc, fp, now) == (user, IsMuted(Deadline(term, menv.now).value, now))
  {
    hide Run, Step, Never, AS.WhoIs, Entry, MutedAs, IsMuted, Deadline;
    var start, w := Start(cfg), Run(cfg, Start(cfg), before);
    var m, end := Deadline(term, menv.now).value, before + [Advance(mod, menv)] + run;
    MuteIsWritten(cfg, w, mod, menv, user, term);
    MuteStays(cfg, Step(cfg, w, Advance(mod, menv)), run, user, m);
    RunSnoc(cfg, start, before, Advance(mod, menv));
    RunConcat(cfg, start, before + [Advance(mod, menv)], run);
    if Entry(Run(cfg, start, end).acc, fp) == Some(user) {
      MutedIsSeenIff(Run(cfg, start, end).acc, fp, user, m, now);
    }
  }

  /** The step commits a mute of the user. */
  function MutesAgain(user: string): (World, Action) -> bool {
    (w: World, a: Action) =>
      && a.Advance? && a.id in w.reqs && a.env.commit
      && w.reqs[a.id].Console? && w.reqs[a.id].console.ConsoleWrite?
      && w.reqs[a.id].console.command.Mute? && w.reqs[a.id].console.command.user == user
  }

  lemma UnmuteIsWritten(cfg: Settings, w: World, mod: nat, env: Env, user: string)
    requires mod in w.reqs && w.reqs[mod] == Console(ConsoleWrite(Unmute(user)))
    requires env.commit && user in w.acc.users
    ensures MutedAs(Step(cfg, w, Advance(mod, env)).acc, user, NotMuted)
  {
    hide PostStep, ThreadStep, MarkStep, ReportStep, AccountStep;
  }

  lemma StaysUnmuted(cfg: Settings, w: World, a: Action, user: string)
    requires MutedAs(w.acc, user, NotMuted) && !MutesAgain(user)(w, a)
    ensures MutedAs(Step(cfg, w, a).acc, user, NotMuted)
  {
    hide AdvanceStep, MutedAs, Rebuilt;
    if a.Advance? && a.id in w.reqs {
      if a.env.commit && TouchesMute(w.reqs[a.id], user) {
        assert w.reqs[a.id] == Console(ConsoleWrite(Unmute(user)));
        assert user in w.acc.users by { MutedExists(w.acc, user, NotMuted); }
        UnmuteIsWritten(cfg, w, a.id, a.env, user);
      } else {
        AdvanceKeepsMute(cfg, w, a.id, w.reqs[a.id], a.env, user, NotMuted);
      }
    }
  }

  lemma MutedExists(acc: AS.Accounts, user: string, m: Mute)
    requires MutedAs(acc, user, m)
    ensures user in acc.users
  {
  }

  lemma {:induction false} UnmutedRun(cfg: Settings, w: World, run: seq<Action>, user: string)
    requires MutedAs(w.acc, user, NotMuted) && Never(cfg, w, run, MutesAgain(user))
    ensures MutedAs(Run(cfg, w, run).acc, user, NotMuted)
  {
    hide Step, MutedAs, MutesAgain;
    if run == [] {
    } else {
      UnmutedRun(cfg, w, run[..|run| - 1], user);
      StaysUnmuted(cfg, Run(cfg, w, run[..|run| - 1]), run[|run| - 1], user);
    }
  }

  lemma UnmutedOpens(cfg: Settings, w: World, id: nat, env: Env, fp: string)
    requires id in w.reqs && OpensWith(w.reqs[id], fp) && !AS.WhoIs(w.acc, fp, env.now).1
    ensures Step(cfg, w, Advance(id, env)).hist.mutedAtStart == w.hist.mutedAtStart
  {
    hide IsMuted, Reply, ReplySends, Open, OpenSends, ThreadNumber, Threads;
  }

  /** From a committed unmute to the next committed mute of the user, in every interleaving and over restarts: whatever
      mute there was before, no certificate of the user is found muted at any instant, and no request is turned away for
      it. */
  lemma UnmutesHold(cfg: Settings, before: seq<Action>, mod: nat, menv: Env, user: string, run: seq<Action>,
                    fp: string, id: nat, env: Env)
    requires var w := Run(cfg, Start(cfg), before);
             && mod in w.reqs && w.reqs[mod] == Console(ConsoleWrite(Unmute(user)))
             && menv.commit && user in w.acc.users
             && Never(cfg, Step(cfg, w, Advance(mod, menv)), run, MutesAgain(user))
    requires Entry(Run(cfg, Start(cfg), before + [Advance(mod, menv)] + run).acc, fp) == Some(user)
    ensures var v := Run(cfg, Start(cfg), before + [Advance(mod, menv)] + run);
            && AS.WhoIs(v.acc, fp, env.now) == (user, false)
            && (id in v.reqs && OpensWith(v.reqs[id], fp) ==>
                  Step(cfg, v, Advance(id, env)).hist.mutedAtStart == v.hist.mutedAtStart)
  {
    hide Run, Step, Never, AS.WhoIs, Entry, MutedAs, MutesAgain, OpensWith;
    var start, w := Start(cfg), Run(cfg, Start(cfg), before);
    UnmuteIsWritten(cfg, w, mod, menv, user);
    UnmutedRun(cfg, Step(cfg, w, Advance(mod, menv)), run, user);
    RunSnoc(cfg, start, before, Advance(mod, menv));
    RunConcat(cfg, start, before + [Advance(mod, menv)], run);
    var v := Run(cfg, start, before + [Advance(mod, menv)] + run);
    MutedIsSeenIff(v.acc, fp, user, NotMuted, env.now);
    if id in v.reqs && OpensWith(v.reqs[id], fp) {
      UnmutedOpens(cfg, v, id, env, fp);
    }
  }

  // ---------- Registrations ----------

  /** The step commits a verification with a code of the user. */
  function Verifies(user: string): (World, Action) -> bool {
    (w: World, a: Action) =>
      && a.Advance? && a.id in w.reqs && a.env.commit
      && w.reqs[a.id].Account? && w.reqs[a.id].account.VerifyWrite?
      && w.reqs[a.id].account.code in w.acc.validation && w.acc.validation[w.reqs[a.id].account.code] == user
  }

  ghost predicate Unverified(acc: AS.Accounts, user: string) {
    user in acc.users && acc.users[user].verified != "1"
  }

  lemma AccountsKeepUnverified(cfg: Settings, acc: AS.Accounts, pc: AccountPc, env: Env, user: string)
    requires Unverified(acc, user)
    requires pc.VerifyWrite? && env.commit && pc.code in acc.validation ==> acc.validation[pc.code] != user
    ensures Unverified(AccountOutcome(cfg, acc, pc, env).0, user)
  {
    hide AS.CheckLogin, AS.CheckName, Trim;
  }

  lemma CommandsKeepUnverified(acc: AS.Accounts, f: Forum, command: Command, env: Env, user: string)
    requires Unverified(acc, user)
    ensures Unverified(CommandOutcome(acc, f, command, env).0, user)
  {
    hide SetLock, Deadline;
  }

  lemma MarkingKeepsUnverified(acc: AS.Accounts, who: string, env: Env, user: string)
    requires Unverified(acc, user)
    ensures Unverified(AS.ClearNudge(acc, who, env.commit).acc, user)
  {
  }

  lemma StepKeepsUnverified(cfg: Settings, w: World, a: Action, user: string)
    requires Unverified(w.acc, user) && !Verifies(user)(w, a)
    ensures Unverified(Step(cfg, w, a).acc, user)
  {
    hide PostRead, ThreadRead, Reply, Open, ReplySends, OpenSends, AS.WhoIs, AccountOutcome, CommandOutcome;
    hide Report, ReportError, PostNumber, Unverified, AS.ClearNudge, Rebuilt;
    if a.Advance? && a.id in w.reqs {
      match w.reqs[a.id]
      case Account(pc) => AccountsKeepUnverified(cfg, w.acc, pc, a.env, user);
      case Console(ConsoleWrite(command)) => CommandsKeepUnverified(w.acc, w.forum, command, a.env, user);
      case Marking(who) => MarkingKeepsUnverified(w.acc, who, a.env, user);
      case _ =>
    }
  }

  lemma {:induction false} UnverifiedStays(cfg: Settings, w: World, run: seq<Action>, user: string)
    requires Unverified(w.acc, user) && Never(cfg, w, run, Verifies(user))
    ensures Unverified(Run(cfg, w, run).acc, user)
  {
    hide Step, Unverified, Verifies;
    if run == [] {
    } else {
      UnverifiedStays(cfg, w, run[..|run| - 1], user);
      StepKeepsUnverified(cfg, Run(cfg, w, run[..|run| - 1]), run[|run| - 1], user);
    }
  }

  lemma RegistrationIsWritten(cfg: Settings, w: World, id: nat, env: Env, pc: AccountPc)
    requires id in w.reqs && w.reqs[id] == Account(pc) && pc.RegisterWrite?
    requires env.commit && cfg.smtp && pc.name !in w.acc.users && pc.name != ""
    ensures Unverified(Step(cfg, w, Advance(id, env)).acc, pc.name)
  {
    hide PostStep, ThreadStep, MarkStep, ReportStep, ConsoleStep;
  }

  /** With mail enabled, from a committed registration until its code is used, in every interleaving: the user cannot
      log in with any password, and no certificate is the user's. */
  lemma RegistrationsWaitForTheCode(cfg: Settings, before: seq<Action>, id: nat, env: Env, pc: AccountPc,
                                    run: seq<Action>, pass: string, fp: string, now: int)
    requires cfg.smtp && env.commit && pc.RegisterWrite?
    requires var w := Run(cfg, Start(cfg), before);
             && id in w.reqs && w.reqs[id] == Account(pc) && pc.name !in w.acc.users
             && Never(cfg, Step(cfg, w, Advance(id, env)), run, Verifies(pc.name))
    ensures var acc := Run(cfg, Start(cfg), before + [Advance(id, env)] + run).acc;
            && AS.CheckLogin(acc, pc.name, pass, cfg.matches) == Some(AS.NotVerified)
            && AS.WhoIs(acc, fp, now).0 != pc.name
  {
    hide Run, Step, Never, Verifies, AS.WhoIs;
    var start, w := Start(cfg), Run(cfg, Start(cfg), before);
    RunKeepsBase(cfg, before);
    NameIsNotEmpty(cfg, w, id, pc);
    RegistrationIsWritten(cfg, w, id, env, pc);
    UnverifiedStays(cfg, Step(cfg, w, Advance(id, env)), run, pc.name);
    RunSnoc(cfg, start, before, Advance(id, env));
    RunConcat(cfg, start, before + [Advance(id, env)], run);
    CertificatesAreVerified(cfg, before + [Advance(id, env)] + run, fp, now);
  }

  lemma NameIsNotEmpty(cfg: Settings, w: World, id: nat, pc: AccountPc)
    requires Base(cfg, w) && id in w.reqs && w.reqs[id] == Account(pc) && pc.RegisterWrite?
    ensures pc.name != ""
  {
    hide AS.Sound, Forums.Sound;
    assert PcOk(cfg, w.acc, w.forum, w.reqs[id]);
  }

  // ---------- Validation codes ----------

  /** The code that a step commits: a registration stores its code, a verification takes it away. */
  predicate TouchesCode(pc: Pc, code: string) {
    match pc
    case Account(RegisterWrite(_, _, _, c)) => c == code
    case Account(VerifyWrite(c)) => c == code
    case _ => false
  }

  function TakesCode(code: string): (World, Action) -> bool {
    (w: World, a: Action) => a.Advance? && a.id in w.reqs && a.env.commit && TouchesCode(w.reqs[a.id], code)
  }

  /** The user that a code is for. */
  function CodeEntry(acc: AS.Accounts, code: string): Option<string> {
    if code in acc.validation then Some(acc.validation[code]) else None
  }

  lemma AccountsKeepCode(cfg: Settings, acc: AS.Accounts, pc: AccountPc, env: Env, code: string)
    requires env.commit ==> !TouchesCode(Account(pc), code)
    ensures CodeEntry(AccountOutcome(cfg, acc, pc, env).0, code) == CodeEntry(acc, code)
  {
    hide AS.CheckLogin, AS.CheckName, Trim;
  }

  lemma CommandsKeepCode(acc: AS.Accounts, f: Forum, command: Command, env: Env, code: string)
    ensures CodeEntry(CommandOutcome(acc, f, command, env).0, code) == CodeEntry(acc, code)
  {
    hide SetLock, Deadline;
  }

  lemma MarkingKeepsCode(acc: AS.Accounts, user: string, env: Env, code: string)
    ensures CodeEntry(AS.ClearNudge(acc, user, env.commit).acc, code) == CodeEntry(acc, code)
  {
  }

  lemma StepKeepsCode(cfg: Settings, w: World, a: Action, code: string)
    requires !TakesCode(code)(w, a)
    ensures CodeEntry(Step(cfg, w, a).acc, code) == CodeEntry(w.acc, code)
  {
    hide PostRead, ThreadRead, Reply, Open, ReplySends, OpenSends, AS.WhoIs, AccountOutcome, CommandOutcome;
    hide Report, ReportError, PostNumber, CodeEntry, AS.ClearNudge, Rebuilt;
    if a.Advance? && a.id in w.reqs {
      match w.reqs[a.id]
      case Account(pc) => AccountsKeepCode(cfg, w.acc, pc, a.env, code);
      case Console(ConsoleWrite(command)) => CommandsKeepCode(w.acc, w.forum, command, a.env, code);
      case Marking(user) => MarkingKeepsCode(w.acc, user, a.env, code);
      case _ =>
    }
  }

  lemma {:induction false} CodeStays(cfg: Settings, w: World, run: seq<Action>, code: string)
    requires Never(cfg, w, run, TakesCode(code))
    ensures CodeEntry(Run(cfg, w, run).acc, code) == CodeEntry(w.acc, code)
  {
    hide Step, CodeEntry, TakesCode;
    if run == [] {
    } else {
      CodeStays(cfg, w, run[..|run| - 1], code);
      StepKeepsCode(cfg, Run(cfg, w, run[..|run| - 1]), run[|run| - 1], code);
    }
  }

  lemma CodeIsStored(cfg: Settings, w: World, id: nat, env: Env, pc: AccountPc)
    requires id in w.reqs && w.reqs[id] == Account(pc) && pc.RegisterWrite?
    requires env.commit && pc.name !in w.acc.users && pc.name != ""
    ensures var acc := Step(cfg, w, Advance(id, env)).acc;
            && CodeEntry(acc, pc.code) == Some(pc.name)
            && pc.name in acc.users && acc.users[pc.name].password == cfg.hash(pc.pass)
  {
    hide PostStep, ThreadStep, MarkStep, ReportStep, ConsoleStep;
  }

  lemma CodeIsUsed(cfg: Settings, w: World, id: nat, env: Env, code: string, user: string)
    requires id in w.reqs && w.reqs[id] == Account(VerifyWrite(code)) && env.commit
    requires CodeEntry(w.acc, code) == Some(user) && user in w.acc.users
    ensures var acc := Step(cfg, w, Advance(id, env)).acc;
            && CodeEntry(acc, code).None? && AS.Verified(acc, user)
            && AS.Verify(w.acc, code, true).err.None?
  {
    hide PostStep, ThreadStep, MarkStep, ReportStep, ConsoleStep;
  }

  lemma LoginOfVerified(acc: AS.Accounts, acc': AS.Accounts, user: string, pass: string,
                        matches: (string, string) -> bool)
    requires AS.Verified(acc, user) && AS.Grows(acc, acc')
    ensures AS.CheckLogin(acc', user, pass, matches)
         == if matches(acc.users[user].password, pass) then None else Some(AS.WrongPassword)
  {
  }

  /** From a committed registration on, in every interleaving and over restarts, as long as no other registration
      commits the same random code: using the code verifies the user, exactly the password of the registration then
      logs the user in for good, and the code works no second time. */
  lemma CodesWorkOnce(cfg: Settings, before: seq<Action>, id: nat, env: Env, pc: AccountPc, run: seq<Action>,
                      vid: nat, venv: Env, more: seq<Action>, pass: string)
    requires pc.RegisterWrite? && env.commit && venv.commit
    requires var w := Run(cfg, Start(cfg), before);
             && id in w.reqs && w.reqs[id] == Account(pc) && pc.name !in w.acc.users
             && Never(cfg, Step(cfg, w, Advance(id, env)), run, TakesCode(pc.code))
    requires var v := Run(cfg, Start(cfg), before + [Advance(id, env)] + run);
             && vid in v.reqs && v.reqs[vid] == Account(VerifyWrite(pc.code))
             && Never(cfg, Step(cfg, v, Advance(vid, venv)), more, TakesCode(pc.code))
    ensures AS.Verify(Run(cfg, Start(cfg), before + [Advance(id, env)] + run).acc, pc.code, true).err.None?
    ensures var acc := Run(cfg, Start(cfg), before + [Advance(id, env)] + run + [Advance(vid, venv)] + more).acc;
            && AS.CheckLogin(acc, pc.name, pass, cfg.matches)
               == (if cfg.matches(cfg.hash(pc.pass), pass) then None else Some(AS.WrongPassword))
            && AS.Verify(acc, pc.code, true).err == Some(AS.UserNotFound)
  {
    hide Run, Step, Never, TakesCode, AS.CheckLogin, AS.Grows;
    var start, w := Start(cfg), Run(cfg, Start(cfg), before);
    var first := before + [Advance(id, env)];
    RunKeepsBase(cfg, before);
    NameIsNotEmpty(cfg, w, id, pc);
    CodeIsStored(cfg, w, id, env, pc);
    CodeStays(cfg, Step(cfg, w, Advance(id, env)), run, pc.code);
    RunSnoc(cfg, start, before, Advance(id, env));
    RunConcat(cfg, start, first, run);
    NothingIsTakenBack(cfg, first, run);
    var v := Run(cfg, start, first + run);
    UserStays(Run(cfg, start, first).acc, v.acc, pc.name);
    CodeIsUsed(cfg, v, vid, venv, pc.code, pc.name);
    RunSnoc(cfg, start, first + run, Advance(vid, venv));
    NothingIsTakenBack(cfg, first + run, [Advance(vid, venv)]);
    var u := Run(cfg, start, first + run + [Advance(vid, venv)]);
    UserStays(v.acc, u.acc, pc.name);
    RunConcat(cfg, start, first + run + [Advance(vid, venv)], more);
    NothingIsTakenBack(cfg, first + run + [Advance(vid, venv)], more);
    CodeStays(cfg, u, more, pc.code);
    LoginOfVerified(u.acc, Run(cfg, u, more).acc, pc.name, pass, cfg.matches);
  }

  lemma UserStays(acc: AS.Accounts, acc': AS.Accounts, user: string)
    requires AS.Grows(acc, acc') && user in acc.users
    ensures user in acc'.users && acc'.users[user].password == acc.users[user].password
  {
  }
}
