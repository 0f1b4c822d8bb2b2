/**
 What stands behind everything that is stored, over any run: the request that an event, a certificate, a lock, a mute,
 a report, a user or a verification comes from, as that request began, and the user whose certificate opened it.
 */
module Sources {
  import opened Options
  import opened Keys
  import opened Text
  import opened Mutes
  import opened ForumLog
  import opened Forums
  import opened Keyword
  import opened Requests
  import opened Safety
  import opened Invariants
  import opened Runs
  import opened AccountRuns
  import opened MuteRuns
  import opened Origins
  import AS = AccountStore

  // ---------- Certificates ----------

  /** Some request asked for this login with a password of the user. */
  ghost predicate CertSourced(cfg: Settings, run: seq<Action>, fp: string, user: string) {
    exists id, o, u :: From(cfg, run, id, o, u) && IsLogin(cfg, Run(cfg, Start(cfg), run).acc, o, fp, user)
  }

  lemma CertMoves(cfg: Settings, w: World, id: nat, pc: Pc, env: Env, fp: string)
    requires fp in AdvanceStep(cfg, w, id, pc, env).acc.certfp
    ensures var user := AdvanceStep(cfg, w, id, pc, env).acc.certfp[fp];
            Entry(w.acc, fp) == Some(user) || pc == Account(LoginWrite(fp, user))
  {
    hide PostStep, ThreadStep, MarkStep, ReportStep, ConsoleStep, AS.CheckLogin, AS.CheckName, Trim, ByteLength;
    if !(env.commit && TouchesLogin(pc, fp)) {
      AdvanceKeepsEntry(cfg, w, id, pc, env, fp);
    }
  }

  lemma LoginStays(cfg: Settings, acc: AS.Accounts, acc': AS.Accounts, o: Pc, fp: string, user: string)
    requires AS.Grows(acc, acc') && IsLogin(cfg, acc, o, fp, user)
    ensures IsLogin(cfg, acc', o, fp, user)
  {
  }

  lemma LoginTraced(cfg: Settings, acc: AS.Accounts, o: Pc, u: Option<string>, fp: string, user: string)
    ensures Traced(cfg, acc, o, u, Account(LoginWrite(fp, user))) ==> IsLogin(cfg, acc, o, fp, user)
  {
  }

  lemma GrowsByStep(cfg: Settings, run: seq<Action>, a: Action)
    ensures AS.Grows(Run(cfg, Start(cfg), run).acc, Run(cfg, Start(cfg), run + [a]).acc)
  {
    hide Run, Step, Base, AS.Grows;
    RunSnoc(cfg, Start(cfg), run, a);
    RunKeepsBase(cfg, run);
    StepKeepsBase(cfg, Run(cfg, Start(cfg), run), a);
  }

  lemma CertSourcedStays(cfg: Settings, run: seq<Action>, a: Action, fp: string, user: string)
    requires CertSourced(cfg, run, fp, user)
    ensures CertSourced(cfg, run + [a], fp, user)
  {
    hide Run, From, IsLogin;
    var id, o, u :| From(cfg, run, id, o, u) && IsLogin(cfg, Run(cfg, Start(cfg), run).acc, o, fp, user);
    FromStays(cfg, run, a, id, o, u);
    GrowsByStep(cfg, run, a);
    LoginStays(cfg, Run(cfg, Start(cfg), run).acc, Run(cfg, Start(cfg), run + [a]).acc, o, fp, user);
  }

  /** In every run, behind every certificate of the bucket stands a login request with that certificate and that user
      name, whose password matches the hash that is stored for the user. */
  lemma {:induction false} CertificatesComeFromPasswords(cfg: Settings, run: seq<Action>, fp: string)
    requires fp in Run(cfg, Start(cfg), run).acc.certfp
    ensures CertSourced(cfg, run, fp, Run(cfg, Start(cfg), run).acc.certfp[fp])
  {
    hide Step, AdvanceStep, From, IsLogin, CertSourced, Traced, Certificate, Rebuilt;
    if run == [] {
      assert false;
    } else {
      var init, a := run[..|run| - 1], run[|run| - 1];
      assert run == init + [a];
      var w := Run(cfg, Start(cfg), init);
      var user := Run(cfg, Start(cfg), run).acc.certfp[fp];
      StepCert(cfg, w, a, fp);
      hide Run;
      if Entry(w.acc, fp) == Some(user) {
        CertificatesComeFromPasswords(cfg, init, fp);
        CertSourcedStays(cfg, init, a, fp, user);
      } else {
        OnlyOpeningsLookUp(w.reqs[a.id]);
        var o, u := WriterIsSource(cfg, init, a.id, a.env);
        LoginTraced(cfg, w.acc, o, u, fp, user);
        GrowsByStep(cfg, init, a);
        LoginStays(cfg, w.acc, Run(cfg, Start(cfg), run).acc, o, fp, user);
        assert CertSourced(cfg, run, fp, user) by { SourceOfCert(cfg, run, a.id, o, u, fp, user); }
      }
    }
  }

  lemma SourceOfCert(cfg: Settings, run: seq<Action>, id: nat, o: Pc, u: Option<string>, fp: string, user: string)
    requires From(cfg, run, id, o, u) && IsLogin(cfg, Run(cfg, Start(cfg), run).acc, o, fp, user)
    ensures CertSourced(cfg, run, fp, user)
  {
  }

  lemma StepCert(cfg: Settings, w: World, a: Action, fp: string)
    requires fp in Step(cfg, w, a).acc.certfp
    ensures var user := Step(cfg, w, a).acc.certfp[fp];
            Entry(w.acc, fp) == Some(user)
            || (a.Advance? && a.id in w.reqs && w.reqs[a.id] == Account(LoginWrite(fp, user)))
  {
    hide AdvanceStep, Rebuilt;
    if a.Advance? && a.id in w.reqs {
      CertMoves(cfg, w, a.id, w.reqs[a.id], a.env, fp);
    }
  }

  // ---------- Events ----------

  /** The request asked for the event as it stands in the log, and its certificate was the author's. */
  predicate AskedFor(cfg: Settings, e: Event, o: Pc, user: Option<string>) {
    match e
    case Replied(t, u, text, _) =>
      && o.Replying? && o.post.PostOpen? && o.post.draft == Some(text) && KeyNumber(o.post.thread) == Some(t)
      && user == Some(u)
    case Opened(sf, title, u, text, _) =>
      && o.Opening? && o.thread.ThreadOpen? && o.thread.draft == Some(text) && o.thread.subforum == sf
      && Trim(o.thread.title, cfg.alphabet.space) == title && user == Some(u)
  }

  lemma NewEventAskedFor(cfg: Settings, w: World, pc: Pc, env: Env, o: Pc, user: Option<string>)
    requires Writes(pc) && env.marshals && (pc.Replying? ==> ThreadNumber(w.forum, pc.post.thread).Some?)
    requires Traced(cfg, w.acc, o, user, pc)
    ensures AskedFor(cfg, NewEvent(cfg, w, pc, env), o, user)
  {
    hide Threads, KeyNumber, Trim;
  }

  /** Event i was asked for by the request that wrote it. */
  ghost predicate EventSourced(cfg: Settings, run: seq<Action>, i: nat, o: Pc, user: Option<string>) {
    var w := Run(cfg, Start(cfg), run);
    && i < |w.forum.log| == |w.hist.writers|
    && From(cfg, run, w.hist.writers[i], o, user) && AskedFor(cfg, w.forum.log[i], o, user)
  }

  /** What a step does to the log and its writers, and which request is behind a new event. */
  lemma StepWrites(cfg: Settings, w: World, a: Action)
    ensures var v := Step(cfg, w, a);
            || (v.forum.log == w.forum.log && v.hist.writers == w.hist.writers)
            || (&& a.Advance? && a.id in w.reqs && Writes(w.reqs[a.id]) && a.env.marshals
                && (w.reqs[a.id].Replying? ==> ThreadNumber(w.forum, w.reqs[a.id].post.thread).Some?)
                && v.forum.log == w.forum.log + [NewEvent(cfg, w, w.reqs[a.id], a.env)]
                && v.hist.writers == w.hist.writers + [a.id])
  {
    hide AdvanceStep, NewEvent, Rebuilt;
    if a.Advance? && a.id in w.reqs {
      WhoWrites(cfg, w, a.id, w.reqs[a.id], a.env);
      if AdvanceStep(cfg, w, a.id, w.reqs[a.id], a.env).forum.log != w.forum.log {
        WrittenEvent(cfg, w, a.id, w.reqs[a.id], a.env);
      }
    }
  }

  lemma EventStays(cfg: Settings, run: seq<Action>, a: Action, i: nat, o: Pc, user: Option<string>)
    requires EventSourced(cfg, run, i, o, user)
    ensures EventSourced(cfg, run + [a], i, o, user)
  {
    hide Run, Step, From, AskedFor, NewEvent, Writes;
    var w := Run(cfg, Start(cfg), run);
    RunSnoc(cfg, Start(cfg), run, a);
    StepWrites(cfg, w, a);
    FromStays(cfg, run, a, w.hist.writers[i], o, user);
  }

  /** In every run, behind every event stands the request that wrote it: a reply says what was typed, in the thread that
      was named; a new thread has the subforum, the trimmed title and the text of its request; the author is the user
      whose certificate it was when the request opened. */
  lemma {:induction false} EventsComeFromRequests(cfg: Settings, run: seq<Action>, i: nat)
    returns (o: Pc, user: Option<string>)
    requires i < |Run(cfg, Start(cfg), run).forum.log|
    ensures EventSourced(cfg, run, i, o, user)
  {
    hide Step, From, AskedFor, Traced, NewEvent, Writes, Certificate;
    if run == [] {
      assert false;
    } else {
      var init, a := run[..|run| - 1], run[|run| - 1];
      assert run == init + [a];
      var w := Run(cfg, Start(cfg), init);
      StepWrites(cfg, w, a);
      RunKeepsWriters(cfg, init);
      hide Run, EventSourced;
      if i < |w.forum.log| {
        o, user := EventsComeFromRequests(cfg, init, i);
        EventStays(cfg, init, a, i, o, user);
      } else {
        OnlyOpeningsLookUp(w.reqs[a.id]);
        o, user := WriterIsSource(cfg, init, a.id, a.env);
        NewEventAskedFor(cfg, w, w.reqs[a.id], a.env, o, user);
        NewEventSourced(cfg, run, i, o, user);
      }
    }
  }

  lemma NewEventSourced(cfg: Settings, run: seq<Action>, i: nat, o: Pc, user: Option<string>)
    requires var w := Run(cfg, Start(cfg), run);
             && i < |w.forum.log| == |w.hist.writers|
             && From(cfg, run, w.hist.writers[i], o, user) && AskedFor(cfg, w.forum.log[i], o, user)
    ensures EventSourced(cfg, run, i, o, user)
  {
  }

  /** The user of a request is the one that the bucket gave for its certificate in the step that opened it. */
  lemma {:induction false} OpeningIsAStep(cfg: Settings, run: seq<Action>, id: nat) returns (k: nat)
    requires UserAtOpening(cfg, run, id).Some?
    ensures k < |run| && LooksUp(Run(cfg, Start(cfg), run[..k]), run[k], id)
    ensures var w := Run(cfg, Start(cfg), run[..k]);
            && Origin(cfg, run, id) == Some(w.reqs[id])
            && Entry(w.acc, Certificate(w.reqs[id]).value) == UserAtOpening(cfg, run, id)
  {
    hide Run, Entry, Traced, Certificate, Starts;
    var init, a := run[..|run| - 1], run[|run| - 1];
    var w := Run(cfg, Start(cfg), init);
    assert run == init + [a];
    if LooksUp(w, a, id) {
      k := |run| - 1;
      RunIsTraced(cfg, init);
      LookingUpIsOrigin(cfg, w.acc, Origin(cfg, init, id).value, UserAtOpening(cfg, init, id), w.reqs[id]);
      OriginStays(cfg, init, a, id);
    } else {
      k := OpeningIsAStep(cfg, init, id);
      assert run[..k] == init[..k];
      OriginIsThere(cfg, init, id);
      OriginStays(cfg, init, a, id);
    }
  }

  lemma LookingUpIsOrigin(cfg: Settings, acc: AS.Accounts, o: Pc, user: Option<string>, pc: Pc)
    requires Traced(cfg, acc, o, user, pc) && Certificate(pc).Some?
    ensures o == pc
  {
  }

  /** A request with an origin is there. */
  lemma {:induction false} OriginIsThere(cfg: Settings, run: seq<Action>, id: nat)
    requires Origin(cfg, run, id).Some?
    ensures id in Run(cfg, Start(cfg), run).reqs
  {
    hide AdvanceStep, Rebuilt, Starts, Base;
    var init, a := run[..|run| - 1], run[|run| - 1];
    var w := Run(cfg, Start(cfg), init);
    if a.Begin? && a.id == id && id !in w.reqs && Starts(a.pc) {
    } else {
      OriginIsThere(cfg, init, id);
      RunKeepsBase(cfg, init);
      if a.Advance? && a.id in w.reqs {
        AdvanceGoodHere(cfg, w, a.id, a.env);
      }
    }
  }

  /** In every run, the author of an event is the user of the certificate of its request in a step of the run. */
  lemma AuthorsHeldTheCertificate(cfg: Settings, run: seq<Action>, i: nat) returns (k: nat, fp: string)
    requires i < |Run(cfg, Start(cfg), run).forum.log|
    ensures var v := Run(cfg, Start(cfg), run);
            && i < |v.hist.writers| && k < |run| && run[k].Advance? && run[k].id == v.hist.writers[i]
            && var w := Run(cfg, Start(cfg), run[..k]);
            && run[k].id in w.reqs && OpensWith(w.reqs[run[k].id], fp)
            && fp in w.acc.certfp && w.acc.certfp[fp] == v.forum.log[i].author
  {
    hide Run, Origin, UserAtOpening;
    var o, user := EventsComeFromRequests(cfg, run, i);
    k := OpeningIsAStep(cfg, run, Run(cfg, Start(cfg), run).hist.writers[i]);
    fp := Certificate(o).value;
  }

  // ---------- Commands, locks and mutes ----------

  /** In every run a command that is about to be carried out came from standard input, or from a request whose
      certificate was a moderator's when it opened. */
  lemma CommandsComeFromModerators(cfg: Settings, run: seq<Action>, id: nat, command: Command)
    requires var w := Run(cfg, Start(cfg), run); id in w.reqs && w.reqs[id] == Console(ConsoleWrite(command))
    ensures Origin(cfg, run, id).Some?
    ensures IsCommand(cfg, Origin(cfg, run, id).value, UserAtOpening(cfg, run, id), command)
  {
    hide Run, Origin, UserAtOpening, IsCommand;
    RunIsTraced(cfg, run);
  }

  lemma CommandTraced(cfg: Settings, acc: AS.Accounts, o: Pc, user: Option<string>, command: Command)
    requires Traced(cfg, acc, o, user, Console(ConsoleWrite(command)))
    ensures IsCommand(cfg, o, user, command)
  {
  }

  lemma CommandIsSource(cfg: Settings, run: seq<Action>, id: nat, env: Env, command: Command)
    returns (o: Pc, user: Option<string>)
    requires var w := Run(cfg, Start(cfg), run); id in w.reqs && w.reqs[id] == Console(ConsoleWrite(command))
    ensures From(cfg, run + [Advance(id, env)], id, o, user) && IsCommand(cfg, o, user, command)
  {
    hide Run, From, IsCommand, Traced, Certificate;
    OnlyOpeningsLookUp(Console(ConsoleWrite(command)));
    o, user := WriterIsSource(cfg, run, id, env);
    CommandTraced(cfg, Run(cfg, Start(cfg), run).acc, o, user, command);
  }

  lemma StepLocked(cfg: Settings, w: World, a: Action, t: nat)
    requires t in Step(cfg, w, a).forum.locked && t !in w.forum.locked
    ensures a.Advance? && a.id in w.reqs && w.reqs[a.id] == Console(ConsoleWrite(Lock(Itob(t))))
  {
    hide Step, Itob, Threads;
    if !Locks(t)(w, a) {
      StaysUnlocked(cfg, w, a, t);
    }
  }

  /** In every run, behind every locked thread stands a lock command from standard input or from a moderator. */
  lemma {:induction false} LocksComeFromModerators(cfg: Settings, run: seq<Action>, t: nat)
    returns (id: nat, o: Pc, user: Option<string>)
    requires t in Run(cfg, Start(cfg), run).forum.locked
    ensures From(cfg, run, id, o, user) && IsCommand(cfg, o, user, Lock(Itob(t)))
  {
    hide Step, From, IsCommand, Itob;
    if run == [] {
      assert false;
    } else {
      var init, a := run[..|run| - 1], run[|run| - 1];
      assert run == init + [a];
      var w := Run(cfg, Start(cfg), init);
      hide Run;
      RunSnoc(cfg, Start(cfg), init, a);
      if t in w.forum.locked {
        id, o, user := LocksComeFromModerators(cfg, init, t);
        FromStays(cfg, init, a, id, o, user);
      } else {
        StepLocked(cfg, w, a, t);
        id := a.id;
        o, user := CommandIsSource(cfg, init, id, a.env, Lock(Itob(t)));
      }
    }
  }

  /** The mute of a user, if the user exists. */
  function MuteOf(acc: AS.Accounts, user: string): Mute {
    if user in acc.users then acc.users[user].muted else NotMuted
  }

  lemma AdvanceMutes(cfg: Settings, w: World, id: nat, pc: Pc, env: Env, user: string)
    ensures var m := MuteOf(AdvanceStep(cfg, w, id, pc, env).acc, user);
            || m == NotMuted || m == MuteOf(w.acc, user)
            || exists term :: pc == Console(ConsoleWrite(Mute(user, term))) && Deadline(term, env.now) == Some(m)
  {
    hide PostStep, ThreadStep, MarkStep, AccountStep, ReportStep, Deadline, SetLock, AS.WhoIs;
    if user in w.acc.users && !(env.commit && TouchesMute(pc, user)) {
      AdvanceKeepsMute(cfg, w, id, pc, env, user, w.acc.users[user].muted);
    } else if user !in w.acc.users {
      NewUsersAreNotMuted(cfg, w, id, pc, env, user);
    }
  }

  lemma NewUsersAreNotMuted(cfg: Settings, w: World, id: nat, pc: Pc, env: Env, user: string)
    requires user !in w.acc.users
    ensures MuteOf(AdvanceStep(cfg, w, id, pc, env).acc, user) == NotMuted
  {
    hide PostStep, ThreadStep, MarkStep, ReportStep, ConsoleStep, AS.CheckLogin, AS.CheckName, Trim;
    WhoRegisters(cfg, w, id, pc, env);
  }

  /** In every run, behind every mute stands a command that mutes this user, from standard input or from a moderator,
      and the mute is the deadline of its term at some instant. */
  lemma {:induction false} MutesComeFromModerators(cfg: Settings, run: seq<Action>, name: string)
    returns (id: nat, o: Pc, user: Option<string>, term: Term, now: Instant)
    requires MuteOf(Run(cfg, Start(cfg), run).acc, name) != NotMuted
    ensures From(cfg, run, id, o, user) && IsCommand(cfg, o, user, Mute(name, term))
    ensures Deadline(term, now) == Some(MuteOf(Run(cfg, Start(cfg), run).acc, name))
  {
    hide AdvanceStep, From, IsCommand, Deadline, Rebuilt;
    if run == [] {
      assert false;
    } else {
      var init, a := run[..|run| - 1], run[|run| - 1];
      assert run == init + [a];
      var w := Run(cfg, Start(cfg), init);
      if MuteOf(Run(cfg, Start(cfg), run).acc, name) == MuteOf(w.acc, name) {
        id, o, user, term, now := MutesComeFromModerators(cfg, init, name);
        FromStays(cfg, init, a, id, o, user);
      } else {
        id, now := a.id, a.env.now;
        AdvanceMutes(cfg, w, id, w.reqs[id], a.env, name);
        var m := MuteOf(Run(cfg, Start(cfg), run).acc, name);
        term :| w.reqs[id] == Console(ConsoleWrite(Mute(name, term))) && Deadline(term, now) == Some(m);
        o, user := CommandIsSource(cfg, init, id, a.env, Mute(name, term));
      }
    }
  }

  // ---------- Reports ----------

  lemma StepReported(cfg: Settings, w: World, a: Action, n: nat)
    requires n in Step(cfg, w, a).forum.reported && n !in w.forum.reported
    ensures a.Advance? && a.id in w.reqs && w.reqs[a.id] == Reporting(ReportWrite(Itob(n)))
  {
    hide PostRead, ThreadRead, ReplyError, OpenError, ReplySends, OpenSends, AccountOutcome, AS.WhoIs;
    hide AS.ClearNudge, AS.MuteUser, AS.UnmuteUser, ThreadNumber, Trim, Rebuilt, Itob;
  }

  lemma ReportWriteTraced(cfg: Settings, acc: AS.Accounts, o: Pc, user: Option<string>, post: Key)
    requires Traced(cfg, acc, o, user, Reporting(ReportWrite(post)))
    ensures IsReport(o, user, post)
  {
  }

  /** In every run, behind every reported post stands a report of it whose certificate was a user's. */
  lemma {:induction false} ReportsComeFromUsers(cfg: Settings, run: seq<Action>, n: nat)
    returns (id: nat, o: Pc, user: Option<string>)
    requires n in Run(cfg, Start(cfg), run).forum.reported
    ensures From(cfg, run, id, o, user) && IsReport(o, user, Itob(n))
  {
    hide Step, From, IsReport, Itob, Traced, Certificate;
    if run == [] {
      assert false;
    } else {
      var init, a := run[..|run| - 1], run[|run| - 1];
      assert run == init + [a];
      var w := Run(cfg, Start(cfg), init);
      hide Run;
      RunSnoc(cfg, Start(cfg), init, a);
      if n in w.forum.reported {
        id, o, user := ReportsComeFromUsers(cfg, init, n);
        FromStays(cfg, init, a, id, o, user);
      } else {
        StepReported(cfg, w, a, n);
        id := a.id;
        OnlyOpeningsLookUp(w.reqs[id]);
        o, user := WriterIsSource(cfg, init, id, a.env);
        ReportWriteTraced(cfg, w.acc, o, user, Itob(n));
      }
    }
  }

  // ---------- Users ----------

  /** The request asked for this registration: the name and the address are trimmed, the password is trimmed and hashed
      and has at least eight bytes. */
  predicate AskedToRegister(cfg: Settings, o: Pc, name: string, email: string, password: string) {
    var space := cfg.alphabet.space;
    && o.Account? && o.account.RegisterCheck? && ByteLength(o.account.pass) >= 8
    && name == Trim(o.account.rawName, space) && email == Trim(o.account.email, space)
    && password == cfg.hash(Trim(o.account.pass, space))
  }

  lemma RegistrationTraced(cfg: Settings, acc: AS.Accounts, o: Pc, user: Option<string>, pc: AccountPc)
    requires pc.RegisterWrite? && Traced(cfg, acc, o, user, Account(pc))
    ensures AskedToRegister(cfg, o, pc.name, pc.email, cfg.hash(pc.pass)) && o.account.code == pc.code
  {
    hide Trim, ByteLength;
  }

  lemma RegistrationIsSource(cfg: Settings, run: seq<Action>, id: nat, env: Env, pc: AccountPc)
    returns (o: Pc, user: Option<string>)
    requires var w := Run(cfg, Start(cfg), run); id in w.reqs && w.reqs[id] == Account(pc) && pc.RegisterWrite?
    ensures From(cfg, run + [Advance(id, env)], id, o, user)
    ensures AskedToRegister(cfg, o, pc.name, pc.email, cfg.hash(pc.pass)) && o.account.code == pc.code
  {
    hide Run, From, AskedToRegister, Traced, Certificate;
    OnlyOpeningsLookUp(Account(pc));
    o, user := WriterIsSource(cfg, run, id, env);
    RegistrationTraced(cfg, Run(cfg, Start(cfg), run).acc, o, user, pc);
  }

  /** A user who is new after a step is the one that a registration stores. */
  lemma NewUserIs(cfg: Settings, w: World, a: Action, name: string)
    requires name in Step(cfg, w, a).acc.users && name !in w.acc.users
    ensures a.Advance? && a.id in w.reqs && Registers(w.reqs[a.id]) && w.reqs[a.id].account.name == name
    ensures var user, pc := Step(cfg, w, a).acc.users[name], w.reqs[a.id].account;
            user.password == cfg.hash(pc.pass) && user.email == pc.email && (user.verified == "1" ==> !cfg.smtp)
  {
    hide PostStep, ThreadStep, MarkStep, ReportStep, ConsoleStep, AS.CheckLogin, AS.CheckName, Trim, Rebuilt;
    if a.Advance? && a.id in w.reqs {
      WhoRegisters(cfg, w, a.id, w.reqs[a.id], a.env);
    }
  }

  /** In every run, behind every user stands a registration: the name and the address are stored trimmed, and of the
      password, which had at least eight bytes, the hash of the trimmed text. */
  lemma {:induction false} UsersComeFromRegistrations(cfg: Settings, run: seq<Action>, name: string)
    returns (id: nat, o: Pc, user: Option<string>)
    requires name in Run(cfg, Start(cfg), run).acc.users
    ensures From(cfg, run, id, o, user)
    ensures var u := Run(cfg, Start(cfg), run).acc.users[name]; AskedToRegister(cfg, o, name, u.email, u.password)
  {
    hide Step, From, AskedToRegister, Traced, Certificate;
    if run == [] {
      assert false;
    } else {
      var init, a := run[..|run| - 1], run[|run| - 1];
      assert run == init + [a];
      var w := Run(cfg, Start(cfg), init);
      hide Run;
      RunSnoc(cfg, Start(cfg), init, a);
      if name in w.acc.users {
        id, o, user := UsersComeFromRegistrations(cfg, init, name);
        FromStays(cfg, init, a, id, o, user);
        GrowsByStep(cfg, init, a);
      } else {
        NewUserIs(cfg, w, a, name);
        id := a.id;
        o, user := RegistrationIsSource(cfg, init, id, a.env, w.reqs[id].account);
      }
    }
  }

  lemma NewCodeIs(cfg: Settings, w: World, a: Action, code: string)
    requires CodeEntry(Step(cfg, w, a).acc, code).Some?
    ensures || CodeEntry(Step(cfg, w, a).acc, code) == CodeEntry(w.acc, code)
            || (&& a.Advance? && a.id in w.reqs && Registers(w.reqs[a.id])
                && CodeEntry(Step(cfg, w, a).acc, code) == Some(w.reqs[a.id].account.name)
                && w.reqs[a.id].account.code == code)
  {
    hide PostStep, ThreadStep, MarkStep, ReportStep, ConsoleStep, AS.CheckLogin, AS.CheckName, Trim, Rebuilt;
    if !TakesCode(code)(w, a) {
      StepKeepsCode(cfg, w, a, code);
    }
  }

  /** The request asked to register the name and was given the code. */
  predicate GivenCode(cfg: Settings, o: Pc, name: string, code: string) {
    && o.Account? && o.account.RegisterCheck? && o.account.code == code
    && name == Trim(o.account.rawName, cfg.alphabet.space)
  }

  lemma RegistrationIsGivenCode(cfg: Settings, o: Pc, name: string, email: string, password: string)
    requires AskedToRegister(cfg, o, name, email, password)
    ensures GivenCode(cfg, o, name, o.account.code)
  {
    hide Trim, ByteLength;
  }

  /** In every run, a stored validation code is that of a registration of the user it is stored for. */
  lemma {:induction false} CodesComeFromRegistrations(cfg: Settings, run: seq<Action>, code: string)
    returns (id: nat, o: Pc, user: Option<string>)
    requires CodeEntry(Run(cfg, Start(cfg), run).acc, code).Some?
    ensures From(cfg, run, id, o, user)
    ensures GivenCode(cfg, o, CodeEntry(Run(cfg, Start(cfg), run).acc, code).value, code)
  {
    hide Step, From, GivenCode, AskedToRegister, Traced, Certificate;
    if run == [] {
      assert false;
    } else {
      var init, a := run[..|run| - 1], run[|run| - 1];
      assert run == init + [a];
      var w := Run(cfg, Start(cfg), init);
      hide Run, CodeEntry;
      RunSnoc(cfg, Start(cfg), init, a);
      NewCodeIs(cfg, w, a, code);
      if CodeEntry(Run(cfg, Start(cfg), run).acc, code) == CodeEntry(w.acc, code) {
        id, o, user := CodesComeFromRegistrations(cfg, init, code);
        FromStays(cfg, init, a, id, o, user);
      } else {
        id := a.id;
        var pc := w.reqs[id].account;
        o, user := RegistrationIsSource(cfg, init, id, a.env, pc);
        RegistrationIsGivenCode(cfg, o, pc.name, pc.email, cfg.hash(pc.pass));
      }
    }
  }

  /** The user was asked for the code and gave it. */
  ghost predicate CodeWasUsed(cfg: Settings, run: seq<Action>, name: string) {
    exists id, id', o, user, user' ::
      && From(cfg, run, id, o, user) && o.Account? && o.account.RegisterCheck?
      && GivenCode(cfg, o, name, o.account.code) && From(cfg, run, id', Account(VerifyWrite(o.account.code)), user')
  }

  lemma CodeWasUsedStays(cfg: Settings, run: seq<Action>, a: Action, name: string)
    requires CodeWasUsed(cfg, run, name)
    ensures CodeWasUsed(cfg, run + [a], name)
  {
    hide From, GivenCode;
    var id, id', o, user, user' :|
      && From(cfg, run, id, o, user) && o.Account? && o.account.RegisterCheck?
      && GivenCode(cfg, o, name, o.account.code) && From(cfg, run, id', Account(VerifyWrite(o.account.code)), user');
    FromStays(cfg, run, a, id, o, user);
    FromStays(cfg, run, a, id', Account(VerifyWrite(o.account.code)), user');
  }

  lemma VerificationTraced(cfg: Settings, acc: AS.Accounts, o: Pc, user: Option<string>, code: string)
    requires Traced(cfg, acc, o, user, Account(VerifyWrite(code)))
    ensures o == Account(VerifyWrite(code))
  {
  }

  lemma GivenCodeIs(cfg: Settings, o: Pc, name: string, code: string)
    requires GivenCode(cfg, o, name, code)
    ensures o.Account? && o.account.RegisterCheck? && o.account.code == code
  {
    hide Trim;
  }

  lemma VerifierUsesCode(cfg: Settings, run: seq<Action>, a: Action, name: string)
    requires Verifies(name)(Run(cfg, Start(cfg), run), a)
    ensures CodeWasUsed(cfg, run + [a], name)
  {
    hide Run, From, GivenCode, Traced, Certificate;
    var w := Run(cfg, Start(cfg), run);
    var code := w.reqs[a.id].account.code;
    OnlyOpeningsLookUp(w.reqs[a.id]);
    var o', user' := WriterIsSource(cfg, run, a.id, a.env);
    VerificationTraced(cfg, w.acc, o', user', code);
    var id, o, user := CodesComeFromRegistrations(cfg, run, code);
    GivenCodeIs(cfg, o, name, code);
    FromStays(cfg, run, a, id, o, user);
  }

  /** In every run with mail enabled, a user is verified only if the code of a registration of this name was sent in. */
  lemma {:induction false} VerifiedUsersSentTheCode(cfg: Settings, run: seq<Action>, name: string)
    requires cfg.smtp && AS.Verified(Run(cfg, Start(cfg), run).acc, name)
    ensures CodeWasUsed(cfg, run, name)
  {
    hide Step, CodeWasUsed, Verifies;
    if run == [] {
      assert false;
    } else {
      var init, a := run[..|run| - 1], run[|run| - 1];
      assert run == init + [a];
      var w := Run(cfg, Start(cfg), init);
      hide Run;
      RunSnoc(cfg, Start(cfg), init, a);
      if AS.Verified(w.acc, name) {
        VerifiedUsersSentTheCode(cfg, init, name);
        CodeWasUsedStays(cfg, init, a, name);
      } else if name in w.acc.users {
        if !Verifies(name)(w, a) {
          StepKeepsUnverified(cfg, w, a, name);
        }
        VerifierUsesCode(cfg, init, a, name);
      } else {
        NewUserIs(cfg, w, a, name);
      }
    }
  }
}
