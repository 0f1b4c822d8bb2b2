/**
 How every request began and whose certificate opened it, over any run: where a request stands agrees with both, up to
 the step in which it writes.
 */
module Origins {
  import opened Options
  import opened Keys
  import opened Text
  import opened Mutes
  import opened ForumLog
  import opened Forums
  import opened Keyword
  import opened Requests
  import opened Safety
  import opened Invariants
  import opened Runs
  import opened AccountRuns
  import AS = AccountStore

  // ---------- What the run says about a request ----------

  /** The request that began under the number. */
  function Origin(cfg: Settings, run: seq<Action>, id: nat): Option<Pc> {
    if run == [] then None
    else
      var init, a := run[..|run| - 1], run[|run| - 1];
      if a.Begin? && a.id == id && id !in Run(cfg, Start(cfg), init).reqs && Starts(a.pc) then Some(a.pc)
      else Origin(cfg, init, id)
  }

  /** The certificate that the next step of a request looks up. */
  function Certificate(pc: Pc): Option<string> {
    match pc
    case Replying(PostOpen(fp, _, _)) => Some(fp)
    case Opening(ThreadOpen(fp, _, _, _)) => Some(fp)
    case Reporting(ReportOpen(fp, _)) => Some(fp)
    case Console(ConsoleOpen(fp, _)) => Some(fp)
    case _ => None
  }

  /** The step is the one in which the request looks up its certificate. */
  predicate LooksUp(w: World, a: Action, id: nat) {
    a.Advance? && a.id == id && id in w.reqs && Certificate(w.reqs[id]).Some?
  }

  /** Whose certificate it was in that step. */
  function UserAtOpening(cfg: Settings, run: seq<Action>, id: nat): Option<string> {
    if run == [] then None
    else
      var init, a := run[..|run| - 1], run[|run| - 1];
      var w := Run(cfg, Start(cfg), init);
      if LooksUp(w, a, id) then Entry(w.acc, Certificate(w.reqs[id]).value) else UserAtOpening(cfg, init, id)
  }

  // ---------- What a place in a program says about the origin ----------

  predicate IsReply(o: Pc, thread: Key, draft: Option<string>) {
    o.Replying? && o.post.PostOpen? && o.post.thread == thread && o.post.draft == draft
  }

  predicate IsNewThread(o: Pc, subforum: string, title: string, draft: Option<string>) {
    && o.Opening? && o.thread.ThreadOpen?
    && o.thread.subforum == subforum && o.thread.title == title && o.thread.draft == draft
  }

  /** The request asked for a login and gave a password of the user. */
  predicate IsLogin(cfg: Settings, acc: AS.Accounts, o: Pc, fp: string, user: string) {
    && o.Account? && o.account.LoginCheck? && o.account.fp == fp && o.account.user == user
    && user in acc.users && cfg.matches(acc.users[user].password, o.account.pass)
  }

  predicate IsRegistration(cfg: Settings, o: Pc, pc: AccountPc)
    requires pc.RegisterWrite?
  {
    var space := cfg.alphabet.space;
    && o.Account? && o.account.RegisterCheck? && ByteLength(o.account.pass) >= 8
    && pc == RegisterWrite(Trim(o.account.rawName, space), Trim(o.account.email, space), Trim(o.account.pass, space),
                           o.account.code)
  }

  /** A user reported the post. */
  predicate IsReport(o: Pc, user: Option<string>, post: Key) {
    o.Reporting? && o.report.ReportOpen? && o.report.post == post && user.Some? && user.value != ""
  }

  predicate IsReportOf(o: Pc, user: Option<string>, n: nat) {
    && o.Reporting? && o.report.ReportOpen? && KeyNumber(o.report.post) == Some(n)
    && user.Some? && user.value != ""
  }

  /** The command came from standard input, or a moderator sent it. */
  predicate IsCommand(cfg: Settings, o: Pc, user: Option<string>, command: Command) {
    || o == Console(ConsoleWrite(command))
    || (o.Console? && o.console.ConsoleOpen? && o.console.command == command
        && cfg.PrivOf(if user.Some? then user.value else "") >= 1)
  }

  predicate Traced(cfg: Settings, acc: AS.Accounts, o: Pc, user: Option<string>, pc: Pc) {
    match pc
    case Replying(PostRoute(u, thread, draft)) => IsReply(o, thread, draft) && user == Some(u)
    case Replying(PostNudge(u, thread, draft)) => IsReply(o, thread, draft) && user == Some(u)
    case Replying(PostWrite(u, thread, text)) => IsReply(o, thread, Some(text)) && user == Some(u)
    case Opening(ThreadNudge(u, sf, title, draft)) => IsNewThread(o, sf, title, draft) && user == Some(u)
    case Opening(ThreadWrite(u, sf, title, text)) => IsNewThread(o, sf, title, Some(text)) && user == Some(u)
    case Marking(u) => user == Some(u)
    case Account(LoginWrite(fp, u)) => IsLogin(cfg, acc, o, fp, u)
    case Account(RegisterWrite(name, email, pass, code)) =>
      IsRegistration(cfg, o, RegisterWrite(name, email, pass, code))
    case Reporting(ReportWrite(post)) => IsReport(o, user, post)
    case Reporting(ReportMail(n)) => IsReportOf(o, user, n)
    case Console(ConsoleWrite(command)) => IsCommand(cfg, o, user, command)
    case Done => true
    case _ => o == pc
  }

  /** What is said of the origin stays true. */
  lemma TraceStays(cfg: Settings, acc: AS.Accounts, acc': AS.Accounts, o: Pc, user: Option<string>, pc: Pc)
    requires AS.Grows(acc, acc') && Traced(cfg, acc, o, user, pc)
    ensures Traced(cfg, acc', o, user, pc)
  {
    hide KeyNumber, Trim, ByteLength;
  }

  // ---------- One step ----------

  lemma WhoIsEntry(acc: AS.Accounts, fp: string, now: int)
    requires AS.Sound(acc)
    ensures AS.WhoIs(acc, fp, now).0 == if Entry(acc, fp).Some? then Entry(acc, fp).value else ""
    ensures Entry(acc, fp).Some? ==> Entry(acc, fp).value != ""
  {
    hide IsMuted;
  }

  lemma PostReadTraced(cfg: Settings, acc: AS.Accounts, f: Forum, pc: PostPc, now: int, o: Pc, user: Option<string>,
                       user': Option<string>)
    requires !pc.PostWrite? && AS.Sound(acc) && Traced(cfg, acc, o, user, Replying(pc))
    requires user' == if pc.PostOpen? then Entry(acc, pc.fp) else user
    ensures var r := PostRead(cfg, acc, f, pc, now); r.Next? ==> Traced(cfg, acc, o, user', r.pc)
  {
    hide ThreadNumber, Threads, AS.WhoIs, AS.CheckNudge, AS.Sound, Entry;
    if pc.PostOpen? {
      WhoIsEntry(acc, pc.fp, now);
    }
  }

  lemma ThreadReadTraced(cfg: Settings, acc: AS.Accounts, pc: ThreadPc, now: int, o: Pc, user: Option<string>,
                         user': Option<string>)
    requires !pc.ThreadWrite? && AS.Sound(acc) && Traced(cfg, acc, o, user, Opening(pc))
    requires user' == if pc.ThreadOpen? then Entry(acc, pc.fp) else user
    ensures var r := ThreadRead(cfg, acc, pc, now); r.Next? ==> Traced(cfg, acc, o, user', r.pc)
  {
    hide AS.WhoIs, AS.CheckNudge, AS.Sound, Entry;
    if pc.ThreadOpen? {
      WhoIsEntry(acc, pc.fp, now);
    }
  }

  lemma AccountTraced(cfg: Settings, acc: AS.Accounts, pc: AccountPc, env: Env, o: Pc, user: Option<string>)
    requires Traced(cfg, acc, o, user, Account(pc))
    ensures var (acc', pc') := AccountOutcome(cfg, acc, pc, env); Traced(cfg, acc', o, user, pc')
  {
    hide Trim, ByteLength, AS.CheckName, AS.Register, AS.Verify, AS.Login, AS.Logout;
  }

  lemma ReportTraced(cfg: Settings, w: World, id: nat, pc: ReportPc, env: Env, o: Pc, user: Option<string>,
                     user': Option<string>)
    requires AS.Sound(w.acc) && Traced(cfg, w.acc, o, user, Reporting(pc))
    requires user' == if pc.ReportOpen? then Entry(w.acc, pc.fp) else user
    ensures var w' := ReportStep(w, id, pc, env); id in w'.reqs && Traced(cfg, w'.acc, o, user', w'.reqs[id])
  {
    hide KeyNumber, AS.WhoIs, AS.Sound, Entry, Report;
    if pc.ReportOpen? {
      WhoIsEntry(w.acc, pc.fp, env.now);
    }
  }

  lemma ConsoleTraced(cfg: Settings, w: World, id: nat, pc: ConsolePc, env: Env, o: Pc, user: Option<string>,
                      user': Option<string>)
    requires AS.Sound(w.acc) && Traced(cfg, w.acc, o, user, Console(pc))
    requires user' == if pc.ConsoleOpen? then Entry(w.acc, pc.fp) else user
    ensures var w' := ConsoleStep(cfg, w, id, pc, env); id in w'.reqs && Traced(cfg, w'.acc, o, user', w'.reqs[id])
  {
    hide CommandOutcome, AS.WhoIs, AS.Sound, Entry;
    if pc.ConsoleOpen? {
      WhoIsEntry(w.acc, pc.fp, env.now);
    }
  }

  /** A request moves to a place that says the truth about where it began. */
  lemma AdvanceTraced(cfg: Settings, w: World, id: nat, pc: Pc, env: Env, o: Pc, user: Option<string>,
                      user': Option<string>)
    requires AS.Sound(w.acc) && id in w.reqs && Traced(cfg, w.acc, o, user, pc) && pc != Done
    requires user' == if Certificate(pc).Some? then Entry(w.acc, Certificate(pc).value) else user
    ensures var w' := AdvanceStep(cfg, w, id, pc, env);
            id in w'.reqs && Traced(cfg, w'.acc, o, user', w'.reqs[id])
  {
    hide PostRead, ThreadRead, Reply, Open, ReplySends, OpenSends, AccountOutcome, ReportStep, ConsoleStep;
    hide AS.Sound, AS.ClearNudge, Traced, Entry;
    DoneIsTraced(cfg, w.acc, o, user');
    match pc
    case Replying(p) =>
      if !p.PostWrite? {
        PostReadTraced(cfg, w.acc, w.forum, p, env.now, o, user, user');
      }
    case Opening(t) =>
      if !t.ThreadWrite? {
        ThreadReadTraced(cfg, w.acc, t, env.now, o, user, user');
      }
    case Marking(u) => DoneIsTraced(cfg, AS.ClearNudge(w.acc, u, env.commit).acc, o, user');
    case Account(a) => AccountTraced(cfg, w.acc, a, env, o, user);
    case Reporting(r) => ReportTraced(cfg, w, id, r, env, o, user, user');
    case Console(c) => ConsoleTraced(cfg, w, id, c, env, o, user, user');
  }

  lemma DoneIsTraced(cfg: Settings, acc: AS.Accounts, o: Pc, user: Option<string>)
    ensures Traced(cfg, acc, o, user, Done)
  {
  }

  // ---------- Whole runs ----------

  ghost predicate AllTraced(cfg: Settings, run: seq<Action>) {
    var w := Run(cfg, Start(cfg), run);
    forall id :: id in w.reqs ==>
      && Origin(cfg, run, id).Some?
      && Traced(cfg, w.acc, Origin(cfg, run, id).value, UserAtOpening(cfg, run, id), w.reqs[id])
  }

  /** What the next step says about the origin and the user of a request that is already there. */
  lemma OriginStays(cfg: Settings, run: seq<Action>, a: Action, id: nat)
    requires id in Run(cfg, Start(cfg), run).reqs
    ensures Origin(cfg, run + [a], id) == Origin(cfg, run, id)
    ensures UserAtOpening(cfg, run + [a], id) ==
            var w := Run(cfg, Start(cfg), run);
            if LooksUp(w, a, id) then Entry(w.acc, Certificate(w.reqs[id]).value) else UserAtOpening(cfg, run, id)
  {
    hide Run, Starts, Certificate;
    assert (run + [a])[..|run|] == run;
  }

  lemma OriginBegins(cfg: Settings, run: seq<Action>, id: nat, pc: Pc)
    requires id !in Run(cfg, Start(cfg), run).reqs && Starts(pc)
    ensures Origin(cfg, run + [Begin(id, pc)], id) == Some(pc)
  {
    hide Run, Starts;
    assert (run + [Begin(id, pc)])[..|run|] == run;
  }

  lemma BeginsTraced(cfg: Settings, acc: AS.Accounts, pc: Pc, user: Option<string>)
    requires Starts(pc)
    ensures Traced(cfg, acc, pc, user, pc)
  {
  }

  lemma StepTraced(cfg: Settings, run: seq<Action>, a: Action, id: nat)
    requires AllTraced(cfg, run) && id in Run(cfg, Start(cfg), run + [a]).reqs
    ensures var v := Run(cfg, Start(cfg), run + [a]);
            && Origin(cfg, run + [a], id).Some?
            && Traced(cfg, v.acc, Origin(cfg, run + [a], id).value, UserAtOpening(cfg, run + [a], id), v.reqs[id])
  {
    hide Run, Base, Traced, Origin, UserAtOpening, Starts, AdvanceStep, AS.Grows, Rebuilt, Certificate, Entry;
    var w := Run(cfg, Start(cfg), run);
    RunSnoc(cfg, Start(cfg), run, a);
    RunKeepsBase(cfg, run);
    StepKeepsBase(cfg, w, a);
    if id in w.reqs {
      OriginStays(cfg, run, a, id);
      var o, user := Origin(cfg, run, id).value, UserAtOpening(cfg, run, id);
      DoneIsTraced(cfg, Step(cfg, w, a).acc, o, UserAtOpening(cfg, run + [a], id));
      if a.Advance? && a.id in w.reqs {
        AdvanceGoodHere(cfg, w, a.id, a.env);
        if a.id == id && w.reqs[id] != Done {
          SoundHere(cfg, w);
          AdvanceTraced(cfg, w, id, w.reqs[id], a.env, o, user, UserAtOpening(cfg, run + [a], id));
        } else if a.id == id {
          DoneStays(cfg, w, id, a.env);
        } else {
          GrowsHere(w, Step(cfg, w, a));
          TraceStays(cfg, w.acc, Step(cfg, w, a).acc, o, user, w.reqs[id]);
        }
      }
    } else {
      OnlyBeginsAdd(cfg, w, a, id);
      OriginBegins(cfg, run, id, a.pc);
      BeginsTraced(cfg, w.acc, a.pc, UserAtOpening(cfg, run + [a], id));
    }
  }

  lemma OnlyBeginsAdd(cfg: Settings, w: World, a: Action, id: nat)
    requires Base(cfg, w) && id !in w.reqs && id in Step(cfg, w, a).reqs
    ensures a.Begin? && a.id == id && Starts(a.pc)
    ensures Step(cfg, w, a).reqs[id] == a.pc && Step(cfg, w, a).acc == w.acc
  {
    hide AdvanceStep, Base, Rebuilt, Starts;
    if a.Advance? && a.id in w.reqs {
      AdvanceGoodHere(cfg, w, a.id, a.env);
    }
  }

  lemma AdvanceGoodHere(cfg: Settings, w: World, id: nat, env: Env)
    requires Base(cfg, w) && id in w.reqs
    ensures var w' := AdvanceStep(cfg, w, id, w.reqs[id], env);
            id in w'.reqs && w'.reqs == w.reqs[id := w'.reqs[id]]
  {
    hide AdvanceStep, Base, Later, AS.Sound, Forums.Sound, PcOk;
    AdvanceGood(cfg, w, id, env);
  }

  lemma SoundHere(cfg: Settings, w: World)
    requires Base(cfg, w)
    ensures AS.Sound(w.acc)
  {
  }

  lemma GrowsHere(w: World, w': World)
    requires Later(w, w')
    ensures AS.Grows(w.acc, w'.acc)
  {
  }

  /** In every run every request stands where its beginning and its certificate allow. */
  lemma {:induction false} RunIsTraced(cfg: Settings, run: seq<Action>)
    ensures AllTraced(cfg, run)
  {
    hide Run, Traced, Origin, UserAtOpening;
    if run == [] {
      RunStarts(cfg, Start(cfg));
    } else {
      var init, a := run[..|run| - 1], run[|run| - 1];
      RunIsTraced(cfg, init);
      assert run == init + [a];
      forall id | id in Run(cfg, Start(cfg), run).reqs
        ensures Origin(cfg, run, id).Some?
        ensures var w := Run(cfg, Start(cfg), run);
                Traced(cfg, w.acc, Origin(cfg, run, id).value, UserAtOpening(cfg, run, id), w.reqs[id])
      {
        StepTraced(cfg, init, a, id);
      }
    }
  }

  // ---------- Sources of what is stored ----------

  /** The request began as o, it has looked up its certificate if it has one, and the certificate was the user's. */
  ghost predicate From(cfg: Settings, run: seq<Action>, id: nat, o: Pc, user: Option<string>) {
    var w := Run(cfg, Start(cfg), run);
    && id in w.reqs && Certificate(w.reqs[id]).None?
    && Origin(cfg, run, id) == Some(o) && UserAtOpening(cfg, run, id) == user
  }

  lemma OnlyOpeningsLookUp(pc: Pc)
    ensures pc.Account? || pc == Done ==> Certificate(pc).None?
    ensures pc.Console? && pc.console.ConsoleWrite? ==> Certificate(pc).None?
    ensures pc.Reporting? && pc.report.ReportWrite? ==> Certificate(pc).None?
    ensures Writes(pc) ==> Certificate(pc).None? && pc != Done
  {
  }

  lemma NeverLooksUpAgain(cfg: Settings, w: World, id: nat, pc: Pc, env: Env)
    requires id in w.reqs && w.reqs[id] == pc && Certificate(pc).None?
    ensures var w' := AdvanceStep(cfg, w, id, pc, env); id in w'.reqs && Certificate(w'.reqs[id]).None?
  {
    hide Reply, Open, ReplySends, OpenSends, AS.CheckNudge, AS.ClearNudge, CommandOutcome, ReportError, Report;
    hide AccountOutcome, ThreadNumber, PostNumber, Threads;
    match pc
    case Account(a) => NoMailFromAccounts(cfg, w.acc, a, env);
    case _ =>
  }

  lemma FromStays(cfg: Settings, run: seq<Action>, a: Action, id: nat, o: Pc, user: Option<string>)
    requires From(cfg, run, id, o, user)
    ensures From(cfg, run + [a], id, o, user)
  {
    hide Run, AdvanceStep, Certificate, Origin, UserAtOpening, Base, Rebuilt, Starts;
    var w := Run(cfg, Start(cfg), run);
    RunSnoc(cfg, Start(cfg), run, a);
    RunKeepsBase(cfg, run);
    OriginStays(cfg, run, a, id);
    OnlyOpeningsLookUp(Done);
    if a.Advance? && a.id in w.reqs {
      AdvanceGoodHere(cfg, w, a.id, a.env);
      if a.id == id {
        NeverLooksUpAgain(cfg, w, id, w.reqs[id], a.env);
      }
    }
  }

  /** After its step, a request that is past its opening is the source of what it wrote. */
  lemma WriterIsSource(cfg: Settings, run: seq<Action>, id: nat, env: Env) returns (o: Pc, user: Option<string>)
    requires var w := Run(cfg, Start(cfg), run); id in w.reqs && Certificate(w.reqs[id]).None? && w.reqs[id] != Done
    ensures From(cfg, run + [Advance(id, env)], id, o, user)
    ensures var w := Run(cfg, Start(cfg), run); Traced(cfg, w.acc, o, user, w.reqs[id])
  {
    hide Run, Certificate, Origin, UserAtOpening, Traced;
    RunIsTraced(cfg, run);
    o, user := Origin(cfg, run, id).value, UserAtOpening(cfg, run, id);
    assert From(cfg, run, id, o, user);
    FromStays(cfg, run, Advance(id, env), id, o, user);
  }
}
