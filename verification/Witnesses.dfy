/**
 Runs from the empty database that show what interleaving, aborts and restarts break: names that
 fold together, the nudge page shown twice, a stale document in the keyword index.
 */
module Witnesses {
  import opened Options
  import opened Keys
  import opened Text
  import opened Mutes
  import opened ForumLog
  import opened Forums
  import opened Keyword
  import opened Requests
  import opened Safety
  import opened Invariants
  import opened Runs
  import opened IndexRuns
  import opened NameRuns
  import opened ReportRuns
  import AS = AccountStore

  // ---------- Interleaving ----------

  /** Two requests that take a step each, and then another one each. */
  function Alternate(i: nat, j: nat, env: Env): seq<Action> {
    [Advance(i, env), Advance(j, env), Advance(i, env), Advance(j, env)]
  }

  lemma FourSteps(cfg: Settings, w: World, a: Action, b: Action, c: Action, d: Action)
    ensures Run(cfg, w, [a, b, c, d]) == Step(cfg, Step(cfg, Step(cfg, Step(cfg, w, a), b), c), d)
  {
    hide Run, Step;
    RunStarts(cfg, w);
    RunSnoc(cfg, w, [], a);
    RunSnoc(cfg, w, [a], b);
    RunSnoc(cfg, w, [a, b], c);
    RunSnoc(cfg, w, [a, b, c], d);
    assert [] + [a] == [a] && [a] + [b] == [a, b] && [a, b] + [c] == [a, b, c] && [a, b, c] + [d] == [a, b, c, d];
  }

  /** Interleaved registrations store both of two acceptable names, whether or not they fold together: each request
      checks its name before the other one stores its own. */
  lemma InterleavedNamesMayFoldTogether(cfg: Settings, w: World, i: nat, j: nat, x: string, y: string,
                                        email: string, pass: string, code: string, env: Env)
    requires i in w.reqs && w.reqs[i] == Account(RegisterCheck(x, email, pass, code))
    requires j in w.reqs && w.reqs[j] == Account(RegisterCheck(y, email, pass, code))
    requires AS.CheckName(w.acc, x, cfg.alphabet).None? && AS.CheckName(w.acc, y, cfg.alphabet).None?
    requires Trim(x, cfg.alphabet.space) == x && Trim(y, cfg.alphabet.space) == y
    requires x != y && x !in w.acc.users && y !in w.acc.users && env.commit && PasswordFits(pass)
    ensures var w' := Run(cfg, w, Alternate(i, j, env)); x in w'.acc.users && y in w'.acc.users
  {
    FourSteps(cfg, w, Advance(i, env), Advance(j, env), Advance(i, env), Advance(j, env));
    hide Run, Trim;
  }

  /** Thus "Ann" and "ann" can both be registered: from the empty database there is a run that stores any two
      acceptable names. */
  lemma BothNamesCanBeStored(cfg: Settings, x: string, y: string, pass: string, env: Env) returns (run: seq<Action>)
    requires x != y && env.commit
    requires PasswordFits(pass)
    requires AS.CheckName(Start(cfg).acc, x, cfg.alphabet).None? && Trim(x, cfg.alphabet.space) == x
    requires AS.CheckName(Start(cfg).acc, y, cfg.alphabet).None? && Trim(y, cfg.alphabet.space) == y
    ensures var users := Run(cfg, Start(cfg), run).acc.users; x in users && y in users
    ensures cfg.alphabet.equalFold(x, y) ==> !Unique(cfg, Run(cfg, Start(cfg), run).acc)
  {
    var a, b := Begin(0, Account(RegisterCheck(x, "", pass, ""))), Begin(1, Account(RegisterCheck(y, "", pass, "")));
    RunSnoc(cfg, Start(cfg), [], a);
    RunSnoc(cfg, Start(cfg), [a], b);
    assert [] + [a] == [a] && [a] + [b] == [a, b];
    var w := Run(cfg, Start(cfg), [a, b]);
    InterleavedNamesMayFoldTogether(cfg, w, 0, 1, x, y, "", pass, "", env);
    RunConcat(cfg, Start(cfg), [a, b], Alternate(0, 1, env));
    run := [a, b] + Alternate(0, 1, env);
  }

  /** Two interleaved requests of one user both show the nudge page. */
  lemma InterleavedNudgesShowTwice(cfg: Settings, w: World, i: nat, j: nat, user: string, sf: string, title: string,
                                   draft: Option<string>, env: Env)
    requires i in w.reqs && j in w.reqs && i != j
    requires w.reqs[i] == w.reqs[j] == Opening(ThreadNudge(user, sf, title, draft))
    requires AS.CheckNudge(w.acc, user) == Some(AS.ShouldPostNudge)
    ensures Run(cfg, w, Alternate(i, j, env)).hist.pages == w.hist.pages + [user, user]
    ensures env.commit ==> Run(cfg, w, Alternate(i, j, env)).hist.unmarked == w.hist.unmarked
  {
    FourSteps(cfg, w, Advance(i, env), Advance(j, env), Advance(i, env), Advance(j, env));
    hide Run;
  }

  // ---------- One request after the other ----------

  /** A request that begins and takes three steps; once it is done, more steps do nothing. */
  function Alone(id: nat, pc: Pc, env: Env): seq<Action> {
    [Begin(id, pc), Advance(id, env), Advance(id, env), Advance(id, env)]
  }

  /** What a user needs to get as far as opening threads. */
  datatype Guest = Guest(name: string, pass: string, code: string, fp: string, subforum: string, title: string)

  predicate Welcome(cfg: Settings, g: Guest) {
    && AS.CheckName(Start(cfg).acc, g.name, cfg.alphabet).None? && Trim(g.name, cfg.alphabet.space) == g.name
    && cfg.matches(cfg.hash(g.pass), g.pass)
    && Trim(g.pass, cfg.alphabet.space) == g.pass && PasswordFits(g.pass)
    && g.subforum in cfg.subs && cfg.PrivOf(g.name) >= cfg.subs[g.subforum].0
    && TitleProblem(Trim(g.title, cfg.alphabet.space), cfg.alphabet).None?
  }

  function UserOf(cfg: Settings, g: Guest, verified: string, postnudge: string): AS.User {
    AS.User(verified, cfg.hash(g.pass), postnudge, "", NotMuted)
  }

  function Env1(commit: bool): Env { Env(0, 0, true, commit) }

  lemma Begins(cfg: Settings, w: World, id: nat, pc: Pc)
    requires id !in w.reqs && Starts(pc)
    ensures Step(cfg, w, Begin(id, pc)) == w.(reqs := w.reqs[id := pc])
  {
    hide AdvanceStep, Rebuilt;
  }

  lemma TrimOfNothing(space: char -> bool)
    ensures Trim("", space) == ""
  {
  }

  lemma ChecksName(cfg: Settings, g: Guest, w: World)
    requires w == Start(cfg).(reqs := map[0 := Account(RegisterCheck(g.name, "", g.pass, g.code))]) && Welcome(cfg, g)
    ensures Step(cfg, w, Advance(0, Env1(true)))
         == w.(reqs := map[0 := Account(RegisterWrite(g.name, "", g.pass, g.code))])
  {
    TrimOfNothing(cfg.alphabet.space);
    hide PostStep, ThreadStep, MarkStep, ReportStep, ConsoleStep, Trim, AS.CheckName, TitleProblem, Rebuilt;
  }

  lemma StoresUser(cfg: Settings, g: Guest, w: World)
    requires w == Start(cfg).(reqs := map[0 := Account(RegisterWrite(g.name, "", g.pass, g.code))]) && g.name != ""
    ensures Step(cfg, w, Advance(0, Env1(true)))
         == w.(acc := AS.Accounts(map[g.name := UserOf(cfg, g, if cfg.smtp then "0" else "1", "1")],
                                  map[g.code := g.name], map[]),
               reqs := map[0 := Done])
  {
    hide PostStep, ThreadStep, MarkStep, ReportStep, ConsoleStep, Rebuilt;
  }

  lemma DoneAdvances(cfg: Settings, w: World, id: nat)
    requires id in w.reqs && w.reqs[id] == Done
    ensures Step(cfg, w, Advance(id, Env1(true))) == w
  {
    hide PostStep, ThreadStep, MarkStep, AccountStep, ReportStep, ConsoleStep, Rebuilt;
  }

  lemma Registers(cfg: Settings, g: Guest)
    requires Welcome(cfg, g)
    ensures var w := Start(cfg);
            Run(cfg, w, Alone(0, Account(RegisterCheck(g.name, "", g.pass, g.code)), Env1(true)))
            == w.(acc := AS.Accounts(map[g.name := UserOf(cfg, g, if cfg.smtp then "0" else "1", "1")],
                                     map[g.code := g.name], map[]),
                  reqs := map[0 := Done])
  {
    hide Run, Step, Trim, AS.CheckName, TitleProblem;
    GuestHasName(cfg, g);
    var w, a := Start(cfg), Advance(0, Env1(true));
    var pc := Account(RegisterCheck(g.name, "", g.pass, g.code));
    FourSteps(cfg, w, Begin(0, pc), a, a, a);
    Begins(cfg, w, 0, pc);
    var w1 := w.(reqs := map[0 := pc]);
    ChecksName(cfg, g, w1);
    StoresUser(cfg, g, Step(cfg, w1, a));
    DoneAdvances(cfg, Step(cfg, Step(cfg, w1, a), a), 0);
  }

  lemma VerifiesCode(cfg: Settings, g: Guest, w: World, v: string)
    requires w.acc == AS.Accounts(map[g.name := UserOf(cfg, g, v, "1")], map[g.code := g.name], map[]) && 1 !in w.reqs
    ensures Run(cfg, w, Alone(1, Account(VerifyWrite(g.code)), Env1(true)))
         == w.(acc := AS.Accounts(map[g.name := UserOf(cfg, g, "1", "1")], map[], map[]), reqs := w.reqs[1 := Done])
  {
    hide PostStep, ThreadStep, MarkStep, ReportStep, ConsoleStep;
    var a := Advance(1, Env1(true));
    FourSteps(cfg, w, Begin(1, Account(VerifyWrite(g.code))), a, a, a);
    hide Run;
  }

  lemma LogsIn(cfg: Settings, g: Guest, w: World)
    requires cfg.matches(cfg.hash(g.pass), g.pass)
    requires w.acc == AS.Accounts(map[g.name := UserOf(cfg, g, "1", "1")], map[], map[]) && 2 !in w.reqs
    ensures Run(cfg, w, Alone(2, Account(LoginCheck(g.fp, g.name, g.pass)), Env1(true)))
         == w.(acc := w.acc.(certfp := map[g.fp := g.name]), reqs := w.reqs[2 := Done])
  {
    hide PostStep, ThreadStep, MarkStep, ReportStep, ConsoleStep;
    var a := Advance(2, Env1(true));
    FourSteps(cfg, w, Begin(2, Account(LoginCheck(g.fp, g.name, g.pass))), a, a, a);
    hide Run;
  }

  /** The accounts of a user who has registered, verified and logged in. */
  function Joined(cfg: Settings, g: Guest, postnudge: string): AS.Accounts {
    AS.Accounts(map[g.name := UserOf(cfg, g, "1", postnudge)], map[], map[g.fp := g.name])
  }

  function JoinRun(g: Guest): seq<Action> {
    Alone(0, Account(RegisterCheck(g.name, "", g.pass, g.code)), Env1(true))
    + Alone(1, Account(VerifyWrite(g.code)), Env1(true))
    + Alone(2, Account(LoginCheck(g.fp, g.name, g.pass)), Env1(true))
  }

  lemma Joins(cfg: Settings, g: Guest)
    requires Welcome(cfg, g)
    ensures Run(cfg, Start(cfg), JoinRun(g))
         == Start(cfg).(acc := Joined(cfg, g, "1"), reqs := map[0 := Done, 1 := Done, 2 := Done])
  {
    hide Run, Alone, AS.CheckName, Trim, TitleProblem;
    var a := Alone(0, Account(RegisterCheck(g.name, "", g.pass, g.code)), Env1(true));
    var b := Alone(1, Account(VerifyWrite(g.code)), Env1(true));
    var c := Alone(2, Account(LoginCheck(g.fp, g.name, g.pass)), Env1(true));
    Registers(cfg, g);
    RunConcat(cfg, Start(cfg), a, b);
    VerifiesCode(cfg, g, Run(cfg, Start(cfg), a), if cfg.smtp then "0" else "1");
    RunConcat(cfg, Start(cfg), a + b, c);
    LogsIn(cfg, g, Run(cfg, Start(cfg), a + b));
    assert map[0 := Done][1 := Done][2 := Done] == map[0 := Done, 1 := Done, 2 := Done];
  }

  // ---------- The nudge page shown twice ----------

  function OpenPc(g: Guest, text: string): Pc {
    Opening(ThreadOpen(g.fp, g.subforum, g.title, Some(text)))
  }

  // The single steps of a guest's request for a new thread.

  lemma ReadsCertificate(cfg: Settings, g: Guest, w: World, id: nat, text: string, nudge: string, commit: bool)
    requires w.acc == Joined(cfg, g, nudge) && g.name != "" && id in w.reqs && w.reqs[id] == OpenPc(g, text)
    ensures Step(cfg, w, Advance(id, Env1(commit)))
         == w.(reqs := w.reqs[id := Opening(ThreadNudge(g.name, g.subforum, g.title, Some(text)))])
  {
    hide PostStep, MarkStep, AccountStep, ReportStep, ConsoleStep, Open, OpenSends, Rebuilt;
  }

  lemma ReadsNudge(cfg: Settings, g: Guest, w: World, id: nat, text: string, nudge: string, commit: bool)
    requires w.acc == Joined(cfg, g, nudge) && id in w.reqs
    requires w.reqs[id] == Opening(ThreadNudge(g.name, g.subforum, g.title, Some(text)))
    requires g.subforum in cfg.subs && cfg.PrivOf(g.name) >= cfg.subs[g.subforum].0
    ensures Step(cfg, w, Advance(id, Env1(commit)))
         == w.(reqs := w.reqs[id := if nudge == "1" then Marking(g.name)
                                    else Opening(ThreadWrite(g.name, g.subforum, g.title, text))])
  {
    hide PostStep, MarkStep, AccountStep, ReportStep, ConsoleStep, Open, OpenSends, Rebuilt;
  }

  lemma MarksNudge(cfg: Settings, g: Guest, w: World, id: nat)
    requires w.acc == Joined(cfg, g, "1") && id in w.reqs && w.reqs[id] == Marking(g.name)
    ensures var v := Step(cfg, w, Advance(id, Env1(true)));
            && v.acc == Joined(cfg, g, "0") && v.forum == w.forum && v.docs == w.docs && v.chan == w.chan
            && v.reqs == w.reqs[id := Done]
  {
    hide PostStep, ThreadStep, AccountStep, ReportStep, ConsoleStep, Rebuilt;
  }

  lemma WritesThread(cfg: Settings, g: Guest, w: World, id: nat, text: string, commit: bool)
    requires id in w.reqs && w.reqs[id] == Opening(ThreadWrite(g.name, g.subforum, g.title, text))
    ensures var v := Step(cfg, w, Advance(id, Env1(commit)));
            && v.acc == w.acc && v.docs == w.docs && v.reqs == w.reqs[id := Done]
            && v.forum == Open(w.forum, cfg.alphabet, g.subforum, g.name, g.title, text, Some(0), commit)
            && v.chan == w.chan + OpenSends(w.forum, cfg.alphabet, g.subforum, g.name, g.title, text, Some(0), commit)
  {
    hide PostStep, MarkStep, AccountStep, ReportStep, ConsoleStep, Open, OpenSends, ThreadRead, Rebuilt;
  }

  function TwoOpenings(g: Guest): seq<Action> {
    [Begin(3, OpenPc(g, "")), Begin(4, OpenPc(g, "")), Advance(3, Env1(true)), Advance(4, Env1(true))]
  }

  lemma BothAtTheNudge(cfg: Settings, g: Guest, w: World)
    requires w.acc == Joined(cfg, g, "1") && 3 !in w.reqs && 4 !in w.reqs && g.name != ""
    ensures var pc := Opening(ThreadNudge(g.name, g.subforum, g.title, Some("")));
            Run(cfg, w, TwoOpenings(g)) == w.(reqs := w.reqs[3 := pc][4 := pc])
  {
    hide Run, Step, Joined;
    FourSteps(cfg, w, Begin(3, OpenPc(g, "")), Begin(4, OpenPc(g, "")), Advance(3, Env1(true)), Advance(4, Env1(true)));
    var w1 := w.(reqs := w.reqs[3 := OpenPc(g, "")]);
    var w2 := w1.(reqs := w1.reqs[4 := OpenPc(g, "")]);
    Begins(cfg, w, 3, OpenPc(g, ""));
    Begins(cfg, w1, 4, OpenPc(g, ""));
    ReadsCertificate(cfg, g, w2, 3, "", "1", true);
    ReadsCertificate(cfg, g, Step(cfg, w2, Advance(3, Env1(true))), 4, "", "1", true);
    var pc := Opening(ThreadNudge(g.name, g.subforum, g.title, Some("")));
    assert w2.reqs[3 := pc][4 := pc] == w.reqs[3 := pc][4 := pc];
  }

  /** A run from the empty database that shows one user the nudge page twice, although clearing it never failed. */
  lemma NudgeCanBeShownTwice(cfg: Settings, g: Guest) returns (run: seq<Action>)
    requires Welcome(cfg, g)
    ensures var hist := Run(cfg, Start(cfg), run).hist; hist.pages == [g.name, g.name] && hist.unmarked == []
  {
    hide Run, Alternate, TwoOpenings, JoinRun, AS.CheckName, Trim, TitleProblem;
    assert g.name != "" by { GuestHasName(cfg, g); }
    Joins(cfg, g);
    var w := Run(cfg, Start(cfg), JoinRun(g));
    BothAtTheNudge(cfg, g, w);
    RunConcat(cfg, Start(cfg), JoinRun(g), TwoOpenings(g));
    var v := Run(cfg, Start(cfg), JoinRun(g) + TwoOpenings(g));
    InterleavedNudgesShowTwice(cfg, v, 3, 4, g.name, g.subforum, g.title, Some(""), Env1(true));
    RunConcat(cfg, Start(cfg), JoinRun(g) + TwoOpenings(g), Alternate(3, 4, Env1(true)));
    run := JoinRun(g) + TwoOpenings(g) + Alternate(3, 4, Env1(true));
  }

  lemma GuestHasName(cfg: Settings, g: Guest)
    requires Welcome(cfg, g)
    ensures g.name != ""
  {
    hide Trim, TitleProblem, ByteLength;
  }

  // ---------- A stale document ----------

  /** The first request of the user clears the nudge. */
  lemma ClearsNudge(cfg: Settings, g: Guest, w: World)
    requires w.acc == Joined(cfg, g, "1") && 3 !in w.reqs && Welcome(cfg, g) && g.name != ""
    ensures var v := Run(cfg, w, Alone(3, OpenPc(g, ""), Env1(true)));
            && v.acc == Joined(cfg, g, "0") && v.forum == w.forum && v.docs == w.docs && v.chan == w.chan
            && v.reqs == w.reqs[3 := Done]
  {
    hide Run, Step, Joined, Trim, TitleProblem, AS.CheckName;
    var a := Advance(3, Env1(true));
    FourSteps(cfg, w, Begin(3, OpenPc(g, "")), a, a, a);
    var w1 := w.(reqs := w.reqs[3 := OpenPc(g, "")]);
    Begins(cfg, w, 3, OpenPc(g, ""));
    ReadsCertificate(cfg, g, w1, 3, "", "1", true);
    ReadsNudge(cfg, g, Step(cfg, w1, a), 3, "", "1", true);
    MarksNudge(cfg, g, Step(cfg, Step(cfg, w1, a), a), 3);
  }

  lemma OpensThread(cfg: Settings, g: Guest, w: World, id: nat, text: string, commit: bool)
    requires w.acc == Joined(cfg, g, "0") && id !in w.reqs && Welcome(cfg, g) && g.name != ""
    ensures var v := Run(cfg, w, Alone(id, OpenPc(g, text), Env1(commit)));
            && v.acc == w.acc && v.docs == w.docs && v.reqs == w.reqs[id := Done]
            && v.forum == Open(w.forum, cfg.alphabet, g.subforum, g.name, g.title, text, Some(0), commit)
            && v.chan == w.chan + OpenSends(w.forum, cfg.alphabet, g.subforum, g.name, g.title, text, Some(0), commit)
  {
    hide Run, Step, Joined, Open, OpenSends, Trim, TitleProblem, AS.CheckName;
    var a := Advance(id, Env1(commit));
    FourSteps(cfg, w, Begin(id, OpenPc(g, text)), a, a, a);
    var w1 := w.(reqs := w.reqs[id := OpenPc(g, text)]);
    Begins(cfg, w, id, OpenPc(g, text));
    ReadsCertificate(cfg, g, w1, id, text, "0", commit);
    ReadsNudge(cfg, g, Step(cfg, w1, a), id, text, "0", commit);
    WritesThread(cfg, g, Step(cfg, Step(cfg, w1, a), a), id, text, commit);
  }

  /** Open the first thread of an empty forum: what it leaves, and what it sends. */
  lemma FirstThread(cfg: Settings, g: Guest, f: Forum, text: string, commit: bool)
    requires f == Forum([], {}, {}, cfg.subs.Keys) && Welcome(cfg, g) && g.name != ""
    ensures var e := Opened(g.subforum, Trim(g.title, cfg.alphabet.space), g.name, text, 0);
            Open(f, cfg.alphabet, g.subforum, g.name, g.title, text, Some(0), commit)
            == if commit then f.(log := [e]) else f
    ensures OpenSends(f, cfg.alphabet, g.subforum, g.name, g.title, text, Some(0), commit)
         == [Message(g.name, text, Itob(1), Itob(1))]
  {
    hide Trim, TitleProblem, AS.CheckName, Itob;
    assert Threads([]) == [];
  }

  /** An aborted thread, its message applied, a committed thread under the same id, and a stop of the server before its
      message is applied. */
  function StaleRun(g: Guest, aborted: string, kept: string): seq<Action> {
    JoinRun(g)
    + Alone(3, OpenPc(g, ""), Env1(true))
    + Alone(4, OpenPc(g, aborted), Env1(false))
    + [Deliver]
    + Alone(5, OpenPc(g, kept), Env1(true))
    + [Restart(false)]
  }

  lemma UpToTheAbort(cfg: Settings, g: Guest, aborted: string) returns (run: seq<Action>)
    requires Welcome(cfg, g) && g.name != ""
    ensures run == JoinRun(g) + Alone(3, OpenPc(g, ""), Env1(true)) + Alone(4, OpenPc(g, aborted), Env1(false))
    ensures var w := Run(cfg, Start(cfg), run);
            && w.acc == Joined(cfg, g, "0") && w.forum == Start(cfg).forum && w.docs == map[]
            && w.chan == [Message(g.name, aborted, Itob(1), Itob(1))] && 5 !in w.reqs
  {
    hide Run, Step, JoinRun, Alone, Open, OpenSends, Welcome, Joined, Itob;
    Joins(cfg, g);
    var a, b := Alone(3, OpenPc(g, ""), Env1(true)), Alone(4, OpenPc(g, aborted), Env1(false));
    ClearsNudge(cfg, g, Run(cfg, Start(cfg), JoinRun(g)));
    RunConcat(cfg, Start(cfg), JoinRun(g), a);
    OpensThread(cfg, g, Run(cfg, Start(cfg), JoinRun(g) + a), 4, aborted, false);
    FirstThread(cfg, g, Start(cfg).forum, aborted, false);
    RunConcat(cfg, Start(cfg), JoinRun(g) + a, b);
    run := JoinRun(g) + a + b;
  }

  /** Delivering the only message. */
  lemma DeliversOnly(cfg: Settings, w: World, m: Message)
    requires w.chan == [m] && w.docs == map[]
    ensures Step(cfg, w, Deliver) == w.(docs := map[m.id := m], chan := [])
  {
    hide AdvanceStep, Rebuilt;
  }

  lemma RestartForgets(cfg: Settings, w: World)
    ensures var v := Step(cfg, w, Restart(false)); v.forum == w.forum && v.docs == w.docs && v.chan == []
  {
    hide AdvanceStep, Rebuilt;
  }

  lemma WrongDocument(w: World, name: string, sf: string, title: string, aborted: string, kept: string)
    requires aborted != kept && w.chan == []
    requires w.forum.log == [Opened(sf, title, name, kept, 0)]
    requires w.docs == map[Itob(1) := Message(name, aborted, Itob(1), Itob(1))]
    ensures Harmed(w, 1)
  {
    hide Itob;
    Snoc([], Opened(sf, title, name, kept, 0));
    assert [] + [Opened(sf, title, name, kept, 0)] == [Opened(sf, title, name, kept, 0)];
  }

  /** A run from the empty database after which the committed post is indexed with the text of the aborted one, and
      stays so in every further run that does not repopulate the index. */
  lemma StaleDocumentStays(cfg: Settings, g: Guest, aborted: string, kept: string, more: seq<Action>)
    requires Welcome(cfg, g) && aborted != kept && Restart(true) !in more
    ensures Harmed(Run(cfg, Start(cfg), StaleRun(g, aborted, kept) + more), 1)
  {
    hide Run, Step, JoinRun, Alone, Open, OpenSends, Welcome, Joined, Itob, Harmed;
    GuestHasName(cfg, g);
    var start := Start(cfg);
    var a := UpToTheAbort(cfg, g, aborted);
    var w := Run(cfg, start, a);
    RunSnoc(cfg, start, a, Deliver);
    DeliversOnly(cfg, w, Message(g.name, aborted, Itob(1), Itob(1)));
    var c := Alone(5, OpenPc(g, kept), Env1(true));
    OpensThread(cfg, g, Run(cfg, start, a + [Deliver]), 5, kept, true);
    FirstThread(cfg, g, start.forum, kept, true);
    RunConcat(cfg, start, a + [Deliver], c);
    RunSnoc(cfg, start, a + [Deliver] + c, Restart(false));
    RestartForgets(cfg, Run(cfg, start, a + [Deliver] + c));
    WrongDocument(Run(cfg, start, StaleRun(g, aborted, kept)), g.name, g.subforum,
                  Trim(g.title, cfg.alphabet.space), aborted, kept);
    RunConcat(cfg, start, StaleRun(g, aborted, kept), more);
    HarmStaysOverRuns(cfg, Run(cfg, start, StaleRun(g, aborted, kept)), more, 1);
  }

  // ---------- A post of a muted user ----------

  lemma ThreeMore(cfg: Settings, run: seq<Action>, a: Action, b: Action, c: Action)
    ensures Run(cfg, Start(cfg), run + [a, b, c])
         == Step(cfg, Step(cfg, Step(cfg, Run(cfg, Start(cfg), run), a), b), c)
  {
    hide Run, Step;
    RunSnoc(cfg, Start(cfg), run, a);
    RunSnoc(cfg, Start(cfg), run + [a], b);
    RunSnoc(cfg, Start(cfg), run + [a] + [b], c);
    assert run + [a, b, c] == run + [a] + [b] + [c];
  }

  /** The user's request gets as far as the write. */
  lemma UpToTheWrite(cfg: Settings, g: Guest, text: string) returns (run: seq<Action>)
    requires Welcome(cfg, g) && g.name != ""
    ensures var w := Run(cfg, Start(cfg), run);
            && w.acc == Joined(cfg, g, "0") && w.forum == Start(cfg).forum
            && 4 in w.reqs && w.reqs[4] == Opening(ThreadWrite(g.name, g.subforum, g.title, text)) && 5 !in w.reqs
  {
    hide Run, Step, JoinRun, Alone, Joined, Trim, TitleProblem, AS.CheckName;
    Joins(cfg, g);
    var start, a := Start(cfg), Alone(3, OpenPc(g, ""), Env1(true));
    ClearsNudge(cfg, g, Run(cfg, start, JoinRun(g)));
    RunConcat(cfg, start, JoinRun(g), a);
    var w := Run(cfg, start, JoinRun(g) + a);
    var b, c := Begin(4, OpenPc(g, text)), Advance(4, Env1(true));
    ThreeMore(cfg, JoinRun(g) + a, b, c, c);
    Begins(cfg, w, 4, OpenPc(g, text));
    var w1 := w.(reqs := w.reqs[4 := OpenPc(g, text)]);
    ReadsCertificate(cfg, g, w1, 4, text, "0", true);
    ReadsNudge(cfg, g, Step(cfg, w1, c), 4, text, "0", true);
    run := JoinRun(g) + a + [b, c, c];
  }

  lemma MutesGuest(cfg: Settings, g: Guest, w: World)
    requires w.acc == Joined(cfg, g, "0") && 5 in w.reqs && w.reqs[5] == Console(ConsoleWrite(Mute(g.name, Forever)))
    ensures var v := Step(cfg, w, Advance(5, Env1(true)));
            && g.name in v.acc.users && v.acc.users[g.name].muted == Permanent
            && v.forum == w.forum && v.reqs == w.reqs[5 := Done]
  {
    hide PostStep, ThreadStep, MarkStep, AccountStep, ReportStep, Rebuilt;
  }

  /** A run from the empty database that mutes a user for ever, and one more step after which a thread of the muted user
      is in the log: its request was past its opening when the mute was committed. */
  lemma MutedUserCanPost(cfg: Settings, g: Guest, text: string) returns (run: seq<Action>)
    requires Welcome(cfg, g)
    ensures var w := Run(cfg, Start(cfg), run);
            && g.name in w.acc.users && w.acc.users[g.name].muted == Permanent && w.forum.log == []
    ensures var v := Run(cfg, Start(cfg), run + [Advance(4, Env1(true))]);
            && g.name in v.acc.users && v.acc.users[g.name].muted == Permanent
            && |v.forum.log| == 1 && Posts(v.forum.log)[0].author == g.name
  {
    hide Run, Step, Joined, Trim, TitleProblem, AS.CheckName, Open, OpenSends;
    GuestHasName(cfg, g);
    var start, b, c := Start(cfg), Begin(5, Console(ConsoleWrite(Mute(g.name, Forever)))), Advance(5, Env1(true));
    var r := UpToTheWrite(cfg, g, text);
    var w := Run(cfg, start, r);
    RunSnoc(cfg, start, r, b);
    RunSnoc(cfg, start, r + [b], c);
    Begins(cfg, w, 5, Console(ConsoleWrite(Mute(g.name, Forever))));
    var w1 := w.(reqs := w.reqs[5 := Console(ConsoleWrite(Mute(g.name, Forever)))]);
    MutesGuest(cfg, g, w1);
    run := r + [b] + [c];
    RunSnoc(cfg, start, run, Advance(4, Env1(true)));
    WritesThread(cfg, g, Step(cfg, w1, c), 4, text, true);
    FirstThread(cfg, g, start.forum, text, true);
    FirstPost(Opened(g.subforum, Trim(g.title, cfg.alphabet.space), g.name, text, 0));
  }

  lemma FirstPost(e: Event)
    ensures Posts([e])[0].author == e.author
  {
    Snoc([], e);
    assert [] + [e] == [e];
  }

  // ---------- A report without a mail ----------

  lemma ReadsReporter(cfg: Settings, g: Guest, w: World)
    requires w.acc == Joined(cfg, g, "0") && g.name != ""
    requires 5 in w.reqs && w.reqs[5] == Reporting(ReportOpen(g.fp, Itob(1)))
    ensures Step(cfg, w, Advance(5, Env1(true))) == w.(reqs := w.reqs[5 := Reporting(ReportWrite(Itob(1)))])
  {
    hide PostStep, ThreadStep, MarkStep, AccountStep, ConsoleStep, Rebuilt, Itob, Report, ReportError, IsMuted;
  }

  lemma FirstPostNumber(f: Forum)
    requires |f.log| == 1
    ensures PostNumber(f, Itob(1)) == Some(1)
  {
    hide Itob, KeyNumber;
    KeyRoundTrip(1);
  }

  lemma SetsReported(cfg: Settings, w: World)
    requires |w.forum.log| == 1 && w.forum.reported == {}
    requires 5 in w.reqs && w.reqs[5] == Reporting(ReportWrite(Itob(1)))
    ensures var v := Step(cfg, w, Advance(5, Env1(true)));
            && v.forum == w.forum.(reported := {1}) && v.hist == w.hist
            && v.reqs == w.reqs[5 := Reporting(ReportMail(1))]
  {
    FirstPostNumber(w.forum);
    hide PostStep, ThreadStep, MarkStep, AccountStep, ConsoleStep, Rebuilt, PostNumber;
    assert {} + {1} == {1};
  }

  lemma StopForgets(cfg: Settings, w: World)
    requires 1 in w.forum.reported && 1 !in w.hist.mails
    ensures Forgotten(Step(cfg, w, Restart(false)), 1)
  {
    hide AdvanceStep, Rebuilt;
  }

  /** The first thread is in the log, nobody has reported it, and no mail was attempted. */
  lemma UpToTheThread(cfg: Settings, g: Guest, text: string) returns (run: seq<Action>)
    requires Welcome(cfg, g) && g.name != ""
    ensures var w := Run(cfg, Start(cfg), run);
            && w.acc == Joined(cfg, g, "0") && |w.forum.log| == 1 && w.forum.reported == {} && 5 !in w.reqs
  {
    hide Run, Step, Joined, Trim, TitleProblem, AS.CheckName, Open, OpenSends;
    var r := UpToTheWrite(cfg, g, text);
    RunSnoc(cfg, Start(cfg), r, Advance(4, Env1(true)));
    WritesThread(cfg, g, Run(cfg, Start(cfg), r), 4, text, true);
    FirstThread(cfg, g, Start(cfg).forum, text, true);
    run := r + [Advance(4, Env1(true))];
  }

  /** A run from the empty database after which a post is reported and no mail about it is ever attempted. */
  lemma ReportCanBeForgotten(cfg: Settings, g: Guest, text: string, more: seq<Action>) returns (run: seq<Action>)
    requires Welcome(cfg, g)
    ensures Forgotten(Run(cfg, Start(cfg), run + more), 1)
  {
    hide Run, Step, Joined, Welcome, Itob, Forgotten;
    GuestHasName(cfg, g);
    var start, pc := Start(cfg), Reporting(ReportOpen(g.fp, Itob(1)));
    var b, c := Begin(5, pc), Advance(5, Env1(true));
    var r := UpToTheThread(cfg, g, text);
    var w := Run(cfg, start, r);
    ThreeMore(cfg, r, b, c, c);
    Begins(cfg, w, 5, pc);
    var w1 := w.(reqs := w.reqs[5 := pc]);
    ReadsReporter(cfg, g, w1);
    SetsReported(cfg, Step(cfg, w1, c));
    MailsAreReported(cfg, r);
    RunSnoc(cfg, start, r + [b, c, c], Restart(false));
    StopForgets(cfg, Run(cfg, start, r + [b, c, c]));
    run := r + [b, c, c] + [Restart(false)];
    ForgottenReportsStay(cfg, run, more, 1);
  }

  lemma MailsAreReported(cfg: Settings, run: seq<Action>)
    ensures var w := Run(cfg, Start(cfg), run); w.forum.reported == {} ==> forall n :: n !in w.hist.mails
  {
    hide Run;
    OneMailPerPost(cfg, run);
  }
}
