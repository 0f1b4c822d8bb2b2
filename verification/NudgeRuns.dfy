/** How often the nudge page is shown to a user, over any run. */
module NudgeRuns {
  import opened Options
  import opened Keys
  import opened Text
  import opened Mutes
  import opened ForumLog
  import opened Forums
  import opened Keyword
  import opened Requests
  import opened Safety
  import opened Invariants
  import opened Runs
  import AS = AccountStore

  function Count(names: seq<string>, u: string): nat { multiset(names)[u] }

  /** A request shows u the page and clears a nudge that another request has cleared since it looked. */
  predicate LateMark(w: World, a: Action, u: string) {
    && a.Advance? && a.id in w.reqs && a.env.commit && w.reqs[a.id] == Marking(u)
    && u in w.acc.users && w.acc.users[u].postnudge != "1"
  }

  /** How many steps of the run do so. */
  function Late(cfg: Settings, run: seq<Action>, u: string): nat {
    if run == [] then 0
    else
      var init := run[..|run| - 1];
      Late(cfg, init, u) + if LateMark(Run(cfg, Start(cfg), init), run[|run| - 1], u) then 1 else 0
  }

  /** The page was shown for every failure to clear the nudge, for clearing it, and late times besides. */
  ghost predicate Balanced(w: World, u: string, late: nat) {
    && Count(w.hist.pages, u) == Count(w.hist.unmarked, u) + (if AS.Nudged(w.acc, u) then 1 else 0) + late
    && (late > 0 ==> AS.Nudged(w.acc, u))
  }

  lemma AccountsKeepNudges(cfg: Settings, acc: AS.Accounts, pc: AccountPc, env: Env, u: string)
    ensures AS.Nudged(AccountOutcome(cfg, acc, pc, env).0, u) <==> AS.Nudged(acc, u)
  {
    hide AS.CheckLogin, AS.CheckName, Trim;
  }

  lemma CommandsKeepNudges(acc: AS.Accounts, f: Forum, command: Command, env: Env, u: string)
    ensures AS.Nudged(CommandOutcome(acc, f, command, env).0, u) <==> AS.Nudged(acc, u)
  {
    hide SetLock, Deadline;
  }

  /** Only the marking step touches the pages, and only it clears a nudge. */
  lemma NudgesStay(cfg: Settings, w: World, id: nat, pc: Pc, env: Env, u: string)
    requires !pc.Marking?
    ensures var w' := AdvanceStep(cfg, w, id, pc, env);
            && w'.hist.pages == w.hist.pages && w'.hist.unmarked == w.hist.unmarked
            && (AS.Nudged(w'.acc, u) <==> AS.Nudged(w.acc, u))
  {
    hide PostRead, ThreadRead, Reply, Open, ReplySends, OpenSends, AS.WhoIs, AccountOutcome, CommandOutcome;
    hide Report, ReportError, PostNumber, AS.Nudged;
    match pc
    case Account(a) => AccountsKeepNudges(cfg, w.acc, a, env, u);
    case Console(ConsoleWrite(command)) => CommandsKeepNudges(w.acc, w.forum, command, env, u);
    case _ =>
  }

  /** A request goes on to the marking step only when the nudge is set. */
  lemma MarkingFollowsCheck(cfg: Settings, w: World, id: nat, pc: Pc, env: Env)
    requires id in w.reqs
    ensures var w' := AdvanceStep(cfg, w, id, pc, env);
            id in w'.reqs && (pc != Done && w'.reqs[id].Marking? ==> !AS.Nudged(w'.acc, w'.reqs[id].user))
  {
    hide Reply, ReplySends, Open, OpenSends, ReportError, AS.WhoIs, AS.ClearNudge, AccountOutcome;
    hide ThreadNumber, Threads, CommandOutcome;
    match pc
    case Account(a) => NoMailFromAccounts(cfg, w.acc, a, env);
    case _ =>
  }

  lemma CountSnoc(names: seq<string>, x: string, u: string)
    ensures Count(names + [x], u) == Count(names, u) + if u == x then 1 else 0
  {
  }

  lemma MarkBalances(w: World, id: nat, user: string, env: Env, u: string, late: nat)
    requires Balanced(w, u, late) && id in w.reqs && w.reqs[id] == Marking(user) && user in w.acc.users
    ensures Balanced(MarkStep(w, id, user, env), u, late + if LateMark(w, Advance(id, env), u) then 1 else 0)
  {
    hide Count;
    CountSnoc(w.hist.pages, user, u);
    CountSnoc(w.hist.unmarked, user, u);
  }

  lemma StepBalances(cfg: Settings, w: World, a: Action, u: string, late: nat)
    requires Base(cfg, w) && Balanced(w, u, late)
    ensures Balanced(Step(cfg, w, a), u, late + if LateMark(w, a, u) then 1 else 0)
  {
    hide AdvanceStep, MarkStep, Count, AS.Nudged, AS.Sound, Forums.Sound, Rebuilt, Balanced;
    if a.Advance? && a.id in w.reqs {
      if w.reqs[a.id].Marking? {
        assert PcOk(cfg, w.acc, w.forum, w.reqs[a.id]);
        MarkBalances(w, a.id, w.reqs[a.id].user, a.env, u, late);
        MarkingIsMarkStep(cfg, w, a.id, w.reqs[a.id].user, a.env);
      } else {
        NudgesStay(cfg, w, a.id, w.reqs[a.id], a.env, u);
        SameBalance(w, Step(cfg, w, a), u, late);
      }
    } else {
      SameBalance(w, Step(cfg, w, a), u, late);
    }
  }

  lemma MarkingIsMarkStep(cfg: Settings, w: World, id: nat, user: string, env: Env)
    ensures AdvanceStep(cfg, w, id, Marking(user), env) == MarkStep(w, id, user, env)
  {
  }

  lemma SameBalance(w: World, w': World, u: string, late: nat)
    requires Balanced(w, u, late)
    requires w'.hist.pages == w.hist.pages && w'.hist.unmarked == w.hist.unmarked
    requires AS.Nudged(w'.acc, u) <==> AS.Nudged(w.acc, u)
    ensures Balanced(w', u, late)
  {
  }

  lemma {:induction false} RunBalances(cfg: Settings, run: seq<Action>, u: string)
    ensures Balanced(Run(cfg, Start(cfg), run), u, Late(cfg, run, u))
  {
    hide Step, Balanced, LateMark, Base;
    if run == [] {
      StartBalances(cfg, u);
    } else {
      var init := run[..|run| - 1];
      RunBalances(cfg, init, u);
      RunKeepsBase(cfg, init);
      StepBalances(cfg, Run(cfg, Start(cfg), init), run[|run| - 1], u, Late(cfg, init, u));
    }
  }

  lemma StartBalances(cfg: Settings, u: string)
    ensures Balanced(Start(cfg), u, 0)
  {
  }

  /** In every interleaving: how often a user has seen the nudge page. */
  lemma NudgePagesInAnyRun(cfg: Settings, run: seq<Action>, u: string)
    ensures var w := Run(cfg, Start(cfg), run);
            multiset(w.hist.pages)[u]
            == multiset(w.hist.unmarked)[u] + (if AS.Nudged(w.acc, u) then 1 else 0) + Late(cfg, run, u)
  {
    hide Run, Late, AS.Nudged;
    RunBalances(cfg, run, u);
  }

  /** In every interleaving in which clearing the nudge never failed for a user, the user saw the page at most once
      if and only if no request cleared it late. */
  lemma NudgeShownOnceIff(cfg: Settings, run: seq<Action>, u: string)
    requires u !in Run(cfg, Start(cfg), run).hist.unmarked
    ensures multiset(Run(cfg, Start(cfg), run).hist.pages)[u] <= 1 <==> Late(cfg, run, u) == 0
  {
    hide Run, Late, AS.Nudged;
    RunBalances(cfg, run, u);
  }
}
