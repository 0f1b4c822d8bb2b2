/** Requests run one at a time: names are unique up to case, and the nudge page is shown once. */
module SerialRuns {
  import opened Options
  import opened Keys
  import opened Text
  import opened Mutes
  import opened ForumLog
  import opened Forums
  import opened Keyword
  import opened Requests
  import opened Safety
  import opened Invariants
  import opened Runs
  import opened NameRuns
  import opened NudgeRuns
  import AS = AccountStore

  predicate AllDone(w: World) {
    forall id :: id in w.reqs ==> w.reqs[id] == Done
  }

  /** Every request begins only when all earlier ones are done. */
  predicate Serial(cfg: Settings, run: seq<Action>) {
    run != [] ==>
      var init := run[..|run| - 1];
      Serial(cfg, init) && (run[|run| - 1].Begin? ==> AllDone(Run(cfg, Start(cfg), init)))
  }

  ghost predicate OneAtATime(w: World) {
    forall i, j :: i in w.reqs && j in w.reqs && w.reqs[i] != Done && w.reqs[j] != Done ==> i == j
  }

  lemma StepKeepsOne(cfg: Settings, w: World, a: Action)
    requires Base(cfg, w) && OneAtATime(w) && (a.Begin? ==> AllDone(w))
    ensures OneAtATime(Step(cfg, w, a))
  {
    hide AdvanceStep, Base, PcOk, Later, AS.Sound, Forums.Sound;
    if a.Advance? && a.id in w.reqs {
      AdvanceGood(cfg, w, a.id, a.env);
      if w.reqs[a.id] == Done {
        DoneStays(cfg, w, a.id, a.env);
      }
    }
  }

  // ---------- What a request has found stays so until it writes ----------

  /** A name about to be registered folds to no stored name, and a nudge about to be cleared is set. */
  ghost predicate FindsStand(cfg: Settings, w: World) {
    && (forall id :: id in w.reqs && Registers(w.reqs[id]) ==> Fresh(cfg, w.acc, w.reqs[id].account.name))
    && (forall id :: id in w.reqs && w.reqs[id].Marking? ==> !AS.Nudged(w.acc, w.reqs[id].user))
  }

  lemma OnlyOneIsUnderWay(w: World, w': World, id: nat)
    requires OneAtATime(w) && id in w.reqs && w.reqs[id] != Done
    requires id in w'.reqs && w'.reqs == w.reqs[id := w'.reqs[id]]
    ensures forall i :: i in w'.reqs && i != id ==> w'.reqs[i] == Done
  {
  }

  lemma AdvanceKeepsFinds(cfg: Settings, w: World, id: nat, env: Env)
    requires Base(cfg, w) && OneAtATime(w) && FindsStand(cfg, w) && id in w.reqs
    ensures FindsStand(cfg, AdvanceStep(cfg, w, id, w.reqs[id], env))
  {
    hide AdvanceStep, Base, PcOk, Later, AS.Sound, Forums.Sound, Fresh, OneAtATime, AS.Nudged;
    var pc := w.reqs[id];
    var w' := AdvanceStep(cfg, w, id, pc, env);
    if pc == Done {
      DoneStays(cfg, w, id, env);
    } else {
      AdvanceGood(cfg, w, id, env);
      OnlyOneIsUnderWay(w, w', id);
      CheckedNameIsFresh(cfg, w, id, pc, env);
      MarkingFollowsCheck(cfg, w, id, pc, env);
      if Registers(w'.reqs[id]) {
        NameRuns.SameNames(cfg, w.acc, w'.acc);
      }
    }
  }

  lemma StepKeepsFinds(cfg: Settings, w: World, a: Action)
    requires Base(cfg, w) && OneAtATime(w) && FindsStand(cfg, w)
    ensures FindsStand(cfg, Step(cfg, w, a))
  {
    hide AdvanceStep, Base, OneAtATime, Fresh, AS.Nudged, Rebuilt;
    if a.Advance? && a.id in w.reqs {
      AdvanceKeepsFinds(cfg, w, a.id, a.env);
    }
  }

  lemma NothingMissed(cfg: Settings, w: World, a: Action, u: string)
    requires FindsStand(cfg, w)
    ensures !Collides(cfg, w, a) && !LateMark(w, a, u)
  {
  }

  /** A serial run never registers a colliding name and never clears a nudge late. */
  lemma {:induction false} SerialRunKeeps(cfg: Settings, run: seq<Action>, u: string)
    requires Serial(cfg, run)
    ensures var w := Run(cfg, Start(cfg), run); OneAtATime(w) && FindsStand(cfg, w)
    ensures NeverCollides(cfg, run) && Late(cfg, run, u) == 0
  {
    hide Step, Base, OneAtATime, FindsStand, Collides, LateMark;
    if run == [] {
      StartIsSerial(cfg);
    } else {
      var init, a := run[..|run| - 1], run[|run| - 1];
      var w := Run(cfg, Start(cfg), init);
      SerialRunKeeps(cfg, init, u);
      RunKeepsBase(cfg, init);
      StepKeepsOne(cfg, w, a);
      StepKeepsFinds(cfg, w, a);
      NothingMissed(cfg, w, a, u);
    }
  }

  lemma StartIsSerial(cfg: Settings)
    ensures OneAtATime(Start(cfg)) && FindsStand(cfg, Start(cfg))
  {
  }

  /** One request at a time: no two stored names are equal under case folding. */
  lemma NamesUniqueUpToCase(cfg: Settings, run: seq<Action>, u: string, v: string)
    requires cfg.alphabet.Sane() && Serial(cfg, run)
    requires var users := Run(cfg, Start(cfg), run).acc.users; u in users && v in users
    ensures cfg.alphabet.equalFold(u, v) <==> u == v
  {
    hide Run, Serial, NeverCollides, Late;
    SerialRunKeeps(cfg, run, u);
    NamesUniqueIff(cfg, run);
  }

  /** One request at a time: a user sees the nudge page once for each failure to clear the nudge, and once besides
      exactly if it was cleared. Without failures that is at most once. */
  lemma NudgePagesAreCounted(cfg: Settings, run: seq<Action>, u: string)
    requires Serial(cfg, run)
    ensures var w := Run(cfg, Start(cfg), run);
            multiset(w.hist.pages)[u] == multiset(w.hist.unmarked)[u] + if AS.Nudged(w.acc, u) then 1 else 0
  {
    hide Run, Serial, Late, AS.Nudged;
    SerialRunKeeps(cfg, run, u);
    NudgePagesInAnyRun(cfg, run, u);
  }
}
