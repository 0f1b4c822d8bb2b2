/** The times in the log, over any run. */
module ClockRuns {
  import opened Options
  import opened Keys
  import opened Text
  import opened Mutes
  import opened ForumLog
  import opened Forums
  import opened Keyword
  import opened Requests
  import opened Safety
  import opened Invariants
  import opened Runs
  import opened SubforumIndex
  import AS = AccountStore

  /** The step adds an event to the log. */
  predicate AddsEvent(cfg: Settings, w: World, a: Action) {
    a.Advance? && Step(cfg, w, a).forum.log != w.forum.log
  }

  /** The instants of the steps of the run that add an event, in the order of the steps. */
  function WritingTimes(cfg: Settings, run: seq<Action>): seq<int> {
    if run == [] then []
    else
      var init, a := run[..|run| - 1], run[|run| - 1];
      WritingTimes(cfg, init) + if AddsEvent(cfg, Run(cfg, Start(cfg), init), a) then [a.env.now] else []
  }

  function TimesOf(log: seq<Event>): (ts: seq<int>)
    ensures |ts| == |log|
  {
    if log == [] then [] else TimesOf(log[..|log| - 1]) + [log[|log| - 1].time]
  }

  lemma TimesSnoc(log: seq<Event>, e: Event)
    ensures TimesOf(log + [e]) == TimesOf(log) + [e.time]
  {
    assert (log + [e])[..|log|] == log;
  }

  lemma {:induction false} TimesAt(log: seq<Event>)
    ensures forall i :: 0 <= i < |log| ==> TimesOf(log)[i] == log[i].time
  {
    if log == [] {
    } else {
      TimesAt(log[..|log| - 1]);
    }
  }

  /** The only thing that changes the log is a step of a request, and the event has the time of the step. */
  lemma StepTimes(cfg: Settings, w: World, a: Action)
    ensures TimesOf(Step(cfg, w, a).forum.log) ==
            TimesOf(w.forum.log) + if AddsEvent(cfg, w, a) then [a.env.now] else []
  {
    hide AdvanceStep, TimesOf, Rebuilt, NewEvent;
    var times := TimesOf(w.forum.log);
    assert times + [] == times;
    if a.Advance? && a.id in w.reqs && AdvanceStep(cfg, w, a.id, w.reqs[a.id], a.env).forum.log != w.forum.log {
      WrittenEvent(cfg, w, a.id, w.reqs[a.id], a.env);
      TimesSnoc(w.forum.log, NewEvent(cfg, w, w.reqs[a.id], a.env));
      EventTime(cfg, w, w.reqs[a.id], a.env);
    }
  }

  lemma EventTime(cfg: Settings, w: World, pc: Pc, env: Env)
    requires Writes(pc) && env.marshals && (pc.Replying? ==> ThreadNumber(w.forum, pc.post.thread).Some?)
    ensures NewEvent(cfg, w, pc, env).time == env.now
  {
    hide Trim;
  }

  lemma {:induction false} LogHasWritingTimes(cfg: Settings, run: seq<Action>)
    ensures TimesOf(Run(cfg, Start(cfg), run).forum.log) == WritingTimes(cfg, run)
  {
    hide Step, TimesOf, AddsEvent;
    if run == [] {
      assert TimesOf([]) == [];
    } else {
      LogHasWritingTimes(cfg, run[..|run| - 1]);
      StepTimes(cfg, Run(cfg, Start(cfg), run[..|run| - 1]), run[|run| - 1]);
    }
  }

  ghost predicate Increasing(ts: seq<int>) {
    forall i, j :: 0 <= i < j < |ts| ==> ts[i] < ts[j]
  }

  /** The log of a run is strictly timed, as the order of the subforum list asks, if and only if the clock advanced
      between any two steps of the run that wrote something. */
  lemma StrictlyTimedIff(cfg: Settings, run: seq<Action>)
    ensures StrictlyTimed(Run(cfg, Start(cfg), run).forum.log) <==> Increasing(WritingTimes(cfg, run))
  {
    hide Run, WritingTimes, TimesOf;
    var log := Run(cfg, Start(cfg), run).forum.log;
    LogHasWritingTimes(cfg, run);
    TimesAt(log);
    if Increasing(WritingTimes(cfg, run)) {
      assert forall i, j :: 0 <= i < j < |log| ==> TimesOf(log)[i] < TimesOf(log)[j];
    } else {
      var i, j :| 0 <= i < j < |log| && !(TimesOf(log)[i] < TimesOf(log)[j]);
    }
  }

  /** After such a run the subforum list, however it is sorted, is the move-to-front list. */
  lemma RunOrdersTheBoard(cfg: Settings, run: seq<Action>, sf: string, rows: seq<Row>)
    requires Increasing(WritingTimes(cfg, run)) && NewestFirst(rows)
    requires var f := Run(cfg, Start(cfg), run).forum;
             multiset(rows) == multiset(SubforumIndex.Map(RowOf(f), Positions(Threads(f.log), InSubforum(sf))))
    ensures var f := Run(cfg, Start(cfg), run).forum; rows == SubforumIndex.Map(RowOf(f), Board(f.log, sf))
  {
    hide Run, WritingTimes, StrictlyTimed, Increasing, NewestFirst, Positions, Board, RowOf, PcOk, AS.Sound, WellFormed;
    StrictlyTimedIff(cfg, run);
    RunKeepsBase(cfg, run);
    SortedIsBoard(Run(cfg, Start(cfg), run).forum, sf, rows);
  }
}
