/** When the keyword index comes out right, over any run. */
module IndexRuns {
  import opened Options
  import opened Keys
  import opened Text
  import opened Mutes
  import opened ForumLog
  import opened Forums
  import opened Keyword
  import opened Requests
  import opened Safety
  import opened Invariants
  import opened Runs

  /** The step forgets a message that the index still needs. */
  ghost function Forgets(): (World, Action) -> bool {
    (w: World, a: Action) => Loses(w, a)
  }

  lemma {:induction false} IndexRun(cfg: Settings, w: World, run: seq<Action>)
    requires WillAgree(w.forum, w.docs, w.chan) && Never(cfg, w, run, Forgets())
    ensures var w' := Run(cfg, w, run); WillAgree(w'.forum, w'.docs, w'.chan)
  {
    hide Step, WillAgree, Loses;
    if run == [] {
    } else {
      IndexRun(cfg, w, run[..|run| - 1]);
      StepKeepsIndex(cfg, Run(cfg, w, run[..|run| - 1]), run[|run| - 1]);
    }
  }

  /** Whatever was lost before, a restart that repopulates the index makes it right again. */
  lemma RepopulatingRepairs(cfg: Settings, before: seq<Action>, run: seq<Action>)
    requires Never(cfg, Run(cfg, Start(cfg), before + [Restart(true)]), run, Forgets())
    ensures var w := Run(cfg, Run(cfg, Start(cfg), before + [Restart(true)]), run);
            && WillAgree(w.forum, w.docs, w.chan)
            && (w.chan == [] ==> Agrees(Posts(w.forum.log), w.docs))
  {
    hide Run, Agrees, Never, WillAgree, Rebuilt;
    var was := Run(cfg, Start(cfg), before);
    RunSnoc(cfg, Start(cfg), before, Restart(true));
    RebuiltAgrees(was.forum);
    IndexRun(cfg, Run(cfg, Start(cfg), before + [Restart(true)]), run);
    var w := Run(cfg, Run(cfg, Start(cfg), before + [Restart(true)]), run);
    if w.chan == [] {
      DrainedIndexAgrees(w.forum, w.docs);
    }
  }

  // ---------- Harm that stays ----------

  /** A committed post is not indexed as itself, and no queued message will put it right. */
  ghost predicate Harmed(w: World, n: nat) {
    && 1 <= n <= |w.forum.log|
    && (Itob(n) in w.docs ==> w.docs[Itob(n)] != DocOf(Posts(w.forum.log), n))
    && (forall m :: m in w.chan ==> m.id != Itob(n))
  }

  /** A message is sent for the next id only, and the log grows by one event at most. */
  lemma WritesSendNext(cfg: Settings, w: World, id: nat, pc: Pc, env: Env) returns (sent: seq<Message>)
    requires Writes(pc)
    ensures var w' := AdvanceStep(cfg, w, id, pc, env);
            && w'.docs == w.docs && w'.chan == w.chan + sent
            && (forall m :: m in sent ==> m.id == Itob(|w.forum.log| + 1))
  {
    hide Itob, TitleProblem, Trim, PostRead, ThreadRead, ThreadNumber, Threads;
    match pc
    case Replying(PostWrite(user, thread, text)) =>
      sent := ReplySends(w.forum, user, thread, text, cfg.PrivOf(user), env.Clock(), env.commit);
    case Opening(ThreadWrite(user, subforum, title, text)) =>
      sent := OpenSends(w.forum, cfg.alphabet, subforum, user, title, text, env.Clock(), env.commit);
  }

  lemma DocumentsStay(log: seq<Event>, e: Event, n: nat)
    requires 1 <= n <= |log|
    ensures DocOf(Posts(log + [e]), n) == DocOf(Posts(log), n)
  {
    Snoc(log, e);
  }

  lemma NextIdIsNew(log: seq<Event>, n: nat)
    requires 1 <= n <= |log|
    ensures Itob(n) != Itob(|log| + 1)
  {
    hide Itob, KeyNumber;
    KeyRoundTrip(n);
    KeyRoundTrip(|log| + 1);
  }

  lemma AdvanceKeepsHarm(cfg: Settings, w: World, id: nat, env: Env, n: nat)
    requires id in w.reqs && Harmed(w, n)
    ensures Harmed(AdvanceStep(cfg, w, id, w.reqs[id], env), n)
  {
    hide AdvanceStep, Itob, DocOf, Posts, NewEvent;
    var pc := w.reqs[id];
    var w' := AdvanceStep(cfg, w, id, pc, env);
    if Writes(pc) {
      var sent := WritesSendNext(cfg, w, id, pc, env);
      NextIdIsNew(w.forum.log, n);
    } else {
      SendsNothing(cfg, w, id, pc, env);
    }
    if w'.forum.log != w.forum.log {
      WrittenEvent(cfg, w, id, pc, env);
      DocumentsStay(w.forum.log, NewEvent(cfg, w, pc, env), n);
    }
  }

  /** Nothing but a restart that repopulates the index undoes the harm. */
  lemma HarmStays(cfg: Settings, w: World, a: Action, n: nat)
    requires Harmed(w, n) && a != Restart(true)
    ensures Harmed(Step(cfg, w, a), n)
  {
    hide AdvanceStep, Itob, DocOf, Posts, Rebuilt;
    match a
    case Begin(_, _) =>
    case Deliver =>
      if w.chan != [] {
        assert w.chan[0] in w.chan;
      }
    case Advance(id, env) =>
      if id in w.reqs {
        AdvanceKeepsHarm(cfg, w, id, env, n);
      }
    case Restart(_) =>
  }

  lemma {:induction false} HarmStaysOverRuns(cfg: Settings, w: World, run: seq<Action>, n: nat)
    requires Harmed(w, n) && Restart(true) !in run
    ensures Harmed(Run(cfg, w, run), n)
  {
    hide Step, Harmed;
    if run == [] {
    } else {
      var init, a := run[..|run| - 1], run[|run| - 1];
      assert forall x :: x in init ==> x in run;
      HarmStaysOverRuns(cfg, w, init, n);
      HarmStays(cfg, Run(cfg, w, init), a, n);
    }
  }

  /** A harmed index is wrong, and a queue that runs dry does not help. */
  lemma HarmBreaks(w: World, n: nat)
    requires Harmed(w, n)
    ensures !WillAgree(w.forum, w.docs, w.chan) && !Agrees(Posts(w.forum.log), w.docs)
  {
    hide Itob, DocOf, Posts;
    UntouchedDocument(w.docs, w.chan, Itob(n));
    hide IndexAll;
    assert |Posts(w.forum.log)| == |w.forum.log|;
  }

  /** A restart that forgets a needed message does harm. */
  lemma LosingHarms(cfg: Settings, w: World, a: Action) returns (n: nat)
    requires Loses(w, a)
    ensures Harmed(Step(cfg, w, a), n)
  {
    hide Itob, DocOf, Posts, KeyNumber, Rebuilt, AdvanceStep;
    var m :| m in w.chan && PostNumber(w.forum, m.id).Some?
             && !(m.id in w.docs && w.docs[m.id] == DocOf(Posts(w.forum.log), PostNumber(w.forum, m.id).value));
    n := PostNumber(w.forum, m.id).value;
    CommittedNumber(w.forum, m.id);
  }

  /** No needed message was forgotten since the index was last repopulated. */
  ghost predicate IndexSafe(cfg: Settings, run: seq<Action>) {
    run != [] ==>
      var init, a := run[..|run| - 1], run[|run| - 1];
      a == Restart(true) || (IndexSafe(cfg, init) && !Loses(Run(cfg, Start(cfg), init), a))
  }

  lemma EmptyIndexAgrees(cfg: Settings)
    ensures var w := Start(cfg); WillAgree(w.forum, w.docs, w.chan)
  {
    assert Posts([]) == [];
    assert IndexAll(map[], []) == map[];
  }

  lemma {:induction false} SafeOrHarmed(cfg: Settings, run: seq<Action>) returns (n: nat)
    ensures var w := Run(cfg, Start(cfg), run);
            if IndexSafe(cfg, run) then WillAgree(w.forum, w.docs, w.chan) else Harmed(w, n)
  {
    hide Step, WillAgree, Harmed, Loses;
    n := 0;
    if run == [] {
      EmptyIndexAgrees(cfg);
    } else {
      var init, a := run[..|run| - 1], run[|run| - 1];
      var w := Run(cfg, Start(cfg), init);
      n := SafeOrHarmed(cfg, init);
      if a == Restart(true) {
        Repopulating(cfg, w);
      } else if IndexSafe(cfg, init) {
        StepKeepsIndex(cfg, w, a);
        if Loses(w, a) {
          n := LosingHarms(cfg, w, a);
        }
      } else {
        HarmStays(cfg, w, a, n);
      }
    }
  }

  lemma Repopulating(cfg: Settings, w: World)
    ensures var w' := Step(cfg, w, Restart(true)); WillAgree(w'.forum, w'.docs, w'.chan)
  {
    hide Rebuilt, WillAgree;
    RebuiltAgrees(w.forum);
  }

  /** In every run, whatever aborted: the last message about each committed post, applied or still queued, is the
      right one if and only if no needed message was forgotten since the index was last repopulated. Once the channel
      is empty the index then agrees with the database, and otherwise it does not. */
  lemma IndexIsRightOnceDrained(cfg: Settings, run: seq<Action>)
    ensures var w := Run(cfg, Start(cfg), run);
            && (WillAgree(w.forum, w.docs, w.chan) <==> IndexSafe(cfg, run))
            && (w.chan == [] ==> (Agrees(Posts(w.forum.log), w.docs) <==> IndexSafe(cfg, run)))
  {
    hide Run, WillAgree, Agrees, IndexSafe, Posts, Harmed;
    var w := Run(cfg, Start(cfg), run);
    var n := SafeOrHarmed(cfg, run);
    if IndexSafe(cfg, run) {
      if w.chan == [] {
        DrainedIndexAgrees(w.forum, w.docs);
      }
    } else {
      HarmBreaks(w, n);
    }
  }
}
