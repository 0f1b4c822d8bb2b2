/** When every report reaches its mail, over any run. */
module ReportRuns {
  import opened Options
  import opened Keys
  import opened Text
  import opened Mutes
  import opened ForumLog
  import opened Forums
  import opened Keyword
  import opened Requests
  import opened Safety
  import opened Invariants
  import opened Runs
  import AS = AccountStore

  /** A request is about to attempt the mail about post n. */
  ghost predicate Due(w: World, n: nat) {
    exists id :: id in w.reqs && w.reqs[id] == Reporting(ReportMail(n))
  }

  /** The post is reported, and no mail about it was attempted or will be. */
  ghost predicate Forgotten(w: World, n: nat) {
    n in w.forum.reported && n !in w.hist.mails && !Due(w, n)
  }

  /** The mail about every reported post was attempted or is due. */
  ghost predicate Covered(w: World) {
    forall n :: n in w.forum.reported ==> n in w.hist.mails || Due(w, n)
  }

  /** The server stops while a mail is due. */
  ghost function StopsBeforeMail(): (World, Action) -> bool {
    (w: World, a: Action) => a.Restart? && exists n :: Due(w, n)
  }

  lemma NewlyReported(f: Forum, key: Key, commit: bool)
    ensures var e := ReportError(f, key, commit);
            Report(f, key, commit).reported ==
            if e.Some? then f.reported else f.reported + {PostNumber(f, key).value}
    ensures ReportError(f, key, commit).None? ==> PostNumber(f, key).Some?
  {
  }

  /** A step reports no post, or one whose mail is then due. */
  lemma ReportedMoves(cfg: Settings, w: World, id: nat, pc: Pc, env: Env)
    requires id in w.reqs && pc != Done
    ensures var w' := AdvanceStep(cfg, w, id, pc, env);
            && id in w'.reqs
            && (w'.forum.reported == w.forum.reported
                || (Mails(w'.reqs[id]) && w'.forum.reported == w.forum.reported + {w'.reqs[id].report.reported}))
            && (Mails(pc) ==> w'.reqs[id] == Done)
  {
    hide PostRead, ThreadRead, ReplyError, OpenError, ReplySends, OpenSends, AccountOutcome, AS.WhoIs, AS.ClearNudge;
    hide AS.MuteUser, AS.UnmuteUser, PostNumber, ThreadNumber, Trim, Report, ReportError;
    match pc
    case Reporting(ReportWrite(post)) => NewlyReported(w.forum, post, env.commit);
    case _ =>
  }

  lemma DueMoves(w: World, w': World, id: nat)
    requires id in w.reqs && id in w'.reqs && w'.reqs == w.reqs[id := w'.reqs[id]]
    ensures forall n :: Due(w', n) <==>
              w'.reqs[id] == Reporting(ReportMail(n))
              || exists i :: i != id && i in w.reqs && w.reqs[i] == Reporting(ReportMail(n))
  {
    forall n | Due(w', n)
      ensures w'.reqs[id] == Reporting(ReportMail(n))
              || exists i :: i != id && i in w.reqs && w.reqs[i] == Reporting(ReportMail(n))
    {
      var i :| i in w'.reqs && w'.reqs[i] == Reporting(ReportMail(n));
      assert i != id ==> w.reqs[i] == Reporting(ReportMail(n));
    }
    forall n, i | i != id && i in w.reqs && w.reqs[i] == Reporting(ReportMail(n)) ensures Due(w', n) {
      assert w'.reqs[i] == Reporting(ReportMail(n));
    }
  }

  /** A mail leaves the due ones by being attempted, and a forgotten report stays forgotten. */
  lemma AdvanceCovers(cfg: Settings, w: World, id: nat, env: Env)
    requires Base(cfg, w) && MailsOk(w) && id in w.reqs
    ensures Covered(AdvanceStep(cfg, w, id, w.reqs[id], env)) <==> Covered(w)
  {
    hide AdvanceStep, AS.Sound, Forums.Sound, AS.Grows, PcOk;
    var pc, w' := w.reqs[id], AdvanceStep(cfg, w, id, w.reqs[id], env);
    if pc == Done {
      DoneStays(cfg, w, id, env);
    } else {
      AdvanceGood(cfg, w, id, env);
      ReportMoves(cfg, w, id, pc, env);
      ReportedMoves(cfg, w, id, pc, env);
      hide Base, MailsOk;
      CoverMoves(w, w', id);
    }
  }

  lemma CoverMoves(w: World, w': World, id: nat)
    requires id in w.reqs && id in w'.reqs && w'.reqs == w.reqs[id := w'.reqs[id]]
    requires w'.hist.mails == if Mails(w.reqs[id]) then w.hist.mails + [w.reqs[id].report.reported] else w.hist.mails
    requires Mails(w.reqs[id]) ==> w'.reqs[id] == Done
    requires Mails(w'.reqs[id]) ==> w'.reqs[id].report.reported !in w.forum.reported
    requires w'.forum.reported == w.forum.reported
             || (Mails(w'.reqs[id]) && w'.forum.reported == w.forum.reported + {w'.reqs[id].report.reported})
    ensures Covered(w') <==> Covered(w)
  {
    DueMoves(w, w', id);
    forall n | n in w.forum.reported ensures (n in w'.hist.mails || Due(w', n)) <==> (n in w.hist.mails || Due(w, n)) {
      if Due(w, n) {
        var i :| i in w.reqs && w.reqs[i] == Reporting(ReportMail(n));
      }
    }
  }

  lemma RestartForgetsMails(cfg: Settings, w: World, repopulate: bool)
    requires Base(cfg, w) && MailsOk(w)
    ensures Covered(Step(cfg, w, Restart(repopulate))) <==> Covered(w) && !(exists n :: Due(w, n))
  {
    hide AdvanceStep, AS.Sound, Forums.Sound, Rebuilt;
    var w' := Step(cfg, w, Restart(repopulate));
    assert forall n :: !Due(w', n);
    if n :| Due(w, n) {
      var id :| id in w.reqs && w.reqs[id] == Reporting(ReportMail(n));
      assert PcOk(cfg, w.acc, w.forum, w.reqs[id]) && Mails(w.reqs[id]);
    }
  }

  lemma BeginCovers(cfg: Settings, w: World, id: nat, pc: Pc)
    ensures Covered(Step(cfg, w, Begin(id, pc))) <==> Covered(w)
  {
    hide AdvanceStep, Rebuilt;
    var w' := Step(cfg, w, Begin(id, pc));
    forall n ensures Due(w', n) <==> Due(w, n) {
      if Due(w, n) {
        var i :| i in w.reqs && w.reqs[i] == Reporting(ReportMail(n));
        assert w'.reqs[i] == Reporting(ReportMail(n));
      }
    }
  }

  lemma StepCovers(cfg: Settings, w: World, a: Action)
    requires Base(cfg, w) && MailsOk(w)
    ensures Covered(Step(cfg, w, a)) <==> Covered(w) && !StopsBeforeMail()(w, a)
  {
    hide AdvanceStep, Base, MailsOk, Rebuilt;
    match a
    case Begin(id, pc) => BeginCovers(cfg, w, id, pc);
    case Advance(id, env) =>
      if id in w.reqs {
        AdvanceCovers(cfg, w, id, env);
      }
    case Deliver => SameCover(w, Step(cfg, w, a));
    case Restart(repopulate) => RestartForgetsMails(cfg, w, repopulate);
  }

  lemma SameCover(w: World, w': World)
    requires w'.reqs == w.reqs && w'.hist == w.hist && w'.forum == w.forum
    ensures Covered(w') <==> Covered(w)
  {
    assert forall n :: Due(w', n) <==> Due(w, n);
  }

  lemma NothingReported(cfg: Settings)
    ensures Covered(Start(cfg))
  {
  }

  /** In every run, the mail about each reported post was attempted or is due if and only if the server never stopped
      between a report and its mail. */
  lemma {:induction false} ReportsReachTheirMailIff(cfg: Settings, run: seq<Action>)
    ensures Covered(Run(cfg, Start(cfg), run)) <==> Never(cfg, Start(cfg), run, StopsBeforeMail())
  {
    hide Step, Covered, StopsBeforeMail, Base, MailsOk;
    if run == [] {
      NothingReported(cfg);
    } else {
      var init := run[..|run| - 1];
      ReportsReachTheirMailIff(cfg, init);
      MailsOf(cfg, init);
      StepCovers(cfg, Run(cfg, Start(cfg), init), run[|run| - 1]);
    }
  }

  lemma MailsOf(cfg: Settings, run: seq<Action>)
    ensures Base(cfg, Run(cfg, Start(cfg), run)) && MailsOk(Run(cfg, Start(cfg), run))
  {
    hide Run, Base, WritersOk, AuthorsNudged, MailsOk, NamesOk, FlagsOk;
    RunKeeps(cfg, run);
  }

  // ---------- A report without a mail stays so ----------

  lemma ForgottenMoves(w: World, w': World, id: nat, n: nat)
    requires Forgotten(w, n)
    requires id in w.reqs && id in w'.reqs && w'.reqs == w.reqs[id := w'.reqs[id]]
    requires w'.hist.mails == if Mails(w.reqs[id]) then w.hist.mails + [w.reqs[id].report.reported] else w.hist.mails
    requires Mails(w'.reqs[id]) ==> w'.reqs[id].report.reported !in w.forum.reported
    requires w.forum.reported <= w'.forum.reported
    ensures Forgotten(w', n)
  {
    DueMoves(w, w', id);
    if Mails(w.reqs[id]) {
      assert w.reqs[id] == Reporting(ReportMail(w.reqs[id].report.reported));
    }
  }

  lemma StepForgets(cfg: Settings, w: World, a: Action, n: nat)
    requires Base(cfg, w) && Forgotten(w, n)
    ensures Forgotten(Step(cfg, w, a), n)
  {
    hide AdvanceStep, Base, Rebuilt, AS.Sound, Forums.Sound, PcOk, AS.Grows;
    if a.Advance? && a.id in w.reqs {
      if w.reqs[a.id] == Done {
        DoneStays(cfg, w, a.id, a.env);
      } else {
        AdvanceGood(cfg, w, a.id, a.env);
        ReportMoves(cfg, w, a.id, w.reqs[a.id], a.env);
        ForgottenMoves(w, Step(cfg, w, a), a.id, n);
      }
    } else if a.Begin? {
      var w' := Step(cfg, w, a);
      assert forall i :: i in w.reqs ==> i in w'.reqs && w'.reqs[i] == w.reqs[i];
    }
  }

  /** A report that was cut off before its mail is never mailed, however the run goes on. */
  lemma {:induction false} ForgottenReportsStay(cfg: Settings, before: seq<Action>, more: seq<Action>, n: nat)
    requires Forgotten(Run(cfg, Start(cfg), before), n)
    ensures Forgotten(Run(cfg, Start(cfg), before + more), n)
  {
    hide Run, Step, Forgotten, Base;
    if more == [] {
      assert before + more == before;
    } else {
      var init, a := more[..|more| - 1], more[|more| - 1];
      ForgottenReportsStay(cfg, before, init, n);
      assert before + more == (before + init) + [a];
      RunSnoc(cfg, Start(cfg), before + init, a);
      RunKeepsBase(cfg, before + init);
      StepForgets(cfg, Run(cfg, Start(cfg), before + init), a, n);
    }
  }
}
