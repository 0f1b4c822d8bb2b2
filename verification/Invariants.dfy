/** What every single step keeps: who writes events, which mails are sent, how users are named, what is indexed. */
module Invariants {
  import opened Options
  import opened Keys
  import opened Text
  import opened Mutes
  import opened ForumLog
  import opened Forums
  import opened Keyword
  import opened Requests
  import opened Safety
  import AS = AccountStore

  predicate Writes(pc: Pc) {
    (pc.Replying? && pc.post.PostWrite?) || (pc.Opening? && pc.thread.ThreadWrite?)
  }

  predicate Mails(pc: Pc) {
    pc.Reporting? && pc.report.ReportMail?
  }

  predicate Registers(pc: Pc) {
    pc.Account? && pc.account.RegisterWrite?
  }

  // ---------- Who wrote what ----------

  /** Events are written by finished requests that did not start muted, each one by another request. */
  ghost predicate WritersOk(w: World) {
    && |w.hist.writers| == |w.forum.log|
    && (forall i, j :: 0 <= i < j < |w.hist.writers| ==> w.hist.writers[i] != w.hist.writers[j])
    && (forall id :: id in w.hist.writers ==> id in w.reqs && w.reqs[id] == Done && id !in w.hist.mutedAtStart)
    && (forall id :: id in w.hist.mutedAtStart ==> id in w.reqs && w.reqs[id] == Done)
  }

  /** Authors have seen the nudge page. */
  ghost predicate AuthorsNudged(w: World) {
    forall p :: p in Posts(w.forum.log) ==> AS.Nudged(w.acc, p.author)
  }

  /** How a step changes the list of writers and the set of requests that started muted. */
  lemma WhoWrites(cfg: Settings, w: World, id: nat, pc: Pc, env: Env)
    requires id in w.reqs
    ensures var w' := AdvanceStep(cfg, w, id, pc, env);
            && (w'.forum.log != w.forum.log ==> Writes(pc) && w'.reqs[id] == Done)
            && w'.hist.writers == (if w'.forum.log == w.forum.log then w.hist.writers else w.hist.writers + [id])
            && (w'.hist.mutedAtStart == w.hist.mutedAtStart
                || (w'.hist.mutedAtStart == w.hist.mutedAtStart + {id} && w'.reqs[id] == Done && !Writes(pc)))
  {
    hide PostRead, ThreadRead, Reply, Open, ReplySends, OpenSends, AccountOutcome, ReportError, AS.WhoIs, AS.ClearNudge;
    hide AS.MuteUser, AS.UnmuteUser, ThreadNumber, PostNumber;
  }

  /** The event that a step writes. */
  function NewEvent(cfg: Settings, w: World, pc: Pc, env: Env): Event
    requires Writes(pc) && env.marshals
    requires pc.Replying? ==> ThreadNumber(w.forum, pc.post.thread).Some?
  {
    match pc
    case Replying(p) => Replied(ThreadNumber(w.forum, p.thread).value, p.user, p.text, env.now)
    case Opening(t) => Opened(t.subforum, Trim(t.title, cfg.alphabet.space), t.user, t.text, env.now)
  }

  /** A step that changes the log appends one event of the user it belongs to; a lock stops all but moderators. */
  lemma WrittenEvent(cfg: Settings, w: World, id: nat, pc: Pc, env: Env)
    requires id in w.reqs
    requires AdvanceStep(cfg, w, id, pc, env).forum.log != w.forum.log
    ensures Writes(pc) && env.marshals && (pc.Replying? ==> ThreadNumber(w.forum, pc.post.thread).Some?)
    ensures AdvanceStep(cfg, w, id, pc, env).forum.log == w.forum.log + [NewEvent(cfg, w, pc, env)]
    ensures var e := NewEvent(cfg, w, pc, env);
            e.Replied? && e.thread in w.forum.locked ==> cfg.PrivOf(e.author) >= MOD
  {
    WhoWrites(cfg, w, id, pc, env);
    hide ThreadNumber, TitleProblem, Trim, ReplySends, OpenSends, PostRead, ThreadRead;
  }

  // The same on what a step changes: the log, the writers, the muted requests and the place of one request.
  lemma WritersMove(w: World, w': World, id: nat)
    requires WritersOk(w) && id in w.reqs && id in w'.reqs && w'.reqs == w.reqs[id := w'.reqs[id]]
    requires w.reqs[id] != Done
    requires w'.hist.writers == (if w'.forum.log == w.forum.log then w.hist.writers else w.hist.writers + [id])
    requires w'.forum.log != w.forum.log ==> |w'.forum.log| == |w.forum.log| + 1 && w'.reqs[id] == Done
    requires w'.hist.mutedAtStart == w.hist.mutedAtStart
             || (w'.hist.mutedAtStart == w.hist.mutedAtStart + {id}
                 && w'.reqs[id] == Done && w'.forum.log == w.forum.log)
    ensures WritersOk(w')
  {
  }

  lemma StepKeepsWriters(cfg: Settings, w: World, a: Action)
    requires Base(cfg, w) && WritersOk(w)
    ensures WritersOk(Step(cfg, w, a))
  {
    hide AdvanceStep, Base, Rebuilt, NewEvent;
    if a.Advance? && a.id in w.reqs {
      var w' := Step(cfg, w, a);
      if w.reqs[a.id] == Done {
        DoneStays(cfg, w, a.id, a.env);
      } else {
        AdvanceGood(cfg, w, a.id, a.env);
        hide Later, AS.Sound, Forums.Sound, PcOk, WritersOk;
        WhoWrites(cfg, w, a.id, w.reqs[a.id], a.env);
        if w'.forum.log != w.forum.log {
          WrittenEvent(cfg, w, a.id, w.reqs[a.id], a.env);
        }
        WritersMove(w, w', a.id);
      }
    }
  }

  lemma DoneStays(cfg: Settings, w: World, id: nat, env: Env)
    ensures AdvanceStep(cfg, w, id, Done, env) == w
  {
  }

  lemma AuthorIsNudged(cfg: Settings, w: World, pc: Pc, env: Env)
    requires Writes(pc) && env.marshals && (pc.Replying? ==> ThreadNumber(w.forum, pc.post.thread).Some?)
    requires PcOk(cfg, w.acc, w.forum, pc)
    ensures AS.Nudged(w.acc, NewEvent(cfg, w, pc, env).author)
  {
    hide ThreadNumber, Trim, AS.Nudged;
  }

  lemma NewAuthor(log: seq<Event>, e: Event)
    ensures forall p :: p in Posts(log + [e]) ==> p in Posts(log) || p.author == e.author
  {
    Snoc(log, e);
  }

  lemma StepKeepsAuthors(cfg: Settings, w: World, a: Action)
    requires Base(cfg, w) && AuthorsNudged(w)
    ensures AuthorsNudged(Step(cfg, w, a))
  {
    hide AdvanceStep, Posts, AS.Sound, Forums.Sound, NewEvent, PcOk, AS.Nudged;
    var w' := Step(cfg, w, a);
    StepKeepsBase(cfg, w, a);
    if a.Advance? && a.id in w.reqs && w'.forum.log != w.forum.log {
      var pc := w.reqs[a.id];
      WrittenEvent(cfg, w, a.id, pc, a.env);
      AuthorIsNudged(cfg, w, pc, a.env);
      NewAuthor(w.forum.log, NewEvent(cfg, w, pc, a.env));
    }
    GrowingNudged(w, w');
  }

  lemma GrowingNudged(w: World, w': World)
    requires Later(w, w')
    ensures forall u :: AS.Nudged(w.acc, u) ==> AS.Nudged(w'.acc, u)
  {
  }

  // ---------- Reports ----------

  /** Mails are about reported posts, no two about one post, and none of them is still to be sent. */
  ghost predicate MailsOk(w: World) {
    && (forall n :: n in w.hist.mails ==> n in w.forum.reported)
    && (forall i, j :: 0 <= i < j < |w.hist.mails| ==> w.hist.mails[i] != w.hist.mails[j])
    && (forall id :: id in w.reqs && Mails(w.reqs[id]) ==> w.reqs[id].report.reported !in w.hist.mails)
    && (forall id, id' :: id in w.reqs && id' in w.reqs && Mails(w.reqs[id]) && w.reqs[id] == w.reqs[id'] ==> id == id')
  }

  lemma NewReport(f: Forum, key: Key, commit: bool)
    requires ReportError(f, key, commit).None?
    ensures PostNumber(f, key).Some? && PostNumber(f, key).value !in f.reported
  {
  }

  /** How a step changes the mails, and when a mail becomes due. */
  lemma ReportMoves(cfg: Settings, w: World, id: nat, pc: Pc, env: Env)
    requires id in w.reqs
    ensures var w' := AdvanceStep(cfg, w, id, pc, env);
            && w'.hist.mails == (if Mails(pc) then w.hist.mails + [pc.report.reported] else w.hist.mails)
            && (pc != Done && Mails(w'.reqs[id]) ==> w'.reqs[id].report.reported !in w.forum.reported)
  {
    hide AccountOutcome, ReportError, AS.WhoIs, AS.ClearNudge, CommandOutcome, PostNumber, Report;
    hide AfterWrite, AS.CheckNudge, ThreadNumber, Threads;
    match pc
    case Reporting(ReportWrite(post)) =>
      if ReportError(w.forum, post, env.commit).None? {
        NewReport(w.forum, post, env.commit);
      }
    case Account(a) => NoMailFromAccounts(cfg, w.acc, a, env);
    case Replying(PostWrite(_, _, _)) => WritesEndRequests(cfg, w, id, pc, env);
    case Opening(ThreadWrite(_, _, _, _)) => WritesEndRequests(cfg, w, id, pc, env);
    case _ =>
  }

  lemma WritesEndRequests(cfg: Settings, w: World, id: nat, pc: Pc, env: Env)
    requires Writes(pc)
    ensures var w' := AdvanceStep(cfg, w, id, pc, env); w'.reqs == w.reqs[id := Done] && w'.hist.mails == w.hist.mails
  {
    hide Reply, ReplySends, Open, OpenSends, PostRead, ThreadRead;
  }

  lemma NoMailFromAccounts(cfg: Settings, acc: AS.Accounts, pc: AccountPc, env: Env)
    ensures var pc' := AccountOutcome(cfg, acc, pc, env).1; pc' == Done || pc'.Account?
  {
    hide AS.CheckLogin, AS.CheckName, AS.Register, AS.Verify, AS.Login, AS.Logout, Trim;
  }

  // The same on what a step changes: the mails, the reports and the place of one request.
  lemma MailsMove(w: World, w': World, id: nat)
    requires MailsOk(w) && id in w.reqs && id in w'.reqs && w'.reqs == w.reqs[id := w'.reqs[id]]
    requires w.forum.reported <= w'.forum.reported
    requires Mails(w.reqs[id]) ==> w.reqs[id].report.reported in w.forum.reported
    requires w'.hist.mails == if Mails(w.reqs[id]) then w.hist.mails + [w.reqs[id].report.reported] else w.hist.mails
    requires Mails(w'.reqs[id]) ==> w'.reqs[id].report.reported !in w.forum.reported
    requires forall i :: i in w.reqs && Mails(w.reqs[i]) ==> w.reqs[i].report.reported in w.forum.reported
    ensures MailsOk(w')
  {
  }

  lemma StepKeepsMails(cfg: Settings, w: World, a: Action)
    requires Base(cfg, w) && MailsOk(w)
    ensures MailsOk(Step(cfg, w, a))
  {
    hide AdvanceStep, AS.Sound, Forums.Sound, AS.Grows;
    if a.Advance? && a.id in w.reqs {
      forall i | i in w.reqs && Mails(w.reqs[i]) ensures w.reqs[i].report.reported in w.forum.reported {
        assert PcOk(cfg, w.acc, w.forum, w.reqs[i]);
      }
      AdvanceGood(cfg, w, a.id, a.env);
      ReportMoves(cfg, w, a.id, w.reqs[a.id], a.env);
      if w.reqs[a.id] == Done {
        DoneStays(cfg, w, a.id, a.env);
      } else {
        hide MailsOk, PcOk;
        MailsMove(w, Step(cfg, w, a), a.id);
      }
    }
  }

  // ---------- Names ----------

  ghost predicate NamesOk(cfg: Settings, w: World) {
    forall u :: u in w.acc.users ==> UsernameShape(u, cfg.alphabet)
  }

  /** Only the last step of a registration adds a user, under the name that it validated. */
  lemma WhoRegisters(cfg: Settings, w: World, id: nat, pc: Pc, env: Env)
    ensures var users, users' := w.acc.users, AdvanceStep(cfg, w, id, pc, env).acc.users;
            || (users'.Keys == users.Keys && !Registers(pc))
            || (Registers(pc) && (users' == users
                || (pc.account.name !in users && users' == users[pc.account.name := users'[pc.account.name]]
                    && users'[pc.account.name].postnudge == "1")))
  {
    hide PostRead, ThreadRead, Reply, Open, ReplySends, OpenSends, AS.WhoIs, AS.CheckLogin, AS.CheckName;
    hide SetLock, Report, ReportError, Trim, Deadline, PostNumber;
  }

  lemma StepKeepsNames(cfg: Settings, w: World, a: Action)
    requires Base(cfg, w) && NamesOk(cfg, w)
    ensures NamesOk(cfg, Step(cfg, w, a))
  {
    hide AdvanceStep, UsernameShape, AS.Sound, Forums.Sound;
    if a.Advance? && a.id in w.reqs {
      WhoRegisters(cfg, w, a.id, w.reqs[a.id], a.env);
      assert PcOk(cfg, w.acc, w.forum, w.reqs[a.id]);
    }
  }

  // ---------- Flags ----------

  predicate Binary(s: string) { s == "0" || s == "1" }

  /** Each user's fields verified and postnudge are "0" or "1". */
  ghost predicate FlagsOk(acc: AS.Accounts) {
    forall u :: u in acc.users ==> Binary(acc.users[u].verified) && Binary(acc.users[u].postnudge)
  }

  lemma AccountsKeepFlags(cfg: Settings, acc: AS.Accounts, pc: AccountPc, env: Env)
    requires FlagsOk(acc)
    ensures FlagsOk(AccountOutcome(cfg, acc, pc, env).0)
  {
    hide AS.CheckLogin, AS.CheckName, Trim;
  }

  lemma CommandsKeepFlags(acc: AS.Accounts, f: Forum, command: Command, env: Env)
    requires FlagsOk(acc)
    ensures FlagsOk(CommandOutcome(acc, f, command, env).0)
  {
    hide SetLock, Deadline;
  }

  lemma MarkingKeepsFlags(acc: AS.Accounts, user: string, env: Env)
    requires FlagsOk(acc)
    ensures FlagsOk(AS.ClearNudge(acc, user, env.commit).acc)
  {
  }

  lemma StepKeepsFlags(cfg: Settings, w: World, a: Action)
    requires FlagsOk(w.acc)
    ensures FlagsOk(Step(cfg, w, a).acc)
  {
    hide PostRead, ThreadRead, Reply, Open, ReplySends, OpenSends, AS.WhoIs, AccountOutcome, CommandOutcome;
    hide Report, ReportError, PostNumber, FlagsOk, AS.ClearNudge, Rebuilt;
    if a.Advance? && a.id in w.reqs {
      match w.reqs[a.id]
      case Account(pc) => AccountsKeepFlags(cfg, w.acc, pc, a.env);
      case Console(ConsoleWrite(command)) => CommandsKeepFlags(w.acc, w.forum, command, a.env);
      case Marking(user) => MarkingKeepsFlags(w.acc, user, a.env);
      case _ =>
    }
  }

  // ---------- Keyword messages ----------

  lemma SameLogSameIndex(f: Forum, f': Forum, docs: Docs, chan: seq<Message>)
    requires f.log == f'.log && WillAgree(f, docs, chan)
    ensures WillAgree(f', docs, chan)
  {
  }

  /** Only the two writing steps send messages, and no request touches the index itself. */
  lemma SendsNothing(cfg: Settings, w: World, id: nat, pc: Pc, env: Env)
    requires !Writes(pc)
    ensures var w' := AdvanceStep(cfg, w, id, pc, env);
            w'.forum.log == w.forum.log && w'.docs == w.docs && w'.chan == w.chan
  {
    hide PostRead, ThreadRead, Reply, Open, ReplySends, OpenSends, AccountOutcome, ReportError, AS.WhoIs, AS.ClearNudge;
    hide AS.MuteUser, AS.UnmuteUser, ThreadNumber, PostNumber;
  }

  lemma AdvanceKeepsIndex(cfg: Settings, w: World, id: nat, pc: Pc, env: Env)
    requires WillAgree(w.forum, w.docs, w.chan)
    ensures var w' := AdvanceStep(cfg, w, id, pc, env); WillAgree(w'.forum, w'.docs, w'.chan)
  {
    hide WillAgree, Reply, ReplySends, Open, OpenSends;
    match pc
    case Replying(PostWrite(user, thread, text)) =>
      ReplyKeepsIndex(w.forum, w.docs, w.chan, user, thread, text, cfg.PrivOf(user), env.Clock(), env.commit);
    case Opening(ThreadWrite(user, subforum, title, text)) =>
      OpenKeepsIndex(w.forum, w.docs, w.chan, cfg.alphabet, subforum, user, title, text, env.Clock(), env.commit);
    case _ =>
      SendsNothing(cfg, w, id, pc, env);
      hide AdvanceStep;
      SameLogSameIndex(w.forum, AdvanceStep(cfg, w, id, pc, env).forum, w.docs, w.chan);
  }

  /** The step forgets a message that the index still needs. */
  ghost predicate Loses(w: World, a: Action) {
    a.Restart? && !a.repopulate && !NothingToLose(w.forum, w.docs, w.chan)
  }

  /** Whether the index will still come out right after a step depends on restarts only. */
  lemma StepKeepsIndex(cfg: Settings, w: World, a: Action)
    requires WillAgree(w.forum, w.docs, w.chan)
    ensures var w' := Step(cfg, w, a); WillAgree(w'.forum, w'.docs, w'.chan) <==> !Loses(w, a)
  {
    hide AdvanceStep, WillAgree, NothingToLose, Rebuilt;
    match a
    case Begin(_, _) =>
    case Deliver =>
      if w.chan != [] {
        DeliverKeepsIndex(w.forum, w.docs, w.chan);
      }
    case Advance(id, env) =>
      if id in w.reqs {
        AdvanceKeepsIndex(cfg, w, id, w.reqs[id], env);
      }
    case Restart(repopulate) =>
      RebuiltAgrees(w.forum);
      ForgettingTheChannel(w.forum, w.docs, w.chan);
  }
}
