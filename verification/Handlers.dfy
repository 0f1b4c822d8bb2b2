/**
 Each handler as one function of the state, and the proof that a request that no other one interrupts ends as its
 handler says: how it ends depends on what its transactions read, not on how it is cut into them.
 */
module Handlers {
  import opened Options
  import opened Keys
  import opened Text
  import opened Mutes
  import opened ForumLog
  import opened Forums
  import opened Keyword
  import opened Requests
  import opened Safety
  import opened Invariants
  import opened Runs
  import AS = AccountStore

  // ---------- Undisturbed requests ----------

  function Steps(id: nat, envs: seq<Env>): seq<Action> {
    if envs == [] then [] else [Advance(id, envs[0])] + Steps(id, envs[1..])
  }

  /** A request that begins and takes steps, with no step of another request in between. */
  function Undisturbed(id: nat, pc: Pc, envs: seq<Env>): seq<Action> {
    [Begin(id, pc)] + Steps(id, envs)
  }

  lemma OneStep(cfg: Settings, w: World, a: Action)
    ensures Run(cfg, w, [a]) == Step(cfg, w, a)
  {
    hide Run, Step;
    RunStarts(cfg, w);
    RunSnoc(cfg, w, [], a);
    assert [] + [a] == [a];
  }

  lemma NextStep(cfg: Settings, w: World, id: nat, envs: seq<Env>)
    requires envs != []
    ensures Run(cfg, w, Steps(id, envs)) == Run(cfg, Step(cfg, w, Advance(id, envs[0])), Steps(id, envs[1..]))
  {
    hide Run, Step;
    RunConcat(cfg, w, [Advance(id, envs[0])], Steps(id, envs[1..]));
    OneStep(cfg, w, Advance(id, envs[0]));
  }

  lemma FirstStep(cfg: Settings, w: World, id: nat, pc: Pc, envs: seq<Env>)
    requires id !in w.reqs && Starts(pc)
    ensures Run(cfg, w, Undisturbed(id, pc, envs)) == Run(cfg, w.(reqs := w.reqs[id := pc]), Steps(id, envs))
  {
    hide Run, AdvanceStep, Rebuilt, Starts, Steps;
    RunConcat(cfg, w, [Begin(id, pc)], Steps(id, envs));
    OneStep(cfg, w, Begin(id, pc));
  }

  /** A request that has ended takes no more steps. */
  lemma {:induction false} EndedStays(cfg: Settings, w: World, id: nat, envs: seq<Env>)
    requires id in w.reqs && w.reqs[id] == Done
    ensures Run(cfg, w, Steps(id, envs)) == w
  {
    hide Run, AdvanceStep, Rebuilt;
    if envs == [] {
      RunStarts(cfg, w);
    } else {
      NextStep(cfg, w, id, envs);
      DoneStays(cfg, w, id, envs[0]);
      EndedStays(cfg, w, id, envs[1..]);
    }
  }

  /** The step in which the request ends is its last. */
  lemma LastStep(cfg: Settings, w: World, id: nat, envs: seq<Env>)
    requires envs != []
    requires var v := Step(cfg, w, Advance(id, envs[0])); id in v.reqs && v.reqs[id] == Done
    ensures Run(cfg, w, Steps(id, envs)) == Step(cfg, w, Advance(id, envs[0]))
  {
    hide Run, Step, Steps;
    NextStep(cfg, w, id, envs);
    EndedStays(cfg, Step(cfg, w, Advance(id, envs[0])), id, envs[1..]);
  }

  // ---------- Replies ----------

  function Ended(w: World, id: nat): World {
    w.(reqs := w.reqs[id := Done])
  }

  /** The nudge page; whether its flag could be cleared depends on the commit. */
  function NudgePage(w: World, id: nat, u: string, env: Env): World
    requires u in w.acc.users
  {
    var cleared := w.acc.(users := w.acc.users[u := w.acc.users[u].(postnudge := "0")]);
    Ended(w, id).(acc := if env.commit then cleared else w.acc,
                  hist := w.hist.(pages := w.hist.pages + [u],
                                  unmarked := if env.commit then w.hist.unmarked else w.hist.unmarked + [u]))
  }

  function Turned(w: World, id: nat): World {
    Ended(w, id).(hist := w.hist.(mutedAtStart := w.hist.mutedAtStart + {id}))
  }

  /** The last part of NewPostHandler: OnNewPost. */
  function ReplyWritten(cfg: Settings, w: World, id: nat, u: string, thread: Key, text: string, env: Env): World {
    match KeyNumber(thread)
    case None => Ended(w, id)
    case Some(t) =>
      if !(1 <= t <= |Threads(w.forum.log)|) || (t in w.forum.locked && cfg.PrivOf(u) < 1) || !env.marshals then
        Ended(w, id)
      else
        var m := Message(u, text, Itob(|w.forum.log| + 1), thread);
        var sent := Ended(w, id).(chan := w.chan + [m]);
        if !env.commit then sent
        else sent.(forum := w.forum.(log := w.forum.log + [Replied(t, u, text, env.now)]),
                   hist := w.hist.(writers := w.hist.writers + [id]))
  }

  /** NewPostHandler from the check of the nudge on. */
  function ReplyNudged(cfg: Settings, w: World, id: nat, u: string, thread: Key, draft: Option<string>, env: Env): World
    requires u in w.acc.users
  {
    if w.acc.users[u].postnudge == "1" then NudgePage(w, id, u, env)
    else if draft.None? then Ended(w, id)
    else ReplyWritten(cfg, w, id, u, thread, draft.value, env)
  }

  /** NewPostHandler from the lookup of the thread on. */
  function ReplyRouted(cfg: Settings, w: World, id: nat, u: string, thread: Key, draft: Option<string>, env: Env): World
    requires u in w.acc.users
  {
    match KeyNumber(thread)
    case None => Ended(w, id)
    case Some(t) =>
      if !(1 <= t <= |Threads(w.forum.log)|) then Ended(w, id)
      else
        var sf := Threads(w.forum.log)[t - 1].subforum;
        if sf !in cfg.subs || cfg.PrivOf(u) < cfg.subs[sf].1 then Ended(w, id)
        else ReplyNudged(cfg, w, id, u, thread, draft, env)
  }

  /** NewPostHandler as one function: the certificate, the mute, the thread, the priviledge, the nudge, the text, and
      the write with its lock. The first environment is that of the opening, the last one that of the write. */
  function ReplyHandler(cfg: Settings, w: World, id: nat, fp: string, thread: Key, draft: Option<string>,
                        first: Env, last: Env): World
  {
    if fp !in w.acc.certfp || w.acc.certfp[fp] !in w.acc.users then Ended(w, id)
    else
      var u := w.acc.certfp[fp];
      if IsMuted(w.acc.users[u].muted, first.now) then Turned(w, id)
      else ReplyRouted(cfg, w, id, u, thread, draft, last)
  }

  // The steps of a reply, one by one.

  lemma WritesReply(cfg: Settings, w: World, id: nat, u: string, thread: Key, text: string, envs: seq<Env>)
    requires id in w.reqs && w.reqs[id] == Replying(PostWrite(u, thread, text)) && u != "" && envs != []
    ensures Run(cfg, w, Steps(id, envs)) == ReplyWritten(cfg, w, id, u, thread, text, envs[0])
  {
    hide Run, Steps, Threads, KeyNumber, Itob, PostRead, ThreadStep, MarkStep, AccountStep, ReportStep, ConsoleStep;
    LastStep(cfg, w, id, envs);
  }

  lemma MarksUser(cfg: Settings, w: World, id: nat, u: string, envs: seq<Env>)
    requires id in w.reqs && w.reqs[id] == Marking(u) && u in w.acc.users && envs != []
    ensures Run(cfg, w, Steps(id, envs)) == NudgePage(w, id, u, envs[0])
  {
    hide Run, Steps, PostStep, ThreadStep, AccountStep, ReportStep, ConsoleStep;
    LastStep(cfg, w, id, envs);
  }

  lemma PassesNudge(cfg: Settings, w: World, id: nat, u: string, thread: Key, draft: Option<string>, envs: seq<Env>)
    requires id in w.reqs && w.reqs[id] == Replying(PostNudge(u, thread, draft)) && u in w.acc.users && u != ""
    requires |envs| >= 2
    ensures Run(cfg, w, Steps(id, envs)) == ReplyNudged(cfg, w, id, u, thread, draft, envs[1])
  {
    hide Run, Steps, ThreadStep, AccountStep, ReportStep, ConsoleStep, MarkStep, ReplyWritten, NudgePage;
    hide Reply, ReplySends, ThreadNumber, Threads, Rebuilt;
    NextStep(cfg, w, id, envs);
    var w1 := Step(cfg, w, Advance(id, envs[0]));
    if w.acc.users[u].postnudge == "1" {
      MarksUser(cfg, w1, id, u, envs[1..]);
      NudgePageKept(w, id, Marking(u), u, envs[1]);
    } else if draft.None? {
      EndedStays(cfg, w1, id, envs[1..]);
    } else {
      WritesReply(cfg, w1, id, u, thread, draft.value, envs[1..]);
      ReplyWrittenKept(cfg, w, id, Replying(PostWrite(u, thread, draft.value)), u, thread, draft.value, envs[1]);
    }
  }

  // Where the request stood does not matter for what it leaves.

  lemma NudgePageKept(w: World, id: nat, pc: Pc, u: string, env: Env)
    requires u in w.acc.users
    ensures NudgePage(w.(reqs := w.reqs[id := pc]), id, u, env) == NudgePage(w, id, u, env)
  {
    assert w.reqs[id := pc][id := Done] == w.reqs[id := Done];
  }

  lemma ReplyWrittenKept(cfg: Settings, w: World, id: nat, pc: Pc, u: string, thread: Key, text: string, env: Env)
    ensures ReplyWritten(cfg, w.(reqs := w.reqs[id := pc]), id, u, thread, text, env)
         == ReplyWritten(cfg, w, id, u, thread, text, env)
  {
    hide Threads, KeyNumber, Itob;
    assert w.reqs[id := pc][id := Done] == w.reqs[id := Done];
  }

  lemma ReplyNudgedKept(cfg: Settings, w: World, id: nat, pc: Pc, u: string, thread: Key, draft: Option<string>,
                        env: Env)
    requires u in w.acc.users
    ensures ReplyNudged(cfg, w.(reqs := w.reqs[id := pc]), id, u, thread, draft, env)
         == ReplyNudged(cfg, w, id, u, thread, draft, env)
  {
    hide ReplyWritten, NudgePage;
    NudgePageKept(w, id, pc, u, env);
    if draft.Some? {
      ReplyWrittenKept(cfg, w, id, pc, u, thread, draft.value, env);
    }
    assert w.reqs[id := pc][id := Done] == w.reqs[id := Done];
  }

  lemma EndedKept(w: World, id: nat, pc: Pc)
    ensures Ended(w.(reqs := w.reqs[id := pc]), id) == Ended(w, id)
    ensures Turned(w.(reqs := w.reqs[id := pc]), id) == Turned(w, id)
  {
    assert w.reqs[id := pc][id := Done] == w.reqs[id := Done];
  }

  lemma PassesRoute(cfg: Settings, w: World, id: nat, u: string, thread: Key, draft: Option<string>, envs: seq<Env>)
    requires id in w.reqs && w.reqs[id] == Replying(PostRoute(u, thread, draft)) && u in w.acc.users && u != ""
    requires |envs| >= 3
    ensures Run(cfg, w, Steps(id, envs)) == ReplyRouted(cfg, w, id, u, thread, draft, envs[2])
  {
    hide Run, Steps, ThreadStep, AccountStep, ReportStep, ConsoleStep, MarkStep, ReplyNudged;
    hide Reply, ReplySends, KeyNumber, Threads, Rebuilt;
    NextStep(cfg, w, id, envs);
    var w1, pc := Step(cfg, w, Advance(id, envs[0])), Replying(PostNudge(u, thread, draft));
    if w1.reqs[id] == Done {
      EndedStays(cfg, w1, id, envs[1..]);
    } else {
      PassesNudge(cfg, w1, id, u, thread, draft, envs[1..]);
      ReplyNudgedKept(cfg, w, id, pc, u, thread, draft, envs[2]);
    }
  }

  lemma ReplyRoutedKept(cfg: Settings, w: World, id: nat, pc: Pc, u: string, thread: Key, draft: Option<string>,
                        env: Env)
    requires u in w.acc.users
    ensures ReplyRouted(cfg, w.(reqs := w.reqs[id := pc]), id, u, thread, draft, env)
         == ReplyRouted(cfg, w, id, u, thread, draft, env)
  {
    hide ReplyNudged, Ended, Threads, KeyNumber;
    EndedKept(w, id, pc);
    ReplyNudgedKept(cfg, w, id, pc, u, thread, draft, env);
  }

  lemma OpensReply(cfg: Settings, w: World, id: nat, fp: string, thread: Key, draft: Option<string>, envs: seq<Env>)
    requires AS.Sound(w.acc)
    requires id in w.reqs && w.reqs[id] == Replying(PostOpen(fp, thread, draft)) && |envs| >= 4
    ensures Run(cfg, w, Steps(id, envs)) == ReplyHandler(cfg, w, id, fp, thread, draft, envs[0], envs[3])
  {
    hide Run, Steps, ThreadStep, AccountStep, ReportStep, ConsoleStep, MarkStep, ReplyRouted;
    hide Reply, ReplySends, KeyNumber, Threads, IsMuted, Rebuilt;
    NextStep(cfg, w, id, envs);
    var w1, u := Step(cfg, w, Advance(id, envs[0])), if fp in w.acc.certfp then w.acc.certfp[fp] else "";
    if w1.reqs[id] == Done {
      EndedStays(cfg, w1, id, envs[1..]);
    } else {
      PassesRoute(cfg, w1, id, u, thread, draft, envs[1..]);
      ReplyRoutedKept(cfg, w, id, Replying(PostRoute(u, thread, draft)), u, thread, draft, envs[3]);
    }
  }

  lemma ReplyHandlerKept(cfg: Settings, w: World, id: nat, pc: Pc, fp: string, thread: Key, draft: Option<string>,
                         first: Env, last: Env)
    ensures ReplyHandler(cfg, w.(reqs := w.reqs[id := pc]), id, fp, thread, draft, first, last)
         == ReplyHandler(cfg, w, id, fp, thread, draft, first, last)
  {
    hide ReplyRouted, Ended, Turned, IsMuted;
    EndedKept(w, id, pc);
    if fp in w.acc.certfp && w.acc.certfp[fp] in w.acc.users {
      ReplyRoutedKept(cfg, w, id, pc, w.acc.certfp[fp], thread, draft, last);
    }
  }

  /** From every state that a run leads to, a reply that no other request interrupts ends as its handler says. */
  lemma UndisturbedReply(cfg: Settings, before: seq<Action>, id: nat, fp: string, thread: Key, draft: Option<string>,
                         envs: seq<Env>)
    requires id !in Run(cfg, Start(cfg), before).reqs && |envs| >= 4
    ensures Run(cfg, Start(cfg), before + Undisturbed(id, Replying(PostOpen(fp, thread, draft)), envs))
         == ReplyHandler(cfg, Run(cfg, Start(cfg), before), id, fp, thread, draft, envs[0], envs[3])
  {
    hide Run, Steps, Undisturbed, ReplyHandler;
    var w, pc := Run(cfg, Start(cfg), before), Replying(PostOpen(fp, thread, draft));
    AccountsAreSound(cfg, before);
    RunConcat(cfg, Start(cfg), before, Undisturbed(id, pc, envs));
    FirstStep(cfg, w, id, pc, envs);
    OpensReply(cfg, w.(reqs := w.reqs[id := pc]), id, fp, thread, draft, envs);
    ReplyHandlerKept(cfg, w, id, pc, fp, thread, draft, envs[0], envs[3]);
  }

  lemma AccountsAreSound(cfg: Settings, run: seq<Action>)
    ensures AS.Sound(Run(cfg, Start(cfg), run).acc)
  {
    hide Run, PcOk, Forums.Sound, AS.Sound;
    RunKeepsBase(cfg, run);
  }

  // ---------- New threads ----------

  /** The last part of CreateThreadHandler: OnNewThread, for a configured subforum. */
  function ThreadWritten(cfg: Settings, w: World, id: nat, u: string, sf: string, title: string, text: string, env: Env)
    : World
  {
    var trimmed := Trim(title, cfg.alphabet.space);
    if !TitleShape(trimmed, cfg.alphabet) || !env.marshals then Ended(w, id)
    else
      var m := Message(u, text, Itob(|w.forum.log| + 1), Itob(|Threads(w.forum.log)| + 1));
      var sent := Ended(w, id).(chan := w.chan + [m]);
      if !env.commit then sent
      else sent.(forum := w.forum.(log := w.forum.log + [Opened(sf, trimmed, u, text, env.now)]),
                 hist := w.hist.(writers := w.hist.writers + [id]))
  }

  /** CreateThreadHandler from the check of the nudge on; the priviledge is checked after it. */
  function ThreadNudged(cfg: Settings, w: World, id: nat, u: string, sf: string, title: string, draft: Option<string>,
                        env: Env): World
    requires u in w.acc.users
  {
    if w.acc.users[u].postnudge == "1" then NudgePage(w, id, u, env)
    else if sf !in cfg.subs || cfg.PrivOf(u) < cfg.subs[sf].0 || draft.None? then Ended(w, id)
    else ThreadWritten(cfg, w, id, u, sf, title, draft.value, env)
  }

  /** CreateThreadHandler as one function. */
  function ThreadHandler(cfg: Settings, w: World, id: nat, fp: string, sf: string, title: string,
                         draft: Option<string>, first: Env, last: Env): World
  {
    if fp !in w.acc.certfp || w.acc.certfp[fp] !in w.acc.users then Ended(w, id)
    else
      var u := w.acc.certfp[fp];
      if IsMuted(w.acc.users[u].muted, first.now) then Turned(w, id)
      else ThreadNudged(cfg, w, id, u, sf, title, draft, last)
  }

  lemma WritesThread(cfg: Settings, w: World, id: nat, u: string, sf: string, title: string, text: string,
                     envs: seq<Env>)
    requires id in w.reqs && w.reqs[id] == Opening(ThreadWrite(u, sf, title, text)) && u != "" && envs != []
    requires sf in w.forum.subforums
    ensures Run(cfg, w, Steps(id, envs)) == ThreadWritten(cfg, w, id, u, sf, title, text, envs[0])
  {
    hide Run, Steps, Threads, Itob, ThreadRead, PostStep, MarkStep, AccountStep, ReportStep, ConsoleStep, Trim;
    hide TitleProblem, TitleShape;
    AcceptedTitles(title, cfg.alphabet);
    LastStep(cfg, w, id, envs);
  }

  lemma ThreadWrittenKept(cfg: Settings, w: World, id: nat, pc: Pc, u: string, sf: string, title: string, text: string,
                          env: Env)
    ensures ThreadWritten(cfg, w.(reqs := w.reqs[id := pc]), id, u, sf, title, text, env)
         == ThreadWritten(cfg, w, id, u, sf, title, text, env)
  {
    hide Threads, TitleShape, Trim, Itob;
    assert w.reqs[id := pc][id := Done] == w.reqs[id := Done];
  }

  lemma ThreadNudgedKept(cfg: Settings, w: World, id: nat, pc: Pc, u: string, sf: string, title: string,
                         draft: Option<string>, env: Env)
    requires u in w.acc.users
    ensures ThreadNudged(cfg, w.(reqs := w.reqs[id := pc]), id, u, sf, title, draft, env)
         == ThreadNudged(cfg, w, id, u, sf, title, draft, env)
  {
    hide ThreadWritten, NudgePage, Ended;
    EndedKept(w, id, pc);
    NudgePageKept(w, id, pc, u, env);
    if draft.Some? {
      ThreadWrittenKept(cfg, w, id, pc, u, sf, title, draft.value, env);
    }
  }

  lemma PassesThreadNudge(cfg: Settings, w: World, id: nat, u: string, sf: string, title: string,
                          draft: Option<string>, envs: seq<Env>)
    requires id in w.reqs && w.reqs[id] == Opening(ThreadNudge(u, sf, title, draft)) && u in w.acc.users && u != ""
    requires |envs| >= 2 && cfg.subs.Keys == w.forum.subforums
    ensures Run(cfg, w, Steps(id, envs)) == ThreadNudged(cfg, w, id, u, sf, title, draft, envs[1])
  {
    hide Run, Steps, PostStep, AccountStep, ReportStep, ConsoleStep, MarkStep, ThreadWritten, NudgePage;
    hide Open, OpenSends, Threads, Rebuilt;
    NextStep(cfg, w, id, envs);
    var w1 := Step(cfg, w, Advance(id, envs[0]));
    if w1.reqs[id] == Done {
      EndedStays(cfg, w1, id, envs[1..]);
    } else if w.acc.users[u].postnudge == "1" {
      MarksUser(cfg, w1, id, u, envs[1..]);
      NudgePageKept(w, id, Marking(u), u, envs[1]);
    } else {
      var pc := Opening(ThreadWrite(u, sf, title, draft.value));
      WritesThread(cfg, w1, id, u, sf, title, draft.value, envs[1..]);
      ThreadWrittenKept(cfg, w, id, pc, u, sf, title, draft.value, envs[1]);
    }
  }

  lemma OpensThread(cfg: Settings, w: World, id: nat, fp: string, sf: string, title: string, draft: Option<string>,
                    envs: seq<Env>)
    requires AS.Sound(w.acc) && cfg.subs.Keys == w.forum.subforums
    requires id in w.reqs && w.reqs[id] == Opening(ThreadOpen(fp, sf, title, draft)) && |envs| >= 3
    ensures Run(cfg, w, Steps(id, envs)) == ThreadHandler(cfg, w, id, fp, sf, title, draft, envs[0], envs[2])
  {
    hide Run, Steps, PostStep, AccountStep, ReportStep, ConsoleStep, MarkStep, ThreadNudged;
    hide Open, OpenSends, IsMuted, Rebuilt;
    NextStep(cfg, w, id, envs);
    var w1, u := Step(cfg, w, Advance(id, envs[0])), if fp in w.acc.certfp then w.acc.certfp[fp] else "";
    if w1.reqs[id] == Done {
      EndedStays(cfg, w1, id, envs[1..]);
    } else {
      var pc := Opening(ThreadNudge(u, sf, title, draft));
      PassesThreadNudge(cfg, w1, id, u, sf, title, draft, envs[1..]);
      ThreadNudgedKept(cfg, w, id, pc, u, sf, title, draft, envs[2]);
    }
  }

  lemma ThreadHandlerKept(cfg: Settings, w: World, id: nat, pc: Pc, fp: string, sf: string, title: string,
                          draft: Option<string>, first: Env, last: Env)
    ensures ThreadHandler(cfg, w.(reqs := w.reqs[id := pc]), id, fp, sf, title, draft, first, last)
         == ThreadHandler(cfg, w, id, fp, sf, title, draft, first, last)
  {
    hide ThreadNudged, Ended, Turned, IsMuted;
    EndedKept(w, id, pc);
    if fp in w.acc.certfp && w.acc.certfp[fp] in w.acc.users {
      ThreadNudgedKept(cfg, w, id, pc, w.acc.certfp[fp], sf, title, draft, last);
    }
  }

  lemma SubforumsAreConfigured(cfg: Settings, run: seq<Action>)
    ensures cfg.subs.Keys == Run(cfg, Start(cfg), run).forum.subforums
  {
    hide Run, PcOk, Forums.Sound, AS.Sound;
    RunKeepsBase(cfg, run);
  }

  /** From every state that a run leads to, a new thread that no other request interrupts ends as its handler says. */
  lemma UndisturbedThread(cfg: Settings, before: seq<Action>, id: nat, fp: string, sf: string, title: string,
                          draft: Option<string>, envs: seq<Env>)
    requires id !in Run(cfg, Start(cfg), before).reqs && |envs| >= 3
    ensures Run(cfg, Start(cfg), before + Undisturbed(id, Opening(ThreadOpen(fp, sf, title, draft)), envs))
         == ThreadHandler(cfg, Run(cfg, Start(cfg), before), id, fp, sf, title, draft, envs[0], envs[2])
  {
    hide Run, Steps, Undisturbed, ThreadHandler;
    var w, pc := Run(cfg, Start(cfg), before), Opening(ThreadOpen(fp, sf, title, draft));
    AccountsAreSound(cfg, before);
    SubforumsAreConfigured(cfg, before);
    RunConcat(cfg, Start(cfg), before, Undisturbed(id, pc, envs));
    FirstStep(cfg, w, id, pc, envs);
    OpensThread(cfg, w.(reqs := w.reqs[id := pc]), id, fp, sf, title, draft, envs);
    ThreadHandlerKept(cfg, w, id, pc, fp, sf, title, draft, envs[0], envs[2]);
  }

  // ---------- Login, logout, registration, verification ----------

  function LoginHandler(cfg: Settings, acc: AS.Accounts, fp: string, user: string, pass: string, commit: bool)
    : AS.Accounts
  {
    if && commit && user in acc.users && acc.users[user].verified == "1"
       && cfg.matches(acc.users[user].password, pass) then
      acc.(certfp := acc.certfp[fp := user])
    else acc
  }

  function LogoutHandler(acc: AS.Accounts, fp: string, commit: bool): AS.Accounts {
    if commit then acc.(certfp := acc.certfp - {fp}) else acc
  }

  /** The name that a registration asks for is free and well formed. */
  ghost predicate FreeName(acc: AS.Accounts, name: string, a: Alphabet) {
    && name != "" && ByteLength(name) <= 24
    && (forall c :: c in name ==> a.letterOrNumber(c) || c == '_')
    && name !in acc.users && (forall k :: k in acc.users ==> !a.equalFold(k, name))
  }

  ghost function RegisterHandler(cfg: Settings, acc: AS.Accounts, rawName: string, email: string, pass: string,
                                 code: string, commit: bool): AS.Accounts
  {
    var space := cfg.alphabet.space;
    var name := Trim(rawName, space);
    if commit && ByteLength(pass) >= 8 && FreeName(acc, name, cfg.alphabet) then
      var hash := cfg.hash(Trim(pass, space));
      var user := AS.User(if cfg.smtp then "0" else "1", hash, "1", Trim(email, space), NotMuted);
      acc.(users := acc.users[name := user], validation := acc.validation[code := name])
    else acc
  }

  function VerifyHandler(acc: AS.Accounts, code: string, commit: bool): AS.Accounts {
    if commit && code in acc.validation && acc.validation[code] in acc.users then
      var name := acc.validation[code];
      acc.(users := acc.users[name := acc.users[name].(verified := "1")], validation := acc.validation - {code})
    else acc
  }

  lemma LoginRuns(cfg: Settings, w: World, id: nat, fp: string, user: string, pass: string, envs: seq<Env>)
    requires id in w.reqs && w.reqs[id] == Account(LoginCheck(fp, user, pass)) && |envs| >= 2
    ensures Run(cfg, w, Steps(id, envs))
         == Ended(w, id).(acc := LoginHandler(cfg, w.acc, fp, user, pass, envs[1].commit))
  {
    hide Run, Steps, PostStep, ThreadStep, MarkStep, ReportStep, ConsoleStep, Rebuilt;
    NextStep(cfg, w, id, envs);
    var w1 := Step(cfg, w, Advance(id, envs[0]));
    if w1.reqs[id] == Done {
      EndedStays(cfg, w1, id, envs[1..]);
    } else {
      LastStep(cfg, w1, id, envs[1..]);
    }
    EndedKept(w, id, Account(LoginWrite(fp, user)));
  }

  lemma NameIsChecked(acc: AS.Accounts, rawName: string, a: Alphabet)
    ensures AS.CheckName(acc, rawName, a).None? && Trim(rawName, a.space) !in acc.users
            <==> FreeName(acc, Trim(rawName, a.space), a)
  {
    hide Trim;
  }

  lemma RegistrationStored(cfg: Settings, w: World, id: nat, pc: AccountPc, env: Env)
    requires id in w.reqs && w.reqs[id] == Account(pc) && pc.RegisterWrite? && pc.name != ""
    ensures Step(cfg, w, Advance(id, env)) == Ended(w, id).(acc :=
            if env.commit && pc.name !in w.acc.users then
              w.acc.(users := w.acc.users[pc.name :=
                       AS.User(if cfg.smtp then "0" else "1", cfg.hash(pc.pass), "1", pc.email, NotMuted)],
                     validation := w.acc.validation[pc.code := pc.name])
            else w.acc)
  {
    hide PostStep, ThreadStep, MarkStep, ReportStep, ConsoleStep, Rebuilt, Trim;
  }

  lemma RegistrationRuns(cfg: Settings, w: World, id: nat, rawName: string, email: string, pass: string, code: string,
                         envs: seq<Env>)
    requires id in w.reqs && w.reqs[id] == Account(RegisterCheck(rawName, email, pass, code)) && |envs| >= 2
    ensures Run(cfg, w, Steps(id, envs))
         == Ended(w, id).(acc := RegisterHandler(cfg, w.acc, rawName, email, pass, code, envs[1].commit))
  {
    hide Run, Steps, PostStep, ThreadStep, MarkStep, ReportStep, ConsoleStep, Rebuilt, Trim, AS.CheckName, FreeName;
    NextStep(cfg, w, id, envs);
    NameIsChecked(w.acc, rawName, cfg.alphabet);
    var w1, space := Step(cfg, w, Advance(id, envs[0])), cfg.alphabet.space;
    if w1.reqs[id] == Done {
      EndedStays(cfg, w1, id, envs[1..]);
    } else {
      var pc := RegisterWrite(Trim(rawName, space), Trim(email, space), Trim(pass, space), code);
      CheckedNameIsNotEmpty(w.acc, rawName, cfg.alphabet);
      RegistrationStored(cfg, w1, id, pc, envs[1]);
      LastStep(cfg, w1, id, envs[1..]);
      EndedKept(w, id, Account(pc));
    }
  }

  lemma CheckedNameIsNotEmpty(acc: AS.Accounts, rawName: string, a: Alphabet)
    requires AS.CheckName(acc, rawName, a).None?
    ensures Trim(rawName, a.space) != ""
  {
  }

  lemma OneStepAccounts(cfg: Settings, w: World, id: nat, fp: string, code: string, envs: seq<Env>)
    requires id in w.reqs && envs != []
    ensures w.reqs[id] == Account(LogoutWrite(fp)) ==>
      Run(cfg, w, Steps(id, envs)) == Ended(w, id).(acc := LogoutHandler(w.acc, fp, envs[0].commit))
    ensures w.reqs[id] == Account(VerifyWrite(code)) ==>
      Run(cfg, w, Steps(id, envs)) == Ended(w, id).(acc := VerifyHandler(w.acc, code, envs[0].commit))
  {
    hide Run, Steps, PostStep, ThreadStep, MarkStep, ReportStep, ConsoleStep, Rebuilt, Trim, AS.CheckName;
    if w.reqs[id] == Account(LogoutWrite(fp)) || w.reqs[id] == Account(VerifyWrite(code)) {
      LastStep(cfg, w, id, envs);
    }
  }

  /** From every state that a run leads to, a login, logout, registration or verification that no other request
      interrupts changes the accounts as its handler says, and nothing else. */
  lemma UndisturbedAccount(cfg: Settings, before: seq<Action>, id: nat, pc: AccountPc, envs: seq<Env>)
    requires id !in Run(cfg, Start(cfg), before).reqs && |envs| >= 2 && Starts(Account(pc))
    ensures var w := Run(cfg, Start(cfg), before);
            Run(cfg, Start(cfg), before + Undisturbed(id, Account(pc), envs)) == Ended(w, id).(acc :=
              match pc
              case LoginCheck(fp, user, pass) => LoginHandler(cfg, w.acc, fp, user, pass, envs[1].commit)
              case LogoutWrite(fp) => LogoutHandler(w.acc, fp, envs[0].commit)
              case RegisterCheck(rawName, email, pass, code) =>
                RegisterHandler(cfg, w.acc, rawName, email, pass, code, envs[1].commit)
              case VerifyWrite(code) => VerifyHandler(w.acc, code, envs[0].commit)
              case _ => w.acc)
  {
    hide Run, Steps, Undisturbed, LoginHandler, LogoutHandler, RegisterHandler, VerifyHandler;
    var w := Run(cfg, Start(cfg), before);
    var w0 := w.(reqs := w.reqs[id := Account(pc)]);
    RunConcat(cfg, Start(cfg), before, Undisturbed(id, Account(pc), envs));
    FirstStep(cfg, w, id, Account(pc), envs);
    EndedKept(w, id, Account(pc));
    match pc
    case LoginCheck(fp, user, pass) => LoginRuns(cfg, w0, id, fp, user, pass, envs);
    case RegisterCheck(rawName, email, pass, code) => RegistrationRuns(cfg, w0, id, rawName, email, pass, code, envs);
    case LogoutWrite(fp) => OneStepAccounts(cfg, w0, id, fp, "", envs);
    case VerifyWrite(code) => OneStepAccounts(cfg, w0, id, "", code, envs);
  }

  /** The password is stored trimmed and compared as typed: without mail, and with a hash that fits one password only,
      the password of a registration logs its user in if and only if it neither begins nor ends with a space. */
  lemma TypedPasswordWorksIff(cfg: Settings, acc: AS.Accounts, rawName: string, email: string, pass: string,
                              code: string)
    requires !cfg.smtp && forall x, y :: cfg.matches(cfg.hash(x), y) <==> x == y
    requires FreeName(acc, Trim(rawName, cfg.alphabet.space), cfg.alphabet) && ByteLength(pass) >= 8
    ensures var acc' := RegisterHandler(cfg, acc, rawName, email, pass, code, true);
            var space := cfg.alphabet.space;
            AS.CheckLogin(acc', Trim(rawName, space), pass, cfg.matches).None?
            <==> !space(pass[0]) && !space(pass[|pass| - 1])
  {
    hide FreeName;
    assert pass != "";
    hide ByteLength;
    TrimmedIff(pass, cfg.alphabet.space);
    hide Trim;
  }

  lemma TrimmedIff(s: string, space: char -> bool)
    requires s != ""
    ensures Trim(s, space) == s <==> !space(s[0]) && !space(s[|s| - 1])
  {
    var i, j := TrimIsMiddle(s, space);
    hide Trim;
    if Trim(s, space) == s {
      assert |s[i..j]| == j - i;
    }
  }

  /** Which refusal a login and a name get: an unknown user comes before an unverified one, and that before a wrong
      password; an empty or long name comes before its characters, and these before the other names. */
  lemma RefusalsSayWhy(acc: AS.Accounts, user: string, pass: string, matches: (string, string) -> bool,
                       rawName: string, a: Alphabet)
    ensures AS.CheckLogin(acc, user, pass, matches) == Some(AS.UserNotFound) <==> user !in acc.users
    ensures AS.CheckLogin(acc, user, pass, matches) == Some(AS.NotVerified)
            <==> user in acc.users && acc.users[user].verified != "1"
    ensures var name := Trim(rawName, a.space);
            && (AS.CheckName(acc, rawName, a) == Some(AS.NameTooShort) <==> name == "")
            && (AS.CheckName(acc, rawName, a) == Some(AS.NameTooLong) <==> ByteLength(name) > 24)
            && (AS.CheckName(acc, rawName, a) == Some(AS.NameTaken) ==>
                  exists k :: k in acc.users && a.equalFold(k, name))
  {
    hide Trim;
  }

  // ---------- Reports ----------

  lemma ReportMailed(cfg: Settings, w: World, id: nat, n: nat, envs: seq<Env>)
    requires id in w.reqs && w.reqs[id] == Reporting(ReportMail(n)) && envs != []
    ensures Run(cfg, w, Steps(id, envs)) == Ended(w, id).(hist := w.hist.(mails := w.hist.mails + [n]))
  {
    hide Run, Steps, PostStep, ThreadStep, MarkStep, AccountStep, ConsoleStep, Rebuilt, Report, ReportError;
    LastStep(cfg, w, id, envs);
  }

  /** ReportHandler from the write on. */
  function ReportWritten(w: World, id: nat, post: Key, commit: bool): World {
    match KeyNumber(post)
    case None => Ended(w, id)
    case Some(n) =>
      if !(1 <= n <= |w.forum.log|) || n in w.forum.reported || !commit then Ended(w, id)
      else Ended(w, id).(forum := w.forum.(reported := w.forum.reported + {n}),
                         hist := w.hist.(mails := w.hist.mails + [n]))
  }

  /** ReportHandler: the first report of a post by a user is stored and mailed. */
  function ReportHandler(w: World, id: nat, fp: string, post: Key, commit: bool): World {
    if fp !in w.acc.certfp || w.acc.certfp[fp] !in w.acc.users then Ended(w, id)
    else ReportWritten(w, id, post, commit)
  }

  lemma WritesReport(cfg: Settings, w: World, id: nat, post: Key, envs: seq<Env>)
    requires id in w.reqs && w.reqs[id] == Reporting(ReportWrite(post)) && |envs| >= 2
    ensures Run(cfg, w, Steps(id, envs)) == ReportWritten(w, id, post, envs[0].commit)
  {
    hide Run, Steps, PostStep, ThreadStep, MarkStep, AccountStep, ConsoleStep, Rebuilt, KeyNumber;
    NextStep(cfg, w, id, envs);
    var w1 := Step(cfg, w, Advance(id, envs[0]));
    if w1.reqs[id] == Done {
      EndedStays(cfg, w1, id, envs[1..]);
    } else {
      ReportMailed(cfg, w1, id, KeyNumber(post).value, envs[1..]);
      EndedKept(w, id, w1.reqs[id]);
    }
  }

  lemma ReportWrittenKept(w: World, id: nat, pc: Pc, post: Key, commit: bool)
    ensures ReportWritten(w.(reqs := w.reqs[id := pc]), id, post, commit) == ReportWritten(w, id, post, commit)
  {
    hide KeyNumber;
    assert w.reqs[id := pc][id := Done] == w.reqs[id := Done];
  }

  lemma ReportOpened(cfg: Settings, w: World, id: nat, fp: string, post: Key, envs: seq<Env>)
    requires AS.Sound(w.acc)
    requires id in w.reqs && w.reqs[id] == Reporting(ReportOpen(fp, post)) && |envs| >= 3
    ensures Run(cfg, w, Steps(id, envs)) == ReportHandler(w, id, fp, post, envs[1].commit)
  {
    hide Run, Steps, PostStep, ThreadStep, MarkStep, AccountStep, ConsoleStep, Rebuilt, KeyNumber, IsMuted;
    hide ReportWritten, Report, ReportError;
    NextStep(cfg, w, id, envs);
    var w1 := Step(cfg, w, Advance(id, envs[0]));
    if w1.reqs[id] == Done {
      EndedStays(cfg, w1, id, envs[1..]);
    } else {
      WritesReport(cfg, w1, id, post, envs[1..]);
      ReportWrittenKept(w, id, Reporting(ReportWrite(post)), post, envs[1].commit);
    }
  }

  /** From every state that a run leads to, a report that no other request interrupts ends as its handler says. */
  lemma UndisturbedReport(cfg: Settings, before: seq<Action>, id: nat, fp: string, post: Key, envs: seq<Env>)
    requires id !in Run(cfg, Start(cfg), before).reqs && |envs| >= 3
    ensures Run(cfg, Start(cfg), before + Undisturbed(id, Reporting(ReportOpen(fp, post)), envs))
         == ReportHandler(Run(cfg, Start(cfg), before), id, fp, post, envs[1].commit)
  {
    hide Run, Steps, Undisturbed, KeyNumber;
    var w, pc := Run(cfg, Start(cfg), before), Reporting(ReportOpen(fp, post));
    AccountsAreSound(cfg, before);
    RunConcat(cfg, Start(cfg), before, Undisturbed(id, pc, envs));
    FirstStep(cfg, w, id, pc, envs);
    ReportOpened(cfg, w.(reqs := w.reqs[id := pc]), id, fp, post, envs);
    EndedKept(w, id, pc);
    ReportWrittenKept(w, id, pc, post, envs[1].commit);
  }

  // ---------- Commands ----------

  /** A console command: a lock, an unlock, a mute or an unmute. */
  function CommandHandler(w: World, id: nat, command: Command, env: Env): World {
    var end, users := Ended(w, id), w.acc.users;
    if !env.commit then end
    else
      match command
      case Lock(thread) =>
        var t := KeyNumber(thread);
        if t.None? || !(1 <= t.value <= |Threads(w.forum.log)|) then end
        else end.(forum := w.forum.(locked := w.forum.locked + {t.value}))
      case Unlock(thread) =>
        var t := KeyNumber(thread);
        if t.None? || !(1 <= t.value <= |Threads(w.forum.log)|) then end
        else end.(forum := w.forum.(locked := w.forum.locked - {t.value}))
      case Mute(user, term) =>
        if user !in users || Deadline(term, env.now).None? then end
        else end.(acc := w.acc.(users := users[user := users[user].(muted := Deadline(term, env.now).value)]))
      case Unmute(user) =>
        if user !in users then end
        else end.(acc := w.acc.(users := users[user := users[user].(muted := NotMuted)]))
  }

  lemma CommandRuns(cfg: Settings, w: World, id: nat, command: Command, envs: seq<Env>)
    requires id in w.reqs && w.reqs[id] == Console(ConsoleWrite(command)) && envs != []
    ensures Run(cfg, w, Steps(id, envs)) == CommandHandler(w, id, command, envs[0])
  {
    hide Run, Steps, PostStep, ThreadStep, MarkStep, AccountStep, ReportStep, Rebuilt, KeyNumber, Deadline, Threads;
    LastStep(cfg, w, id, envs);
  }

  /** ConsoleHandler: a user of priviledge Mod or above may give commands, whether muted or not. */
  function ConsoleHandler(cfg: Settings, w: World, id: nat, fp: string, command: Command, env: Env): World {
    var known := fp in w.acc.certfp && w.acc.certfp[fp] in w.acc.users;
    if cfg.PrivOf(if known then w.acc.certfp[fp] else "") < 1 then Ended(w, id)
    else CommandHandler(w, id, command, env)
  }

  lemma CommandHandlerKept(w: World, id: nat, pc: Pc, command: Command, env: Env)
    ensures CommandHandler(w.(reqs := w.reqs[id := pc]), id, command, env) == CommandHandler(w, id, command, env)
  {
    hide KeyNumber, Deadline, Threads, Ended;
    EndedKept(w, id, pc);
    EndedElsewhere(w, id);
  }

  lemma EndedElsewhere(w: World, id: nat)
    ensures Ended(w, id) == w.(reqs := w.reqs[id := Done])
  {
  }

  /** From every state that a run leads to, a command that no other request interrupts ends as its handler says, from a
      request or from standard input. */
  lemma UndisturbedCommand(cfg: Settings, before: seq<Action>, id: nat, fp: string, command: Command, envs: seq<Env>)
    requires id !in Run(cfg, Start(cfg), before).reqs && |envs| >= 2
    ensures Run(cfg, Start(cfg), before + Undisturbed(id, Console(ConsoleOpen(fp, command)), envs))
         == ConsoleHandler(cfg, Run(cfg, Start(cfg), before), id, fp, command, envs[1])
    ensures Run(cfg, Start(cfg), before + Undisturbed(id, Console(ConsoleWrite(command)), envs))
         == CommandHandler(Run(cfg, Start(cfg), before), id, command, envs[0])
  {
    hide Run, Steps, Undisturbed, CommandHandler, Ended;
    var w, pc, pc' := Run(cfg, Start(cfg), before), Console(ConsoleOpen(fp, command)), Console(ConsoleWrite(command));
    RunConcat(cfg, Start(cfg), before, Undisturbed(id, pc, envs));
    FirstStep(cfg, w, id, pc, envs);
    ConsoleRuns(cfg, w.(reqs := w.reqs[id := pc]), id, fp, command, envs);
    EndedKept(w, id, pc);
    CommandHandlerKept(w, id, pc, command, envs[1]);
    RunConcat(cfg, Start(cfg), before, Undisturbed(id, pc', envs));
    FirstStep(cfg, w, id, pc', envs);
    CommandRuns(cfg, w.(reqs := w.reqs[id := pc']), id, command, envs);
    CommandHandlerKept(w, id, pc', command, envs[0]);
  }

  lemma ConsoleRuns(cfg: Settings, w: World, id: nat, fp: string, command: Command, envs: seq<Env>)
    requires id in w.reqs && w.reqs[id] == Console(ConsoleOpen(fp, command)) && |envs| >= 2
    ensures Run(cfg, w, Steps(id, envs)) == ConsoleHandler(cfg, w, id, fp, command, envs[1])
  {
    hide Run, Steps, PostStep, ThreadStep, MarkStep, AccountStep, ReportStep, Rebuilt, CommandHandler, CommandOutcome;
    hide IsMuted;
    NextStep(cfg, w, id, envs);
    var w1 := Step(cfg, w, Advance(id, envs[0]));
    if w1.reqs[id] == Done {
      EndedStays(cfg, w1, id, envs[1..]);
    } else {
      CommandRuns(cfg, w1, id, command, envs[1..]);
      CommandHandlerKept(w, id, Console(ConsoleWrite(command)), command, envs[1]);
    }
  }
}
