/**
 Requests as small programs: each step is one database transaction, reading or writing, and the
 steps of different requests interleave in any way. Every writing step may fail to commit. The
 channel of keyword messages drains at any time. The server may stop at any time; a restart finds
 the database as committed, the index as far as it was applied, and an empty channel.
 */
module Requests {
  import opened Options
  import opened Keys
  import opened Text
  import opened Mutes
  import opened ForumLog
  import opened Forums
  import opened Keyword
  import opened Stores
  import Rfc3339
  import AS = AccountStore

  /** What does not change while the server runs. A subforum has the priviledges to open threads and to reply. */
  datatype Settings = Settings(
    alphabet: Alphabet,
    privs: map<string, nat>,
    subs: map<string, (nat, nat)>,
    smtp: bool,
    hash: string -> string,
    matches: (string, string) -> bool)
  {
    function PrivOf(user: string): nat {
      if user in privs then privs[user] else 0
    }
  }

  datatype Command = Lock(thread: Key) | Unlock(thread: Key) | Mute(user: string, term: Term) | Unmute(user: string)

  // Where a request stands, with what it has read. A draft is absent when the user has not typed it yet.

  datatype PostPc =
    | PostOpen(fp: string, thread: Key, draft: Option<string>)
    | PostRoute(user: string, thread: Key, draft: Option<string>)
    | PostNudge(user: string, thread: Key, draft: Option<string>)
    | PostWrite(user: string, thread: Key, text: string)

  datatype ThreadPc =
    | ThreadOpen(fp: string, subforum: string, title: string, draft: Option<string>)
    | ThreadNudge(user: string, subforum: string, title: string, draft: Option<string>)
    | ThreadWrite(user: string, subforum: string, title: string, text: string)

  datatype AccountPc =
    | LoginCheck(fp: string, user: string, pass: string)
    | LoginWrite(fp: string, user: string)
    | LogoutWrite(fp: string)
    | RegisterCheck(rawName: string, email: string, pass: string, code: string)
    | RegisterWrite(name: string, email: string, pass: string, code: string)
    | VerifyWrite(code: string)

  datatype ReportPc =
    | ReportOpen(fp: string, post: Key)
    | ReportWrite(post: Key)
    | ReportMail(reported: nat)

  datatype ConsolePc =
    | ConsoleOpen(fp: string, command: Command)
    | ConsoleWrite(command: Command)

  datatype Pc =
    | Replying(post: PostPc)
    | Opening(thread: ThreadPc)
    | Marking(user: string)
    | Account(account: AccountPc)
    | Reporting(report: ReportPc)
    | Console(console: ConsolePc)
    | Done

  /** Requests start with one of these; a console command from standard input starts with its write. */
  predicate Starts(pc: Pc) {
    match pc
    case Replying(p) => p.PostOpen?
    case Opening(t) => t.ThreadOpen?
    case Account(a) => a.LoginCheck? || a.LogoutWrite? || a.RegisterCheck? || a.VerifyWrite?
    case Reporting(r) => r.ReportOpen?
    case Console(_) => true
    case _ => false
  }

  /**
   What happened so far; no step reads it: the request that wrote each event, the requests whose
   first snapshot found their user muted, the report mails attempted, the users shown the nudge
   page, and the users whose nudge could not be cleared.
   */
  datatype History = History(
    writers: seq<nat>,
    mutedAtStart: set<nat>,
    mails: seq<nat>,
    pages: seq<string>,
    unmarked: seq<string>)

  datatype World = World(
    acc: AS.Accounts,
    forum: Forum,
    docs: Docs,
    chan: seq<Message>,
    reqs: map<nat, Pc>,
    hist: History)

  /** The instant of a step, the local zone, whether MarshalText takes the instant, and whether a write commits. */
  datatype Env = Env(now: Instant, zone: Rfc3339.Zone, marshals: bool, commit: bool)
  {
    function Clock(): Option<int> {
      if marshals then Some(now) else None
    }
  }

  datatype Action = Begin(id: nat, pc: Pc) | Advance(id: nat, env: Env) | Deliver | Restart(repopulate: bool)

  function Start(cfg: Settings): World {
    World(AS.Accounts(map[], map[], map[]), Forum([], {}, {}, cfg.subs.Keys), map[], [], map[],
          History([], {}, [], [], []))
  }

  // ---------- The steps of the handlers ----------

  /** What a reading step decides: where to go on, or that its user is muted. */
  datatype Read = Next(pc: Pc) | Muted

  /** The reading steps of NewPostHandler. */
  function PostRead(cfg: Settings, acc: AS.Accounts, f: Forum, pc: PostPc, now: int): Read
    requires !pc.PostWrite?
  {
    match pc
    case PostOpen(fp, thread, draft) =>
      var (user, muted) := AS.WhoIs(acc, fp, now);
      if user == "" then Next(Done)
      else if muted then Muted
      else Next(Replying(PostRoute(user, thread, draft)))
    case PostRoute(user, thread, draft) =>
      if ThreadNumber(f, thread).None? then Next(Done)
      else
        var sf := Threads(f.log)[ThreadNumber(f, thread).value - 1].subforum;
        if sf !in cfg.subs || cfg.PrivOf(user) < cfg.subs[sf].1 then Next(Done)
        else Next(Replying(PostNudge(user, thread, draft)))
    case PostNudge(user, thread, draft) =>
      var e := AS.CheckNudge(acc, user);
      if e == Some(AS.ShouldPostNudge) then Next(Marking(user))
      else if e.Some? || draft.None? then Next(Done)
      else Next(Replying(PostWrite(user, thread, draft.value)))
  }

  /** The reading steps of CreateThreadHandler. */
  function ThreadRead(cfg: Settings, acc: AS.Accounts, pc: ThreadPc, now: int): Read
    requires !pc.ThreadWrite?
  {
    match pc
    case ThreadOpen(fp, subforum, title, draft) =>
      var (user, muted) := AS.WhoIs(acc, fp, now);
      if user == "" then Next(Done)
      else if muted then Muted
      else Next(Opening(ThreadNudge(user, subforum, title, draft)))
    case ThreadNudge(user, subforum, title, draft) =>
      var e := AS.CheckNudge(acc, user);
      if e == Some(AS.ShouldPostNudge) then Next(Marking(user))
      else if e.Some? then Next(Done)
      else if subforum !in cfg.subs || cfg.PrivOf(user) < cfg.subs[subforum].0 || draft.None? then Next(Done)
      else Next(Opening(ThreadWrite(user, subforum, title, draft.value)))
  }

  function AfterRead(w: World, id: nat, r: Read): World {
    match r
    case Next(pc) => w.(reqs := w.reqs[id := pc])
    case Muted => w.(reqs := w.reqs[id := Done], hist := w.hist.(mutedAtStart := w.hist.mutedAtStart + {id}))
  }

  /** A writing step over the forum: the new forum, and the messages that left before the commit. */
  function AfterWrite(w: World, id: nat, f: Forum, sent: seq<Message>): World {
    w.(forum := f, chan := w.chan + sent, reqs := w.reqs[id := Done],
       hist := if f.log == w.forum.log then w.hist else w.hist.(writers := w.hist.writers + [id]))
  }

  /** The steps of NewPostHandler; the last one is OnNewPost. */
  function PostStep(cfg: Settings, w: World, id: nat, pc: PostPc, env: Env): World {
    match pc
    case PostWrite(user, thread, text) =>
      AfterWrite(w, id, Reply(w.forum, user, thread, text, cfg.PrivOf(user), env.Clock(), env.commit),
                 ReplySends(w.forum, user, thread, text, cfg.PrivOf(user), env.Clock(), env.commit))
    case _ => AfterRead(w, id, PostRead(cfg, w.acc, w.forum, pc, env.now))
  }

  /** The steps of CreateThreadHandler; the last one is OnNewThread. */
  function ThreadStep(cfg: Settings, w: World, id: nat, pc: ThreadPc, env: Env): World {
    match pc
    case ThreadWrite(user, subforum, title, text) =>
      AfterWrite(w, id, Open(w.forum, cfg.alphabet, subforum, user, title, text, env.Clock(), env.commit),
                 OpenSends(w.forum, cfg.alphabet, subforum, user, title, text, env.Clock(), env.commit))
    case _ => AfterRead(w, id, ThreadRead(cfg, w.acc, pc, env.now))
  }

  /** UpdateForPostNudge, whose error nobody looks at, and then the nudge page. */
  function MarkStep(w: World, id: nat, user: string, env: Env): World {
    var o := AS.ClearNudge(w.acc, user, env.commit);
    w.(acc := o.acc, reqs := w.reqs[id := Done],
       hist := w.hist.(pages := w.hist.pages + [user],
                       unmarked := if o.err.Some? then w.hist.unmarked + [user] else w.hist.unmarked))
  }

  /** Login, logout, registration and verification: the accounts after the step, and how the request goes on. */
  function AccountOutcome(cfg: Settings, acc: AS.Accounts, pc: AccountPc, env: Env): (AS.Accounts, Pc) {
    match pc
    case LoginCheck(fp, user, pass) =>
      (acc, if AS.CheckLogin(acc, user, pass, cfg.matches).Some? then Done else Account(LoginWrite(fp, user)))
    case LoginWrite(fp, user) => (AS.Login(acc, fp, user, env.commit).acc, Done)
    case LogoutWrite(fp) => (AS.Logout(acc, fp, env.commit).acc, Done)
    case RegisterCheck(rawName, email, pass, code) =>
      (acc, if !PasswordFits(pass) || AS.CheckName(acc, rawName, cfg.alphabet).Some? then Done
            else
              var space := cfg.alphabet.space;
              Account(RegisterWrite(Trim(rawName, space), Trim(email, space), Trim(pass, space), code)))
    case RegisterWrite(name, email, pass, code) =>
      (AS.Register(acc, name, email, cfg.hash(pass), code, cfg.smtp, env.commit).acc, Done)
    case VerifyWrite(code) => (AS.Verify(acc, code, env.commit).acc, Done)
  }

  function AccountStep(cfg: Settings, w: World, id: nat, pc: AccountPc, env: Env): World {
    var (acc, pc') := AccountOutcome(cfg, w.acc, pc, env);
    w.(acc := acc, reqs := w.reqs[id := pc'])
  }

  /** The steps of ReportHandler; the last one is the attempt to send the mail. */
  function ReportStep(w: World, id: nat, pc: ReportPc, env: Env): World {
    match pc
    case ReportOpen(fp, post) =>
      w.(reqs := w.reqs[id := if AS.WhoIs(w.acc, fp, env.now).0 == "" then Done else Reporting(ReportWrite(post))])
    case ReportWrite(post) =>
      w.(forum := Report(w.forum, post, env.commit),
         reqs := w.reqs[id := if ReportError(w.forum, post, env.commit).Some? then Done
                              else Reporting(ReportMail(PostNumber(w.forum, post).value))])
    case ReportMail(n) =>
      w.(reqs := w.reqs[id := Done], hist := w.hist.(mails := w.hist.mails + [n]))
  }

  /** The accounts and the forum after a console command. */
  function CommandOutcome(acc: AS.Accounts, f: Forum, command: Command, env: Env): (AS.Accounts, Forum) {
    match command
    case Lock(thread) => (acc, SetLock(f, thread, true, env.commit))
    case Unlock(thread) => (acc, SetLock(f, thread, false, env.commit))
    case Mute(user, term) => (AS.MuteUser(acc, user, term, env.now, env.commit).acc, f)
    case Unmute(user) => (AS.UnmuteUser(acc, user, env.commit).acc, f)
  }

  /** The steps of ConsoleHandler. */
  function ConsoleStep(cfg: Settings, w: World, id: nat, pc: ConsolePc, env: Env): World {
    match pc
    case ConsoleOpen(fp, command) =>
      w.(reqs := w.reqs[id := if cfg.PrivOf(AS.WhoIs(w.acc, fp, env.now).0) < MOD then Done
                              else Console(ConsoleWrite(command))])
    case ConsoleWrite(command) =>
      var (acc, f) := CommandOutcome(w.acc, w.forum, command, env);
      w.(acc := acc, forum := f, reqs := w.reqs[id := Done])
  }

  function AdvanceStep(cfg: Settings, w: World, id: nat, pc: Pc, env: Env): World {
    match pc
    case Replying(p) => PostStep(cfg, w, id, p, env)
    case Opening(t) => ThreadStep(cfg, w, id, t, env)
    case Marking(user) => MarkStep(w, id, user, env)
    case Account(a) => AccountStep(cfg, w, id, a, env)
    case Reporting(r) => ReportStep(w, id, r, env)
    case Console(c) => ConsoleStep(cfg, w, id, c, env)
    case Done => w
  }

  /** One step of the server. Beginning with a used number or in the middle of a program does nothing. */
  function Step(cfg: Settings, w: World, a: Action): World {
    match a
    case Begin(id, pc) => if id in w.reqs || !Starts(pc) then w else w.(reqs := w.reqs[id := pc])
    case Advance(id, env) => if id !in w.reqs then w else AdvanceStep(cfg, w, id, w.reqs[id], env)
    case Deliver =>
      if w.chan == [] then w else w.(docs := w.docs[w.chan[0].id := w.chan[0]], chan := w.chan[1..])
    case Restart(repopulate) =>
      w.(docs := if repopulate then Rebuilt(Posts(w.forum.log), |w.forum.log|) else w.docs, chan := [],
         reqs := map id | id in w.reqs :: Done)
  }

  /** The state after a sequence of steps, in the order given. */
  function Run(cfg: Settings, w: World, run: seq<Action>): World {
    if run == [] then w else Step(cfg, Run(cfg, w, run[..|run| - 1]), run[|run| - 1])
  }
}
