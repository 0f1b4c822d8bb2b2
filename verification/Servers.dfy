/**
 The running server: the database, the accounts and the index as objects, and the handlers as
 methods that take one transaction at a time. Each method makes exactly the step of the request
 machine, so what holds of all runs holds of the database.
 */
module Servers {
  import opened Options
  import opened Keys
  import opened Buckets
  import opened Text
  import opened Mutes
  import opened ForumLog
  import opened Forums
  import opened Stores
  import opened Coherence
  import opened Databases
  import opened Keyword
  import opened Requests
  import opened Safety
  import opened Runs
  import opened EventRuns
  import opened Config
  import opened SubforumIndex
  import AS = AccountStore

  /** The key of a thread that exists gives the subforum of that thread, and any other string gives nothing. */
  lemma SubforumOfKey(s: Store, f: Forum, id: Key)
    requires Represents(s, f) && Room(f)
    ensures s.threadToSubforum.Get(id) ==
            match ThreadNumber(f, id)
            case Some(t) => Some(Threads(f.log)[t - 1].subforum)
            case None => None
  {
    hide Itob, KeyNumber, PostRecs, ThreadRecs, UserPostsExact, UserThreadsExact, SubforumsExact;
    hide NumberedItems, Threads;
    var sfs := Subforums(Threads(f.log));
    GetNumbered(s.threadToSubforum, sfs, id);
    if ThreadNumber(f, id).Some? {
      SubforumAt(Threads(f.log), ThreadNumber(f, id).value, |Threads(f.log)|);
    }
  }

  /** The first reading transaction over the forum in NewPostHandler. */
  method SubforumOfThread(db: Database, id: Key) returns (subforum: Option<string>)
    requires db.Valid() && Room(db.forum)
    ensures subforum ==
            match ThreadNumber(db.forum, id)
            case Some(t) => Some(Threads(db.forum.log)[t - 1].subforum)
            case None => None
  {
    hide Itob, KeyNumber, Represents, Threads;
    SubforumOfKey(db.Contents(), db.forum, id);
    subforum := db.threadToSubforum.Get(id);
  }

  /** The settings under a configuration: the other settings, and the priviledges of the configured subforums. */
  function LoadedSettings(base: Settings, groups: seq<ForumGroup>): Settings {
    base.(subs := PrivsOf(groups))
  }

  class Server {
    const groups: seq<ForumGroup>
    const cfg: Settings
    const db: Database
    const accounts: AS.AccountBuckets
    const index: KeywordIndex
    var reqs: map<nat, Pc>
    ghost var hist: History

    /** The state of the request machine that the objects are in. */
    ghost function State(): World
      reads this, db, accounts, index
    {
      World(accounts.Contents(), db.forum, index.docs, db.keywordChan, reqs, hist)
    }

    ghost predicate Valid()
      reads this, db, accounts
    {
      db.Valid() && accounts.Valid() && Accepted(groups) && cfg.subs == PrivsOf(groups)
    }

    /** A server with an empty database, in which every configured subforum has its bucket. */
    constructor (base: Settings, configured: seq<ForumGroup>)
      requires Accepted(configured) && "" !in Table(configured)
      ensures Valid() && groups == configured
      ensures cfg == LoadedSettings(base, configured) && State() == Start(LoadedSettings(base, configured))
      ensures fresh(db) && fresh(accounts) && fresh(index)
    {
      hide Represents, Forums.Sound, Accepted, Table;
      groups, cfg := configured, LoadedSettings(base, configured);
      reqs := map[];
      hist := History([], {}, [], [], []);
      var database := new Database();
      var ids := GetAllSubforumIDs(configured);
      assert "" !in ids by {
        assert "" in ids ==> "" in (set id | id in ids);
      }
      var err := database.CreateBuckets(ids, true);
      assert {} + (set n | n in ids) == Table(configured).Keys == PrivsOf(configured).Keys;
      accounts := new AS.AccountBuckets();
      index := new KeywordIndex();
      db := database;
    }

    /** One reading transaction of NewPostHandler. */
    method ReadForReply(pc: PostPc, now: int) returns (r: Read)
      requires Valid() && Room(db.forum) && !pc.PostWrite?
      ensures r == PostRead(cfg, accounts.Contents(), db.forum, pc, now)
    {
      hide Represents, Forums.Sound, Threads, KeyNumber, IsMuted, Accepted, Table, PrivsOf;
      match pc
      case PostOpen(fp, thread, draft) =>
        var user, muted := accounts.GetUsernameFromFP(fp, now);
        r := if user == "" then Next(Done) else if muted then Muted else Next(Replying(PostRoute(user, thread, draft)));
      case PostRoute(user, thread, draft) =>
        var subforum := SubforumOfThread(db, thread);
        if subforum.None? {
          return Next(Done);
        }
        var privs := GetSubforumPrivFromID(groups, subforum.value);
        if privs.None? || cfg.PrivOf(user) < privs.value.1 {
          return Next(Done);
        }
        r := Next(Replying(PostNudge(user, thread, draft)));
      case PostNudge(user, thread, draft) =>
        var err := accounts.CheckForPostNudge(user);
        if err == Some(AS.ShouldPostNudge) {
          return Next(Marking(user));
        }
        r := if err.Some? || draft.None? then Next(Done) else Next(Replying(PostWrite(user, thread, draft.value)));
    }

    /** One reading transaction of CreateThreadHandler. */
    method ReadForThread(pc: ThreadPc, now: int) returns (r: Read)
      requires Valid() && !pc.ThreadWrite?
      ensures r == ThreadRead(cfg, accounts.Contents(), pc, now)
    {
      hide Represents, Forums.Sound, IsMuted, Accepted, Table, PrivsOf;
      match pc
      case ThreadOpen(fp, subforum, title, draft) =>
        var user, muted := accounts.GetUsernameFromFP(fp, now);
        r := if user == "" then Next(Done) else if muted then Muted
             else Next(Opening(ThreadNudge(user, subforum, title, draft)));
      case ThreadNudge(user, subforum, title, draft) =>
        var err := accounts.CheckForPostNudge(user);
        if err == Some(AS.ShouldPostNudge) {
          return Next(Marking(user));
        }
        if err.Some? {
          return Next(Done);
        }
        var privs := GetSubforumPrivFromID(groups, subforum);
        if privs.None? || cfg.PrivOf(user) < privs.value.0 || draft.None? {
          return Next(Done);
        }
        r := Next(Opening(ThreadWrite(user, subforum, title, draft.value)));
    }

    /** A request goes on after a reading transaction. */
    method GoOn(id: nat, r: Read)
      modifies this
      ensures Valid() == old(Valid())
      ensures db.forum == old(db.forum) && State() == AfterRead(old(State()), id, r)
    {
      match r
      case Next(pc) => reqs := reqs[id := pc];
      case Muted =>
        reqs := reqs[id := Done];
        hist := hist.(mutedAtStart := hist.mutedAtStart + {id});
    }

    method TakeReply(id: nat, pc: PostPc, env: Env)
      requires Valid() && Room(db.forum)
      modifies this, db
      ensures Valid() && State() == PostStep(cfg, old(State()), id, pc, env)
    {
      hide Represents, Forums.Sound, Reply, ReplyError, ReplySends, PostRead;
      match pc
      case PostWrite(user, thread, text) =>
        ghost var log := db.forum.log;
        var err := db.OnNewPost(user, thread, text, cfg.PrivOf(user), env.Clock(), env.commit);
        reqs := reqs[id := Done];
        hist := if db.forum.log == log then hist else hist.(writers := hist.writers + [id]);
      case _ =>
        var r := ReadForReply(pc, env.now);
        GoOn(id, r);
    }

    method TakeOpening(id: nat, pc: ThreadPc, env: Env)
      requires Valid() && Room(db.forum)
      modifies this, db
      ensures Valid() && State() == ThreadStep(cfg, old(State()), id, pc, env)
    {
      hide Represents, Forums.Sound, Open, OpenError, OpenSends, ThreadRead;
      match pc
      case ThreadWrite(user, subforum, title, text) =>
        ghost var log := db.forum.log;
        var err := db.OnNewThread(subforum, user, title, text, env.Clock(), env.commit, cfg.alphabet);
        reqs := reqs[id := Done];
        hist := if db.forum.log == log then hist else hist.(writers := hist.writers + [id]);
      case _ =>
        var r := ReadForThread(pc, env.now);
        GoOn(id, r);
    }

    /** UpdateForPostNudge, whose error is dropped, and the page. */
    method TakeMarking(id: nat, user: string, env: Env)
      requires Valid()
      modifies this, accounts`users
      ensures Valid() && State() == MarkStep(old(State()), id, user, env)
    {
      hide AS.ClearNudge, Represents, Forums.Sound, Accepted, PrivsOf, AS.UsersOf;
      var err := accounts.UpdateForPostNudge(user, env.commit);
      reqs := reqs[id := Done];
      hist := hist.(pages := hist.pages + [user],
                    unmarked := if err.Some? then hist.unmarked + [user] else hist.unmarked);
    }

    /** One transaction of login, logout, registration or verification. */
    method TakeAccount(id: nat, pc: AccountPc, env: Env)
      requires Valid()
      modifies this, accounts
      ensures Valid() && State() == AccountStep(cfg, old(State()), id, pc, env)
    {
      hide AS.CheckLogin, AS.CheckName, AS.Register, AS.Verify, AS.Login, AS.Logout, Trim, UsernameShape;
      hide Represents, Forums.Sound, Accepted, PrivsOf, Table, AS.UsersOf, AS.Verified;
      var next := Done;
      match pc {
        case LoginCheck(fp, user, pass) =>
          var err := accounts.CheckPassword(user, pass, cfg.matches);
          next := if err.Some? then Done else Account(LoginWrite(fp, user));
        case LoginWrite(fp, user) =>
          var err := accounts.WriteLogin(fp, user, env.commit);
        case LogoutWrite(fp) =>
          var err := accounts.WriteLogout(fp, env.commit);
        case RegisterCheck(rawName, email, pass, code) =>
          if PasswordFits(pass) {
            var err := accounts.ValidateUsername(rawName, cfg.alphabet);
            var space := cfg.alphabet.space;
            next := if err.Some? then Done
                    else Account(RegisterWrite(Trim(rawName, space), Trim(email, space), Trim(pass, space), code));
          }
        case RegisterWrite(name, email, pass, code) =>
          var err := accounts.OnRegister(name, email, cfg.hash(pass), code, cfg.smtp, env.commit);
        case VerifyWrite(code) =>
          var err := accounts.VerifyUser(code, env.commit);
      }
      reqs := reqs[id := next];
    }

    /** One step of ReportHandler. */
    method TakeReport(id: nat, pc: ReportPc, env: Env)
      requires Valid() && Room(db.forum)
      modifies this, db
      ensures Valid() && State() == ReportStep(old(State()), id, pc, env)
    {
      hide Represents, Forums.Sound, Report, KeyNumber, IsMuted;
      match pc
      case ReportOpen(fp, post) =>
        var user, _ := accounts.GetUsernameFromFP(fp, env.now);
        reqs := reqs[id := if user == "" then Done else Reporting(ReportWrite(post))];
      case ReportWrite(post) =>
        var err := db.ReportPost(post, env.commit);
        reqs := reqs[id := if err.Some? then Done else Reporting(ReportMail(KeyNumber(post).value))];
      case ReportMail(n) =>
        reqs := reqs[id := Done];
        hist := hist.(mails := hist.mails + [n]);
    }

    /** One transaction of a console command. */
    method TakeCommand(command: Command, env: Env)
      requires Valid() && Room(db.forum)
      modifies db, accounts
      ensures Valid() && db.keywordChan == old(db.keywordChan)
      ensures (accounts.Contents(), db.forum) == CommandOutcome(old(accounts.Contents()), old(db.forum), command, env)
    {
      hide Represents, Forums.Sound, SetLock, AS.MuteUser, AS.UnmuteUser;
      match command
      case Lock(thread) =>
        var err := db.SetThreadLock(thread, true, env.commit);
      case Unlock(thread) =>
        var err := db.SetThreadLock(thread, false, env.commit);
      case Mute(user, term) =>
        var err := accounts.Mute(user, term, env.now, env.zone, env.commit);
      case Unmute(user) =>
        var err := accounts.Unmute(user, env.commit);
    }

    /** One step of ConsoleHandler. */
    method TakeConsole(id: nat, pc: ConsolePc, env: Env)
      requires Valid() && Room(db.forum)
      modifies this, db, accounts
      ensures Valid() && State() == ConsoleStep(cfg, old(State()), id, pc, env)
    {
      hide Represents, Forums.Sound, CommandOutcome, IsMuted;
      match pc
      case ConsoleOpen(fp, command) =>
        var user, _ := accounts.GetUsernameFromFP(fp, env.now);
        reqs := reqs[id := if cfg.PrivOf(user) < MOD then Done else Console(ConsoleWrite(command))];
      case ConsoleWrite(command) =>
        TakeCommand(command, env);
        reqs := reqs[id := Done];
    }

    /** The next transaction of a request. */
    method Proceed(id: nat, env: Env)
      requires Valid() && Room(db.forum) && id in reqs
      modifies this, db, accounts
      ensures Valid() && State() == AdvanceStep(cfg, old(State()), id, old(reqs[id]), env)
    {
      hide Represents, Forums.Sound, PostStep, ThreadStep, MarkStep, AccountStep, ReportStep, ConsoleStep;
      match reqs[id]
      case Replying(p) => TakeReply(id, p, env);
      case Opening(t) => TakeOpening(id, t, env);
      case Marking(user) => TakeMarking(id, user, env);
      case Account(a) => TakeAccount(id, a, env);
      case Reporting(r) => TakeReport(id, r, env);
      case Console(c) => TakeConsole(id, c, env);
      case Done =>
    }

    /** One step of the server is one step of the request machine. */
    method Take(a: Action)
      requires Valid() && Room(db.forum)
      modifies this, db, accounts, index
      ensures Valid() && State() == Step(cfg, old(State()), a)
    {
      hide Represents, Forums.Sound, AdvanceStep, Rebuilt;
      match a
      case Begin(id, pc) =>
        if id !in reqs && Starts(pc) {
          reqs := reqs[id := pc];
        }
      case Advance(id, env) =>
        if id in reqs {
          Proceed(id, env);
        }
      case Deliver =>
        if db.keywordChan != [] {
          var m := db.keywordChan[0];
          db.keywordChan := db.keywordChan[1..];
          index.docs := index.docs[m.id := m];
        }
      case Restart(repopulate) =>
        if repopulate {
          index.docs := Rebuild(db);
        }
        db.keywordChan := [];
        reqs := map id | id in reqs :: Done;
    }
  }

  /** A step adds at most one event. */
  lemma LogIsNotLongerThanRun(cfg: Settings, run: seq<Action>, a: Action)
    requires |Run(cfg, Start(cfg), run).forum.log| <= |run|
    ensures |Run(cfg, Start(cfg), run + [a]).forum.log| <= |run| + 1
  {
    hide Run, Step, Base, AS.Grows;
    RunSnoc(cfg, Start(cfg), run, a);
    RunKeepsBase(cfg, run);
    StepKeepsBase(cfg, Run(cfg, Start(cfg), run), a);
  }

  /** LoadConfig and initDatabase on a new file: the server starts if and only if the configuration has no duplicates,
      no subforum without an id, and its buckets could be made. */
  method StartServer(base: Settings, groups: seq<ForumGroup>, commit: bool) returns (server: Option<Server>)
    ensures server.Some? <==> DistinctNames(groups) && DistinctIds(groups) && "" !in Table(groups) && commit
    ensures server.Some? ==>
      fresh(server.value) && fresh(server.value.db) && fresh(server.value.accounts) && fresh(server.value.index)
    ensures server.Some? ==> server.value.Valid() && server.value.cfg == LoadedSettings(base, groups)
    ensures server.Some? ==> server.value.groups == groups
    ensures server.Some? ==> server.value.State() == Start(LoadedSettings(base, groups))
  {
    hide Represents, Forums.Sound, Table, DistinctNames, DistinctIds, Tokens;
    AcceptedIffDistinct(groups);
    var duplicate := CheckDuplicates(groups);
    if duplicate.Some? {
      VerdictIsOne(Tokens(groups), duplicate.value);
      return None;
    }
    var ids := GetAllSubforumIDs(groups);
    assert "" in ids <==> "" in (set id | id in ids);
    if "" in ids || !commit {
      return None;
    }
    var started := new Server(base, groups);
    return Some(started);
  }

  lemma VerdictIsOne(ts: seq<Token>, d: Duplicate)
    requires Verdict(ts, Some(d))
    ensures !Verdict(ts, None)
  {
  }

  /** A server that has started and has gone through a whole run is where the run ends, with exact indexes. */
  method Serve(base: Settings, groups: seq<ForumGroup>, run: seq<Action>) returns (server: Option<Server>)
    requires |run| < LIMIT - 2
    ensures server.Some? <==> DistinctNames(groups) && DistinctIds(groups) && "" !in Table(groups)
    ensures server.Some? ==> fresh(server.value) && server.value.Valid()
    ensures server.Some? ==>
      var cfg := LoadedSettings(base, groups);
      server.value.cfg == cfg && server.value.State() == Run(cfg, Start(cfg), run) && Base(cfg, server.value.State())
    ensures server.Some? ==>
      var s := server.value.db.Contents();
      ThreadListsCoherent(s) && UserPostsCoherent(s) && UserThreadsCoherent(s) && SubforumsCoherent(s)
  {
    hide Run, Step, Represents, Forums.Sound, Base, Accepted, Table, DistinctNames, DistinctIds, PrivsOf;
    hide ThreadListsCoherent, UserPostsCoherent, UserThreadsCoherent, SubforumsCoherent;
    server := StartServer(base, groups, true);
    if server.None? {
      return;
    }
    ghost var cfg := LoadedSettings(base, groups);
    var s := server.value;
    RunStarts(cfg, Start(cfg));
    for i := 0 to |run|
      invariant fresh(s) && fresh(s.db) && fresh(s.accounts) && fresh(s.index)
      invariant s.cfg == cfg && s.Valid()
      invariant s.State() == Run(cfg, Start(cfg), run[..i])
      invariant |s.db.forum.log| <= i
    {
      RunSnoc(cfg, Start(cfg), run[..i], run[i]);
      LogIsNotLongerThanRun(cfg, run[..i], run[i]);
      assert run[..i + 1] == run[..i] + [run[i]];
      s.Take(run[i]);
    }
    assert run[..|run|] == run;
    RunKeepsBase(cfg, run);
    IndexesAreExact(s.db.Contents(), s.db.forum);
  }

  /** SubforumIndexHandler on a server that a run led to: a page exactly for the configured ids, under the configured
      name; the error for a subforum without a bucket is unreachable. */
  method SubforumPage(server: Server, id: string) returns (page: Option<(string, array<Row>)>)
    requires server.Valid() && Room(server.db.forum) && Base(server.cfg, server.State())
    ensures page.None? <==> id !in Table(server.groups)
    ensures page.Some? ==>
      var rows := page.value.1[..];
      var f := server.db.forum;
      && page.value.0 == Table(server.groups)[id].name
      && NewestFirst(rows)
      && multiset(rows) == multiset(SubforumIndex.Map(RowOf(f), Positions(Threads(f.log), InSubforum(id))))
      && (StrictlyTimed(f.log) ==> rows == SubforumIndex.Map(RowOf(f), Board(f.log, id)))
  {
    hide Represents, Forums.Sound, Accepted, Table, PcOk, AS.Sound, NewestFirst, StrictlyTimed, Board, RowOf, Positions;
    hide SubforumIndex.Map;
    var name := SubforumExists(server.groups, id);
    if name.None? {
      return None;
    }
    assert id in PrivsOf(server.groups);
    var ok, threads := GetThreadsForSubforum(server.db, id);
    assert ok; // "Subforum not found" is never returned
    return Some((name.value, threads));
  }

  /** The author of a thread or of a reply in the subforum meets what one of the configured subforums asks for. */
  ghost predicate MeetsConfiguration(groups: seq<ForumGroup>, priv: nat, sf: string, opening: bool) {
    exists i, k :: At(groups, i, k, sf)
      && priv >= if opening then groups[i].subforums[k].threadPriv else groups[i].subforums[k].replyPriv
  }

  lemma TableMeetsConfiguration(groups: seq<ForumGroup>, priv: nat, sf: string)
    requires sf in PrivsOf(groups)
    ensures priv >= PrivsOf(groups)[sf].0 ==> MeetsConfiguration(groups, priv, sf, true)
    ensures priv >= PrivsOf(groups)[sf].1 ==> MeetsConfiguration(groups, priv, sf, false)
  {
    hide Table;
    TableHolds(groups, sf);
  }

  /** From the configuration to the log, over every run: every thread and every reply is by a user whose priviledge is
      at least the one that the configuration gives for its subforum. */
  lemma AuthorsMeetTheConfiguration(base: Settings, groups: seq<ForumGroup>, run: seq<Action>, n: nat)
    requires var cfg := LoadedSettings(base, groups); n < |Run(cfg, Start(cfg), run).forum.log|
    ensures var cfg := LoadedSettings(base, groups);
            var log := Run(cfg, Start(cfg), run).forum.log;
            var e := log[n];
            var priv := if e.author in base.privs then base.privs[e.author] else 0;
            && (e.Opened? ==> MeetsConfiguration(groups, priv, e.subforum, true))
            && (e.Replied? ==>
                  && 1 <= e.thread <= |Threads(log)|
                  && MeetsConfiguration(groups, priv, Threads(log)[e.thread - 1].subforum, false))
  {
    hide Run, Threads, PrivsOf, MeetsConfiguration;
    var cfg := LoadedSettings(base, groups);
    var log := Run(cfg, Start(cfg), run).forum.log;
    var e := log[n];
    var priv := if e.author in base.privs then base.privs[e.author] else 0;
    AuthorsHavePriviledge(cfg, run, n);
    TableMeetsConfiguration(groups, priv, if e.Opened? then e.subforum else Threads(log)[e.thread - 1].subforum);
  }
}
