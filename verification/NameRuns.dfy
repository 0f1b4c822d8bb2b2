/** When no two users have names that are equal under case folding, over any run. */
module NameRuns {
  import opened Options
  import opened Keys
  import opened Text
  import opened Mutes
  import opened ForumLog
  import opened Forums
  import opened Keyword
  import opened Requests
  import opened Safety
  import opened Invariants
  import opened Runs
  import AS = AccountStore

  /** No two users have names that are equal under folding. */
  ghost predicate Unique(cfg: Settings, acc: AS.Accounts) {
    forall u, v :: u in acc.users && v in acc.users && cfg.alphabet.equalFold(u, v) ==> u == v
  }

  /** The name folds to no stored name. */
  ghost predicate Fresh(cfg: Settings, acc: AS.Accounts, name: string) {
    forall u :: u in acc.users ==> !cfg.alphabet.equalFold(u, name)
  }

  /** A registration is about to commit a new name that folds to a stored one. The writing transaction looks for
      the same name only, and the check under folding was made earlier. */
  ghost predicate Collides(cfg: Settings, w: World, a: Action) {
    && a.Advance? && a.id in w.reqs && a.env.commit && Registers(w.reqs[a.id])
    && w.reqs[a.id].account.name !in w.acc.users
    && !Fresh(cfg, w.acc, w.reqs[a.id].account.name)
  }

  /** A registration that commits under a new name adds it. */
  lemma RegisteringAdds(cfg: Settings, w: World, id: nat, pc: Pc, env: Env)
    requires Registers(pc) && pc.account.name != ""
    ensures AdvanceStep(cfg, w, id, pc, env).acc.users.Keys ==
            if env.commit then w.acc.users.Keys + {pc.account.name} else w.acc.users.Keys
  {
  }

  lemma NoEmptyName(cfg: Settings, w: World, id: nat)
    requires Base(cfg, w) && id in w.reqs && Registers(w.reqs[id])
    ensures w.reqs[id].account.name != ""
  {
    hide AS.Sound, Forums.Sound;
    assert PcOk(cfg, w.acc, w.forum, w.reqs[id]);
  }

  lemma AddName(cfg: Settings, acc: AS.Accounts, acc': AS.Accounts, name: string)
    requires cfg.alphabet.Sane() && name !in acc.users && acc'.users.Keys == acc.users.Keys + {name}
    ensures Unique(cfg, acc') <==> Unique(cfg, acc) && Fresh(cfg, acc, name)
  {
    if !Fresh(cfg, acc, name) {
      var u :| u in acc.users && cfg.alphabet.equalFold(u, name);
      assert u in acc'.users && name in acc'.users && u != name;
    }
    if Unique(cfg, acc') {
      assert forall u, v :: u in acc.users && v in acc.users ==> u in acc'.users && v in acc'.users;
    }
  }

  lemma SameNames(cfg: Settings, acc: AS.Accounts, acc': AS.Accounts)
    requires acc'.users.Keys == acc.users.Keys
    ensures Unique(cfg, acc') <==> Unique(cfg, acc)
    ensures forall name :: Fresh(cfg, acc', name) <==> Fresh(cfg, acc, name)
  {
    assert forall u :: u in acc.users <==> u in acc'.users;
  }

  /** A step leaves the names unique exactly if they were and it is not a colliding registration. */
  lemma UniqueStep(cfg: Settings, w: World, a: Action)
    requires cfg.alphabet.Sane() && Base(cfg, w)
    ensures Unique(cfg, Step(cfg, w, a).acc) <==> Unique(cfg, w.acc) && !Collides(cfg, w, a)
  {
    hide AdvanceStep, Unique, Fresh, Base, Rebuilt;
    var w' := Step(cfg, w, a);
    if a.Advance? && a.id in w.reqs {
      var pc := w.reqs[a.id];
      WhoRegisters(cfg, w, a.id, pc, a.env);
      if Registers(pc) {
        NoEmptyName(cfg, w, a.id);
        RegisteringAdds(cfg, w, a.id, pc, a.env);
      }
      if Registers(pc) && a.env.commit && pc.account.name !in w.acc.users {
        AddName(cfg, w.acc, w'.acc, pc.account.name);
      } else {
        SameNames(cfg, w.acc, w'.acc);
      }
    }
  }

  /** No step of the run is a colliding registration. */
  ghost predicate NeverCollides(cfg: Settings, run: seq<Action>) {
    run != [] ==>
      var init := run[..|run| - 1];
      NeverCollides(cfg, init) && !Collides(cfg, Run(cfg, Start(cfg), init), run[|run| - 1])
  }

  /** In every interleaving, stored names are unique up to case if and only if no registration committed a new name
      that folds to one stored by then. */
  lemma {:induction false} NamesUniqueIff(cfg: Settings, run: seq<Action>)
    requires cfg.alphabet.Sane()
    ensures Unique(cfg, Run(cfg, Start(cfg), run).acc) <==> NeverCollides(cfg, run)
  {
    hide Step, Collides, Unique;
    if run == [] {
      NobodyCollides(cfg);
    } else {
      var init := run[..|run| - 1];
      NamesUniqueIff(cfg, init);
      RunKeepsBase(cfg, init);
      UniqueStep(cfg, Run(cfg, Start(cfg), init), run[|run| - 1]);
    }
  }

  lemma NobodyCollides(cfg: Settings)
    ensures Unique(cfg, Start(cfg).acc)
  {
  }

  // ---------- Where a pending name comes from ----------

  lemma AccountNameIsFresh(cfg: Settings, acc: AS.Accounts, pc: AccountPc, env: Env)
    ensures var (acc', pc') := AccountOutcome(cfg, acc, pc, env);
            Registers(pc') ==> acc' == acc && Fresh(cfg, acc, pc'.account.name)
  {
    hide AS.CheckLogin, AS.Register, AS.Verify, AS.Login, AS.Logout, Trim, ByteLength;
  }

  /** A registration goes on to its write only with a name that folds to no stored name. */
  lemma CheckedNameIsFresh(cfg: Settings, w: World, id: nat, pc: Pc, env: Env)
    requires id in w.reqs
    ensures var w' := AdvanceStep(cfg, w, id, pc, env);
            id in w'.reqs && (pc != Done && Registers(w'.reqs[id]) ==>
              w'.acc.users == w.acc.users && Fresh(cfg, w.acc, w'.reqs[id].account.name))
  {
    hide Reply, ReplySends, Open, OpenSends, ReportError, AS.WhoIs, AS.ClearNudge, AS.CheckNudge, Fresh;
    hide ThreadNumber, Threads, CommandOutcome, AccountOutcome;
    match pc
    case Account(a) => AccountNameIsFresh(cfg, w.acc, a, env);
    case _ =>
  }
}
