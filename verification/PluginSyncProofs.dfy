/** Every run keeps a server's rows, ConfigMap and hash in step, and says exactly when they are not. */
module PluginSyncProofs {
  import opened Options
  import opened Db
  import opened SelectionText
  import opened PluginChanges
  import opened PluginSync

  lemma {:induction false} InsertDistinct(rows: seq<Plugin>, added: seq<Plugin>)
    requires Distinct(rows + added)
    ensures InsertAll(rows, added) == rows + added
    decreases |added|
  {
    if added != [] {
      assert rows + added == (rows + [added[0]]) + added[1..];
      forall r | r in rows
        ensures r.slug != added[0].slug
      {
        var i :| 0 <= i < |rows| && rows[i] == r;
        assert (rows + added)[i] == r && (rows + added)[|rows|] == added[0];
      }
      InsertDistinct(rows + [added[0]], added[1..]);
    }
  }

  /** A sound plan always changes the text. */
  lemma PlanChangesText(rows: seq<Plugin>, p: Plan)
    requires Distinct(rows) && Sound(rows, p)
    ensures SelectionJson(Target(rows, p)) != SelectionJson(rows)
  {
    TextIsThePins(Target(rows, p), rows);
    match p
    case Plus(added) =>
      assert (rows + added)[|rows|] == added[0];
      assert added[0] in rows + added;
      assert PinOf(added[0]) in PinSet(rows + added);
      forall r | r in rows
        ensures r.slug != added[0].slug
      {
        var i :| 0 <= i < |rows| && rows[i] == r;
        assert (rows + added)[i] == r;
      }
    case Minus(slug) =>
      WithoutKeepsTheRest(rows, slug);
      var r :| r in rows && r.slug == slug;
      assert PinOf(r) in PinSet(rows);
  }

  lemma PlanIsSound(op: Op, catalog: Option<Catalog>, rows: seq<Plugin>)
    requires Distinct(rows)
    ensures PlanOf(op, catalog, rows).Some? ==> Sound(rows, PlanOf(op, catalog, rows).value)
  {
    match op
    case Add(slug) =>
      if catalog.Some? && AddPlan(catalog.value, rows, slug).Brings? {
        AddKeepsClosed(catalog.value, rows, slug);
      }
    case Remove(slug) =>
      if RemovePlan(rows, slug).Leaves? {
        WithoutKeepsTheRest(rows, slug);
        WithoutIsDistinct(rows, slug);
        if Closed(rows) {
          RemoveKeepsClosed(rows, slug);
        }
      }
  }

  lemma StoreReachesTarget(db: Tables, n: string, p: Plan)
    requires Sound(Rows(db, n), p)
    ensures Rows(Store(db, n, p), n) == Target(Rows(db, n), p)
  {
    match p
    case Plus(added) => InsertDistinct(Rows(db, n), added);
    case Minus(slug) =>
  }

  lemma SeedGivesDefaults(defaults: seq<Plugin>, db: Tables, n: string)
    requires Distinct(defaults) && (n in db.plugins ==> n in db.pluginStates)
    ensures n !in db.pluginStates ==> Rows(SeedPlugins(db, n, defaults), n) == defaults
  {
    assert [] + defaults == defaults;
    InsertDistinct([], defaults);
  }

  // --- one name at a time ------------------------------------------------------------------

  /** Nothing in the tables for the name has changed. */
  ghost predicate SameRows(db: Tables, db': Tables, n: string) {
    && (n in db'.servers <==> n in db.servers) && (n in db.servers ==> db'.servers[n] == db.servers[n])
    && (n in db'.plugins <==> n in db.plugins) && (n in db.plugins ==> db'.plugins[n] == db.plugins[n])
    && (n in db'.pluginStates <==> n in db.pluginStates)
    && (n in db.pluginStates ==> db'.pluginStates[n] == db.pluginStates[n])
  }

  /** Nothing kept for the name has changed. */
  ghost predicate SameAt(s: State, s': State, n: string) {
    && SameRows(s.db, s'.db, n)
    && (n in s'.configMaps <==> n in s.configMaps) && (n in s.configMaps ==> s'.configMaps[n] == s.configMaps[n])
    && (n in s'.locks <==> n in s.locks) && (n in s.locks ==> s'.locks[n] == s.locks[n])
    && (n in s'.cut <==> n in s.cut)
  }

  /** A step about one name: the other names, and the workers but `id`, stay as they are. */
  ghost predicate About(s: State, s': State, n: string, id: nat) {
    && (forall m | m != n :: SameAt(s, s', m))
    && (id in s.workers ==> s.workers[id].name == n)
    && (id in s'.workers ==> s'.workers[id].name == n && id < s'.nextWorker)
    && (forall other | other != id :: other in s'.workers <==> other in s.workers)
    && (forall other | other != id && other in s.workers :: s'.workers[other] == s.workers[other])
    && s.nextWorker <= s'.nextWorker
  }

  lemma OthersFine(defaults: seq<Plugin>, s: State, s': State, n: string, id: nat, m: string)
    requires Inv(defaults, s) && About(s, s', n, id) && m != n
    ensures Fine(defaults, s', m)
  {
    assert SameAt(s, s', m) && Fine(defaults, s, m);
  }

  lemma OthersKnow(defaults: seq<Plugin>, s: State, s': State, n: string, id: nat, other: nat)
    requires Inv(defaults, s) && About(s, s', n, id) && other != id && other in s.workers && s.workers[other].name != n
    ensures Knows(defaults, s', other, s.workers[other])
  {
    assert SameAt(s, s', s.workers[other].name);
  }

  /** So only the name itself, the worker that moved and its rivals for the name need a look. */
  lemma OneName(defaults: seq<Plugin>, s: State, s': State, n: string, id: nat)
    requires Inv(defaults, s) && About(s, s', n, id) && Fine(defaults, s', n)
    requires id in s'.workers ==> Knows(defaults, s', id, s'.workers[id])
    requires forall other | other != id && other in s.workers && s.workers[other].name == n ::
               Knows(defaults, s', other, s.workers[other])
    ensures Inv(defaults, s')
  {
    forall m
      ensures Fine(defaults, s', m)
    {
      if m != n {
        OthersFine(defaults, s, s', n, id, m);
      }
    }
    forall other | other in s'.workers
      ensures other < s'.nextWorker && Knows(defaults, s', other, s'.workers[other])
    {
      if other != id && s.workers[other].name != n {
        OthersKnow(defaults, s, s', n, id, other);
      }
    }
  }

  // --- the actions that move no worker -------------------------------------------------------

  /** An id no worker has. */
  function Nobody(s: State): nat { s.nextWorker }

  lemma SeedKeeps(defaults: seq<Plugin>, s: State, n: string)
    requires Usable(defaults) && Inv(defaults, s)
    ensures Inv(defaults, s.(db := SeedPlugins(s.db, n, defaults)))
  {
    assert Fine(defaults, s, n);
    SeedGivesDefaults(defaults, s.db, n);
    OneName(defaults, s, s.(db := SeedPlugins(s.db, n, defaults)), n, Nobody(s));
  }

  lemma ReserveKeeps(defaults: seq<Plugin>, s: State, n: string, tenant: string)
    requires Inv(defaults, s)
    ensures Inv(defaults, Apply(defaults, s, Reserve(n, tenant)))
  {
    assert Fine(defaults, s, n);
    OneName(defaults, s, Apply(defaults, s, Reserve(n, tenant)), n, Nobody(s));
  }

  lemma StatusKeeps(defaults: seq<Plugin>, s: State, n: string, to: Status)
    requires Inv(defaults, s) && n in s.db.servers && !to.Provisioning?
    requires s.db.servers[n].status.Provisioning? ==> !BeingSeeded(s, n)
    ensures Inv(defaults, s.(db := SetStatus(s.db, n, to)))
  {
    assert Fine(defaults, s, n);
    OneName(defaults, s, s.(db := SetStatus(s.db, n, to)), n, Nobody(s));
  }

  lemma DropKeeps(defaults: seq<Plugin>, s: State, n: string)
    requires Inv(defaults, s)
    ensures Inv(defaults, Apply(defaults, s, DropNamespace(n)))
  {
    assert Fine(defaults, s, n);
    OneName(defaults, s, Apply(defaults, s, DropNamespace(n)), n, Nobody(s));
  }

  lemma RemoveKeeps(defaults: seq<Plugin>, s: State, n: string)
    requires Inv(defaults, s)
    ensures Inv(defaults, Apply(defaults, s, RemoveServer(n)))
  {
    assert Fine(defaults, s, n);
    OneName(defaults, s, Apply(defaults, s, RemoveServer(n)), n, Nobody(s));
  }

  lemma ReportKeeps(defaults: seq<Plugin>, s: State, n: string, hash: Digest)
    requires Inv(defaults, s)
    ensures Inv(defaults, Apply(defaults, s, ReportApplied(n, hash)))
  {
    assert Fine(defaults, s, n);
    OneName(defaults, s, Apply(defaults, s, ReportApplied(n, hash)), n, Nobody(s));
  }

  lemma StartKeeps(defaults: seq<Plugin>, s: State, w: Worker)
    requires Inv(defaults, s) && Knows(defaults, s, s.nextWorker, w)
    requires if w.Change? then w.at.Waiting? else w.to.SeedText?
    ensures Inv(defaults, s.(workers := s.workers[s.nextWorker := w], nextWorker := s.nextWorker + 1))
  {
    assert Fine(defaults, s, w.name);
    OneName(defaults, s, s.(workers := s.workers[s.nextWorker := w], nextWorker := s.nextWorker + 1), w.name, s.nextWorker);
  }

  lemma RestartKeeps(defaults: seq<Plugin>, s: State, failed: set<string>)
    requires Inv(defaults, s)
    ensures Inv(defaults, Apply(defaults, s, Restart(failed)))
  {
    var s' := Apply(defaults, s, Restart(failed));
    forall n
      ensures Fine(defaults, s', n)
    {
      assert Fine(defaults, s, n);
      if MidChange(s, n) {
        var w := s.workers[s.locks[n]];
        assert Knows(defaults, s, s.locks[n], w);
        PlanChangesText(w.at.rows, w.at.plan);
      }
    }
  }

  lemma SeedingSameRows(defaults: seq<Plugin>, db: Tables, n: string, m: string)
    requires m != n
    ensures SameRows(db, SeedPlugins(db, n, defaults), m)
  {
  }

  lemma HashingSameRows(db: Tables, n: string, hash: Digest, m: string)
    requires m != n
    ensures SameRows(db, SetWritten(db, n, hash), m)
  {
  }

  lemma StoringSameRows(db: Tables, n: string, p: Plan, m: string)
    requires m != n
    ensures SameRows(db, Store(db, n, p), m)
  {
  }

  /** A change's step leaves another name as it is. */
  lemma ChangeSameAt(defaults: seq<Plugin>, s: State, id: nat, a: Answer, m: string)
    requires id in s.workers && s.workers[id].Change? && s.workers[id].name != m
    ensures SameAt(s, AdvanceChange(defaults, s, id, a), m)
  {
    var w := s.workers[id];
    if w.at.Seeding? {
      SeedingSameRows(defaults, s.db, w.name, m);
    } else if w.at.Hashing? {
      HashingSameRows(s.db, w.name, Sha256(SelectionJson(Target(w.at.rows, w.at.plan))), m);
    } else if w.at.Storing? {
      StoringSameRows(s.db, w.name, w.at.plan, m);
    } else {
      assert AdvanceChange(defaults, s, id, a).db == s.db;
    }
  }

  /** And moves no worker but its own. */
  lemma ChangeMovesOne(defaults: seq<Plugin>, s: State, id: nat, a: Answer)
    requires id in s.workers && s.workers[id].Change?
    ensures var s' := AdvanceChange(defaults, s, id, a);
            && s'.workers - {id} == s.workers - {id} && s'.nextWorker == s.nextWorker
            && (id in s'.workers ==> s'.workers[id].name == s.workers[id].name)
  {
  }

  lemma ChangeIsAbout(defaults: seq<Plugin>, s: State, id: nat, a: Answer)
    requires WorkersKnow(defaults, s) && id in s.workers && s.workers[id].Change?
    ensures About(s, AdvanceChange(defaults, s, id, a), s.workers[id].name, id)
  {
    var s' := AdvanceChange(defaults, s, id, a);
    forall m | m != s.workers[id].name
      ensures SameAt(s, s', m)
    {
      ChangeSameAt(defaults, s, id, a, m);
    }
    ChangeMovesOne(defaults, s, id, a);
    OneMoves(s, s', id);
  }

  lemma SeedSameAt(defaults: seq<Plugin>, s: State, id: nat, a: Answer, m: string)
    requires id in s.workers && s.workers[id].Seed? && s.workers[id].name != m
    ensures SameAt(s, AdvanceSeed(defaults, s, id, a), m)
  {
    var w := s.workers[id];
    if w.to.SeedRows? {
      SeedingSameRows(defaults, s.db, w.name, m);
    } else if w.to.SeedHash? {
      HashingSameRows(s.db, w.name, Sha256(SelectionJson(defaults)), m);
    }
  }

  lemma SeedMovesOne(defaults: seq<Plugin>, s: State, id: nat, a: Answer)
    requires id in s.workers && s.workers[id].Seed?
    ensures var s' := AdvanceSeed(defaults, s, id, a);
            && s'.workers - {id} == s.workers - {id} && s'.nextWorker == s.nextWorker
            && (id in s'.workers ==> s'.workers[id].name == s.workers[id].name)
  {
  }

  lemma SeedIsAbout(defaults: seq<Plugin>, s: State, id: nat, a: Answer)
    requires WorkersKnow(defaults, s) && id in s.workers && s.workers[id].Seed?
    ensures About(s, AdvanceSeed(defaults, s, id, a), s.workers[id].name, id)
  {
    var s' := AdvanceSeed(defaults, s, id, a);
    forall m | m != s.workers[id].name
      ensures SameAt(s, s', m)
    {
      SeedSameAt(defaults, s, id, a, m);
    }
    SeedMovesOne(defaults, s, id, a);
    OneMoves(s, s', id);
  }

  lemma OneMoves(s: State, s': State, id: nat)
    requires s'.workers - {id} == s.workers - {id}
    ensures forall other | other != id :: other in s'.workers <==> other in s.workers
    ensures forall other | other != id && other in s.workers :: s'.workers[other] == s.workers[other]
  {
    forall other | other != id
      ensures other in s'.workers <==> other in s.workers
      ensures other in s.workers ==> s'.workers[other] == s.workers[other]
    {
      assert other in s'.workers - {id} <==> other in s'.workers;
      assert other in s.workers ==> (s.workers - {id})[other] == s.workers[other];
    }
  }

  // --- the steps of a worker -------------------------------------------------------------------

  lemma SeedTextKeeps(defaults: seq<Plugin>, s: State, id: nat, a: Answer)
    requires Inv(defaults, s) && id in s.workers && s.workers[id].Seed? && s.workers[id].to.SeedText?
    ensures Inv(defaults, AdvanceSeed(defaults, s, id, a))
  {
    var n := s.workers[id].name;
    assert Fine(defaults, s, n) && Knows(defaults, s, id, s.workers[id]);
    SeedIsAbout(defaults, s, id, a);
    OneName(defaults, s, AdvanceSeed(defaults, s, id, a), n, id);
  }

  lemma SeedRowsKeeps(defaults: seq<Plugin>, s: State, id: nat, a: Answer)
    requires Usable(defaults) && Inv(defaults, s) && id in s.workers && s.workers[id].Seed? && s.workers[id].to.SeedRows?
    ensures Inv(defaults, AdvanceSeed(defaults, s, id, a))
  {
    var n := s.workers[id].name;
    assert Fine(defaults, s, n) && Knows(defaults, s, id, s.workers[id]);
    SeedGivesDefaults(defaults, s.db, n);
    SeedIsAbout(defaults, s, id, a);
    OneName(defaults, s, AdvanceSeed(defaults, s, id, a), n, id);
  }

  lemma SeedHashKeeps(defaults: seq<Plugin>, s: State, id: nat, a: Answer)
    requires Inv(defaults, s) && id in s.workers && s.workers[id].Seed? && s.workers[id].to.SeedHash?
    ensures Inv(defaults, AdvanceSeed(defaults, s, id, a))
  {
    var n := s.workers[id].name;
    assert Fine(defaults, s, n) && Knows(defaults, s, id, s.workers[id]);
    SeedIsAbout(defaults, s, id, a);
    OneName(defaults, s, AdvanceSeed(defaults, s, id, a), n, id);
  }

  lemma WaitKeeps(defaults: seq<Plugin>, s: State, id: nat, a: Answer)
    requires Inv(defaults, s) && id in s.workers && s.workers[id].Change? && s.workers[id].at.Waiting?
    ensures Inv(defaults, AdvanceChange(defaults, s, id, a))
  {
    var w := s.workers[id];
    assert Fine(defaults, s, w.name) && Knows(defaults, s, id, w);
    ChangeIsAbout(defaults, s, id, a);
    OneName(defaults, s, AdvanceChange(defaults, s, id, a), w.name, id);
  }

  lemma LeaveKeeps(defaults: seq<Plugin>, s: State, id: nat, a: Answer)
    requires Inv(defaults, s) && id in s.workers && s.workers[id].Change? && s.workers[id].at.Leaving?
    ensures Inv(defaults, AdvanceChange(defaults, s, id, a))
  {
    var w := s.workers[id];
    assert Fine(defaults, s, w.name) && Knows(defaults, s, id, w);
    ChangeIsAbout(defaults, s, id, a);
    OneName(defaults, s, AdvanceChange(defaults, s, id, a), w.name, id);
  }

  lemma ReadKeeps(defaults: seq<Plugin>, s: State, id: nat, a: Answer)
    requires Inv(defaults, s) && id in s.workers && s.workers[id].Change?
    requires s.workers[id].at.Locked? || s.workers[id].at.Reading?
    ensures Inv(defaults, AdvanceChange(defaults, s, id, a))
  {
    var w := s.workers[id];
    assert Fine(defaults, s, w.name) && Knows(defaults, s, id, w);
    ChangeIsAbout(defaults, s, id, a);
    OneName(defaults, s, AdvanceChange(defaults, s, id, a), w.name, id);
  }

  lemma PlanKeeps(defaults: seq<Plugin>, s: State, id: nat, a: Answer)
    requires Inv(defaults, s) && id in s.workers && s.workers[id].Change? && s.workers[id].at.Planning?
    ensures Inv(defaults, AdvanceChange(defaults, s, id, a))
  {
    var w := s.workers[id];
    assert Fine(defaults, s, w.name) && Knows(defaults, s, id, w);
    PlanIsSound(w.op, a.catalog, w.at.rows);
    ChangeIsAbout(defaults, s, id, a);
    OneName(defaults, s, AdvanceChange(defaults, s, id, a), w.name, id);
  }

  lemma EnsureRowsKeeps(defaults: seq<Plugin>, s: State, id: nat, a: Answer)
    requires Usable(defaults) && Inv(defaults, s) && id in s.workers && s.workers[id].Change? && s.workers[id].at.Seeding?
    ensures Inv(defaults, AdvanceChange(defaults, s, id, a))
  {
    var w := s.workers[id];
    assert Fine(defaults, s, w.name) && Knows(defaults, s, id, w);
    SeedGivesDefaults(defaults, s.db, w.name);
    ChangeIsAbout(defaults, s, id, a);
    OneName(defaults, s, AdvanceChange(defaults, s, id, a), w.name, id);
  }

  lemma WriteFailsKeeps(defaults: seq<Plugin>, s: State, id: nat, a: Answer)
    requires Inv(defaults, s) && id in s.workers && s.workers[id].Change? && s.workers[id].at.Writing? && !a.works
    ensures Inv(defaults, AdvanceChange(defaults, s, id, a))
  {
    var w := s.workers[id];
    assert Fine(defaults, s, w.name) && Knows(defaults, s, id, w);
    ChangeIsAbout(defaults, s, id, a);
    OneName(defaults, s, AdvanceChange(defaults, s, id, a), w.name, id);
  }

  lemma WriteWorksKeeps(defaults: seq<Plugin>, s: State, id: nat, a: Answer)
    requires Inv(defaults, s) && id in s.workers && s.workers[id].Change? && s.workers[id].at.Writing? && a.works
    ensures Inv(defaults, AdvanceChange(defaults, s, id, a))
  {
    var w := s.workers[id];
    assert Fine(defaults, s, w.name) && Knows(defaults, s, id, w);
    ChangeIsAbout(defaults, s, id, a);
    OneName(defaults, s, AdvanceChange(defaults, s, id, a), w.name, id);
  }

  lemma HashKeeps(defaults: seq<Plugin>, s: State, id: nat, a: Answer)
    requires Inv(defaults, s) && id in s.workers && s.workers[id].Change? && s.workers[id].at.Hashing?
    ensures Inv(defaults, AdvanceChange(defaults, s, id, a))
  {
    var w := s.workers[id];
    assert Fine(defaults, s, w.name) && Knows(defaults, s, id, w);
    ChangeIsAbout(defaults, s, id, a);
    OneName(defaults, s, AdvanceChange(defaults, s, id, a), w.name, id);
  }

  lemma StoreKeeps(defaults: seq<Plugin>, s: State, id: nat, a: Answer)
    requires Inv(defaults, s) && id in s.workers && s.workers[id].Change? && s.workers[id].at.Storing?
    ensures Inv(defaults, AdvanceChange(defaults, s, id, a))
  {
    var w := s.workers[id];
    assert Fine(defaults, s, w.name) && Knows(defaults, s, id, w);
    StoreReachesTarget(s.db, w.name, w.at.plan);
    ChangeIsAbout(defaults, s, id, a);
    OneName(defaults, s, AdvanceChange(defaults, s, id, a), w.name, id);
  }

  lemma AdvanceKeeps(defaults: seq<Plugin>, s: State, id: nat, a: Answer)
    requires Usable(defaults) && Inv(defaults, s) && id in s.workers
    ensures Inv(defaults, Apply(defaults, s, Advance(id, a)))
  {
    match s.workers[id]
    case Seed(_, SeedText) => SeedTextKeeps(defaults, s, id, a);
    case Seed(_, SeedRows) => SeedRowsKeeps(defaults, s, id, a);
    case Seed(_, SeedHash) => SeedHashKeeps(defaults, s, id, a);
    case Change(_, _, _, at) =>
      match at
      case Waiting => WaitKeeps(defaults, s, id, a);
      case Locked => ReadKeeps(defaults, s, id, a);
      case Seeding => EnsureRowsKeeps(defaults, s, id, a);
      case Reading => ReadKeeps(defaults, s, id, a);
      case Planning(_) => PlanKeeps(defaults, s, id, a);
      case Writing(_, _) => if a.works { WriteWorksKeeps(defaults, s, id, a); } else { WriteFailsKeeps(defaults, s, id, a); }
      case Hashing(_, _) => HashKeeps(defaults, s, id, a);
      case Storing(_, _) => StoreKeeps(defaults, s, id, a);
      case Leaving => LeaveKeeps(defaults, s, id, a);
  }

  lemma ActionKeeps(defaults: seq<Plugin>, s: State, a: Action)
    requires Usable(defaults) && Inv(defaults, s)
    ensures Inv(defaults, Apply(defaults, s, a))
  {
    match a
    case Reserve(name, tenant) => ReserveKeeps(defaults, s, name, tenant);
    case StartSeed(name) =>
      if name in s.db.servers && s.db.servers[name].status.Provisioning? { StartKeeps(defaults, s, Seed(name, SeedText)); }
    case Settle(name, to) =>
      if name in s.db.servers && (to.Ready? || to.Failed?) && !BeingSeeded(s, name) { StatusKeeps(defaults, s, name, to); }
    case BeginRemoval(name) =>
      if name in s.db.servers && !s.db.servers[name].status.Provisioning? { StatusKeeps(defaults, s, name, Deleting); }
    case DropNamespace(name) => DropKeeps(defaults, s, name);
    case RemoveServer(name) => RemoveKeeps(defaults, s, name);
    case View(name) => SeedKeeps(defaults, s, name);
    case ReportApplied(name, hash) => ReportKeeps(defaults, s, name, hash);
    case StartChange(tenant, name, op) =>
      if ReadyFor(s.db, tenant, name) { StartKeeps(defaults, s, Change(tenant, name, op, Waiting)); }
    case Advance(id, answer) => if id in s.workers { AdvanceKeeps(defaults, s, id, answer); }
    case Restart(failed) => RestartKeeps(defaults, s, failed);
  }

  lemma {:induction false} EveryRunKeepsInv(defaults: seq<Plugin>, actions: seq<Action>)
    requires Usable(defaults)
    ensures Inv(defaults, Run(defaults, actions))
  {
    if actions != [] {
      var last := |actions| - 1;
      EveryRunKeepsInv(defaults, actions[..last]);
      ActionKeeps(defaults, Run(defaults, actions[..last]), actions[last]);
    }
  }

  // --- what every run guarantees -----------------------------------------------------------------

  /**
   While a server's change lock is free and a selection has been written, the
   ConfigMap holds the text of the rows, and the written hash is that text's,
   exactly unless a restart or a lost namespace cut the name.
   */
  lemma ThreeCopiesAgree(defaults: seq<Plugin>, actions: seq<Action>, n: string)
    requires Usable(defaults)
    requires var s := Run(defaults, actions); n !in s.locks && Written(s.db, n).Some?
    ensures var s := Run(defaults, actions);
            && (n !in s.cut <==> n in s.configMaps && s.configMaps[n] == SelectionJson(Rows(s.db, n)))
            && (n !in s.cut ==> Written(s.db, n) == Some(Sha256(s.configMaps[n])))
  {
    EveryRunKeepsInv(defaults, actions);
    assert Fine(defaults, Run(defaults, actions), n);
  }

  /** In every run a selection holds each slug once and stays closed under its requirements. */
  lemma SelectionsStayClosed(defaults: seq<Plugin>, actions: seq<Action>, n: string)
    requires Usable(defaults)
    ensures var rows := Rows(Run(defaults, actions).db, n); Distinct(rows) && Closed(rows)
  {
    EveryRunKeepsInv(defaults, actions);
    assert Fine(defaults, Run(defaults, actions), n);
  }

  /** A change whose ConfigMap write fails leaves rows, ConfigMap and hash, and was about to write another text. */
  lemma FailedWriteChangesNothing(defaults: seq<Plugin>, actions: seq<Action>, id: nat, a: Answer)
    requires Usable(defaults) && !a.works
    requires var s := Run(defaults, actions); id in s.workers && s.workers[id].Change? && s.workers[id].at.Writing?
    ensures var s, s' := Run(defaults, actions), Apply(defaults, Run(defaults, actions), Advance(id, a));
            var w := s.workers[id];
            && s'.db == s.db && s'.configMaps == s.configMaps && s'.workers[id].at.Leaving?
            && Rows(s.db, w.name) == w.at.rows
            && SelectionJson(Target(w.at.rows, w.at.plan)) != SelectionJson(Rows(s.db, w.name))
  {
    EveryRunKeepsInv(defaults, actions);
    WritesAnotherText(defaults, Run(defaults, actions), id);
  }

  lemma WritesAnotherText(defaults: seq<Plugin>, s: State, id: nat)
    requires Inv(defaults, s) && id in s.workers && s.workers[id].Change? && s.workers[id].at.Writing?
    ensures var w := s.workers[id];
            Rows(s.db, w.name) == w.at.rows
            && SelectionJson(Target(w.at.rows, w.at.plan)) != SelectionJson(w.at.rows)
  {
    var w := s.workers[id];
    assert Knows(defaults, s, id, w) && Fine(defaults, s, w.name);
    PlanChangesText(w.at.rows, w.at.plan);
  }

  /** The selection is `rows`, settled and written, and the lock is still this worker's. */
  ghost predicate Landed(s: State, id: nat, n: string, rows: seq<Plugin>) {
    && id in s.workers && s.workers[id].Change? && s.workers[id].name == n && s.workers[id].at.Leaving?
    && n in s.locks && s.locks[n] == id
    && n in s.db.servers && !s.db.servers[n].status.Provisioning?
    && n in s.db.pluginStates && Written(s.db, n).Some?
    && Rows(s.db, n) == rows && n !in s.cut
  }

  /** Between its ConfigMap and its end: the plan is still to be stored, or it has landed. */
  ghost predicate OnItsWay(s: State, id: nat, n: string, rows: seq<Plugin>, p: Plan) {
    id in s.workers ==>
      && s.workers[id].Change? && s.workers[id].name == n
      && (s.workers[id].at == Hashing(rows, p) || s.workers[id].at == Storing(rows, p) || Landed(s, id, n, Target(rows, p)))
  }

  lemma OwnStepGoesOn(defaults: seq<Plugin>, s: State, id: nat, n: string, rows: seq<Plugin>, p: Plan, a: Answer)
    requires Inv(defaults, s) && id in s.workers && OnItsWay(s, id, n, rows, p)
    ensures OnItsWay(AdvanceChange(defaults, s, id, a), id, n, rows, p)
  {
    assert Knows(defaults, s, id, s.workers[id]);
    if s.workers[id].at.Storing? {
      StoreReachesTarget(s.db, n, p);
    }
  }

  /** A change that waits for the lock, or works on another server, leaves what has landed. */
  lemma OtherChangeLeavesIt(defaults: seq<Plugin>, s: State, id: nat, n: string, rows: seq<Plugin>, other: nat, a: Answer)
    requires Inv(defaults, s) && Landed(s, id, n, rows) && other != id && other in s.workers && s.workers[other].Change?
    ensures Landed(AdvanceChange(defaults, s, other, a), id, n, rows)
  {
    assert Knows(defaults, s, other, s.workers[other]);
    assert s.workers[other].name == n ==> s.workers[other].at.Waiting?;
  }

  /** A create's seeding is of another server. */
  lemma OtherSeedLeavesIt(defaults: seq<Plugin>, s: State, id: nat, n: string, rows: seq<Plugin>, other: nat, a: Answer)
    requires Inv(defaults, s) && Landed(s, id, n, rows) && other in s.workers && s.workers[other].Seed?
    ensures Landed(AdvanceSeed(defaults, s, other, a), id, n, rows)
  {
    assert Knows(defaults, s, other, s.workers[other]);
    assert s.workers[other].name != n;
  }

  /** So does anything else but a restart. */
  lemma OthersLeaveIt(defaults: seq<Plugin>, s: State, id: nat, n: string, rows: seq<Plugin>, a: Action)
    requires Inv(defaults, s) && Landed(s, id, n, rows) && !a.Advance? && !a.Restart?
    ensures Landed(Apply(defaults, s, a), id, n, rows)
  {
    assert id < s.nextWorker;
  }

  /** A worker stays where it is while others move. */
  lemma WorkerStays(defaults: seq<Plugin>, s: State, a: Action, id: nat)
    requires id in s.workers && id < s.nextWorker && !a.Restart? && !(a.Advance? && a.id == id)
    ensures var s' := Apply(defaults, s, a); id in s'.workers && s'.workers[id] == s.workers[id] && id < s'.nextWorker
  {
  }

  lemma LandedStays(defaults: seq<Plugin>, s: State, id: nat, n: string, rows: seq<Plugin>, a: Action)
    requires Inv(defaults, s) && Landed(s, id, n, rows) && !a.Restart? && !(a.Advance? && a.id == id)
    ensures Landed(Apply(defaults, s, a), id, n, rows)
  {
    if !a.Advance? {
      OthersLeaveIt(defaults, s, id, n, rows, a);
    } else if a.id in s.workers {
      if s.workers[a.id].Change? {
        OtherChangeLeavesIt(defaults, s, id, n, rows, a.id, a.answer);
      } else {
        OtherSeedLeavesIt(defaults, s, id, n, rows, a.id, a.answer);
      }
    }
  }

  /** Gone workers stay gone: their numbers are not used again. */
  lemma NobodyNew(defaults: seq<Plugin>, s: State, a: Action, id: nat)
    requires id < s.nextWorker
    ensures id < Apply(defaults, s, a).nextWorker
    ensures id !in s.workers ==> id !in Apply(defaults, s, a).workers
  {
  }

  lemma WayGoesOn(defaults: seq<Plugin>, s: State, id: nat, n: string, rows: seq<Plugin>, p: Plan, a: Action)
    requires Inv(defaults, s) && OnItsWay(s, id, n, rows, p) && id < s.nextWorker && !a.Restart?
    ensures OnItsWay(Apply(defaults, s, a), id, n, rows, p) && id < Apply(defaults, s, a).nextWorker
  {
    NobodyNew(defaults, s, a, id);
    if id in s.workers {
      if a.Advance? && a.id == id {
        OwnStepGoesOn(defaults, s, id, n, rows, p, a.answer);
      } else {
        WorkerStays(defaults, s, a, id);
        if Landed(s, id, n, Target(rows, p)) {
          LandedStays(defaults, s, id, n, Target(rows, p), a);
        }
      }
    }
  }

  lemma RunsOn(defaults: seq<Plugin>, actions: seq<Action>, more: seq<Action>)
    requires more != []
    ensures Run(defaults, actions + more)
         == Apply(defaults, Run(defaults, actions + more[..|more| - 1]), more[|more| - 1])
  {
    assert (actions + more)[..|actions + more| - 1] == actions + more[..|more| - 1];
  }

  lemma {:induction false} WholeWay(defaults: seq<Plugin>, actions: seq<Action>, more: seq<Action>, id: nat, n: string,
                                    rows: seq<Plugin>, p: Plan)
    requires Usable(defaults) && forall a | a in more :: !a.Restart?
    requires var s := Run(defaults, actions); OnItsWay(s, id, n, rows, p) && id < s.nextWorker
    ensures var s := Run(defaults, actions + more); OnItsWay(s, id, n, rows, p) && id < s.nextWorker
    decreases |more|
  {
    if more == [] {
      assert actions + more == actions;
    } else {
      var init, last := more[..|more| - 1], more[|more| - 1];
      assert last in more;
      WholeWay(defaults, actions, init, id, n, rows, p);
      OneStepOfTheWay(defaults, actions + init, last, id, n, rows, p);
      RunsOn(defaults, actions, more);
    }
  }

  lemma OneStepOfTheWay(defaults: seq<Plugin>, actions: seq<Action>, a: Action, id: nat, n: string, rows: seq<Plugin>, p: Plan)
    requires Usable(defaults) && !a.Restart?
    requires var s := Run(defaults, actions); OnItsWay(s, id, n, rows, p) && id < s.nextWorker
    ensures var s := Apply(defaults, Run(defaults, actions), a); OnItsWay(s, id, n, rows, p) && id < s.nextWorker
  {
    EveryRunKeepsInv(defaults, actions);
    WayGoesOn(defaults, Run(defaults, actions), id, n, rows, p, a);
  }

  /**
   A change whose ConfigMap write works ends, unless a restart cuts it off, and
   whatever else goes on meanwhile, with the rows it planned, and rows, ConfigMap and
   hash agreeing.
   */
  lemma AWrittenChangeLands(defaults: seq<Plugin>, actions: seq<Action>, id: nat, a: Answer, more: seq<Action>)
    requires Usable(defaults) && a.works && forall x | x in more :: !x.Restart?
    requires var s := Run(defaults, actions); id in s.workers && s.workers[id].Change? && s.workers[id].at.Writing?
    requires var s' := Run(defaults, actions + [Advance(id, a)] + more); id in s'.workers && s'.workers[id].Change? && s'.workers[id].at.Leaving?
    ensures var s, s' := Run(defaults, actions), Run(defaults, actions + [Advance(id, a)] + more);
            var w := s.workers[id];
            var rows := Target(w.at.rows, w.at.plan);
            && Rows(s'.db, w.name) == rows
            && w.name in s'.configMaps && s'.configMaps[w.name] == SelectionJson(rows)
            && Written(s'.db, w.name) == Some(Sha256(SelectionJson(rows)))
  {
    EveryRunKeepsInv(defaults, actions);
    var s := Run(defaults, actions);
    var w := s.workers[id];
    var written := actions + [Advance(id, a)];
    assert written[..|actions|] == actions;
    WholeWay(defaults, written, more, id, w.name, w.at.rows, w.at.plan);
    EveryRunKeepsInv(defaults, written + more);
    assert Fine(defaults, Run(defaults, written + more), w.name);
  }

  /** One change at a time: two workers past the lock of one server are one. */
  lemma OneChangeAtATime(defaults: seq<Plugin>, actions: seq<Action>, i: nat, j: nat)
    requires Usable(defaults)
    requires var s := Run(defaults, actions);
             && i in s.workers && s.workers[i].Change? && !s.workers[i].at.Waiting?
             && j in s.workers && s.workers[j].Change? && !s.workers[j].at.Waiting?
             && s.workers[i].name == s.workers[j].name
    ensures i == j
  {
    EveryRunKeepsInv(defaults, actions);
    var s := Run(defaults, actions);
    assert Knows(defaults, s, i, s.workers[i]) && Knows(defaults, s, j, s.workers[j]);
  }

  // --- the defaults ----------------------------------------------------------------------------------

  lemma {:induction false} SortLength(s: seq<Pin>)
    ensures |Sort(s)| == |s|
  {
    if s != [] {
      SortLength(s[1..]);
      InsertLength(s[0], Sort(s[1..]));
    }
  }

  lemma {:induction false} InsertLength(p: Pin, s: seq<Pin>)
    ensures |Insert(p, s)| == |s| + 1
  {
    if s != [] {
      InsertLength(p, s[1..]);
    }
  }

  lemma {:induction false} InsertDrops(rows: seq<Plugin>, added: seq<Plugin>)
    requires Distinct(rows)
    ensures |InsertAll(rows, added)| <= |rows| + |added|
    ensures |InsertAll(rows, added)| == |rows| + |added| ==> Distinct(rows + added)
    decreases |added|
  {
    if added == [] {
      assert rows + added == rows;
    } else if added[0].slug in Slugs(rows) {
      InsertDrops(rows, added[1..]);
    } else {
      assert rows + added == (rows + [added[0]]) + added[1..];
      assert forall i | 0 <= i < |rows| :: rows[i].slug in Slugs(rows);
      InsertDrops(rows + [added[0]], added[1..]);
    }
  }

  /** Seeding leaves ConfigMap and rows agreeing exactly when no two defaults share a slug. */
  lemma SeedingNeedsDistinctDefaults(defaults: seq<Plugin>)
    ensures SelectionJson(defaults) == SelectionJson(InsertAll([], defaults)) <==> Distinct(defaults)
  {
    var rows := InsertAll([], defaults);
    assert [] + defaults == defaults;
    if Distinct(defaults) {
      InsertDistinct([], defaults);
    }
    if SelectionJson(defaults) == SelectionJson(rows) {
      DocumentIsInjective(Sort(Pins(defaults)), Sort(Pins(rows)));
      SortLength(Pins(defaults));
      SortLength(Pins(rows));
      InsertDrops([], defaults);
    }
  }
}
