/**
 A server's selection is kept three times: the rows, the text in its ConfigMap,
 and the hash last written (`plugin_service.py`, with the seeding in
 `service.py`).  Any number of changes, views, creates, deletes and restarts
 interleave, each database call and each ConfigMap write a step of its own.

 Assumed: the default slugs are distinct, the default list is closed under its
 requirements (`Usable`), and no delete takes the namespace or the row while a
 change holds the server's lock.
 */
module PluginSync {
  import opened Options
  import opened Db
  import opened SelectionText
  import opened PluginChanges

  datatype Op = Add(slug: string) | Remove(slug: string)

  /** What a change comes to once it is planned. */
  datatype Plan = Plus(added: seq<Plugin>) | Minus(slug: string)

  function Target(rows: seq<Plugin>, p: Plan): seq<Plugin> {
    match p
    case Plus(added) => rows + added
    case Minus(slug) => Without(rows, slug)
  }

  /** Where a change is: its next step. */
  datatype ChangeAt =
    | Waiting                               // take the lock, or give up
    | Locked                                // the second readiness check
    | Seeding                               // `seed_plugins`
    | Reading                               // `selected_plugins`
    | Planning(rows: seq<Plugin>)           // the catalog, then the plan or a refusal
    | Writing(rows: seq<Plugin>, plan: Plan)// the ConfigMap
    | Hashing(rows: seq<Plugin>, plan: Plan)// `set_plugin_hashes`
    | Storing(rows: seq<Plugin>, plan: Plan)// the rows
    | Leaving                               // release the lock

  /** Where a create's seeding is. */
  datatype SeedAt = SeedText | SeedRows | SeedHash

  datatype Worker =
    | Change(tenant: string, name: string, op: Op, at: ChangeAt)
    | Seed(name: string, to: SeedAt)

  /** What the outside answers: whether a wait or a write works, and the catalog, if it can be read. */
  datatype Answer = Answer(works: bool, catalog: Option<Catalog>)

  /** `cut` is history: the names whose ConfigMap and rows were left apart by a restart or a lost namespace. */
  datatype State = State(
    db: Tables,
    configMaps: map<string, string>,
    locks: map<string, nat>,
    workers: map<nat, Worker>,
    nextWorker: nat,
    cut: set<string>)

  const START := State(EMPTY, map[], map[], map[], 0, {})

  datatype Action =
    | Reserve(name: string, tenant: string)
    | StartSeed(name: string)
    | Settle(name: string, to: Status)
    | BeginRemoval(name: string)
    | DropNamespace(name: string)
    | RemoveServer(name: string)
    | View(name: string)
    | ReportApplied(name: string, hash: Digest)
    | StartChange(tenant: string, name: string, op: Op)
    | Advance(id: nat, answer: Answer)
    | Restart(failed: set<string>)

  predicate ReadyFor(db: Tables, tenant: string, name: string) {
    name in db.servers && db.servers[name] == ServerRow(tenant, Ready)
  }

  /** The lock is taken and its server settled: nothing removes the row from here on. */
  predicate Inside(at: ChangeAt) { !at.Waiting? && !at.Locked? && !at.Leaving? }

  predicate Halfway(at: ChangeAt) { at.Hashing? || at.Storing? }

  function PlanOf(op: Op, catalog: Option<Catalog>, rows: seq<Plugin>): Option<Plan> {
    match op
    case Add(slug) =>
      if catalog.None? then None
      else (
        match AddPlan(catalog.value, rows, slug)
        case Brings(added) => if added == [] then None else Some(Plus(added))
        case Unknown(_) => None)
    case Remove(slug) => if RemovePlan(rows, slug).Leaves? then Some(Minus(slug)) else None
  }

  function Store(db: Tables, name: string, p: Plan): Tables {
    match p
    case Plus(added) => AddPlugins(db, name, added)
    case Minus(slug) => RemovePlugin(db, name, slug)
  }

  /** The next stage of a change inside its lock. */
  function NextAt(db: Tables, w: Worker, a: Answer): ChangeAt
    requires w.Change? && !w.at.Waiting? && !w.at.Leaving?
  {
    match w.at
    case Locked => if ReadyFor(db, w.tenant, w.name) then Seeding else Leaving
    case Seeding => Reading
    case Reading => Planning(Rows(db, w.name))
    case Planning(rows) =>
      (match PlanOf(w.op, a.catalog, rows)
       case Some(p) => Writing(rows, p)
       case None => Leaving)
    case Writing(rows, p) => if a.works then Hashing(rows, p) else Leaving
    case Hashing(rows, p) => Storing(rows, p)
    case Storing(_, _) => Leaving
  }

  function AdvanceChange(defaults: seq<Plugin>, s: State, id: nat, a: Answer): State
    requires id in s.workers && s.workers[id].Change?
  {
    var w := s.workers[id];
    var n := w.name;
    if w.at.Waiting? then
      if n !in s.locks then s.(locks := s.locks[n := id], workers := s.workers[id := w.(at := Locked)])
      else if a.works then s
      else s.(workers := s.workers - {id})
    else if w.at.Leaving? then s.(locks := s.locks - {n}, workers := s.workers - {id})
    else
      var db :=
        if w.at.Seeding? then SeedPlugins(s.db, n, defaults)
        else if w.at.Hashing? then SetWritten(s.db, n, Sha256(SelectionJson(Target(w.at.rows, w.at.plan))))
        else if w.at.Storing? then Store(s.db, n, w.at.plan)
        else s.db;
      s.(db := db,
         configMaps := if w.at.Writing? && a.works then s.configMaps[n := SelectionJson(Target(w.at.rows, w.at.plan))]
                       else s.configMaps,
         cut := if w.at.Storing? then s.cut - {n} else s.cut,
         workers := s.workers[id := w.(at := NextAt(s.db, w, a))])
  }

  function AdvanceSeed(defaults: seq<Plugin>, s: State, id: nat, a: Answer): State
    requires id in s.workers && s.workers[id].Seed?
  {
    var w := s.workers[id];
    var n := w.name;
    match w.to
    case SeedText =>
      if a.works
      then s.(configMaps := s.configMaps[n := SelectionJson(defaults)], workers := s.workers[id := w.(to := SeedRows)])
      else s.(workers := s.workers - {id})
    case SeedRows => s.(db := SeedPlugins(s.db, n, defaults), workers := s.workers[id := w.(to := SeedHash)])
    case SeedHash => s.(db := SetWritten(s.db, n, Sha256(SelectionJson(defaults))), workers := s.workers - {id})
  }

  predicate BeingSeeded(s: State, name: string) {
    exists id :: id in s.workers && s.workers[id].Seed? && s.workers[id].name == name
  }

  function Settled(db: Tables, failed: set<string>): map<string, ServerRow> {
    map n | n in db.servers ::
      match db.servers[n].status
      case Provisioning => db.servers[n].(status := Failed)
      case Deleting => db.servers[n].(status := if n in failed then Failed else Ready)
      case _ => db.servers[n]
  }

  /** The names a restart leaves with a ConfigMap written and the rows not. */
  function CutNow(s: State): set<string> {
    set id | id in s.workers && s.workers[id].Change? && Halfway(s.workers[id].at) :: s.workers[id].name
  }

  function Apply(defaults: seq<Plugin>, s: State, a: Action): State {
    match a
    case Reserve(name, tenant) =>
      if name in s.db.servers then s
      else s.(db := s.db.(servers := s.db.servers[name := ServerRow(tenant, Provisioning)]))
    case StartSeed(name) =>
      if name in s.db.servers && s.db.servers[name].status.Provisioning?
      then s.(workers := s.workers[s.nextWorker := Seed(name, SeedText)], nextWorker := s.nextWorker + 1)
      else s
    case Settle(name, to) =>
      // a create ends, or a delete fails
      if name in s.db.servers && (to.Ready? || to.Failed?) && !BeingSeeded(s, name)
      then s.(db := SetStatus(s.db, name, to)) else s
    case BeginRemoval(name) =>
      if name in s.db.servers && !s.db.servers[name].status.Provisioning?
      then s.(db := SetStatus(s.db, name, Deleting)) else s
    case DropNamespace(name) =>
      if CanBeginDelete(s.db, name, Deleting) && name !in s.locks
      then s.(configMaps := s.configMaps - {name}, cut := s.cut + {name}) else s
    case RemoveServer(name) =>
      if CanBeginDelete(s.db, name, Deleting) && name !in s.locks
      then s.(db := DeleteServer(s.db, name), cut := s.cut - {name}) else s
    case View(name) => s.(db := SeedPlugins(s.db, name, defaults))
    case ReportApplied(name, hash) => s.(db := SetApplied(s.db, name, hash))
    case StartChange(tenant, name, op) =>
      if ReadyFor(s.db, tenant, name)
      then s.(workers := s.workers[s.nextWorker := Change(tenant, name, op, Waiting)], nextWorker := s.nextWorker + 1)
      else s
    case Advance(id, answer) =>
      if id !in s.workers then s
      else if s.workers[id].Change? then AdvanceChange(defaults, s, id, answer)
      else AdvanceSeed(defaults, s, id, answer)
    case Restart(failed) =>
      s.(db := s.db.(servers := Settled(s.db, failed)), workers := map[], locks := map[], cut := s.cut + CutNow(s))
  }

  function Run(defaults: seq<Plugin>, actions: seq<Action>): State {
    if actions == [] then START
    else Apply(defaults, Run(defaults, actions[..|actions| - 1]), actions[|actions| - 1])
  }

  // --- the invariant --------------------------------------------------------------------

  function Written(db: Tables, n: string): Option<Digest> {
    if n in db.pluginStates then db.pluginStates[n].written else None
  }

  /** The ConfigMap holds the text of these rows. */
  ghost predicate Holds(s: State, n: string, rows: seq<Plugin>) {
    n in s.configMaps && s.configMaps[n] == SelectionJson(rows)
  }

  ghost predicate InStep(s: State, n: string) {
    Holds(s, n, Rows(s.db, n)) && Written(s.db, n) == Some(Sha256(s.configMaps[n]))
  }

  /** A change of this server stands between its ConfigMap and its rows. */
  ghost predicate MidChange(s: State, n: string) {
    n in s.locks && s.locks[n] in s.workers
    && s.workers[s.locks[n]].Change? && Halfway(s.workers[s.locks[n]].at)
  }

  ghost predicate Sound(rows: seq<Plugin>, p: Plan) {
    && (match p
        case Plus(added) => added != []
        case Minus(slug) => slug in Slugs(rows))
    && Distinct(Target(rows, p))
    && (Closed(rows) ==> Closed(Target(rows, p)))
  }

  /** What a worker knows at its stage. */
  ghost predicate Knows(defaults: seq<Plugin>, s: State, id: nat, w: Worker) {
    match w
    case Seed(n, to) =>
      && n in s.db.servers && s.db.servers[n].status.Provisioning?
      && (!to.SeedText? ==> Holds(s, n, defaults))
      && (to.SeedHash? ==> n in s.db.pluginStates)
    case Change(_, n, _, at) =>
      && (!at.Waiting? ==> n in s.locks && s.locks[n] == id)
      && (Inside(at) ==> n in s.db.servers && !s.db.servers[n].status.Provisioning?)
      && (Inside(at) && !at.Seeding? ==> n in s.db.pluginStates)
      && (at.Planning? || at.Writing? || Halfway(at) ==> Rows(s.db, n) == at.rows)
      && (at.Writing? || Halfway(at) ==> Sound(at.rows, at.plan))
      && (Halfway(at) ==> Holds(s, n, Target(at.rows, at.plan)))
      && (at.Storing? ==> Written(s.db, n) == Some(Sha256(SelectionJson(Target(at.rows, at.plan)))))
  }

  ghost predicate WorkersKnow(defaults: seq<Plugin>, s: State) {
    forall id | id in s.workers :: id < s.nextWorker && Knows(defaults, s, id, s.workers[id])
  }

  ghost predicate Guarded(s: State, n: string) {
    n in s.locks ==>
      s.locks[n] in s.workers
      && s.workers[s.locks[n]].Change? && s.workers[s.locks[n]].name == n && !s.workers[s.locks[n]].at.Waiting?
  }

  /** A server that is not settled has no rows but the defaults, and only a settling one has a hash. */
  ghost predicate Fresh(defaults: seq<Plugin>, s: State, n: string) {
    n !in s.db.servers || s.db.servers[n].status.Provisioning? ==>
      && n !in s.cut
      && (n in s.db.pluginStates ==> Rows(s.db, n) == defaults)
      && (Written(s.db, n).Some? ==> n in s.db.servers)
  }

  /** Rows only ever come with a plugin state, each slug once and closed under requirements. */
  ghost predicate Tidy(s: State, n: string) {
    n in s.db.plugins ==>
      n in s.db.pluginStates && Distinct(s.db.plugins[n]) && Closed(s.db.plugins[n])
  }

  /** Away from a change the three copies agree, unless the name is cut, and then the text is not the rows'. */
  ghost predicate Agreement(s: State, n: string) {
    Written(s.db, n).Some? && !MidChange(s, n) ==>
      (n !in s.cut ==> InStep(s, n)) && (n in s.cut ==> !Holds(s, n, Rows(s.db, n)))
  }

  ghost predicate Fine(defaults: seq<Plugin>, s: State, n: string) {
    Guarded(s, n) && Fresh(defaults, s, n) && Tidy(s, n) && Agreement(s, n)
  }

  ghost predicate Usable(defaults: seq<Plugin>) { Distinct(defaults) && Closed(defaults) }

  ghost predicate Inv(defaults: seq<Plugin>, s: State) {
    WorkersKnow(defaults, s) && forall n :: Fine(defaults, s, n)
  }
}
