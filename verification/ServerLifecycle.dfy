/**
 The server lifecycle as a protocol (`service.py` over `db.py`): any number of
 create and delete requests, their jobs, and restarts of the process, with every
 database call and every cluster call a step of its own.  There is no lock; the
 row is the lock.

 A run is a sequence of actions; an action that cannot happen does nothing, so
 "every run" is "every sequence".
 */
module ServerLifecycle {
  import opened Options
  import opened Db

  // --- the threads --------------------------------------------------------------

  /** Where an accepted create is: its next step. */
  datatype CreateAt =
    | Reserved               // record `create.requested`, hand the job over
    | Building(done: nat)    // the next cluster step
    | Built                  // set the row `ready`
    | Spoiled                // set the row `failed`
    | CreateTold(kind: Kind) // record how it ended

  /** Why a delete may remove the world, and the event that says so. */
  datatype Cover =
    | Taken(path: BackupPath, event: nat)
    | Kept(path: BackupPath, gone: bool, event: nat)
    | Waived(event: nat)

  /** Where a delete is: its next step. */
  datatype DeleteAt =
    | Asked                     // the compare-and-set
    | Accepted                  // record `delete.requested`, hand the job over
    | BackingUp                 // back up the world
    | Archived(path: BackupPath)// record `backup`
    | NoArchive(gone: bool)     // scan the log, decide
    | Reusing(path: BackupPath, gone: bool) // record `backup.reused`
    | Skipping                  // record `backup.skipped`
    | Uninstalling(cover: Cover)// uninstall the release
    | Dropping(cover: Cover)    // delete the namespace
    | Removing(cover: Cover)    // delete the row
    | Removed                   // record `delete`
    | Failing(kind: Kind)       // put the row back
    | DeleteTold(kind: Kind)    // record how it ended

  datatype Thread =
    | Create(tenant: string, name: string, making: CreateAt)
    | Delete(tenant: string, name: string, prior: Status, force: bool, since: nat, stage: DeleteAt)

  /** How a cluster call ends: it works, it raises `ClusterError` (saying the volume is gone, or not), or it raises something else. */
  datatype Outcome = Works(stamp: string) | Fails(gone: bool) | Crashes

  datatype Settings = Settings(maxServers: nat, pluginSelection: bool)

  /** Namespace, grant, credentials, [selection,] release, scale-up, rollout. */
  function ClusterSteps(cfg: Settings): nat { if cfg.pluginSelection then 7 else 6 }

  /** The thread holds its name: it is the request or job the row's status stands for. */
  predicate Holds(t: Thread) {
    match t
    case Create(_, _, at) => !at.CreateTold?
    case Delete(_, _, _, _, _, at) => !at.Asked? && !at.Removed? && !at.DeleteTold?
  }

  /** The thread may still call the cluster for its name. */
  predicate HasClusterSteps(t: Thread) {
    match t
    case Create(_, _, at) => at.Reserved? || at.Building?
    case Delete(_, _, _, _, _, at) =>
      at.Accepted? || at.BackingUp? || at.Archived? || at.NoArchive? || at.Reusing? || at.Skipping?
      || at.Uninstalling? || at.Dropping?
  }

  function HeldAs(t: Thread): Status { if t.Create? then Provisioning else Deleting }

  // --- one step of a thread -------------------------------------------------------

  datatype Effects = Effects(db: Tables, disk: map<BackupPath, nat>, next: Option<Thread>)

  /** `create` after its reservation, and `_provision`. */
  function CreateStep(cfg: Settings, db: Tables, disk: map<BackupPath, nat>, t: Thread, o: Outcome): Effects
    requires t.Create?
  {
    match t.making
    case Reserved =>
      Effects(Record(db, Event(t.tenant, t.name, CreateRequested)), disk, Some(t.(making := Building(0))))
    case Building(done) =>
      Effects(db, disk, Some(t.(making :=
        if !o.Works? then Spoiled else if done + 1 < ClusterSteps(cfg) then Building(done + 1) else Built)))
    case Built => Effects(SetStatus(db, t.name, Ready), disk, Some(t.(making := CreateTold(CreateDone))))
    case Spoiled => Effects(SetStatus(db, t.name, Failed), disk, Some(t.(making := CreateTold(CreateFailed))))
    case CreateTold(kind) => Effects(Record(db, Event(t.tenant, t.name, kind)), disk, None)
  }

  /** `_back_up_for_delete` once the backup has failed. */
  function Decide(db: Tables, disk: map<BackupPath, nat>, t: Thread, gone: bool): DeleteAt
    requires t.Delete?
  {
    match BackupOnDisk(db.events, t.name, disk.Keys)
    case Some(path) => if gone then Reusing(path, gone) else Unbacked(t)
    case None => Unbacked(t)
  }

  function Unbacked(t: Thread): DeleteAt
    requires t.Delete?
  {
    if !t.force && t.prior != Failed then Failing(BackupFailed) else Skipping
  }

  /** The stages that append an event, call the cluster (or scan the log), and write the row. */
  predicate Records(a: DeleteAt) {
    a.Accepted? || a.Archived? || a.Reusing? || a.Skipping? || a.Removed? || a.DeleteTold?
  }

  predicate Calls(a: DeleteAt) { a.BackingUp? || a.NoArchive? || a.Uninstalling? || a.Dropping? }

  function KindOf(t: Thread): Kind
    requires t.Delete? && Records(t.stage)
  {
    match t.stage
    case Accepted => DeleteRequested(t.prior)
    case Archived(path) => BackupTaken(path)
    case Reusing(path, _) => BackupReused(path)
    case Skipping => BackupSkipped
    case Removed => Deleted
    case DeleteTold(kind) => kind
  }

  function AfterRecord(t: Thread, event: nat): Option<DeleteAt>
    requires t.Delete? && Records(t.stage)
  {
    match t.stage
    case Accepted => Some(BackingUp)
    case Archived(path) => Some(Uninstalling(Taken(path, event)))
    case Reusing(path, gone) => Some(Uninstalling(Kept(path, gone, event)))
    case Skipping => Some(Uninstalling(Waived(event)))
    case _ => None
  }

  function AfterCall(db: Tables, disk: map<BackupPath, nat>, t: Thread, o: Outcome): DeleteAt
    requires t.Delete? && Calls(t.stage)
  {
    match t.stage
    case BackingUp =>
      (match o
       case Works(stamp) => Archived(BackupPath(t.name, stamp))
       case Fails(gone) => NoArchive(gone)
       case Crashes => Failing(DeleteFailed))
    case NoArchive(gone) => Decide(db, disk, t, gone)
    case Uninstalling(cover) => if o.Works? then Dropping(cover) else Failing(DeleteFailed)
    case Dropping(cover) => if o.Works? then Removing(cover) else Failing(DeleteFailed)
  }

  function At(t: Thread, stage: Option<DeleteAt>): Option<Thread>
    requires t.Delete?
  {
    if stage.Some? then Some(t.(stage := stage.value)) else None
  }

  /** `delete` from its compare-and-set on, and `_remove`; `world` is whose world the name's volume holds. */
  function DeleteStep(db: Tables, disk: map<BackupPath, nat>, world: nat, t: Thread, o: Outcome): Effects
    requires t.Delete?
  {
    var n, here := t.name, |db.events|;
    if Records(t.stage) then
      Effects(Record(db, Event(t.tenant, n, KindOf(t))), disk, At(t, AfterRecord(t, here)))
    else if Calls(t.stage) then
      Effects(db, if t.stage.BackingUp? && o.Works? then disk[BackupPath(n, o.stamp) := world] else disk,
              At(t, Some(AfterCall(db, disk, t, o))))
    else if t.stage.Removing? then Effects(DeleteServer(db, n), disk, At(t, Some(Removed)))
    else if t.stage.Failing? then Effects(SetStatus(db, n, t.prior), disk, At(t, Some(DeleteTold(t.stage.kind))))
    else
      Effects(BeginDelete(db, n, t.prior), disk,
              if CanBeginDelete(db, n, t.prior) then Some(t.(since := here, stage := Accepted)) else None)
  }

  // --- the whole system -----------------------------------------------------------

  /**
   The tables, the backup directory and the live threads, followed by history
   no step reads: which reservation a name's world belongs to, the thread that
   holds a name, the status a delete found, the names whose last removal has no
   `delete` event (yet), and the names whose log was scanned in such a gap and has
   not had a `delete` event since.
   */
  datatype State = State(
    db: Tables,
    disk: map<BackupPath, nat>,
    threads: map<nat, Thread>,
    nextThread: nat,
    world: map<string, nat>,
    holder: map<string, nat>,
    before: map<string, Status>,
    unlogged: set<string>,
    misread: set<string>)

  const START := State(EMPTY, map[], map[], 0, map[], map[], map[], {}, {})

  datatype Action =
    | Reserve(tenant: string, name: string)
    | Ask(tenant: string, name: string, force: bool)
    | Advance(id: nat, outcome: Outcome)
    | Restart(notes: seq<Event>)
    | LoseBackup(path: BackupPath)

  function Spawn(s: State, t: Thread): State {
    s.(threads := s.threads[s.nextThread := t], nextThread := s.nextThread + 1)
  }

  function WorldOf(s: State, name: string): nat { if name in s.world then s.world[name] else 0 }

  function Put(threads: map<nat, Thread>, id: nat, t: Option<Thread>): map<nat, Thread> {
    if t.Some? then threads[id := t.value] else threads - {id}
  }

  /** `recover_interrupted` on the rows. */
  function Recovered(db: Tables): map<string, ServerRow> {
    map n | n in db.servers ::
      match db.servers[n].status
      case Provisioning => db.servers[n].(status := Failed)
      case Deleting => db.servers[n].(status := StatusBeforeDelete(db.events, n))
      case _ => db.servers[n]
  }

  predicate IsNote(e: Event) { e.kind.CreateInterrupted? || e.kind.DeleteInterrupted? }

  function AdvanceCreate(cfg: Settings, s: State, id: nat, o: Outcome): State
    requires id in s.threads && s.threads[id].Create?
  {
    var e := CreateStep(cfg, s.db, s.disk, s.threads[id], o);
    s.(db := e.db, disk := e.disk, threads := Put(s.threads, id, e.next))
  }

  /** A live delete of this name has chosen a backup to reuse. */
  predicate Reuses(s: State, n: string) {
    exists id :: id in s.threads && s.threads[id].Delete? && s.threads[id].name == n && s.threads[id].stage.Reusing?
  }

  function AdvanceDelete(s: State, id: nat, o: Outcome): State
    requires id in s.threads && s.threads[id].Delete?
  {
    var t := s.threads[id];
    var n := t.name;
    var e := DeleteStep(s.db, s.disk, WorldOf(s, n), t, o);
    var won := t.stage.Asked? && CanBeginDelete(s.db, n, t.prior);
    s.(db := e.db, disk := e.disk, threads := Put(s.threads, id, e.next),
       holder := if won then s.holder[n := id] else s.holder,
       before := if won then s.before[n := t.prior] else s.before,
       misread := if t.stage.NoArchive? && n in s.unlogged then s.misread + {n}
                  else if t.stage.Removed? && !Reuses(s, n) then s.misread - {n} else s.misread,
       unlogged := if t.stage.Removing? then s.unlogged + {n}
                   else if t.stage.Removed? then s.unlogged - {n} else s.unlogged)
  }

  function Apply(cfg: Settings, s: State, a: Action): State {
    match a
    case Reserve(tenant, name) =>
      if CanReserve(s.db, name, tenant, cfg.maxServers) then
        Spawn(s, Create(tenant, name, Reserved)).(
          db := ReserveServer(s.db, name, tenant, cfg.maxServers),
          world := s.world[name := s.nextThread], holder := s.holder[name := s.nextThread])
      else s
    case Ask(tenant, name, force) =>
      // `owned`, then the statuses a delete is refused in or already under way
      if name in s.db.servers && s.db.servers[name].tenant == tenant
         && (s.db.servers[name].status.Ready? || s.db.servers[name].status.Failed?)
      then Spawn(s, Delete(tenant, name, s.db.servers[name].status, force, 0, Asked)) else s
    case Advance(id, o) =>
      if id !in s.threads then s
      else if s.threads[id].Create? then AdvanceCreate(cfg, s, id, o) else AdvanceDelete(s, id, o)
    case Restart(notes) =>
      if forall e | e in notes :: IsNote(e) then
        s.(db := s.db.(servers := Recovered(s.db), events := s.db.events + notes), threads := map[])
      else s
    case LoseBackup(path) => s.(disk := s.disk - {path})
  }

  function Run(cfg: Settings, actions: seq<Action>): State {
    if actions == [] then START
    else Apply(cfg, Run(cfg, actions[..|actions| - 1]), actions[|actions| - 1])
  }

  // --- the invariant ----------------------------------------------------------------

  ghost predicate Numbered(s: State) {
    && (forall id | id in s.threads :: id < s.nextThread)
    && (forall n | n in s.db.servers :: n in s.world)
    && (forall n | n in s.world :: s.world[n] < s.nextThread)
  }

  /** A thread that holds a name is the recorded holder, and the row says what it is doing. */
  ghost predicate Held(s: State) {
    forall id | id in s.threads && Holds(s.threads[id]) ::
      var t := s.threads[id];
      && t.name in s.holder && s.holder[t.name] == id
      && t.name in s.db.servers && s.db.servers[t.name].status == HeldAs(t)
      && (t.Delete? ==> t.name in s.before && s.before[t.name] == t.prior)
  }

  /** A row in a transient status has its holder. */
  ghost predicate Attended(s: State) {
    forall n | n in s.db.servers && (s.db.servers[n].status.Provisioning? || s.db.servers[n].status.Deleting?) ::
      n in s.holder && s.holder[n] in s.threads && s.threads[s.holder[n]].name == n && Holds(s.threads[s.holder[n]])
  }

  /** The accepted delete is not in the log yet. */
  ghost predicate Unrecorded(s: State, n: string) {
    n in s.holder && s.holder[n] in s.threads && s.threads[s.holder[n]].Delete?
    && s.threads[s.holder[n]].stage.Accepted?
  }

  /** The log knows what a `deleting` row goes back to. */
  ghost predicate Remembered(s: State) {
    forall n | n in s.db.servers && s.db.servers[n].status.Deleting? ::
      n in s.before && (s.before[n].Ready? || s.before[n].Failed?)
      && (!Unrecorded(s, n) ==> StatusBeforeDelete(s.db.events, n) == s.before[n])
  }

  /** The path is this name's, and what is on disk under it is the world `w`. */
  ghost predicate Genuine(path: BackupPath, n: string, disk: map<BackupPath, nat>, w: nat) {
    path.server == n && (path in disk ==> disk[path] == w)
  }

  /** Every backup the scan can reach is of the world `w`; none when there is no world. */
  ghost predicate Current(events: seq<Event>, n: string, disk: map<BackupPath, nat>, w: Option<nat>) {
    events == [] ||
    var e := events[|events| - 1];
    (e.server == n && e.kind.Deleted?)
    || ((e.server == n && IsBackup(e.kind) ==> w.Some? && Genuine(e.kind.path, n, disk, w.value))
        && Current(events[..|events| - 1], n, disk, w))
  }

  function LiveWorld(s: State, n: string): Option<nat> {
    if n in s.db.servers then Some(WorldOf(s, n)) else None
  }

  ghost predicate Provenance(s: State) {
    && (forall n | n !in s.unlogged && n !in s.misread :: Current(s.db.events, n, s.disk, LiveWorld(s, n)))
    && (forall id | id in s.threads && s.threads[id].Delete? :: KnowsItsPath(s, s.threads[id]))
  }

  /** The backup a delete has taken or chosen is of its own world. */
  ghost predicate KnowsItsPath(s: State, t: Thread)
    requires t.Delete?
  {
    && (t.stage.Archived? ==> Genuine(t.stage.path, t.name, s.disk, WorldOf(s, t.name)))
    && (t.stage.Reusing? && t.name !in s.misread ==> Genuine(t.stage.path, t.name, s.disk, WorldOf(s, t.name)))
  }

  /** This delete has recorded why the world may go. */
  ghost predicate Covered(events: seq<Event>, t: Thread, c: Cover)
    requires t.Delete?
  {
    && t.since <= c.event < |events|
    && events[c.event].server == t.name
    && match c
       case Taken(path, at) => events[at].kind == BackupTaken(path) && path.server == t.name
       case Kept(path, gone, at) => events[at].kind == BackupReused(path) && gone
       case Waived(at) => events[at].kind == BackupSkipped && (t.force || t.prior == Failed)
  }

  predicate MayRemove(a: DeleteAt) { a.Uninstalling? || a.Dropping? || a.Removing? }

  /** What this delete knows at its stage. */
  ghost predicate Accountable(events: seq<Event>, t: Thread) {
    t.Delete? ==>
      && (Holds(t) ==> t.since <= |events|)
      && (t.stage.Archived? ==> t.stage.path.server == t.name)
      && (t.stage.Reusing? ==> t.stage.gone)
      && (t.stage.Skipping? ==> t.force || t.prior == Failed)
      && (MayRemove(t.stage) ==> Covered(events, t, t.stage.cover))
  }

  ghost predicate Covers(s: State) {
    forall id | id in s.threads :: Accountable(s.db.events, s.threads[id])
  }

  /** A kind neither scan of the log looks at. */
  predicate Quiet(k: Kind) { !k.DeleteRequested? && !k.Deleted? && !IsBackup(k) }

  /** A delete was asked of a settled row, and how a job ended is told by a quiet event. */
  ghost predicate Proper(t: Thread) {
    match t
    case Create(_, _, at) => at.CreateTold? ==> Quiet(at.kind)
    case Delete(_, _, prior, _, _, at) =>
      (prior.Ready? || prior.Failed?) && (at.Failing? || at.DeleteTold? ==> Quiet(at.kind))
  }

  ghost predicate AllProper(s: State) {
    forall id | id in s.threads :: Proper(s.threads[id])
  }

  ghost predicate WithinLimits(cfg: Settings, db: Tables) {
    && (forall tenant :: |ServersOf(db, tenant)| <= cfg.maxServers)
    && (forall m, n | m in db.servers && n in db.servers && db.servers[m].status.Provisioning?
          && db.servers[m] == db.servers[n] :: m == n)
  }

  ghost predicate Control(s: State) { Numbered(s) && Held(s) && Attended(s) && AllProper(s) }

  ghost predicate Inv(cfg: Settings, s: State) {
    Control(s) && Remembered(s) && Provenance(s) && Covers(s) && WithinLimits(cfg, s.db)
  }
}
