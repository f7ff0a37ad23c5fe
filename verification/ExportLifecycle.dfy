/**
 The life of a world export (`export_service.py` over `db.py`): requests, the one
 worker, sweeps and restarts, in any order and interleaved with whatever creates
 and deletes do to the servers.

 A request's checks bind nothing, the reservation decides, so a start here is its
 reservation.  A sweep is two steps, its look at the rows and its clean-up of the
 directories, because requests and the worker go on between them.  A restart with
 exports on is followed by a sweep before any request; here it may come later.
 */
module ExportLifecycle {
  import opened Options
  import opened Db

  /** A result directory: `<export_dir>/<server>/<id>`. */
  type Place = (string, string)

  datatype JobAt = Starting | Working

  /** The export the worker is on, with the row it read. */
  datatype Job = Job(id: string, server: string, tenant: string, at: JobAt)

  /** A sweep between its two steps: the directories it will keep, and the exports accepted since it looked. */
  datatype Look = Look(known: set<Place>, late: set<string>)

  /** A row a restart marks failed, and when that failure is swept. */
  datatype Failure = Failure(id: string, expires: int)

  /**
   `owed` are the servers removed whose hook, which forgets their exports, has yet to
   run.  `used` and `late` are history: export ids are never drawn twice.  So is
   `lost`: the finished worlds a sweep took.
   */
  datatype State = State(
    db: Tables,
    dirs: set<Place>,
    queue: seq<string>,
    job: Option<Job>,
    sweep: Option<Look>,
    enabled: bool,
    owed: multiset<string>,
    used: set<string>,
    lost: set<string>)

  const START := State(EMPTY, {}, [], None, None, false, multiset{}, {}, {})

  datatype Action =
    | ServerComes(name: string, tenant: string)
    | ServerTurns(name: string, status: Status)
    | ServerGoes(name: string)
    | Forget(server: string)
    | Start(id: string, server: string, tenant: string, limit: int, since: int, at: int)
    | Delete(id: string)
    | PickUp
    | GoOn(works: bool, expires: int)
    | SweepLook(now: int)
    | SweepClean
    | Restart(enable: bool, failures: seq<Failure>)

  // --- rows -------------------------------------------------------------------------

  predicate Expired(r: ExportRow, now: int) { r.expires.Some? && r.expires.value * MICROS <= now }

  predicate Orphaned(d: Tables, r: ExportRow) {
    r.server !in d.servers || d.servers[r.server].tenant != r.tenant
  }

  /** What a sweep at `now` leaves. */
  predicate Kept(d: Tables, id: string, now: int)
    requires id in d.exports
  {
    var r := d.exports[id];
    Active(r.status) || !(Expired(r, now) || Orphaned(d, r))
  }

  function KeptRows(d: Tables, now: int): map<string, ExportRow> {
    map id | id in d.exports && Kept(d, id, now) :: d.exports[id]
  }

  function Places(rows: map<string, ExportRow>): set<Place> {
    set id | id in rows :: (rows[id].server, id)
  }

  function OutsideOf(dirs: set<Place>, server: string): set<Place> {
    set p | p in dirs && p.0 != server
  }

  function ActiveIds(d: Tables): set<string> { set id | id in d.exports && Active(d.exports[id].status) }

  function Ids(failures: seq<Failure>): set<string> { set f | f in failures :: f.id }

  /** `_failed`, on the row the caller holds. */
  function Fail(d: Tables, id: string, server: string, tenant: string, expires: int): Tables {
    Record(UpdateExport(d, id, Broken, Some(expires)), Event(tenant, server, Other("export.failed")))
  }

  function FailAll(d: Tables, failures: seq<Failure>): Tables
    decreases |failures|
  {
    if failures == [] then d
    else
      var f := failures[0];
      FailAll(if f.id in d.exports then Fail(d, f.id, d.exports[f.id].server, d.exports[f.id].tenant, f.expires) else d,
              failures[1..])
  }

  // --- steps ------------------------------------------------------------------------

  function PickUpNext(s: State): State
    requires s.queue != []
  {
    var id, rest := s.queue[0], s.(queue := s.queue[1..]);
    if id in s.db.exports && s.db.exports[id].status.Queued? then
      var r := s.db.exports[id];
      rest.(db := UpdateExport(s.db, id, Running, r.expires), job := Some(Job(id, r.server, r.tenant, Starting)))
    else rest
  }

  /** The job's next step: the server must be there when it starts and when it ends. */
  function GoOnWith(s: State, j: Job, works: bool, expires: int): State {
    if !works || j.server !in s.db.servers then
      s.(db := Fail(s.db, j.id, j.server, j.tenant, expires), job := None)
    else if j.at.Starting? then s.(job := Some(j.(at := Working)))
    else
      s.(db := Record(UpdateExport(s.db, j.id, Done, Some(expires)), Event(j.tenant, j.server, ExportDone(j.id))),
         dirs := s.dirs + {(j.server, j.id)}, job := None)
  }

  function Looked(s: State, now: int): State {
    var kept := KeptRows(s.db, now);
    s.(db := s.db.(exports := kept),
       dirs := s.dirs - (Places(s.db.exports) - Places(kept)),
       sweep := Some(Look(Places(kept), {})))
  }

  function Cleaned(s: State, l: Look): State {
    s.(dirs := s.dirs * l.known,
       sweep := None,
       lost := s.lost + set id | id in l.late && id in s.db.exports && s.db.exports[id].status.Done?)
  }

  /** `forget_server`. */
  function Forgotten(s: State, server: string): State {
    s.(db := DeleteExportsOf(s.db, server), dirs := OutsideOf(s.dirs, server), owed := s.owed - multiset{server})
  }

  /** A sweep with nothing in between. */
  function Swept(s: State, now: int): State {
    var looked := Looked(s, now);
    Cleaned(looked, looked.sweep.value)
  }

  /** The queue and the worker are the old process's; with exports on, what it left active is failed. */
  function Restarted(s: State, enable: bool, failures: seq<Failure>): State {
    s.(db := if enable then FailAll(s.db, failures) else s.db,
       queue := [], job := None, sweep := None, enabled := enable, owed := multiset{})
  }

  function Apply(s: State, a: Action): State {
    match a
    case ServerComes(name, tenant) =>
      if name !in s.db.servers
      then s.(db := s.db.(servers := s.db.servers[name := ServerRow(tenant, Provisioning)])) else s
    case ServerTurns(name, status) => s.(db := SetStatus(s.db, name, status))
    case ServerGoes(name) =>
      if name in s.db.servers then s.(db := DeleteServer(s.db, name), owed := s.owed + multiset{name}) else s
    case Forget(server) => if server in s.owed then Forgotten(s, server) else s
    case Start(id, server, tenant, limit, since, at) =>
      if s.enabled && id !in s.used && CanReserveExport(s.db, server, tenant, limit, since)
      then s.(db := ReserveExport(s.db, id, server, tenant, limit, since, at), queue := s.queue + [id],
              sweep := if s.sweep.Some? then Some(s.sweep.value.(late := s.sweep.value.late + {id})) else None,
              used := s.used + {id})
      else s
    case Delete(id) =>
      if s.enabled && id in s.db.exports && !Active(s.db.exports[id].status)
      then s.(db := DeleteExport(s.db, id), dirs := s.dirs - {(s.db.exports[id].server, id)}) else s
    case PickUp => if s.job.None? && s.queue != [] then PickUpNext(s) else s
    case GoOn(works, expires) => if s.job.Some? then GoOnWith(s, s.job.value, works, expires) else s
    case SweepLook(now) => if s.enabled && s.sweep.None? then Looked(s, now) else s
    case SweepClean => if s.sweep.Some? then Cleaned(s, s.sweep.value) else s
    case Restart(enable, failures) =>
      if Ids(failures) == ActiveIds(s.db) then Restarted(s, enable, failures) else s
  }

  function RunFrom(s: State, actions: seq<Action>): State {
    if actions == [] then s
    else Apply(RunFrom(s, actions[..|actions| - 1]), actions[|actions| - 1])
  }

  function Run(actions: seq<Action>): State { RunFrom(START, actions) }

  // --- the invariant ------------------------------------------------------------------

  /** What holds of each row. */
  ghost predicate RowFine(s: State, id: string)
    requires id in s.db.exports
  {
    var r := s.db.exports[id];
    && id in s.used
    && (r.status.Done? || r.status.Broken? <==> r.expires.Some?)
    && (s.enabled && r.status.Queued? ==> id in s.queue)
    && (s.enabled && r.status.Running? ==> s.job.Some? && s.job.value.id == id)
    && (r.status.Done? ==> ((r.server, id) in s.dirs <==> id !in s.lost))
    && (id in s.lost ==> r.status.Done?)
    && (s.sweep.Some? && id !in s.sweep.value.late ==> (r.server, id) in s.sweep.value.known)
  }

  ghost predicate RowsFine(s: State) { forall id | id in s.db.exports :: RowFine(s, id) }

  /** A queued id's row waits for the worker, unless it is gone. */
  ghost predicate Waits(s: State, id: string) {
    id in s.used && (id in s.db.exports ==> s.db.exports[id].status.Queued?)
  }

  ghost predicate QueueFine(s: State) {
    && (forall i, j | 0 <= i < j < |s.queue| :: s.queue[i] != s.queue[j])
    && (forall id | id in s.queue :: Waits(s, id))
    && (!s.enabled ==> s.queue == [] && s.job.None? && s.sweep.None?)
  }

  ghost predicate JobFine(s: State) {
    s.job.Some? ==>
      var j := s.job.value;
      && j.id in s.used && j.id !in s.queue
      && (j.id in s.db.exports ==> var r := s.db.exports[j.id];
                                   r.status.Running? && r.server == j.server && r.tenant == j.tenant)
  }

  ghost predicate LookFine(s: State) {
    && s.lost <= s.used
    && (s.sweep.Some? ==>
          && s.sweep.value.late <= s.used
          && forall p | p in s.sweep.value.known :: p.1 in s.used && p.1 !in s.sweep.value.late)
  }

  ghost predicate OneActive(d: Tables) {
    forall i, j | i in d.exports && j in d.exports && Active(d.exports[i].status) && Active(d.exports[j].status)
                  && d.exports[i].server == d.exports[j].server && d.exports[i].tenant == d.exports[j].tenant :: i == j
  }

  ghost predicate OneRunning(d: Tables) {
    forall i, j | i in d.exports && j in d.exports && d.exports[i].status.Running? && d.exports[j].status.Running? :: i == j
  }

  ghost predicate Inv(s: State) {
    RowsFine(s) && QueueFine(s) && JobFine(s) && LookFine(s) && OneActive(s.db) && OneRunning(s.db)
  }

  // --- restarts, row by row -----------------------------------------------------------

  lemma {:induction false} FailAllRows(d: Tables, failures: seq<Failure>)
    ensures FailAll(d, failures).servers == d.servers
    ensures FailAll(d, failures).exports.Keys == d.exports.Keys
    ensures forall id | id in d.exports ::
              var r, r' := d.exports[id], FailAll(d, failures).exports[id];
              && r'.server == r.server && r'.tenant == r.tenant
              && (id in Ids(failures) ==> r'.status == Broken && r'.expires.Some?)
              && (id !in Ids(failures) ==> r' == r)
    decreases |failures|
  {
    if failures != [] {
      var f, rest := failures[0], failures[1..];
      var d1 := if f.id in d.exports then Fail(d, f.id, d.exports[f.id].server, d.exports[f.id].tenant, f.expires) else d;
      FailAllRows(d1, rest);
      assert failures == [f] + rest;
      assert Ids(failures) == {f.id} + Ids(rest);
    }
  }

  // --- every step keeps it --------------------------------------------------------------

  lemma StartKeeps(s: State, a: Action)
    requires Inv(s) && a.Start? && Apply(s, a) != s
    ensures Inv(Apply(s, a))
  {
    var s' := Apply(s, a);
    assert a.id !in s.queue by {
      assert a.id in s.queue ==> Waits(s, a.id);
    }
    forall id | id in s'.db.exports
      ensures RowFine(s', id)
    {
      if id != a.id {
        assert RowFine(s, id);
      }
    }
    forall id | id in s'.queue
      ensures Waits(s', id)
    {
      if id != a.id {
        assert id in s.queue && Waits(s, id);
      }
    }
  }

  lemma PickUpKeeps(s: State)
    requires Inv(s) && s.job.None? && s.queue != []
    ensures Inv(PickUpNext(s))
  {
    var s' := PickUpNext(s);
    assert s.queue == [s.queue[0]] + s'.queue;
    assert Waits(s, s.queue[0]);
    forall id | id in s'.db.exports
      ensures RowFine(s', id)
    {
      assert RowFine(s, id);
    }
    forall id | id in s'.queue
      ensures Waits(s', id)
    {
      assert id in s.queue && Waits(s, id);
    }
    forall id | id in s.db.exports
      ensures !s.db.exports[id].status.Running?
    {
      assert RowFine(s, id);
    }
  }

  /** The job's row, if it is still there, ends one way or the other. */
  lemma JobEndKeeps(s: State, s': State, end: ExportStatus, expires: int)
    requires Inv(s) && s.job.Some? && (end.Done? || end.Broken?)
    requires s'.db.exports == UpdateExport(s.db, s.job.value.id, end, Some(expires)).exports
    requires s'.dirs == if end.Done? then s.dirs + {(s.job.value.server, s.job.value.id)} else s.dirs
    requires s' == s.(db := s'.db, dirs := s'.dirs, job := None)
    ensures Inv(s')
  {
    forall id | id in s'.db.exports
      ensures RowFine(s', id)
    {
      assert RowFine(s, id);
    }
    forall id | id in s'.queue
      ensures Waits(s', id)
    {
      assert Waits(s, id);
    }
  }

  lemma GoOnKeeps(s: State, works: bool, expires: int)
    requires Inv(s) && s.job.Some?
    ensures Inv(GoOnWith(s, s.job.value, works, expires))
  {
    var j, s' := s.job.value, GoOnWith(s, s.job.value, works, expires);
    if !works || j.server !in s.db.servers {
      JobEndKeeps(s, s', Broken, expires);
    } else if j.at.Working? {
      JobEndKeeps(s, s', Done, expires);
    } else {
      forall id | id in s'.db.exports
        ensures RowFine(s', id)
      {
        assert RowFine(s, id);
      }
    }
  }

  /** Rows only go, and with a row its directory. */
  lemma ErasureKeeps(s: State, s': State)
    requires Inv(s)
    requires s' == s.(db := s'.db, dirs := s'.dirs, owed := s'.owed)
    requires forall id | id in s'.db.exports ::
               id in s.db.exports && s'.db.exports[id] == s.db.exports[id]
               && var p := (s.db.exports[id].server, id); p in s'.dirs <==> p in s.dirs
    ensures Inv(s')
  {
    forall id | id in s'.db.exports
      ensures RowFine(s', id)
    {
      assert RowFine(s, id);
    }
    forall id | id in s'.queue
      ensures Waits(s', id)
    {
      assert Waits(s, id);
    }
  }

  lemma LookKeeps(s: State, now: int)
    requires Inv(s) && s.enabled && s.sweep.None?
    ensures Inv(Looked(s, now))
  {
    var s' := Looked(s, now);
    ErasureKeeps(s, s'.(sweep := None));
    forall id | id in s'.db.exports
      ensures RowFine(s', id)
    {
      assert RowFine(s'.(sweep := None), id);
    }
    forall p | p in s'.sweep.value.known
      ensures p.1 in s'.used
    {
      assert p.1 in s.db.exports && RowFine(s, p.1);
    }
    forall id | id in s'.queue
      ensures Waits(s', id)
    {
      assert Waits(s'.(sweep := None), id);
    }
  }

  lemma CleanKeeps(s: State)
    requires Inv(s) && s.sweep.Some?
    ensures Inv(Cleaned(s, s.sweep.value))
  {
    var s' := Cleaned(s, s.sweep.value);
    forall id | id in s'.db.exports
      ensures RowFine(s', id)
    {
      assert RowFine(s, id);
    }
    forall id | id in s'.queue
      ensures Waits(s', id)
    {
      assert Waits(s, id);
    }
  }

  lemma RestartKeeps(s: State, enable: bool, failures: seq<Failure>)
    requires Inv(s) && Ids(failures) == ActiveIds(s.db)
    ensures Inv(Restarted(s, enable, failures))
  {
    FailAllRows(s.db, failures);
    var s' := Restarted(s, enable, failures);
    forall id | id in s'.db.exports
      ensures RowFine(s', id)
    {
      assert RowFine(s, id);
      assert id in ActiveIds(s.db) <==> Active(s.db.exports[id].status);
    }
  }

  lemma ActionKeeps(s: State, a: Action)
    requires Inv(s)
    ensures Inv(Apply(s, a))
  {
    if Apply(s, a) != s {
      match a
      case ServerComes(_, _) => ErasureKeeps(s, Apply(s, a));
      case ServerTurns(_, _) => ErasureKeeps(s, Apply(s, a));
      case ServerGoes(_) => ErasureKeeps(s, Apply(s, a));
      case Forget(_) => ErasureKeeps(s, Apply(s, a));
      case Start(_, _, _, _, _, _) => StartKeeps(s, a);
      case Delete(_) => ErasureKeeps(s, Apply(s, a));
      case PickUp => PickUpKeeps(s);
      case GoOn(works, expires) => GoOnKeeps(s, works, expires);
      case SweepLook(now) => LookKeeps(s, now);
      case SweepClean => CleanKeeps(s);
      case Restart(enable, failures) => RestartKeeps(s, enable, failures);
    }
  }

  lemma {:induction false} EveryRunKeepsInv(actions: seq<Action>)
    ensures Inv(Run(actions))
  {
    if actions != [] {
      EveryRunKeepsInv(actions[..|actions| - 1]);
      ActionKeeps(Run(actions[..|actions| - 1]), actions[|actions| - 1]);
    }
  }
}
