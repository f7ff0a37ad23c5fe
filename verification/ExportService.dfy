/**
 The export service as it runs (`export_service.py`), over a `Database` and the
 result directories.  Each method is tied to the steps of the export lifecycle.
 */
module ExportService {
  import opened Options
  import Db
  import opened Database
  import opened ExportLifecycle
  import RollingLimits
  import opened WorldBox

  const SWEEP_EVERY: int := 600 * Db.MICROS

  datatype Corners = Corners(x1: int, z1: int, x2: int, z2: int)

  datatype CreateAnswer =
    | Accepted(id: string)
    | Disabled
    | NoServer
    | BadArea
    | NotReady(status: Db.Status)
    | ServerFailing
    | AlreadyRunning
    | AtLimit(retryAfter: int)

  datatype DeleteAnswer = Disabled | Removed | NotHere | StillRunning

  /** What the clock says each time a start looks at it, in microseconds. */
  datatype Readings = Readings(due: int, sweep: int, check: Looks, window: int, stamp: int, again: Looks)

  /** One look at the limit: for the window, and twice for the wait. */
  datatype Looks = Looks(window: int, now: int, later: int)

  /** The start of the day counted back from `at`. */
  function DayBefore(at: int): int { Db.Iso(at - Db.DAY * Db.MICROS) }

  /** What the rows say of an export that cannot start, if it cannot. */
  function Refusal(d: Db.Tables, server: string, tenant: string, limit: int, at: Looks): Option<CreateAnswer> {
    var since := DayBefore(at.window);
    if Db.ActiveFor(d, server, tenant) then Some(AlreadyRunning)
    else if Db.CountExports(d.events, tenant, since) >= limit then
      Some(AtLimit(RollingLimits.RetryAfter(RollingLimits.Oldest(d.events, tenant, since), at.now, at.later)))
    else None
  }

  /** What a start that lost its reservation says; what held it a moment ago may have finished already. */
  function WhyNot(d: Db.Tables, server: string, tenant: string, limit: int, at: Looks): CreateAnswer {
    var why := Refusal(d, server, tenant, limit, at);
    if why.Some? then why.value else AlreadyRunning
  }

  /** What the sweep on the way in leaves, if one is due. */
  function AfterSweep(s: State, last: Option<int>, t: Readings): State {
    if last.None? || t.due - last.value >= SWEEP_EVERY then Swept(s, t.sweep) else s
  }

  /** `_owned_export`: the tenant's server, and an unexpired export of it. */
  predicate Owned(d: Db.Tables, tenant: string, name: string, id: string, now: int) {
    && name in d.servers && d.servers[name].tenant == tenant
    && id in d.exports && d.exports[id].server == name && d.exports[id].tenant == tenant
    && !Expired(d.exports[id], now)
  }

  // --- in figures ---------------------------------------------------------------------

  /** Both corners inside the world border, and neither side longer than the cap. */
  predicate GoodArea(area: Option<Corners>, cap: int) {
    area.Some? ==>
      var c := area.value;
      && -29_999_984 <= c.x1 <= 29_999_984 && -29_999_984 <= c.z1 <= 29_999_984
      && -29_999_984 <= c.x2 <= 29_999_984 && -29_999_984 <= c.z2 <= 29_999_984
      && c.x2 - c.x1 < cap && c.x1 - c.x2 < cap && c.z2 - c.z1 < cap && c.z1 - c.z2 < cap
  }

  predicate OfTenant(d: Db.Tables, tenant: string, name: string) {
    name in d.servers && d.servers[name].tenant == tenant
  }

  predicate Underway(r: Db.ExportRow) { r.status.Queued? || r.status.Running? }

  /** No export of the server is under way, and fewer than the limit were started in the last 24 hours. */
  ghost predicate RoomForOne(d: Db.Tables, tenant: string, name: string, limit: int, now: int) {
    && (forall id | id in d.exports && d.exports[id].server == name && d.exports[id].tenant == tenant ::
          !Underway(d.exports[id]))
    && |RollingLimits.StartsLately(d.events, tenant, now)| < limit
  }

  lemma RoomIsReserved(d: Db.Tables, tenant: string, name: string, limit: int, now: int)
    ensures Db.CanReserveExport(d, name, tenant, limit, DayBefore(now)) <==> RoomForOne(d, tenant, name, limit, now)
  {
    RollingLimits.TheDayIsCounted(d.events, tenant, now);
  }

  /** How an export that ended is told of. */
  function Told(tenant: string, server: string, id: string, done: bool): Db.Event {
    Db.Event(tenant, server, if done then Db.ExportDone(id) else Db.Other("export.failed"))
  }

  /** What a sweep leaves: rows under way, and those not due whose server is there and the same tenant's. */
  predicate Stays(d: Db.Tables, r: Db.ExportRow, now: int) {
    Underway(r) || ((r.expires.None? || now < r.expires.value * 1_000_000) && OfTenant(d, r.tenant, r.server))
  }

  /** The tenant's own, and not yet due. */
  predicate InTime(d: Db.Tables, tenant: string, name: string, id: string, now: int) {
    && OfTenant(d, tenant, name)
    && id in d.exports && d.exports[id].server == name && d.exports[id].tenant == tenant
    && (d.exports[id].expires.None? || now < d.exports[id].expires.value * 1_000_000)
  }

  lemma FailAllOneMore(d: Db.Tables, failures: seq<Failure>, f: Failure)
    ensures var d1 := FailAll(d, failures);
            FailAll(d, failures + [f])
            == if f.id in d1.exports
               then Fail(d1, f.id, d1.exports[f.id].server, d1.exports[f.id].tenant, f.expires) else d1
    decreases |failures|
  {
    if failures == [] {
      assert [f][1..] == [];
    } else {
      var g := failures[0];
      var next := if g.id in d.exports
                  then Fail(d, g.id, d.exports[g.id].server, d.exports[g.id].tenant, g.expires) else d;
      assert (failures + [f])[1..] == failures[1..] + [f];
      FailAllOneMore(next, failures[1..], f);
    }
  }

  class ExportService {
    const db: Database
    const enabled: bool
    const dailyLimit: int
    const maxSize: int
    const retentionHours: int

    var dirs: set<Place>
    /** The worker's queue. */
    var queue: seq<string>
    var lastSweep: Option<int>

    /** The job in hand, the ids drawn so far and the worlds lost: what the protocol's state has besides. */
    ghost var job: Option<Job>
    ghost var owed: multiset<string>
    ghost var used: set<string>
    ghost var lost: set<string>

    constructor (db: Database, enabled: bool, dailyLimit: int, maxSize: int, retentionHours: int, dirs: set<Place>)
      ensures this.db == db && this.enabled == enabled && this.dailyLimit == dailyLimit
      ensures this.dirs == dirs && queue == [] && lastSweep == None && job == None
    {
      this.db, this.enabled, this.dailyLimit, this.maxSize := db, enabled, dailyLimit, maxSize;
      this.retentionHours, this.dirs, queue, lastSweep, job := retentionHours, dirs, [], None, None;
    }

    ghost function Here(): State
      reads this, db
    {
      State(db.Contents(), dirs, queue, job, None, enabled, owed, used, lost)
    }

    /** When an export that ends now is over. */
    function Expiry(now: int): int { Db.Iso(now) + retentionHours * Db.HOUR }

    /** What requests and other jobs do meanwhile; the worker's job in hand is nobody else's. */
    method OthersRun()
      modifies this, db
      ensures job == old(job)
    {
    }

    // --- writes -------------------------------------------------------------------------

    /** What a refusal says, in figures. */
    ghost predicate RefusedAs(d: Db.Tables, tenant: string, name: string, at: Looks, why: Option<CreateAnswer>) {
      var starts := RollingLimits.StartsLately(d.events, tenant, at.window);
      && (why.None? <==> RoomForOne(d, tenant, name, dailyLimit, at.window))
      && (why == Some(AlreadyRunning) <==>
            exists id :: id in d.exports && d.exports[id].server == name && d.exports[id].tenant == tenant
                         && Underway(d.exports[id]))
      && (why.Some? && why != Some(AlreadyRunning) ==>
            && why.value.AtLimit? && |starts| >= dailyLimit
            && (starts != {} ==> exists i: nat ::
                  && i in starts && (forall j | j in starts :: d.events[i].kind.at <= d.events[j].kind.at)
                  && RollingLimits.IsTheWait(d.events[i].kind.at, at.later, why.value.retryAfter)))
    }

    lemma LimitInFigures(d: Db.Tables, tenant: string, at: Looks)
      requires Db.CountExports(d.events, tenant, DayBefore(at.window)) >= dailyLimit
      ensures var starts := RollingLimits.StartsLately(d.events, tenant, at.window);
              && |starts| >= dailyLimit
              && (starts != {} ==> exists i: nat ::
                    && i in starts && (forall j | j in starts :: d.events[i].kind.at <= d.events[j].kind.at)
                    && RollingLimits.IsTheWait(d.events[i].kind.at, at.later,
                         RollingLimits.RetryAfter(RollingLimits.Oldest(d.events, tenant, DayBefore(at.window)), at.now, at.later)))
    {
      RollingLimits.TheDayIsCounted(d.events, tenant, at.window);
      if Db.CountExports(d.events, tenant, DayBefore(at.window)) > 0 {
        RollingLimits.TheFirstIsWaitedFor(d.events, tenant, at.window, at.now, at.later);
      }
    }

    lemma RefusalInFigures(d: Db.Tables, tenant: string, name: string, at: Looks)
      ensures RefusedAs(d, tenant, name, at, Refusal(d, name, tenant, dailyLimit, at))
      ensures Refusal(d, name, tenant, dailyLimit, at).None?
         <==> Db.CanReserveExport(d, name, tenant, dailyLimit, DayBefore(at.window))
    {
      RoomIsReserved(d, tenant, name, dailyLimit, at.window);
      if Db.CountExports(d.events, tenant, DayBefore(at.window)) >= dailyLimit {
        LimitInFigures(d, tenant, at);
      }
    }

    /** Why the rows say this export cannot start: exactly when the reservation would not be made. */
    method RefuseExport(tenant: string, name: string, at: Looks) returns (why: Option<CreateAnswer>)
      ensures why.None? <==> Db.CanReserveExport(db.Contents(), name, tenant, dailyLimit, DayBefore(at.window))
      ensures why == Refusal(db.Contents(), name, tenant, dailyLimit, at)
      ensures RefusedAs(db.Contents(), tenant, name, at, why)
    {
      RefusalInFigures(db.Contents(), tenant, name, at);
      if Db.ActiveFor(db.Contents(), name, tenant) {
        return Some(AlreadyRunning);
      }
      var since := DayBefore(at.window);
      var count, oldest := Db.CountExports(db.events, tenant, since), RollingLimits.Oldest(db.events, tenant, since);
      if count >= dailyLimit {
        return Some(AtLimit(RollingLimits.RetryAfter(oldest, at.now, at.later)));
      }
      return None;
    }

    /** The checks that come before the rows are asked, in their order. */
    function Check(d: Db.Tables, tenant: string, name: string, area: Option<Corners>, failing: bool): Option<CreateAnswer> {
      if !enabled then Some(CreateAnswer.Disabled)
      else if name !in d.servers || d.servers[name].tenant != tenant then Some(NoServer)
      else if area.Some? && ValidateArea(area.value.x1, area.value.z1, area.value.x2, area.value.z2, maxSize).None? then
        Some(BadArea)
      else if !d.servers[name].status.Ready? then Some(NotReady(d.servers[name].status))
      else if failing then Some(ServerFailing)
      else None
    }

    /** What the checks before the reservation say, in figures. */
    ghost predicate Answers(d: Db.Tables, tenant: string, name: string, area: Option<Corners>, failing: bool, answer: CreateAnswer) {
      && (answer.Disabled? <==> !enabled)
      && (answer.NoServer? <==> enabled && !OfTenant(d, tenant, name))
      && (answer.BadArea? <==> enabled && OfTenant(d, tenant, name) && !GoodArea(area, maxSize))
      && (enabled && OfTenant(d, tenant, name) && GoodArea(area, maxSize) ==>
            && (answer.NotReady? <==> d.servers[name].status != Db.Ready)
            && (answer.NotReady? ==> answer.status == d.servers[name].status)
            && (answer.ServerFailing? <==> d.servers[name].status == Db.Ready && failing))
      && (answer.NotReady? || answer.ServerFailing? || answer.Accepted? || answer.AlreadyRunning? || answer.AtLimit? ==>
            enabled && OfTenant(d, tenant, name) && GoodArea(area, maxSize))
    }

    lemma CheckInFigures(d: Db.Tables, tenant: string, name: string, area: Option<Corners>, failing: bool, answer: CreateAnswer)
      requires var check := Check(d, tenant, name, area, failing);
               if check.Some? then answer == check.value else answer.Accepted? || answer.AlreadyRunning? || answer.AtLimit?
      ensures Answers(d, tenant, name, area, failing, answer)
      ensures answer.Accepted? ==> !failing && d.servers[name].status == Db.Ready
    {
    }

    /** The checks and the sweep on the way in: an answer, or None when the start may go on. */
    method Admit(tenant: string, name: string, area: Option<Corners>, failing: bool, t: Readings)
      returns (why: Option<CreateAnswer>)
      modifies this, db
      ensures var check := Check(old(db.Contents()), tenant, name, area, failing);
              var swept := AfterSweep(old(Here()), old(lastSweep), t);
              && why == (if check.Some? then check else Refusal(swept.db, name, tenant, dailyLimit, t.check))
              && Here() == if check.Some? && (check.value.Disabled? || check.value.NoServer?) then old(Here()) else swept
    {
      if !enabled {
        return Some(CreateAnswer.Disabled);
      }
      var row := db.GetServer(name);
      if row.None? || row.value.tenant != tenant {
        return Some(NoServer);
      }
      SweepIfDue(t.due, t.sweep);
      if area.Some? && ValidateArea(area.value.x1, area.value.z1, area.value.x2, area.value.z2, maxSize).None? {
        return Some(BadArea);
      }
      if !row.value.status.Ready? {
        return Some(NotReady(row.value.status));
      }
      if failing {
        return Some(ServerFailing);
      }
      why := RefuseExport(tenant, name, t.check);
    }

    /**
     The checks, then, after whatever the others did (`met` is what they left),
     the reservation that decides.  A refused start changes nothing and says why.
     */
    method Create(tenant: string, name: string, area: Option<Corners>, failing: bool, id: string, t: Readings)
      returns (answer: CreateAnswer, ghost met: State)
      modifies this, db
      ensures var check := Check(old(db.Contents()), tenant, name, area, failing);
              var swept := AfterSweep(old(Here()), old(lastSweep), t);
              var first := Refusal(swept.db, name, tenant, dailyLimit, t.check);
              if check.Some? then
                answer == check.value && Here() == met
                && met == if answer.Disabled? || answer.NoServer? then old(Here()) else swept
              else if first.Some? then
                answer == first.value && Here() == met == swept
              else if Db.CanReserveExport(met.db, name, tenant, dailyLimit, DayBefore(t.window)) then
                answer == Accepted(id)
                && (id !in met.used ==>
                      Here() == Apply(met, Start(id, name, tenant, dailyLimit, DayBefore(t.window), Db.Iso(t.stamp))))
              else
                Here() == met && answer == WhyNot(met.db, name, tenant, dailyLimit, t.again)
      ensures Answers(old(db.Contents()), tenant, name, area, failing, answer)
      ensures answer.Accepted? ==>
                && !failing && old(db.servers)[name].status == Db.Ready
                && RoomForOne(met.db, tenant, name, dailyLimit, t.window)
                && Started(met.db, tenant, name, id, t, db.Contents())
    {
      ghost var asked := db.Contents();
      var why := Admit(tenant, name, area, failing, t);
      met := Here();
      if why.Some? {
        CheckInFigures(asked, tenant, name, area, failing, why.value);
        return why.value, met;
      }
      OthersRun();
      met := Here();
      answer := ReserveAndQueue(tenant, name, id, t);
      CheckInFigures(asked, tenant, name, area, failing, answer);
    }

    /**
     What an accepted start writes: it is the rolling limit's start with the same
     readings of the clock, and so, if the clock did not step back between them, leaves
     no day of 86,400 seconds over the limit that was not over it before.
     */
    ghost predicate Started(before: Db.Tables, tenant: string, name: string, id: string, t: Readings, after: Db.Tables) {
      && (forall feedbackLimit: int ::
            after == RollingLimits.Apply(before, RollingLimits.StartExport(id, name, tenant, t.window, t.stamp),
                                         dailyLimit, feedbackLimit))
      && after.events == before.events + [Db.Event(tenant, name, Db.ExportRequested(id, t.stamp / 1_000_000))]
      && id in after.exports && after.exports[id] == Db.ExportRow(name, tenant, Db.Queued, None)
      && (t.window / 1_000_000 <= t.stamp / 1_000_000 ==>
            forall a | RollingLimits.InDay(before.events, tenant, a) <= dailyLimit ::
              RollingLimits.InDay(after.events, tenant, a) <= dailyLimit)
    }

    lemma StartIsCounted(before: Db.Tables, tenant: string, name: string, id: string, t: Readings, after: Db.Tables)
      requires Db.CanReserveExport(before, name, tenant, dailyLimit, DayBefore(t.window))
      requires after == Db.ReserveExport(before, id, name, tenant, dailyLimit, DayBefore(t.window), Db.Iso(t.stamp))
      ensures Started(before, tenant, name, id, t, after)
    {
      if t.window / 1_000_000 <= t.stamp / 1_000_000 {
        forall a | RollingLimits.InDay(before.events, tenant, a) <= dailyLimit
          ensures RollingLimits.InDay(after.events, tenant, a) <= dailyLimit
        {
          RollingLimits.StartKeepsTheDay(before, id, name, tenant, dailyLimit, t.window, t.stamp, a);
        }
      }
    }

    /** The end of a start that passed the checks. */
    method ReserveAndQueue(tenant: string, name: string, id: string, t: Readings) returns (answer: CreateAnswer)
      requires enabled
      modifies this, db
      ensures Db.CanReserveExport(old(db.Contents()), name, tenant, dailyLimit, DayBefore(t.window)) <==> answer.Accepted?
      ensures answer.Accepted? ==>
                answer == Accepted(id)
                && (id !in old(used) ==>
                      Here() == Apply(old(Here()), Start(id, name, tenant, dailyLimit, DayBefore(t.window), Db.Iso(t.stamp))))
      ensures !answer.Accepted? ==>
                Here() == old(Here()) && answer == WhyNot(db.Contents(), name, tenant, dailyLimit, t.again)
      ensures answer.Accepted? <==> RoomForOne(old(db.Contents()), tenant, name, dailyLimit, t.window)
      ensures !answer.Accepted? ==>
                RefusedAs(db.Contents(), tenant, name, t.again, Some(answer))
                || (answer == AlreadyRunning && RefusedAs(db.Contents(), tenant, name, t.again, None))
      ensures answer.Accepted? ==> Started(old(db.Contents()), tenant, name, id, t, db.Contents())
    {
      ghost var before := db.Contents();
      RoomIsReserved(before, tenant, name, dailyLimit, t.window);
      var reserved := db.ReserveExport(id, name, tenant, dailyLimit, DayBefore(t.window), Db.Iso(t.stamp));
      if !reserved {
        var why := RefuseExport(tenant, name, t.again);
        return if why.Some? then why.value else AlreadyRunning;
      }
      queue := queue + [id];
      used := used + {id};
      answer := Accepted(id);
      StartIsCounted(before, tenant, name, id, t, db.Contents());
    }

    /** `delete`: an export of the tenant's that is over, and not yet expired. */
    method Delete(tenant: string, name: string, id: string, now: int) returns (answer: DeleteAnswer)
      modifies this, db
      ensures answer.Disabled? <==> !enabled
      ensures answer.NotHere? <==> enabled && !Owned(old(db.Contents()), tenant, name, id, now)
      ensures enabled ==>
                && (answer.NotHere? <==> !InTime(old(db.Contents()), tenant, name, id, now))
                && (answer.StillRunning? <==>
                      InTime(old(db.Contents()), tenant, name, id, now) && Underway(old(db.exports)[id]))
      ensures Here() == if answer.Removed? then Apply(old(Here()), ExportLifecycle.Delete(id)) else old(Here())
      ensures answer.Removed? ==> db.exports == old(db.exports) - {id} && dirs == old(dirs) - {(name, id)}
    {
      if !enabled {
        return DeleteAnswer.Disabled;
      }
      var row := db.GetServer(name);
      if row.None? || row.value.tenant != tenant || id !in db.exports {
        return NotHere;
      }
      var r := db.exports[id];
      if r.server != name || r.tenant != tenant || Expired(r, now) {
        return NotHere;
      }
      if Db.Active(r.status) {
        return StillRunning;
      }
      Remove(r.server, id);
      return Removed;
    }

    /** `_remove`: the directory, then the row. */
    method Remove(server: string, id: string)
      modifies this`dirs, db
      ensures dirs == old(dirs) - {(server, id)} && db.Contents() == Db.DeleteExport(old(db.Contents()), id)
    {
      dirs := dirs - {(server, id)};
      db.DeleteExport(id);
    }

    // --- the job ---------------------------------------------------------------------------

    /** The row is over, in this way, and due so many hours after. */
    predicate Ended(rows: map<string, Db.ExportRow>, id: string, status: Db.ExportStatus, now: int) {
      && id in rows && rows[id].status == status
      && rows[id].expires == Some(now / 1_000_000 + retentionHours * 3_600)
    }

    method Failed(id: string, server: string, tenant: string, now: int)
      modifies db
      ensures db.Contents() == Fail(old(db.Contents()), id, server, tenant, Expiry(now))
      ensures id in old(db.exports) ==> Ended(db.exports, id, Db.Broken, now)
    {
      db.UpdateExport(id, Db.Broken, Some(Expiry(now)));
      db.Record(tenant, server, Db.Other("export.failed"));
    }

    /**
     `_run` of the next queued id: its steps, with the others' in between while
     the pod works (`met` is what they left).  It ends at `early` if its server is
     already gone, at `late` otherwise.
     */
    method Run(works: bool, early: int, late: int) returns (ghost met: State)
      requires queue != [] && job.None?
      modifies this, db
      ensures job.None?
      ensures var picked := Apply(old(Here()), PickUp);
              if picked.job.None? then Here() == picked
              else
                var began := Apply(picked, GoOn(true, Expiry(early)));
                if began.job.None? then Here() == began
                else met.job == began.job && Here() == Apply(met, GoOn(works, Expiry(late)))
      ensures var id := old(queue)[0];
              if id !in old(db.exports) || !old(db.exports)[id].status.Queued? then
                db.Contents() == old(db.Contents()) && dirs == old(dirs)
              else if old(db.exports)[id].server !in old(db.servers) then Ended(db.exports, id, Db.Broken, early)
              else
                var done := works && old(db.exports)[id].server in met.db.servers;
                && dirs == (if done then met.dirs + {(old(db.exports)[id].server, id)} else met.dirs)
                && (id in met.db.exports ==> Ended(db.exports, id, if done then Db.Done else Db.Broken, late))
                && db.events == met.db.events + [Told(old(db.exports)[id].tenant, old(db.exports)[id].server, id, done)]
    {
      met := Here();
      ghost var begun := Here();
      var id := queue[0];
      queue := queue[1..];
      if id !in db.exports || !db.exports[id].status.Queued? {
        return;
      }
      var row := db.exports[id];
      db.UpdateExport(id, Db.Running, row.expires);
      job := Some(Job(id, row.server, row.tenant, Starting));
      assert Here() == Apply(begun, PickUp);
      met := RunPicked(id, row.server, row.tenant, works, early, late);
    }

    /** The job, once its row says running. */
    method RunPicked(id: string, server: string, tenant: string, works: bool, early: int, late: int) returns (ghost met: State)
      requires job == Some(Job(id, server, tenant, Starting)) && id in db.exports
      modifies this, db
      ensures job.None?
      ensures var began := Apply(old(Here()), GoOn(true, Expiry(early)));
              if began.job.None? then Here() == began
              else met.job == began.job && Here() == Apply(met, GoOn(works, Expiry(late)))
      ensures if server !in old(db.servers) then Ended(db.exports, id, Db.Broken, early)
              else
                var done := works && server in met.db.servers;
                && dirs == (if done then met.dirs + {(server, id)} else met.dirs)
                && (id in met.db.exports ==> Ended(db.exports, id, if done then Db.Done else Db.Broken, late))
                && db.events == met.db.events + [Told(tenant, server, id, done)]
    {
      met := Here();
      var row := db.GetServer(server);
      if row.None? {
        Failed(id, server, tenant, early);
        job := None;
        return;
      }
      job := Some(Job(id, server, tenant, Working));
      OthersRun();
      met := Here();
      Finish(id, server, tenant, works, late);
    }

    /** How the pod's work ends. */
    method Finish(id: string, server: string, tenant: string, works: bool, now: int)
      requires job == Some(Job(id, server, tenant, Working))
      modifies this, db
      ensures job.None? && Here() == Apply(old(Here()), GoOn(works, Expiry(now)))
      ensures var done := works && server in old(db.servers);
              && dirs == (if done then old(dirs) + {(server, id)} else old(dirs))
              && (id in old(db.exports) ==> Ended(db.exports, id, if done then Db.Done else Db.Broken, now))
              && db.events == old(db.events) + [Told(tenant, server, id, done)]
    {
      var row := db.GetServer(server);
      if !works || row.None? {
        Failed(id, server, tenant, now);
        job := None;
        return;
      }
      dirs := dirs + {(server, id)};
      db.UpdateExport(id, Db.Done, Some(Expiry(now)));
      db.Record(tenant, server, Db.ExportDone(id));
      job := None;
    }

    // --- housekeeping -----------------------------------------------------------------------

    /** `recover_interrupted`, in the new process: every active row is failed, once. */
    method RecoverInterrupted() returns (ghost failures: seq<Failure>)
      requires enabled && queue == [] && job.None? && owed == multiset{}
      modifies db
      ensures Ids(failures) == ActiveIds(old(db.Contents()))
      ensures Here() == Apply(old(Here()), Restart(true, failures))
      ensures db.exports.Keys == old(db.exports).Keys
      ensures forall id | id in db.exports ::
                if Underway(old(db.exports)[id]) then db.exports[id].status.Broken? && db.exports[id].expires.Some?
                else db.exports[id] == old(db.exports)[id]
    {
      failures := FailEach();
      FailAllRows(old(db.Contents()), failures);
    }

    method FailEach() returns (ghost failures: seq<Failure>)
      modifies db
      ensures Ids(failures) == ActiveIds(old(db.Contents())) && db.Contents() == FailAll(old(db.Contents()), failures)
    {
      var left := ActiveIds(db.Contents());
      failures := [];
      while left != {}
        invariant forall id | id in left :: id in db.exports
        invariant Ids(failures) + left == ActiveIds(old(db.Contents()))
        invariant db.Contents() == FailAll(old(db.Contents()), failures)
        decreases left
      {
        var id :| id in left;
        var now: int := *;
        Failed(id, db.exports[id].server, db.exports[id].tenant, now);
        ghost var failure := Failure(id, Expiry(now));
        FailAllOneMore(old(db.Contents()), failures, failure);
        assert Ids(failures + [failure]) == Ids(failures) + {id};
        left, failures := left - {id}, failures + [failure];
      }
    }

    method SweepIfDue(asked: int, now: int)
      modifies this, db
      ensures var due := old(lastSweep).None? || asked - old(lastSweep).value >= 600_000_000;
              && lastSweep == (if due then Some(asked) else old(lastSweep))
              && Here() == if due then Swept(old(Here()), now) else old(Here())
    {
      if lastSweep.None? || asked - lastSweep.value >= SWEEP_EVERY {
        lastSweep := Some(asked);
        Sweep(now);
      }
    }

    /** `sweep`: the rows that are over, then the directories without a row. */
    method Sweep(now: int)
      modifies this`dirs, db
      ensures Here() == Swept(old(Here()), now)
      ensures forall id :: id in db.exports <==> id in old(db.exports) && Stays(old(db.Contents()), old(db.exports)[id], now)
      ensures forall id | id in db.exports :: db.exports[id] == old(db.exports)[id]
      ensures forall p :: p in dirs <==> p in old(dirs) && p.1 in db.exports && db.exports[p.1].server == p.0
    {
      var known := SweepRows(now);
      SweepDirs(known);
    }

    method SweepRows(now: int) returns (known: set<Place>)
      modifies this`dirs, db
      ensures var looked := Looked(old(Here()), now);
              db.Contents() == looked.db && dirs == looked.dirs && known == looked.sweep.value.known
    {
      var left := db.exports.Keys;
      known := {};
      ghost var rows := db.exports;
      while left != {}
        invariant left <= rows.Keys
        invariant db.Contents() == old(db.Contents()).(exports := db.exports)
        invariant forall id :: id in db.exports <==>
                    id in rows && (id in left || Kept(old(db.Contents()), id, now))
        invariant forall id | id in db.exports :: db.exports[id] == rows[id]
        invariant forall p :: p in known <==>
                    p.1 in rows && p.0 == rows[p.1].server && p.1 !in left && Kept(old(db.Contents()), p.1, now)
        invariant forall p :: p in dirs <==>
                    p in old(dirs) && !(p.1 in rows && p.0 == rows[p.1].server && p.1 !in left
                                        && !Kept(old(db.Contents()), p.1, now))
        decreases left
      {
        var id :| id in left;
        var row := db.exports[id];
        var server := db.GetServer(row.server);
        var orphaned := server.None? || server.value.tenant != row.tenant;
        if !Db.Active(row.status) && (Expired(row, now) || orphaned) {
          Remove(row.server, id);
        } else {
          known := known + {(row.server, id)};
        }
        left := left - {id};
      }
    }

    method SweepDirs(known: set<Place>)
      modifies this`dirs
      ensures dirs == old(dirs) * known
    {
      var left := dirs;
      while left != {}
        invariant left <= dirs <= old(dirs)
        invariant forall p | p in old(dirs) :: p in dirs <==> p in left || p in known
        decreases left
      {
        var p :| p in left;
        if p !in known {
          dirs := dirs - {p};
        }
        left := left - {p};
      }
    }

    /** A deleted server's exports go with it. */
    method ForgetServer(name: string)
      modifies this, db
      ensures Here() == Forgotten(old(Here()), name)
      ensures forall id :: id in db.exports <==> id in old(db.exports) && old(db.exports)[id].server != name
      ensures forall id | id in db.exports :: db.exports[id] == old(db.exports)[id]
      ensures forall p :: p in dirs <==> p in old(dirs) && p.0 != name
    {
      var ids := db.DeleteExportsOf(name);
      RemoveDirs(name, ids);
      dirs := OutsideOf(dirs, name);
      owed := owed - multiset{name};
    }

    /** One directory after another, all of this server. */
    method RemoveDirs(name: string, ids: set<string>)
      modifies this`dirs
      ensures OutsideOf(dirs, name) == OutsideOf(old(dirs), name)
    {
      var left := ids;
      while left != {}
        invariant OutsideOf(dirs, name) == OutsideOf(old(dirs), name)
        decreases left
      {
        var id :| id in left;
        dirs := dirs - {(name, id)};
        left := left - {id};
      }
    }
  }
}
