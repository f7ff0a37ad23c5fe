/** What holds of world exports in every run, and when a finished one keeps its world. */
module ExportTheorems {
  import opened Options
  import opened Db
  import opened ExportLifecycle

  // --- how rows change ----------------------------------------------------------------

  /** The moves a row makes: queued, running, then done or broken; or broken from the queue. */
  predicate Moves(from: ExportStatus, to: ExportStatus) {
    (from.Queued? && (to.Running? || to.Broken?)) || (from.Running? && (to.Done? || to.Broken?))
  }

  predicate RowMoves(r: ExportRow, r': ExportRow) {
    r' == r || (r'.server == r.server && r'.tenant == r.tenant && Moves(r.status, r'.status))
  }

  /** One step of one row. */
  lemma StepMoves(s: State, a: Action, id: string)
    requires Inv(s) && id in s.db.exports && id in Apply(s, a).db.exports
    ensures RowMoves(s.db.exports[id], Apply(s, a).db.exports[id])
  {
    assert RowFine(s, id);
    if a.Restart? {
      RestartMoves(s, a, id);
    } else if a.PickUp? || a.GoOn? {
      WorkerMoves(s, a, id);
    } else {
      assert Apply(s, a).db.exports[id] == s.db.exports[id];
    }
  }

  lemma WorkerMoves(s: State, a: Action, id: string)
    requires JobFine(s) && id in s.db.exports && (a.PickUp? || a.GoOn?)
    ensures id in Apply(s, a).db.exports && RowMoves(s.db.exports[id], Apply(s, a).db.exports[id])
  {
    if a.GoOn? {
      if s.job.Some? {
        JobMoves(s, s.job.value, a.works, a.expires, id);
      }
    } else if s.job.None? && s.queue != [] {
      PickUpMoves(s, id);
    }
  }

  lemma JobMoves(s: State, j: Job, works: bool, expires: int, id: string)
    requires s.job == Some(j) && JobFine(s) && id in s.db.exports
    ensures var s' := GoOnWith(s, j, works, expires);
            id in s'.db.exports && RowMoves(s.db.exports[id], s'.db.exports[id])
  {
  }

  lemma PickUpMoves(s: State, id: string)
    requires s.queue != [] && id in s.db.exports
    ensures var s' := PickUpNext(s); id in s'.db.exports && RowMoves(s.db.exports[id], s'.db.exports[id])
  {
  }

  lemma RestartMoves(s: State, a: Action, id: string)
    requires a.Restart? && id in s.db.exports
    ensures Apply(s, a).db.exports.Keys == s.db.exports.Keys
    ensures RowMoves(s.db.exports[id], Apply(s, a).db.exports[id])
  {
    FailAllRows(s.db, a.failures);
    assert id in ActiveIds(s.db) <==> Active(s.db.exports[id].status);
  }

  lemma ErasedStaysErased(s: State, a: Action, id: string)
    requires Inv(s) && id in s.used
    ensures id in Apply(s, a).used
    ensures id !in s.db.exports ==> id !in Apply(s, a).db.exports
  {
    if a.Restart? {
      FailAllRows(s.db, a.failures);
    }
  }

  /**
   A row that is queued or running is erased by a step exactly when the step is the
   hook of a removal of its server's name that has yet to run.
   */
  lemma ErasedExactlyByTheHook(s: State, a: Action, id: string)
    requires id in s.db.exports && Active(s.db.exports[id].status)
    ensures id !in Apply(s, a).db.exports <==> a == Forget(s.db.exports[id].server) && s.db.exports[id].server in s.owed
  {
    if a.Restart? {
      RestartMoves(s, a, id);
    } else if a.PickUp? || a.GoOn? {
      WorkerErasesNothing(s, a);
    } else if a.SweepLook? || a.SweepClean? {
      SweepKeepsActive(s, a, id);
    } else if a.Start? {
      assert s.db.exports.Keys <= Apply(s, a).db.exports.Keys;
    }
  }

  lemma WorkerErasesNothing(s: State, a: Action)
    requires a.PickUp? || a.GoOn?
    ensures Apply(s, a).db.exports.Keys == s.db.exports.Keys
  {
    if a.GoOn? {
      if s.job.Some? {
        assert GoOnWith(s, s.job.value, a.works, a.expires).db.exports.Keys == s.db.exports.Keys;
      }
    } else if s.job.None? && s.queue != [] {
      assert PickUpNext(s).db.exports.Keys == s.db.exports.Keys;
    }
  }

  lemma SweepKeepsActive(s: State, a: Action, id: string)
    requires (a.SweepLook? || a.SweepClean?) && id in s.db.exports && Active(s.db.exports[id].status)
    ensures id in Apply(s, a).db.exports
  {
  }

  /** The server of this name has gone: its row was there, and a removal took it. */
  ghost predicate HasGone(actions: seq<Action>, n: string) {
    exists k: nat :: k < |actions| && actions[k] == ServerGoes(n) && n in Run(actions[..k]).db.servers
  }

  /** A hook is owed only for a server that has gone. */
  lemma {:induction false} OwedHasGone(actions: seq<Action>, n: string)
    requires n in Run(actions).owed
    ensures HasGone(actions, n)
  {
    var last := |actions| - 1;
    var init := actions[..last];
    if actions[last] == ServerGoes(n) && n in Run(init).db.servers {
      assert actions[..last] == init;
    } else {
      OwedStays(Run(init), actions[last], n);
      OwedHasGone(init, n);
      var k: nat :| k < |init| && init[k] == ServerGoes(n) && n in Run(init[..k]).db.servers;
      assert init[..k] == actions[..k];
    }
  }

  lemma OwedStays(s: State, a: Action, n: string)
    requires n in Apply(s, a).owed && !(a == ServerGoes(n) && n in s.db.servers)
    ensures n in s.owed
  {
  }

  /** Only removing its server erases a row that is queued or running: its server has gone, and this is the hook. */
  lemma OnlyRemovalErasesActive(actions: seq<Action>, a: Action, id: string)
    requires id in Run(actions).db.exports && Active(Run(actions).db.exports[id].status)
    requires id !in Apply(Run(actions), a).db.exports
    ensures var server := Run(actions).db.exports[id].server;
            a == Forget(server) && HasGone(actions, server)
  {
    ErasedExactlyByTheHook(Run(actions), a, id);
    OwedHasGone(actions, Run(actions).db.exports[id].server);
  }

  /** But a hook knows its server by name: one still to run erases the export of the next server of that name. */
  lemma AnOldHookErasesANewExport(name: string, tenant: string, other: string, id: string) returns (actions: seq<Action>)
    ensures var s := Run(actions);
            && name in s.db.servers && s.db.servers[name] == ServerRow(other, Ready)
            && id in s.db.exports && s.db.exports[id] == ExportRow(name, other, Queued, None)
            && id !in Apply(s, Forget(name)).db.exports
  {
    actions := ReusedName(name, tenant, other);
    var s := Run(actions);
    assert CanReserveExport(s.db, name, other, 1, 0);
    OneMore(actions, Start(id, name, other, 1, 0, 9));
    actions := actions + [Start(id, name, other, 1, 0, 9)];
    ErasedExactlyByTheHook(Run(actions), Forget(name), id);
  }

  /** A server deleted, its hook still to run, and the name another tenant's, whose server is ready. */
  lemma ReusedName(name: string, tenant: string, other: string) returns (actions: seq<Action>)
    ensures var s := Run(actions);
            && s.enabled && s.db.exports == map[] && s.db.events == [] && s.used == {} && name in s.owed
            && name in s.db.servers && s.db.servers[name] == ServerRow(other, Ready)
  {
    actions := SwitchedOn();
    actions := ReadyServer(actions, name, tenant);
    OneMore(actions, ServerTurns(name, Deleting));
    actions := actions + [ServerTurns(name, Deleting)];
    OneMore(actions, ServerGoes(name));
    actions := actions + [ServerGoes(name)];
    actions := ReadyServer(actions, name, other);
  }

  /** The name has a server, settled as `status`. */
  function WithServer(s: State, name: string, row: ServerRow): State {
    s.(db := s.db.(servers := s.db.servers[name := row]))
  }

  lemma ServerTurnsTo(s: State, name: string, row: ServerRow, status: Status)
    ensures Apply(WithServer(s, name, row), ServerTurns(name, status)) == WithServer(s, name, row.(status := status))
  {
    var m := s.db.servers;
    assert m[name := row][name := row.(status := status)] == m[name := row.(status := status)];
  }

  /** A server is created, and its create works. */
  lemma ReadyServer(actions: seq<Action>, name: string, tenant: string) returns (longer: seq<Action>)
    requires name !in Run(actions).db.servers
    ensures Run(longer) == WithServer(Run(actions), name, ServerRow(tenant, Ready))
  {
    OneMore(actions, ServerComes(name, tenant));
    longer := actions + [ServerComes(name, tenant)];
    ServerTurnsTo(Run(actions), name, ServerRow(tenant, Provisioning), Ready);
    OneMore(longer, ServerTurns(name, Ready));
    longer := longer + [ServerTurns(name, Ready)];
  }

  lemma SwitchedOn() returns (actions: seq<Action>)
    ensures Run(actions) == START.(enabled := true)
  {
    OneMore([], Restart(true, []));
    assert Ids([]) == ActiveIds(EMPTY);
    actions := [] + [Restart(true, [])];
  }

  lemma OneMore(actions: seq<Action>, a: Action)
    ensures Run(actions + [a]) == Apply(Run(actions), a)
  {
    assert (actions + [a])[..|actions|] == actions;
  }

  /** One row, later: untouched, or strictly further on; a finished row never changes again. */
  predicate Older(r: ExportRow, r': ExportRow) {
    r' == r
    || (r'.server == r.server && r'.tenant == r.tenant && Active(r.status) && !r'.status.Queued?
        && (r.status.Running? ==> !r'.status.Running?))
  }

  /** Along any run a row only grows older, and once erased its id never comes back. */
  lemma {:induction false} RowsGrowOlder(actions: seq<Action>, i: nat, id: string)
    requires i <= |actions| && id in Run(actions[..i]).used
    ensures id in Run(actions).used
    ensures id !in Run(actions[..i]).db.exports ==> id !in Run(actions).db.exports
    ensures id in Run(actions[..i]).db.exports && id in Run(actions).db.exports ==>
              Older(Run(actions[..i]).db.exports[id], Run(actions).db.exports[id])
    decreases |actions|
  {
    if i == |actions| {
      assert actions[..i] == actions;
    } else {
      var init, a := actions[..|actions| - 1], actions[|actions| - 1];
      assert init[..i] == actions[..i];
      RowsGrowOlder(init, i, id);
      EveryRunKeepsInv(init);
      ErasedStaysErased(Run(init), a, id);
      if id in Run(init).db.exports && id in Run(actions).db.exports {
        StepMoves(Run(init), a, id);
      }
    }
  }

  // --- how many at once ----------------------------------------------------------------

  /**
   In every run a server has at most one export queued or running for its tenant,
   at most one runs overall, and while exports are on each of them has its job:
   in the queue, or with the worker.
   */
  lemma OneAtATime(actions: seq<Action>, i: string, j: string)
    requires var d := Run(actions).db;
             i in d.exports && j in d.exports && Active(d.exports[i].status) && Active(d.exports[j].status)
    ensures var s := Run(actions);
            var r, q := s.db.exports[i], s.db.exports[j];
            && (r.server == q.server && r.tenant == q.tenant ==> i == j)
            && (r.status.Running? && q.status.Running? ==> i == j)
            && (s.enabled && r.status.Queued? ==> i in s.queue)
            && (s.enabled && r.status.Running? ==> s.job.Some? && s.job.value.id == i)
  {
    EveryRunKeepsInv(actions);
    assert RowFine(Run(actions), i);
  }

  /** The worker on its own: each entry is how one step of it ends. */
  function Worked(s: State, script: seq<(bool, int)>): State
    decreases |script|
  {
    if script == [] then s
    else Worked(Apply(s, if s.job.Some? then GoOn(script[0].0, script[0].1) else PickUp), script[1..])
  }

  /** At most this many steps are left for it. */
  function StepsLeft(s: State): nat {
    3 * |s.queue| + if s.job.None? then 0 else if s.job.value.at.Starting? then 2 else 1
  }

  /** However its steps end, the worker leaves no export queued or running: every row gets an end and a time to be swept. */
  lemma {:induction false} EveryExportEnds(s: State, script: seq<(bool, int)>)
    requires Inv(s) && s.enabled && |script| >= StepsLeft(s)
    ensures var s' := Worked(s, script);
            && s'.db.exports.Keys == s.db.exports.Keys
            && forall id | id in s'.db.exports :: !Active(s'.db.exports[id].status) && s'.db.exports[id].expires.Some?
    decreases |script|
  {
    if script == [] {
      forall id | id in s.db.exports
        ensures !Active(s.db.exports[id].status) && s.db.exports[id].expires.Some?
      {
        assert RowFine(s, id);
      }
    } else {
      var a := if s.job.Some? then GoOn(script[0].0, script[0].1) else PickUp;
      ActionKeeps(s, a);
      EveryExportEnds(Apply(s, a), script[1..]);
    }
  }

  // --- rows and directories ----------------------------------------------------------------

  predicate Done(s: State, id: string) { id in s.db.exports && s.db.exports[id].status.Done? }

  /** A finished export has its directory, unless a sweep took it. */
  lemma FinishedHasItsWorld(actions: seq<Action>, id: string)
    requires Done(Run(actions), id)
    ensures var s := Run(actions);
            (s.db.exports[id].server, id) in s.dirs <==> id !in s.lost
  {
    EveryRunKeepsInv(actions);
    assert RowFine(Run(actions), id);
  }

  function PlaceOf(s: State, id: string): Place
    requires id in s.db.exports
  {
    (s.db.exports[id].server, id)
  }

  /**
   A finished export's directory is there before a step and gone after it, the row
   still saying finished, exactly when the step is a sweep's clean-up and the export
   was accepted after that sweep had looked.
   */
  lemma WorldGoesExactlyWhenLate(actions: seq<Action>, a: Action, id: string)
    requires Done(Run(actions), id) && PlaceOf(Run(actions), id) in Run(actions).dirs
    ensures var s, s' := Run(actions), Apply(Run(actions), a);
            Done(s', id) && PlaceOf(s', id) !in s'.dirs
            <==> a.SweepClean? && s.sweep.Some? && id in s.sweep.value.late
  {
    EveryRunKeepsInv(actions);
    var s := Run(actions);
    assert RowFine(s, id);
    if a.Restart? {
      RestartMoves(s, a, id);
    } else if a.PickUp? || a.GoOn? {
      WorkerLeavesIt(s, a, id);
    } else if a.SweepLook? || a.SweepClean? {
      SweepLeavesIt(s, a, id);
    }
  }

  lemma WorkerLeavesIt(s: State, a: Action, id: string)
    requires JobFine(s) && Done(s, id) && (a.PickUp? || a.GoOn?) && PlaceOf(s, id) in s.dirs
    ensures var s' := Apply(s, a); Done(s', id) && PlaceOf(s', id) == PlaceOf(s, id) && PlaceOf(s', id) in s'.dirs
  {
  }

  lemma SweepLeavesIt(s: State, a: Action, id: string)
    requires Done(s, id) && RowFine(s, id) && LookFine(s) && (a.SweepLook? || a.SweepClean?) && PlaceOf(s, id) in s.dirs
    ensures var s' := Apply(s, a);
            Done(s', id) && PlaceOf(s', id) !in s'.dirs <==> a.SweepClean? && s.sweep.Some? && id in s.sweep.value.late
  {
  }

  /** What goes on between a sweep's look and its clean-up when no export is accepted. */
  predicate AcceptsNone(a: Action) { !a.Start? && !a.SweepClean? && !a.Restart? }

  lemma {:induction false} NothingLate(s: State, between: seq<Action>)
    requires Inv(s) && s.sweep.Some? && forall a | a in between :: AcceptsNone(a)
    ensures Inv(RunFrom(s, between)) && RunFrom(s, between).sweep == s.sweep
  {
    if between != [] {
      var last := |between| - 1;
      assert AcceptsNone(between[last]);
      NothingLate(s, between[..last]);
      ActionKeeps(RunFrom(s, between[..last]), between[last]);
    }
  }

  /** With no export accepted meanwhile, a sweep's clean-up takes no finished export's directory, whatever else goes on during it. */
  lemma QuietSweepLosesNothing(s: State, now: int, between: seq<Action>, id: string)
    requires Inv(s) && s.enabled && s.sweep.None? && forall a | a in between :: AcceptsNone(a)
    requires Done(RunFrom(Apply(s, SweepLook(now)), between), id)
    ensures var met := RunFrom(Apply(s, SweepLook(now)), between);
            var end := Apply(met, SweepClean);
            Done(end, id) && (PlaceOf(end, id) in end.dirs <==> PlaceOf(met, id) in met.dirs)
  {
    var looked := Apply(s, SweepLook(now));
    LookKeeps(s, now);
    NothingLate(looked, between);
    var met := RunFrom(looked, between);
    assert RowFine(met, id) && met.sweep == looked.sweep;
  }

  /** An export accepted and finished between a sweep's look and its clean-up always loses its world. */
  lemma ALateWorldIsLost(s: State, id: string, server: string, tenant: string, limit: int, since: int, at: int, expires: int)
    requires Inv(s) && s.enabled && s.sweep.Some? && s.queue == [] && s.job.None?
    requires server in s.db.servers && s.db.servers[server] == ServerRow(tenant, Ready)
    requires id !in s.used && CanReserveExport(s.db, server, tenant, limit, since)
    ensures var started := Apply(Apply(s, Start(id, server, tenant, limit, since, at)), PickUp);
            var swept := Apply(Apply(Apply(started, GoOn(true, expires)), GoOn(true, expires)), SweepClean);
            Done(swept, id) && (server, id) !in swept.dirs
  {
    var queued := Apply(s, Start(id, server, tenant, limit, since, at));
    StartedLate(s, id, server, tenant, limit, since, at);
    var started := Apply(queued, PickUp);
    assert started.job == Some(Job(id, server, tenant, Starting)) && started.sweep == queued.sweep;
    GoesThrough(started, started.job.value, expires);
  }

  lemma StartedLate(s: State, id: string, server: string, tenant: string, limit: int, since: int, at: int)
    requires Inv(s) && s.enabled && s.sweep.Some? && s.queue == [] && id !in s.used
    requires CanReserveExport(s.db, server, tenant, limit, since)
    ensures var s' := Apply(s, Start(id, server, tenant, limit, since, at));
            && s'.queue == [id] && id in s'.db.exports && s'.db.exports[id] == ExportRow(server, tenant, Queued, None)
            && s'.job == s.job && s'.db.servers == s.db.servers
            && s'.sweep.Some? && (server, id) !in s'.sweep.value.known
  {
    assert (server, id) !in s.sweep.value.known;
  }

  lemma GoesThrough(s: State, j: Job, expires: int)
    requires s.job == Some(j) && j.at.Starting? && j.server in s.db.servers && j.id in s.db.exports
    requires s.sweep.Some? && (j.server, j.id) !in s.sweep.value.known
    ensures var swept := Apply(Apply(Apply(s, GoOn(true, expires)), GoOn(true, expires)), SweepClean);
            Done(swept, j.id) && (j.server, j.id) !in swept.dirs
  {
    var working := Apply(s, GoOn(true, expires));
    assert working == s.(job := Some(j.(at := Working)));
    var ended := Apply(working, GoOn(true, expires));
    assert Done(ended, j.id) && ended.sweep == s.sweep;
  }

  /** Such a moment is reached: a ready server, exports on, and a sweep that has looked. */
  lemma AMomentForIt(name: string, tenant: string, id: string) returns (actions: seq<Action>)
    ensures var s := Run(actions);
            && Inv(s) && s.enabled && s.sweep.Some? && s.queue == [] && s.job.None? && id !in s.used
            && name in s.db.servers && s.db.servers[name] == ServerRow(tenant, Ready)
            && CanReserveExport(s.db, name, tenant, 1, 0)
  {
    actions := SwitchedOn();
    actions := ReadyServer(actions, name, tenant);
    OneMore(actions, SweepLook(0));
    actions := actions + [SweepLook(0)];
    EveryRunKeepsInv(actions);
  }

  /** Every result directory belongs to a row. */
  ghost predicate NoStrays(s: State) {
    forall p | p in s.dirs :: p.1 in s.db.exports && s.db.exports[p.1].server == p.0
  }

  /**
   A sweep with nothing in between leaves exactly the rows that are queued or running,
   or not yet due and of a server that is there and the same tenant's, unchanged, and no
   directory without a row.
   */
  lemma SweepSettles(s: State, now: int)
    requires Inv(s) && s.enabled && s.sweep.None?
    ensures var s' := Apply(Apply(s, SweepLook(now)), SweepClean);
            && s' == Swept(s, now)
            && NoStrays(s')
            && s'.lost == s.lost
            && (forall id :: id in s'.db.exports <==>
                  id in s.db.exports
                  && var r := s.db.exports[id];
                     r.status.Queued? || r.status.Running?
                     || ((r.expires.None? || now < r.expires.value * 1_000_000)
                         && r.server in s.db.servers && s.db.servers[r.server].tenant == r.tenant))
            && (forall id | id in s'.db.exports :: s'.db.exports[id] == s.db.exports[id])
            && (forall p | p in s'.dirs :: p in s.dirs)
  {
  }

  /** Starting with exports on leaves none queued or running, none without its job, and no stray directory. */
  lemma RestartSettles(actions: seq<Action>, failures: seq<Failure>, now: int)
    requires Ids(failures) == ActiveIds(Run(actions).db)
    ensures var s := Apply(Apply(Run(actions + [Restart(true, failures)]), SweepLook(now)), SweepClean);
            && s.enabled && s.queue == [] && s.job.None? && NoStrays(s)
            && forall id | id in s.db.exports :: !Active(s.db.exports[id].status)
  {
    var s := Run(actions);
    assert (actions + [Restart(true, failures)])[..|actions|] == actions;
    FailAllRows(s.db, failures);
    forall id | id in s.db.exports
      ensures id in ActiveIds(s.db) <==> Active(s.db.exports[id].status)
    {
    }
    EveryRunKeepsInv(actions);
    RestartKeeps(s, true, failures);
    SweepSettles(Restarted(s, true, failures), now);
  }
}
