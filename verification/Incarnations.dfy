/**
 Names are reused, so what a log, a backup or a request says of a name may be about
 an earlier server of it.  Here a run is read with its history: which server of a
 name each thing belongs to, and exactly when a backup or a delete meets its own.
 */
module Incarnations {
  import opened Options
  import opened Db
  import opened ServerLifecycle
  import opened LifecycleInvariant
  import LifecycleRuns
  import LifecycleTheorems

  // --- history ------------------------------------------------------------------------

  predicate Reserves(cfg: Settings, s: State, a: Action, n: string) {
    a.Reserve? && a.name == n && CanReserve(s.db, n, a.tenant, cfg.maxServers)
  }

  /** The length of the log when the present server of this name was reserved. */
  function Born(cfg: Settings, actions: seq<Action>, n: string): nat {
    if actions == [] then 0
    else
      var init, a := actions[..|actions| - 1], actions[|actions| - 1];
      if Reserves(cfg, Run(cfg, init), a, n) then |Run(cfg, init).db.events| else Born(cfg, init, n)
  }

  /** This step writes the file of this path. */
  predicate Writes(s: State, a: Action, p: BackupPath) {
    && a.Advance? && a.id in s.threads && s.threads[a.id].Delete? && s.threads[a.id].stage.BackingUp?
    && a.outcome.Works? && p == BackupPath(s.threads[a.id].name, a.outcome.stamp)
  }

  /** This step puts the backup of this path in the log. */
  predicate Says(s: State, a: Action, p: BackupPath) {
    a.Advance? && a.id in s.threads && s.threads[a.id].Delete? && s.threads[a.id].stage == Archived(p)
  }

  /** The file was written by the present server of its name, and the log does not say so yet. */
  predicate Unsaid(cfg: Settings, actions: seq<Action>, p: BackupPath) {
    if actions == [] then false
    else
      var init, a := actions[..|actions| - 1], actions[|actions| - 1];
      var s := Run(cfg, init);
      if Reserves(cfg, s, a, p.server) then false
      else if Writes(s, a, p) then true
      else if Says(s, a, p) then false
      else Unsaid(cfg, init, p)
  }

  /** From this point on the log has a `backup` of this path. */
  ghost predicate SaidSince(events: seq<Event>, p: BackupPath, from: nat) {
    exists i: nat :: from <= i < |events| && events[i].server == p.server && events[i].kind == BackupTaken(p)
  }

  // --- whose backup a file is -----------------------------------------------------------

  /** What is on disk is older than any server to come, and nothing was born after now. */
  ghost predicate InTheirTime(cfg: Settings, actions: seq<Action>) {
    var s := Run(cfg, actions);
    && (forall p | p in s.disk :: s.disk[p] < s.nextThread)
    && (forall n :: Born(cfg, actions, n) <= |s.db.events|)
  }

  /** A file on disk is of the present server exactly when that server's log says so, or the file is not in the log yet. */
  ghost predicate OwnedAsSaid(cfg: Settings, actions: seq<Action>, p: BackupPath) {
    var s := Run(cfg, actions);
    p in s.disk && p.server in s.db.servers ==>
      (s.disk[p] == WorldOf(s, p.server)
       <==> SaidSince(s.db.events, p, Born(cfg, actions, p.server)) || Unsaid(cfg, actions, p))
  }

  /** A backup in the log is under its server's own name. */
  ghost predicate OwnName(e: Event) { IsBackup(e.kind) ==> e.kind.path.server == e.server }

  ghost predicate OwnNames(s: State) {
    && (forall e | e in s.db.events :: OwnName(e))
    && (forall id | id in s.threads && s.threads[id].Delete? :: OwnPath(s.threads[id]))
  }

  ghost predicate OwnPath(t: Thread)
    requires t.Delete?
  {
    (t.stage.Reusing? ==> t.stage.path.server == t.name) && (t.stage.Archived? ==> t.stage.path.server == t.name)
  }

  lemma {:induction false} ScanFindsOwnName(events: seq<Event>, n: string, disk: set<BackupPath>)
    requires forall e | e in events :: OwnName(e)
    ensures var found := BackupOnDisk(events, n, disk); found.Some? ==> found.value.server == n && found.value in disk
  {
    if events != [] {
      var last := |events| - 1;
      assert OwnName(events[last]);
      ScanFindsOwnName(events[..last], n, disk);
    }
  }

  lemma OwnNamesKept(cfg: Settings, s: State, a: Action)
    requires OwnNames(s) && AllProper(s)
    ensures OwnNames(Apply(cfg, s, a))
  {
    var s' := Apply(cfg, s, a);
    var more := LogGrows(cfg, s, a);
    forall e | e in s'.db.events
      ensures OwnName(e)
    {
      if e in more && IsBackup(e.kind) {
        assert OwnPath(s.threads[a.id]);
      }
    }
    forall id | id in s'.threads && s'.threads[id].Delete?
      ensures OwnPath(s'.threads[id])
    {
      LifecycleTheorems.ThreadsComeFrom(cfg, s, a, id);
      if a.Advance? && a.id == id && id in s.threads && s.threads[id].Delete? {
        OwnPathStep(s, s.threads[id], a.outcome);
      }
    }
  }

  lemma OwnPathStep(s: State, t: Thread, o: Outcome)
    requires OwnNames(s) && t.Delete? && OwnPath(t)
    ensures var next := DeleteStep(s.db, s.disk, WorldOf(s, t.name), t, o).next;
            next.Some? && next.value.Delete? ==> OwnPath(next.value)
  {
    ScanFindsOwnName(s.db.events, t.name, s.disk.Keys);
  }

  /** A step appends to the log, and a backup only as a delete that has one to tell. */
  lemma LogGrows(cfg: Settings, s: State, a: Action) returns (more: seq<Event>)
    requires AllProper(s)
    ensures Apply(cfg, s, a).db.events == s.db.events + more
    ensures forall e | e in more && IsBackup(e.kind) :: ToldBy(s, a, e)
  {
    more := [];
    if a.Advance? && a.id in s.threads {
      var t := s.threads[a.id];
      if t.Create? {
        CreateWritesLog(cfg, s.db, s.disk, t, a.outcome);
        more := Apply(cfg, s, a).db.events[|s.db.events|..];
      } else if Records(t.stage) {
        more := [Event(t.tenant, t.name, KindOf(t))];
      }
    } else if a.Restart? && forall e | e in a.notes :: IsNote(e) {
      more := a.notes;
    }
  }

  /** The event is the one this delete has to tell at its stage. */
  ghost predicate ToldBy(s: State, a: Action, e: Event) {
    && a.Advance? && a.id in s.threads && s.threads[a.id].Delete?
    && var t := s.threads[a.id];
       && e.server == t.name
       && ((t.stage.Archived? && e.kind == BackupTaken(t.stage.path))
           || (t.stage.Reusing? && e.kind == BackupReused(t.stage.path)))
  }

  lemma SaidLater(events: seq<Event>, more: seq<Event>, p: BackupPath, from: nat)
    requires from <= |events|
    ensures SaidSince(events + more, p, from)
       <==> SaidSince(events, p, from) || exists e :: e in more && e.server == p.server && e.kind == BackupTaken(p)
  {
    if SaidSince(events, p, from) {
      var i: nat :| from <= i < |events| && events[i].server == p.server && events[i].kind == BackupTaken(p);
      assert (events + more)[i] == events[i];
    } else if e :| e in more && e.server == p.server && e.kind == BackupTaken(p) {
      var k :| 0 <= k < |more| && more[k] == e;
      assert (events + more)[|events| + k] == e;
    }
  }

  lemma InTimeKept(cfg: Settings, actions: seq<Action>, a: Action)
    requires InTheirTime(cfg, actions) && Inv(cfg, Run(cfg, actions))
    ensures InTheirTime(cfg, actions + [a])
  {
    var s := Run(cfg, actions);
    assert (actions + [a])[..|actions|] == actions;
    var s' := Apply(cfg, s, a);
    var more := LogGrows(cfg, s, a);
    forall p | p in s'.disk
      ensures s'.disk[p] < s'.nextThread
    {
      if Writes(s, a, p) {
        assert Holds(s.threads[a.id]);
        assert s'.disk[p] == WorldOf(s, p.server);
      } else {
        FileKept(cfg, s, a, p);
      }
    }
  }

  /** The present server of a name changes only by a reservation. */
  lemma SameServer(cfg: Settings, s: State, a: Action, n: string)
    requires !Reserves(cfg, s, a, n)
    ensures WorldOf(Apply(cfg, s, a), n) == WorldOf(s, n)
    ensures n in Apply(cfg, s, a).db.servers ==> n in s.db.servers
  {
    if a.Advance? && a.id in s.threads && s.threads[a.id].Create? {
      CreateWritesRows(cfg, s.db, s.disk, s.threads[a.id], a.outcome);
    }
  }

  lemma FileKept(cfg: Settings, s: State, a: Action, p: BackupPath)
    requires !Writes(s, a, p) && p in Apply(cfg, s, a).disk
    ensures p in s.disk && Apply(cfg, s, a).disk[p] == s.disk[p]
  {
    if a.Advance? && a.id in s.threads && s.threads[a.id].Create? {
      CreateWritesLog(cfg, s.db, s.disk, s.threads[a.id], a.outcome);
    }
  }

  lemma SayingAppends(cfg: Settings, s: State, a: Action, p: BackupPath)
    requires OwnNames(s) && Says(s, a, p)
    ensures Apply(cfg, s, a).db.events == s.db.events + [Event(s.threads[a.id].tenant, p.server, BackupTaken(p))]
  {
    assert OwnPath(s.threads[a.id]);
  }

  lemma SaidKept(cfg: Settings, s: State, a: Action, p: BackupPath, from: nat)
    requires AllProper(s) && OwnNames(s) && from <= |s.db.events|
    ensures SaidSince(Apply(cfg, s, a).db.events, p, from) <==> SaidSince(s.db.events, p, from) || Says(s, a, p)
  {
    if Says(s, a, p) {
      SayingAppends(cfg, s, a, p);
      var e := Event(s.threads[a.id].tenant, p.server, BackupTaken(p));
      SaidLater(s.db.events, [e], p, from);
      assert e in [e];
    } else {
      var more := LogGrows(cfg, s, a);
      SaidLater(s.db.events, more, p, from);
      forall e | e in more
        ensures e.kind != BackupTaken(p)
      {
        if IsBackup(e.kind) {
          assert ToldBy(s, a, e);
        }
      }
    }
  }

  lemma OwnedAsSaidKept(cfg: Settings, actions: seq<Action>, a: Action, p: BackupPath)
    requires Inv(cfg, Run(cfg, actions)) && OwnNames(Run(cfg, actions)) && InTheirTime(cfg, actions)
    requires OwnedAsSaid(cfg, actions, p)
    ensures OwnedAsSaid(cfg, actions + [a], p)
  {
    var s := Run(cfg, actions);
    assert (actions + [a])[..|actions|] == actions;
    if !Reserves(cfg, s, a, p.server) {
      SameServer(cfg, s, a, p.server);
      SaidKept(cfg, s, a, p, Born(cfg, actions, p.server));
      if Says(s, a, p) {
        assert OwnPath(s.threads[a.id]);
        assert Apply(cfg, s, a).disk == s.disk;
      } else if !Writes(s, a, p) && p in Apply(cfg, s, a).disk {
        FileKept(cfg, s, a, p);
      }
    }
  }

  lemma {:induction false} EveryRunOwnsAsSaid(cfg: Settings, actions: seq<Action>)
    ensures OwnNames(Run(cfg, actions)) && InTheirTime(cfg, actions)
    ensures forall p :: OwnedAsSaid(cfg, actions, p)
  {
    if actions != [] {
      var init, a := actions[..|actions| - 1], actions[|actions| - 1];
      assert actions == init + [a];
      EveryRunOwnsAsSaid(cfg, init);
      EveryRunKeepsInv(cfg, init);
      OwnNamesKept(cfg, Run(cfg, init), a);
      InTimeKept(cfg, init, a);
      forall p
        ensures OwnedAsSaid(cfg, actions, p)
      {
        OwnedAsSaidKept(cfg, init, a, p);
      }
    }
  }

  /**
   A backup the scan hands out is of the server that asks exactly when that server's
   own log has a `backup` of the path, or this server wrote the file and died before
   saying so.  Whatever was scanned, logged or cut off before makes no difference.
   */
  lemma ReusedBackupIsOwnExactly(cfg: Settings, actions: seq<Action>, n: string)
    requires n in Run(cfg, actions).db.servers
    ensures var s := Run(cfg, actions);
            var found := BackupOnDisk(s.db.events, n, s.disk.Keys);
            found.Some? ==>
              && found.value.server == n && found.value in s.disk
              && (s.disk[found.value] == WorldOf(s, n)
                  <==> SaidSince(s.db.events, found.value, Born(cfg, actions, n)) || Unsaid(cfg, actions, found.value))
  {
    EveryRunOwnsAsSaid(cfg, actions);
    var s := Run(cfg, actions);
    ScanFindsOwnName(s.db.events, n, s.disk.Keys);
    var found := BackupOnDisk(s.db.events, n, s.disk.Keys);
    if found.Some? {
      assert OwnedAsSaid(cfg, actions, found.value);
    }
  }

  /** So too for the backup a delete has chosen to reuse. */
  lemma ReusingOwnExactly(cfg: Settings, actions: seq<Action>, id: nat)
    requires var s := Run(cfg, actions); id in s.threads && s.threads[id].Delete? && s.threads[id].stage.Reusing?
    ensures var s := Run(cfg, actions);
            var n, path := s.threads[id].name, s.threads[id].stage.path;
            && n in s.db.servers && path.server == n
            && (path in s.disk ==>
                  (s.disk[path] == WorldOf(s, n)
                   <==> SaidSince(s.db.events, path, Born(cfg, actions, n)) || Unsaid(cfg, actions, path)))
  {
    EveryRunOwnsAsSaid(cfg, actions);
    EveryRunKeepsInv(cfg, actions);
    var s := Run(cfg, actions);
    assert OwnPath(s.threads[id]) && Holds(s.threads[id]);
    assert OwnedAsSaid(cfg, actions, s.threads[id].stage.path);
  }

  // --- whose server a delete takes -------------------------------------------------------

  /** The tenant of the newest accepted reservation of the name, if there is one among the steps from this one on. */
  function NewestSince(cfg: Settings, actions: seq<Action>, n: string, from: nat): Option<string> {
    if |actions| <= from then None
    else
      var init, a := actions[..|actions| - 1], actions[|actions| - 1];
      if Reserves(cfg, Run(cfg, init), a, n) then Some(a.tenant) else NewestSince(cfg, init, n, from)
  }

  /** This step asked for this delete, of a server of its tenant. */
  ghost predicate AskedAt(cfg: Settings, actions: seq<Action>, id: nat, k: nat, tenant: string, n: string)
    requires k < |actions|
  {
    var s := Run(cfg, actions[..k]);
    actions[k].Ask? && s.nextThread == id && actions[k].tenant == tenant && actions[k].name == n
    && n in s.db.servers && s.db.servers[n].tenant == tenant
  }

  /** A step that reserves nothing changes no row's tenant. */
  lemma TenantsStay(cfg: Settings, s: State, a: Action, n: string)
    requires n in Apply(cfg, s, a).db.servers && !Reserves(cfg, s, a, n)
    ensures n in s.db.servers && Apply(cfg, s, a).db.servers[n].tenant == s.db.servers[n].tenant
  {
    if a.Advance? && a.id in s.threads && s.threads[a.id].Create? {
      CreateWritesRows(cfg, s.db, s.disk, s.threads[a.id], a.outcome);
    }
  }

  /** A row is its newest reservation's; with none since, it is the server that was there, and its tenant's. */
  lemma {:induction false} RowsAreTheNewest(cfg: Settings, actions: seq<Action>, n: string, from: nat)
    requires from <= |actions| && n in Run(cfg, actions).db.servers
    ensures var s, was, newest := Run(cfg, actions), Run(cfg, actions[..from]), NewestSince(cfg, actions, n, from);
            if newest.Some? then s.db.servers[n].tenant == newest.value
            else && n in was.db.servers && s.db.servers[n].tenant == was.db.servers[n].tenant
                 && WorldOf(s, n) == WorldOf(was, n)
  {
    if from == |actions| {
      assert actions[..from] == actions;
    } else {
      var init, a := actions[..|actions| - 1], actions[|actions| - 1];
      if !Reserves(cfg, Run(cfg, init), a, n) {
        TenantsStay(cfg, Run(cfg, init), a, n);
        SameServer(cfg, Run(cfg, init), a, n);
        RowsAreTheNewest(cfg, init, n, from);
        assert init[..from] == actions[..from];
      }
    }
  }

  lemma SameRequest(s: State, t: Thread, o: Outcome)
    requires t.Delete?
    ensures var next := DeleteStep(s.db, s.disk, WorldOf(s, t.name), t, o).next;
            next.Some? ==> next.value.Delete? && next.value.tenant == t.tenant && next.value.name == t.name
  {
  }

  /** Every delete was asked for. */
  lemma {:induction false} DeletesWereAsked(cfg: Settings, actions: seq<Action>, id: nat) returns (k: nat)
    requires id in Run(cfg, actions).threads && Run(cfg, actions).threads[id].Delete?
    ensures k < |actions| && AskedAt(cfg, actions, id, k, Run(cfg, actions).threads[id].tenant, Run(cfg, actions).threads[id].name)
  {
    k := |actions| - 1;
    var init, a := actions[..k], actions[k];
    var s := Run(cfg, init);
    LifecycleTheorems.ThreadsComeFrom(cfg, s, a, id);
    EveryRunKeepsInv(cfg, init);
    if id in s.threads {
      if a.Advance? && a.id == id {
        SameRequest(s, s.threads[id], a.outcome);
      }
      k := DeletesWereAsked(cfg, init, id);
      assert init[..k] == actions[..k];
    }
  }

  /**
   A delete that has won the row of a name is taking its own tenant's server exactly
   unless, since it was asked, the name was last reserved by somebody else.  With no
   reservation since, it is the very server it was asked of.
   */
  lemma DeleteTakesItsOwnExactly(cfg: Settings, actions: seq<Action>, id: nat) returns (k: nat)
    requires var s := Run(cfg, actions); id in s.threads && s.threads[id].Delete? && Holds(s.threads[id])
    ensures var s := Run(cfg, actions);
            var t := s.threads[id];
            && k < |actions| && AskedAt(cfg, actions, id, k, t.tenant, t.name) && t.name in s.db.servers
            && var newest := NewestSince(cfg, actions, t.name, k);
               && (s.db.servers[t.name].tenant == t.tenant <==> newest.None? || newest.value == t.tenant)
               && (newest.None? ==> WorldOf(s, t.name) == WorldOf(Run(cfg, actions[..k]), t.name))
  {
    EveryRunKeepsInv(cfg, actions);
    k := DeletesWereAsked(cfg, actions, id);
    RowsAreTheNewest(cfg, actions, Run(cfg, actions).threads[id].name, k);
  }

  /** The compare-and-set compares name and status: a delete asked of one tenant's server can win another's. */
  lemma StaleDeleteTakesAnothers(cfg: Settings, tenant: string, other: string, name: string, stamp: string)
    returns (actions: seq<Action>, id: nat)
    requires cfg.maxServers > 0
    ensures var s := Run(cfg, actions);
            && id in s.threads && s.threads[id].Delete? && Holds(s.threads[id]) && s.threads[id].tenant == tenant
            && s.threads[id].name == name
            && name in s.db.servers && s.db.servers[name] == ServerRow(other, Deleting)
  {
    LifecycleRuns.RoomForOne(cfg, tenant, name, []);
    actions := LifecycleRuns.FailedCreate(cfg, [], tenant, name);
    id := 1;
    actions := LifecycleRuns.AskedDelete(cfg, actions, tenant, name, Failed);
    actions := LifecycleRuns.AcceptedDelete(cfg, actions, tenant, name, Failed);
    actions := LifecycleRuns.BackedUpDelete(cfg, actions, 2, stamp);
    actions := NameFreed(cfg, actions, 2, name);
    LifecycleRuns.RoomForOne(cfg, other, name, Run(cfg, actions).db.events);
    actions := LifecycleRuns.FailedCreate(cfg, actions, other, name);
    actions := LifecycleRuns.WinsTheRow(cfg, actions, id);
  }

  /** The only server goes, and with it everything but the log. */
  lemma NameFreed(cfg: Settings, actions: seq<Action>, id: nat, name: string) returns (longer: seq<Action>)
    requires var s := Run(cfg, actions);
             && id in s.threads && s.threads[id].Delete? && s.threads[id].stage.Uninstalling? && s.threads[id].name == name
             && s.db.servers.Keys == {name} && s.db == EMPTY.(servers := s.db.servers, events := s.db.events)
    ensures var s, s' := Run(cfg, actions), Run(cfg, longer);
            && s'.db == EMPTY.(events := s.db.events)
            && (forall i | i in s.threads && i != id :: i in s'.threads && s'.threads[i] == s.threads[i])
            && s'.nextThread == s.nextThread
  {
    longer := LifecycleRuns.TornDown(cfg, actions, id);
    longer := LifecycleRuns.RowGoes(cfg, longer, id);
    LifecycleRuns.OnlyRow(Run(cfg, actions), name);
  }
}
