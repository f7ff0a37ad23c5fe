/** The invariant of the lifecycle protocol is kept by every action. */
module LifecycleInvariant {
  import opened Options
  import opened Db
  import opened ServerLifecycle

  // --- the log scans under one more event -----------------------------------------

  lemma StatusAfterEvent(events: seq<Event>, e: Event, n: string)
    ensures StatusBeforeDelete(events + [e], n)
         == if e.server == n && e.kind.DeleteRequested? then (if e.kind.was == Failed then Failed else Ready)
            else StatusBeforeDelete(events, n)
  {
    assert (events + [e])[..|events|] == events;
  }

  lemma CurrentAfterEvent(events: seq<Event>, e: Event, n: string, disk: map<BackupPath, nat>, w: Option<nat>)
    ensures Current(events + [e], n, disk, w)
       <==> (e.server == n && e.kind.Deleted?)
            || ((e.server == n && IsBackup(e.kind) ==> w.Some? && Genuine(e.kind.path, n, disk, w.value))
                && Current(events, n, disk, w))
  {
    assert (events + [e])[..|events|] == events;
  }

  lemma {:induction false} NotesChangeNoScan(events: seq<Event>, notes: seq<Event>, n: string, disk: map<BackupPath, nat>, w: Option<nat>)
    requires forall e | e in notes :: IsNote(e)
    ensures StatusBeforeDelete(events + notes, n) == StatusBeforeDelete(events, n)
    ensures Current(events + notes, n, disk, w) <==> Current(events, n, disk, w)
    decreases |notes|
  {
    if notes == [] {
      assert events + notes == events;
    } else {
      var last := |notes| - 1;
      assert events + notes == (events + notes[..last]) + [notes[last]];
      assert notes[last] in notes;
      NotesChangeNoScan(events, notes[..last], n, disk, w);
      StatusAfterEvent(events + notes[..last], notes[last], n);
      CurrentAfterEvent(events + notes[..last], notes[last], n, disk, w);
    }
  }

  /** Only the holder's own backups change what is on disk under a name, and they are of its world. */
  lemma {:induction false} CurrentUnderDisk(events: seq<Event>, n: string, disk: map<BackupPath, nat>, disk': map<BackupPath, nat>, w: Option<nat>)
    requires Current(events, n, disk, w)
    requires forall p | p in disk' && p.server == n :: (p in disk && disk'[p] == disk[p]) || (w.Some? && disk'[p] == w.value)
    ensures Current(events, n, disk', w)
  {
    if events != [] {
      var e := events[|events| - 1];
      if !(e.server == n && e.kind.Deleted?) {
        CurrentUnderDisk(events[..|events| - 1], n, disk, disk', w);
      }
    }
  }

  /** With no world, no backup is within reach of the scan, so a new world starts clean. */
  lemma {:induction false} CurrentWithoutWorld(events: seq<Event>, n: string, disk: map<BackupPath, nat>, w: Option<nat>)
    requires Current(events, n, disk, None)
    ensures Current(events, n, disk, w)
  {
    if events != [] {
      var e := events[|events| - 1];
      if !(e.server == n && e.kind.Deleted?) {
        CurrentWithoutWorld(events[..|events| - 1], n, disk, w);
      }
    }
  }

  lemma {:induction false} ScanFindsCurrent(events: seq<Event>, n: string, disk: map<BackupPath, nat>, w: Option<nat>)
    requires Current(events, n, disk, w)
    ensures BackupOnDisk(events, n, disk.Keys).Some? ==>
              w.Some? && BackupOnDisk(events, n, disk.Keys).value in disk
              && Genuine(BackupOnDisk(events, n, disk.Keys).value, n, disk, w.value)
  {
    if events != [] {
      var e := events[|events| - 1];
      if !(e.server == n && e.kind.Deleted?) {
        ScanFindsCurrent(events[..|events| - 1], n, disk, w);
      }
    }
  }

  // --- counting a tenant's rows ------------------------------------------------------

  lemma CardinalityOfSubset<T>(a: set<T>, b: set<T>)
    requires a <= b
    ensures |a| <= |b|
  {
    assert b == a + (b - a);
  }

  /** No step but a reservation adds a row or makes one `provisioning`. */
  lemma LimitsKept(cfg: Settings, d: Tables, d': Tables)
    requires WithinLimits(cfg, d)
    requires d'.servers.Keys <= d.servers.Keys
    requires forall n | n in d'.servers ::
               d'.servers[n].tenant == d.servers[n].tenant
               && (d'.servers[n].status.Provisioning? ==> d.servers[n].status.Provisioning?)
    ensures WithinLimits(cfg, d')
  {
    forall tenant
      ensures |ServersOf(d', tenant)| <= cfg.maxServers
    {
      CardinalityOfSubset(ServersOf(d', tenant), ServersOf(d, tenant));
    }
  }

  lemma ReserveCounts(cfg: Settings, d: Tables, tenant: string, name: string, other: string)
    requires WithinLimits(cfg, d) && CanReserve(d, name, tenant, cfg.maxServers)
    ensures |ServersOf(ReserveServer(d, name, tenant, cfg.maxServers), other)| <= cfg.maxServers
  {
    var d' := ReserveServer(d, name, tenant, cfg.maxServers);
    if other == tenant {
      assert ServersOf(d', other) == ServersOf(d, other) + {name};
    } else {
      assert ServersOf(d', other) == ServersOf(d, other);
    }
  }

  lemma ReserveWithinLimits(cfg: Settings, d: Tables, tenant: string, name: string)
    requires WithinLimits(cfg, d) && CanReserve(d, name, tenant, cfg.maxServers)
    ensures WithinLimits(cfg, ReserveServer(d, name, tenant, cfg.maxServers))
  {
    forall other {
      ReserveCounts(cfg, d, tenant, name, other);
    }
    assert forall n | n in d.servers :: d.servers[n] != ServerRow(tenant, Provisioning);
  }

  // --- the actions -------------------------------------------------------------------

  lemma ReserveKeeps(cfg: Settings, s: State, tenant: string, name: string)
    requires Inv(cfg, s) && CanReserve(s.db, name, tenant, cfg.maxServers)
    ensures Inv(cfg, Apply(cfg, s, Reserve(tenant, name)))
  {
    ReserveWithinLimits(cfg, s.db, tenant, name);
    ReserveControl(cfg, s, tenant, name);
    ReserveRemembered(cfg, s, tenant, name);
    ReserveProvenance(cfg, s, tenant, name);
  }

  lemma ReserveControl(cfg: Settings, s: State, tenant: string, name: string)
    requires Control(s) && CanReserve(s.db, name, tenant, cfg.maxServers)
    ensures Control(Apply(cfg, s, Reserve(tenant, name)))
  {
  }

  lemma ReserveRemembered(cfg: Settings, s: State, tenant: string, name: string)
    requires Control(s) && Remembered(s) && Covers(s) && CanReserve(s.db, name, tenant, cfg.maxServers)
    ensures var s' := Apply(cfg, s, Reserve(tenant, name)); Remembered(s') && Covers(s')
  {
  }

  lemma ReserveProvenance(cfg: Settings, s: State, tenant: string, name: string)
    requires Control(s) && Provenance(s) && CanReserve(s.db, name, tenant, cfg.maxServers)
    ensures Provenance(Apply(cfg, s, Reserve(tenant, name)))
  {
    var s' := Apply(cfg, s, Reserve(tenant, name));
    forall n | n !in s.unlogged && n !in s.misread
      ensures Current(s'.db.events, n, s'.disk, LiveWorld(s', n))
    {
      if n == name {
        CurrentWithoutWorld(s.db.events, n, s.disk, LiveWorld(s', n));
      }
    }
  }

  lemma AskKeeps(cfg: Settings, s: State, tenant: string, name: string, force: bool)
    requires Inv(cfg, s)
    ensures Inv(cfg, Apply(cfg, s, Ask(tenant, name, force)))
  {
    AskControl(cfg, s, tenant, name, force);
    assert Remembered(Apply(cfg, s, Ask(tenant, name, force)));
  }

  lemma AskControl(cfg: Settings, s: State, tenant: string, name: string, force: bool)
    requires Control(s) && Covers(s)
    ensures var s' := Apply(cfg, s, Ask(tenant, name, force)); Control(s') && Covers(s')
  {
  }

  lemma LoseBackupKeeps(cfg: Settings, s: State, path: BackupPath)
    requires Inv(cfg, s)
    ensures Inv(cfg, Apply(cfg, s, LoseBackup(path)))
  {
    var s' := Apply(cfg, s, LoseBackup(path));
    forall n | n !in s.unlogged && n !in s.misread
      ensures Current(s'.db.events, n, s'.disk, LiveWorld(s', n))
    {
      CurrentUnderDisk(s.db.events, n, s.disk, s'.disk, LiveWorld(s, n));
    }
    assert Provenance(s');
  }

  lemma RestartKeeps(cfg: Settings, s: State, notes: seq<Event>)
    requires Inv(cfg, s) && forall e | e in notes :: IsNote(e)
    ensures Inv(cfg, Apply(cfg, s, Restart(notes)))
  {
    LimitsKept(cfg, s.db, Apply(cfg, s, Restart(notes)).db);
    RestartControl(cfg, s, notes);
    RestartProvenance(cfg, s, notes);
  }

  lemma RestartControl(cfg: Settings, s: State, notes: seq<Event>)
    requires Control(s) && forall e | e in notes :: IsNote(e)
    ensures var s' := Apply(cfg, s, Restart(notes)); Control(s') && Remembered(s') && Covers(s')
  {
  }

  lemma RestartProvenance(cfg: Settings, s: State, notes: seq<Event>)
    requires Provenance(s) && forall e | e in notes :: IsNote(e)
    ensures Provenance(Apply(cfg, s, Restart(notes)))
  {
    var s' := Apply(cfg, s, Restart(notes));
    forall n | n !in s.unlogged && n !in s.misread
      ensures Current(s'.db.events, n, s'.disk, LiveWorld(s', n))
    {
      NotesChangeNoScan(s.db.events, notes, n, s.disk, LiveWorld(s, n));
    }
  }

  // --- one step of a thread ----------------------------------------------------------

  /** What every thread step has in common: one thread moves, at most one event is appended. */
  ghost predicate Steps(s: State, s': State, id: nat) {
    && id in s.threads
    && (forall other | other != id :: other in s'.threads <==> other in s.threads)
    && (forall other | other != id && other in s.threads :: s'.threads[other] == s.threads[other])
    && (s'.db.events == s.db.events
        || (|s'.db.events| == |s.db.events| + 1 && s'.db.events[..|s.db.events|] == s.db.events))
    && s'.nextThread == s.nextThread && s'.world == s.world
  }

  /** The event a step appends, if it appends one. */
  function Appended(s: State, s': State): Option<Event> {
    if |s'.db.events| == |s.db.events| + 1 then Some(s'.db.events[|s.db.events|]) else None
  }

  lemma ScansAfterStep(s: State, s': State, id: nat, n: string, disk: map<BackupPath, nat>, w: Option<nat>)
    requires Steps(s, s', id)
    ensures Appended(s, s').None? || Appended(s, s').value.server != n || Quiet(Appended(s, s').value.kind) ==>
              && StatusBeforeDelete(s'.db.events, n) == StatusBeforeDelete(s.db.events, n)
              && (Current(s'.db.events, n, disk, w) <==> Current(s.db.events, n, disk, w))
  {
    if Appended(s, s').Some? {
      var e := Appended(s, s').value;
      assert s'.db.events == s.db.events + [e];
      StatusAfterEvent(s.db.events, e, n);
      CurrentAfterEvent(s.db.events, e, n, disk, w);
    }
  }

  /** What a create's step does: it may settle its own row, and tells the log nothing the scans read. */
  ghost predicate CreateMoves(s: State, s': State, id: nat) {
    && Steps(s, s', id) && s.threads[id].Create?
    && (id in s'.threads ==> s'.threads[id].Create?)
    && s'.disk == s.disk && s'.holder == s.holder && s'.before == s.before
    && s'.unlogged == s.unlogged && s'.misread == s.misread
    && (Appended(s, s').Some? && Proper(s.threads[id]) ==> Quiet(Appended(s, s').value.kind))
    && OnlySettled(s.db.servers, s'.db.servers)
  }

  /** The kind a create records, at the stages that record one. */
  function CreateTells(t: Thread): (k: Kind)
    ensures Proper(t) ==> Quiet(k)
  {
    if t.Create? && t.making.CreateTold? then t.making.kind else CreateRequested
  }

  /** Another set of rows: the same names and tenants, and where a status changed, it is settled. */
  predicate OnlySettled(rows: map<string, ServerRow>, rows': map<string, ServerRow>) {
    && rows'.Keys == rows.Keys
    && (forall n | n in rows :: rows'[n].tenant == rows[n].tenant)
    && (forall n | n in rows :: rows'[n].status == rows[n].status || rows'[n].status.Ready? || rows'[n].status.Failed?)
  }

  lemma SettingSettles(db: Tables, n: string, status: Status)
    requires status.Ready? || status.Failed?
    ensures OnlySettled(db.servers, SetStatus(db, n, status).servers)
  {
  }

  lemma CreateWritesRows(cfg: Settings, db: Tables, disk: map<BackupPath, nat>, t: Thread, o: Outcome)
    requires t.Create?
    ensures OnlySettled(db.servers, CreateStep(cfg, db, disk, t, o).db.servers)
  {
    if t.making.Built? {
      SettingSettles(db, t.name, Ready);
    } else if t.making.Spoiled? {
      SettingSettles(db, t.name, Failed);
    } else {
      assert CreateStep(cfg, db, disk, t, o).db.servers == db.servers;
    }
  }

  lemma CreateWritesLog(cfg: Settings, db: Tables, disk: map<BackupPath, nat>, t: Thread, o: Outcome)
    requires t.Create?
    ensures var e := CreateStep(cfg, db, disk, t, o);
            && e.disk == disk && (e.next.Some? ==> e.next.value.Create?)
            && (e.db.events == db.events || e.db.events == db.events + [Event(t.tenant, t.name, CreateTells(t))])
  {
  }

  lemma CreateSteps(cfg: Settings, s: State, id: nat, o: Outcome)
    requires id in s.threads && s.threads[id].Create?
    ensures CreateMoves(s, AdvanceCreate(cfg, s, id, o), id)
  {
    CreateWritesRows(cfg, s.db, s.disk, s.threads[id], o);
    CreateWritesLog(cfg, s.db, s.disk, s.threads[id], o);
  }

  predicate Settles(at: CreateAt) { at.Built? || at.Spoiled? }

  lemma SettlingControl(cfg: Settings, s: State, id: nat, o: Outcome)
    requires Control(s) && id in s.threads && s.threads[id].Create? && Settles(s.threads[id].making)
    ensures Control(AdvanceCreate(cfg, s, id, o))
  {
  }

  lemma CreateControl(cfg: Settings, s: State, id: nat, o: Outcome)
    requires Control(s) && id in s.threads && s.threads[id].Create?
    ensures Control(AdvanceCreate(cfg, s, id, o))
  {
    if Settles(s.threads[id].making) {
      SettlingControl(cfg, s, id, o);
    } else {
      assert AdvanceCreate(cfg, s, id, o).db.servers == s.db.servers;
    }
  }

  lemma CreateKeeps(cfg: Settings, s: State, id: nat, o: Outcome)
    requires Inv(cfg, s) && id in s.threads && s.threads[id].Create?
    ensures Inv(cfg, AdvanceCreate(cfg, s, id, o))
  {
    var s' := AdvanceCreate(cfg, s, id, o);
    CreateControl(cfg, s, id, o);
    CreateSteps(cfg, s, id, o);
    CreateKeepsRest(cfg, s, s', id);
  }

  lemma CreateKeepsRest(cfg: Settings, s: State, s': State, id: nat)
    requires Inv(cfg, s) && CreateMoves(s, s', id)
    ensures Remembered(s') && Provenance(s') && Covers(s') && WithinLimits(cfg, s'.db)
  {
    LimitsKept(cfg, s.db, s'.db);
    StepCovers(s, s', id);
    CreateRemembered(s, s', id);
    CreateProvenance(s, s', id);
  }

  lemma CreateRemembered(s: State, s': State, id: nat)
    requires Control(s) && Remembered(s) && CreateMoves(s, s', id)
    ensures Remembered(s')
  {
    forall n | n in s'.db.servers && s'.db.servers[n].status.Deleting?
      ensures n in s'.before && (s'.before[n].Ready? || s'.before[n].Failed?)
      ensures !Unrecorded(s', n) ==> StatusBeforeDelete(s'.db.events, n) == s'.before[n]
    {
      ScansAfterStep(s, s', id, n, s.disk, None);
      assert Unrecorded(s, n) ==> Unrecorded(s', n);
    }
  }

  lemma CreateProvenance(s: State, s': State, id: nat)
    requires Control(s) && Provenance(s) && CreateMoves(s, s', id)
    ensures Provenance(s')
  {
    forall n | n !in s.unlogged && n !in s.misread
      ensures Current(s'.db.events, n, s'.disk, LiveWorld(s', n))
    {
      ScansAfterStep(s, s', id, n, s.disk, LiveWorld(s, n));
      assert LiveWorld(s', n) == LiveWorld(s, n);
    }
  }

  /** The threads that do not move keep their cover: the log only grows. */
  lemma StepCovers(s: State, s': State, id: nat)
    requires Covers(s) && Steps(s, s', id)
    requires id in s'.threads ==> Accountable(s'.db.events, s'.threads[id])
    ensures Covers(s')
  {
    forall i: nat | i < |s.db.events|
      ensures s'.db.events[i] == s.db.events[i]
    {
      assert s'.db.events[..|s.db.events|][i] == s.db.events[i];
    }
  }

  lemma DeleteSteps(s: State, id: nat, o: Outcome)
    requires id in s.threads && s.threads[id].Delete?
    ensures Steps(s, AdvanceDelete(s, id, o), id)
  {
  }

  lemma RecordingControl(s: State, id: nat, o: Outcome)
    requires Control(s) && id in s.threads && s.threads[id].Delete? && Records(s.threads[id].stage)
    ensures Control(AdvanceDelete(s, id, o))
  {
  }

  lemma CallingGoesOn(s: State, t: Thread, o: Outcome)
    requires t.Delete? && Calls(t.stage)
    ensures var a := AfterCall(s.db, s.disk, t, o);
            Holds(t.(stage := a)) && (Proper(t) ==> Proper(t.(stage := a)))
  {
  }

  lemma CallingControl(s: State, id: nat, o: Outcome)
    requires Control(s) && id in s.threads && s.threads[id].Delete? && Calls(s.threads[id].stage)
    ensures Control(AdvanceDelete(s, id, o))
  {
    CallingGoesOn(s, s.threads[id], o);
    SameHolderKeeps(s, AdvanceDelete(s, id, o), id);
  }

  /** A holder that goes on holding, with the rows as they are. */
  lemma SameHolderKeeps(s: State, s': State, id: nat)
    requires Control(s) && id in s.threads && s.threads[id].Delete? && Holds(s.threads[id])
    requires s'.db.servers == s.db.servers && s'.holder == s.holder && s'.before == s.before
    requires s'.nextThread == s.nextThread && s'.world == s.world
    requires id in s'.threads && s'.threads[id].Delete? && Holds(s'.threads[id]) && Proper(s'.threads[id])
    requires s'.threads == s.threads[id := s.threads[id].(stage := s'.threads[id].stage)]
    ensures Control(s')
  {
  }

  lemma AskedHeld(s: State, id: nat, o: Outcome)
    requires Control(s) && id in s.threads && s.threads[id].Delete? && s.threads[id].stage.Asked?
    ensures Held(AdvanceDelete(s, id, o))
  {
  }

  lemma AskedAttended(s: State, id: nat, o: Outcome)
    requires Control(s) && id in s.threads && s.threads[id].Delete? && s.threads[id].stage.Asked?
    ensures var s' := AdvanceDelete(s, id, o); Numbered(s') && Attended(s') && AllProper(s')
  {
  }

  lemma WritingControl(s: State, id: nat, o: Outcome)
    requires Control(s) && id in s.threads && s.threads[id].Delete?
    requires s.threads[id].stage.Removing? || s.threads[id].stage.Failing?
    ensures Control(AdvanceDelete(s, id, o))
  {
  }

  lemma DeleteControl(s: State, id: nat, o: Outcome)
    requires Control(s) && id in s.threads && s.threads[id].Delete?
    ensures Control(AdvanceDelete(s, id, o))
  {
    if Records(s.threads[id].stage) {
      RecordingControl(s, id, o);
    } else if Calls(s.threads[id].stage) {
      CallingControl(s, id, o);
    } else if s.threads[id].stage.Asked? {
      AskedHeld(s, id, o);
      AskedAttended(s, id, o);
    } else {
      WritingControl(s, id, o);
    }
  }

  lemma DeleteRemembered(s: State, id: nat, o: Outcome)
    requires Control(s) && Remembered(s) && id in s.threads && s.threads[id].Delete?
    ensures Remembered(AdvanceDelete(s, id, o))
  {
    var s', t := AdvanceDelete(s, id, o), s.threads[id];
    DeleteSteps(s, id, o);
    DeleteControl(s, id, o);
    forall n | n in s'.db.servers && s'.db.servers[n].status.Deleting?
      ensures n in s'.before && (s'.before[n].Ready? || s'.before[n].Failed?)
      ensures !Unrecorded(s', n) ==> StatusBeforeDelete(s'.db.events, n) == s'.before[n]
    {
      ScansAfterStep(s, s', id, n, s.disk, None);
      if t.stage.Accepted? && t.name == n {
        StatusAfterEvent(s.db.events, Event(t.tenant, n, DeleteRequested(t.prior)), n);
      }
    }
  }

  lemma RecordingLog(s: State, id: nat, o: Outcome, n: string)
    requires Control(s) && Provenance(s) && id in s.threads && s.threads[id].Delete? && Records(s.threads[id].stage)
    requires n !in AdvanceDelete(s, id, o).unlogged && n !in AdvanceDelete(s, id, o).misread
    ensures Current(AdvanceDelete(s, id, o).db.events, n, s.disk, LiveWorld(s, n))
  {
    var t := s.threads[id];
    CurrentAfterEvent(s.db.events, Event(t.tenant, t.name, KindOf(t)), n, s.disk, LiveWorld(s, n));
  }

  lemma DeleteLog(s: State, id: nat, o: Outcome, n: string)
    requires Control(s) && Provenance(s) && id in s.threads && s.threads[id].Delete?
    requires n !in AdvanceDelete(s, id, o).unlogged && n !in AdvanceDelete(s, id, o).misread
    ensures var s' := AdvanceDelete(s, id, o); Current(s'.db.events, n, s'.disk, LiveWorld(s', n))
  {
    if Records(s.threads[id].stage) {
      RecordingLog(s, id, o, n);
    } else {
      CurrentUnderDisk(s.db.events, n, s.disk, AdvanceDelete(s, id, o).disk, LiveWorld(s, n));
    }
  }

  lemma DeletePaths(s: State, id: nat, o: Outcome)
    requires Control(s) && Provenance(s) && id in s.threads && s.threads[id].Delete? && Holds(s.threads[id])
    requires Calls(s.threads[id].stage)
    ensures var t, s' := s.threads[id], AdvanceDelete(s, id, o);
            var a := AfterCall(s.db, s.disk, t, o);
            && (a.Archived? ==> Genuine(a.path, t.name, s'.disk, WorldOf(s, t.name)))
            && (a.Reusing? && t.name !in s'.misread ==> Genuine(a.path, t.name, s'.disk, WorldOf(s, t.name)))
  {
    var t := s.threads[id];
    if t.stage.NoArchive? && t.name !in s.unlogged && t.name !in s.misread {
      ScanFindsCurrent(s.db.events, t.name, s.disk, LiveWorld(s, t.name));
    }
  }

  lemma DeleteProvenance(s: State, id: nat, o: Outcome)
    requires Control(s) && Provenance(s) && id in s.threads && s.threads[id].Delete?
    ensures Provenance(AdvanceDelete(s, id, o))
  {
    var s' := AdvanceDelete(s, id, o);
    forall n | n !in s'.unlogged && n !in s'.misread
      ensures Current(s'.db.events, n, s'.disk, LiveWorld(s', n))
    {
      DeleteLog(s, id, o, n);
    }
    forall i | i in s'.threads && s'.threads[i].Delete?
      ensures KnowsItsPath(s', s'.threads[i])
    {
      if i == id {
        MoverKnows(s, id, o);
      } else {
        OtherKnows(s, id, o, i);
      }
    }
  }

  lemma MoverKnows(s: State, id: nat, o: Outcome)
    requires Control(s) && Provenance(s) && id in s.threads && s.threads[id].Delete?
    requires id in AdvanceDelete(s, id, o).threads
    ensures var s' := AdvanceDelete(s, id, o); s'.threads[id].Delete? && KnowsItsPath(s', s'.threads[id])
  {
    DeleteSteps(s, id, o);
    if Calls(s.threads[id].stage) {
      DeletePaths(s, id, o);
    }
  }

  lemma OtherKnows(s: State, id: nat, o: Outcome, i: nat)
    requires Control(s) && Provenance(s) && id in s.threads && s.threads[id].Delete?
    requires i != id && i in s.threads && s.threads[i].Delete?
    ensures KnowsItsPath(AdvanceDelete(s, id, o), s.threads[i])
  {
    assert KnowsItsPath(s, s.threads[i]);
  }

  lemma RecordingAccounts(s: State, id: nat)
    requires Covers(s) && id in s.threads && s.threads[id].Delete? && Records(s.threads[id].stage)
    ensures var t := s.threads[id];
            var next := At(t, AfterRecord(t, |s.db.events|));
            next.Some? ==> Accountable(s.db.events + [Event(t.tenant, t.name, KindOf(t))], next.value)
  {
  }

  lemma CallingAccounts(s: State, id: nat, o: Outcome)
    requires Covers(s) && id in s.threads && s.threads[id].Delete? && Calls(s.threads[id].stage)
    ensures var t := s.threads[id];
            Accountable(s.db.events, t.(stage := AfterCall(s.db, s.disk, t, o)))
  {
  }

  lemma DeleteCovers(s: State, id: nat, o: Outcome)
    requires Covers(s) && id in s.threads && s.threads[id].Delete?
    ensures Covers(AdvanceDelete(s, id, o))
  {
    var s' := AdvanceDelete(s, id, o);
    DeleteSteps(s, id, o);
    if Records(s.threads[id].stage) {
      RecordingAccounts(s, id);
    } else if Calls(s.threads[id].stage) {
      CallingAccounts(s, id, o);
    }
    StepCovers(s, s', id);
  }

  lemma DeleteKeeps(cfg: Settings, s: State, id: nat, o: Outcome)
    requires Inv(cfg, s) && id in s.threads && s.threads[id].Delete?
    ensures Inv(cfg, AdvanceDelete(s, id, o))
  {
    LimitsKept(cfg, s.db, AdvanceDelete(s, id, o).db);
    DeleteControl(s, id, o);
    DeleteRemembered(s, id, o);
    DeleteProvenance(s, id, o);
    DeleteCovers(s, id, o);
  }

  // --- every run -----------------------------------------------------------------------

  lemma ActionKeeps(cfg: Settings, s: State, a: Action)
    requires Inv(cfg, s)
    ensures Inv(cfg, Apply(cfg, s, a))
  {
    match a
    case Reserve(tenant, name) => if CanReserve(s.db, name, tenant, cfg.maxServers) { ReserveKeeps(cfg, s, tenant, name); }
    case Ask(tenant, name, force) => AskKeeps(cfg, s, tenant, name, force);
    case Advance(id, o) =>
      if id in s.threads {
        if s.threads[id].Create? { CreateKeeps(cfg, s, id, o); } else { DeleteKeeps(cfg, s, id, o); }
      }
    case Restart(notes) => if forall e | e in notes :: IsNote(e) { RestartKeeps(cfg, s, notes); }
    case LoseBackup(path) => LoseBackupKeeps(cfg, s, path);
  }

  lemma {:induction false} EveryRunKeepsInv(cfg: Settings, actions: seq<Action>)
    ensures Inv(cfg, Run(cfg, actions))
  {
    if actions == [] {
      assert forall tenant :: ServersOf(EMPTY, tenant) == {};
    } else {
      var last := |actions| - 1;
      EveryRunKeepsInv(cfg, actions[..last]);
      ActionKeeps(cfg, Run(cfg, actions[..last]), actions[last]);
    }
  }
}
