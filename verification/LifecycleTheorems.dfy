/** What the lifecycle protocol guarantees in every run. */
module LifecycleTheorems {
  import opened Options
  import opened Db
  import opened ServerLifecycle
  import opened LifecycleInvariant
  import LifecycleRuns

  ghost predicate HolderOf(s: State, id: nat, n: string) {
    id in s.threads && s.threads[id].name == n && Holds(s.threads[id])
  }

  /**
   The row is the lock.  In every interleaving a row is `provisioning` or
   `deleting` exactly while one live request or job holds its name; that one
   is of the row's own kind, and no two threads have cluster steps left for one name.
   */
  lemma OneHolder(cfg: Settings, actions: seq<Action>)
    ensures var s := Run(cfg, actions);
            && (forall n | n in s.db.servers ::
                  s.db.servers[n].status.Provisioning? || s.db.servers[n].status.Deleting?
                  <==> exists id :: HolderOf(s, id, n))
            && (forall id, n | HolderOf(s, id, n) :: n in s.db.servers && s.db.servers[n].status == HeldAs(s.threads[id]))
            && (forall i, j, n | HolderOf(s, i, n) && HolderOf(s, j, n) :: i == j)
            && (forall i, j | i in s.threads && j in s.threads && s.threads[i].name == s.threads[j].name
                  && HasClusterSteps(s.threads[i]) && HasClusterSteps(s.threads[j]) :: i == j)
  {
    var s := Run(cfg, actions);
    EveryRunKeepsInv(cfg, actions);
    forall n | n in s.db.servers && (s.db.servers[n].status.Provisioning? || s.db.servers[n].status.Deleting?)
      ensures exists id :: HolderOf(s, id, n)
    {
      assert HolderOf(s, s.holder[n], n);
    }
    forall i, j | i in s.threads && j in s.threads && s.threads[i].name == s.threads[j].name
                  && HasClusterSteps(s.threads[i]) && HasClusterSteps(s.threads[j])
      ensures i == j
    {
      assert HolderOf(s, i, s.threads[i].name) && HolderOf(s, j, s.threads[i].name);
    }
  }

  /** Under fixed settings a tenant never has more rows than its cap, nor two creates in flight. */
  lemma TenantLimits(cfg: Settings, actions: seq<Action>, tenant: string)
    ensures var d := Run(cfg, actions).db;
            && |ServersOf(d, tenant)| <= cfg.maxServers
            && forall m, n | m in d.servers && n in d.servers
                 && d.servers[m] == ServerRow(tenant, Provisioning) == d.servers[n] :: m == n
  {
    EveryRunKeepsInv(cfg, actions);
  }

  /** This delete asked for a backup, and the cluster answered that the volume is gone. */
  ghost predicate SaidGone(cfg: Settings, actions: seq<Action>, id: nat) {
    exists k: nat :: k < |actions| && AnsweredGone(cfg, actions, id, k)
  }

  ghost predicate AnsweredGone(cfg: Settings, actions: seq<Action>, id: nat, k: nat)
    requires k < |actions|
  {
    && actions[k] == Advance(id, Fails(true))
    && var s := Run(cfg, actions[..k]);
       id in s.threads && s.threads[id].Delete? && s.threads[id].stage.BackingUp?
  }

  /** The stage remembers that answer. */
  predicate Flagged(t: Thread) {
    t.Delete?
    && ((t.stage.NoArchive? && t.stage.gone) || (t.stage.Reusing? && t.stage.gone)
        || (MayRemove(t.stage) && t.stage.cover.Kept? && t.stage.cover.gone))
  }

  lemma FlagStep(db: Tables, disk: map<BackupPath, nat>, world: nat, t: Thread, o: Outcome)
    requires t.Delete?
    ensures var next := DeleteStep(db, disk, world, t, o).next;
            next.Some? && Flagged(next.value) ==> Flagged(t) || (o == Fails(true) && t.stage.BackingUp?)
  {
  }

  /** A thread in a state is the one it was, moved by its own step, or new. */
  lemma ThreadsComeFrom(cfg: Settings, s: State, a: Action, id: nat)
    requires id in Apply(cfg, s, a).threads
    ensures var t' := Apply(cfg, s, a).threads[id];
            || (id in s.threads && t' == s.threads[id])
            || (a.Advance? && a.id == id && id in s.threads && s.threads[id].Create? && t'.Create?)
            || (a.Advance? && a.id == id && id in s.threads && s.threads[id].Delete?
                && DeleteStep(s.db, s.disk, WorldOf(s, s.threads[id].name), s.threads[id], a.outcome).next == Some(t'))
            || (id == s.nextThread && (a.Reserve? || a.Ask?) && (t'.Create? || t'.stage.Asked?))
  {
    if a.Advance? && a.id in s.threads && s.threads[a.id].Create? {
      CreateWritesLog(cfg, s.db, s.disk, s.threads[a.id], a.outcome);
    }
  }

  lemma FlagComesFromTheAnswer(cfg: Settings, s: State, a: Action, id: nat)
    requires id in Apply(cfg, s, a).threads && Flagged(Apply(cfg, s, a).threads[id])
    ensures id in s.threads && s.threads[id].Delete?
    ensures Flagged(s.threads[id]) || (a == Advance(id, Fails(true)) && s.threads[id].stage.BackingUp?)
  {
    ThreadsComeFrom(cfg, s, a, id);
    if a.Advance? && a.id == id && id in s.threads && s.threads[id].Delete? {
      FlagStep(s.db, s.disk, WorldOf(s, s.threads[id].name), s.threads[id], a.outcome);
    }
  }

  lemma {:induction false} FlagWasSaid(cfg: Settings, actions: seq<Action>, id: nat)
    requires id in Run(cfg, actions).threads && Flagged(Run(cfg, actions).threads[id])
    ensures SaidGone(cfg, actions, id)
  {
    var last := |actions| - 1;
    var init := actions[..last];
    FlagComesFromTheAnswer(cfg, Run(cfg, init), actions[last], id);
    if Flagged(Run(cfg, init).threads[id]) {
      FlagWasSaid(cfg, init, id);
      var k: nat :| k < |init| && AnsweredGone(cfg, init, id, k);
      assert init[..k] == actions[..k];
      assert AnsweredGone(cfg, actions, id, k);
    } else {
      assert AnsweredGone(cfg, actions, id, last);
    }
  }

  /** This delete, told that the volume is gone, found this backup in its log, and the file was on disk. */
  ghost predicate FoundOnDisk(cfg: Settings, actions: seq<Action>, id: nat, path: BackupPath) {
    exists k: nat :: k < |actions| && FoundAt(cfg, actions, id, k, path)
  }

  ghost predicate FoundAt(cfg: Settings, actions: seq<Action>, id: nat, k: nat, path: BackupPath)
    requires k < |actions|
  {
    && actions[k].Advance? && actions[k].id == id
    && var s := Run(cfg, actions[..k]);
       id in s.threads && s.threads[id].Delete? && Finds(s.db, s.disk, s.threads[id], path)
  }

  predicate Finds(db: Tables, disk: map<BackupPath, nat>, t: Thread, path: BackupPath)
    requires t.Delete?
  {
    t.stage == NoArchive(true) && BackupOnDisk(db.events, t.name, disk.Keys) == Some(path) && path in disk
  }

  /** The stage remembers that file. */
  predicate Chosen(t: Thread, path: BackupPath) {
    t.Delete?
    && ((t.stage.Reusing? && t.stage.path == path)
        || (MayRemove(t.stage) && t.stage.cover.Kept? && t.stage.cover.path == path))
  }

  lemma {:induction false} ScanFindsOnDisk(events: seq<Event>, name: string, disk: set<BackupPath>)
    ensures var found := BackupOnDisk(events, name, disk); found.Some? ==> found.value in disk
    decreases |events|
  {
    if events != [] {
      ScanFindsOnDisk(events[..|events| - 1], name, disk);
    }
  }

  lemma ChoiceStep(db: Tables, disk: map<BackupPath, nat>, world: nat, t: Thread, o: Outcome, path: BackupPath)
    requires t.Delete?
    ensures var next := DeleteStep(db, disk, world, t, o).next;
            next.Some? && Chosen(next.value, path) ==> Chosen(t, path) || Finds(db, disk, t, path)
  {
    ScanFindsOnDisk(db.events, t.name, disk.Keys);
  }

  lemma ChoiceComesFromTheScan(cfg: Settings, s: State, a: Action, id: nat, path: BackupPath)
    requires id in Apply(cfg, s, a).threads && Chosen(Apply(cfg, s, a).threads[id], path)
    ensures id in s.threads && s.threads[id].Delete?
    ensures Chosen(s.threads[id], path) || (a.Advance? && a.id == id && Finds(s.db, s.disk, s.threads[id], path))
  {
    ThreadsComeFrom(cfg, s, a, id);
    if a.Advance? && a.id == id && id in s.threads && s.threads[id].Delete? {
      ChoiceStep(s.db, s.disk, WorldOf(s, s.threads[id].name), s.threads[id], a.outcome, path);
    }
  }

  lemma {:induction false} ChoiceWasOnDisk(cfg: Settings, actions: seq<Action>, id: nat, path: BackupPath)
    requires id in Run(cfg, actions).threads && Chosen(Run(cfg, actions).threads[id], path)
    ensures FoundOnDisk(cfg, actions, id, path)
  {
    var last := |actions| - 1;
    var init := actions[..last];
    ChoiceComesFromTheScan(cfg, Run(cfg, init), actions[last], id, path);
    if Chosen(Run(cfg, init).threads[id], path) {
      ChoiceWasOnDisk(cfg, init, id, path);
      var k: nat :| k < |init| && FoundAt(cfg, init, id, k, path);
      assert init[..k] == actions[..k];
      assert FoundAt(cfg, actions, id, k, path);
    } else {
      assert FoundAt(cfg, actions, id, last, path);
    }
  }

  /** An event that lets this delete remove its world. */
  ghost predicate Warrants(cfg: Settings, actions: seq<Action>, id: nat, kind: Kind)
    requires id in Run(cfg, actions).threads && Run(cfg, actions).threads[id].Delete?
  {
    var s := Run(cfg, actions);
    var t := s.threads[id];
    match kind
    case BackupTaken(path) => path.server == t.name
    case BackupReused(path) => SaidGone(cfg, actions, id) && FoundOnDisk(cfg, actions, id, path)
    case BackupSkipped => t.force || (t.name in s.before && s.before[t.name] == Failed)
    case _ => false
  }

  /**
   A delete at the point of uninstalling the release or deleting the namespace
   has, since it was accepted, recorded a new backup of this name; or the reuse of
   one, and then the cluster had told it that the volume is gone, and its scan, made
   knowing that, found this very backup with its file on disk; or that it goes without,
   and then it was forced or the row was `failed` when the delete was accepted.
   */
  lemma RemovalIsCovered(cfg: Settings, actions: seq<Action>, id: nat)
    requires var s := Run(cfg, actions);
             id in s.threads && s.threads[id].Delete? && MayRemove(s.threads[id].stage)
    ensures var s := Run(cfg, actions);
            var t := s.threads[id];
            && t.name in s.before && s.before[t.name] == t.prior &&
            var i := t.stage.cover.event;
            && t.since <= i < |s.db.events| && s.db.events[i].server == t.name
            && Warrants(cfg, actions, id, s.db.events[i].kind)
  {
    EveryRunKeepsInv(cfg, actions);
    var s := Run(cfg, actions);
    var t := s.threads[id];
    assert Accountable(s.db.events, t);
    assert Holds(t);
    if t.stage.cover.Kept? {
      FlagWasSaid(cfg, actions, id);
      ChoiceWasOnDisk(cfg, actions, id, t.stage.cover.path);
    }
  }

  /**
   Names are reused, and backups outlive their server.  A path the scan hands
   out is on disk and holds the world of this very incarnation of the name, as
   long as every removal of the name that a scan has followed had its `delete`
   event in the log.
   */
  lemma ReusedBackupIsOwn(cfg: Settings, actions: seq<Action>, n: string)
    requires var s := Run(cfg, actions); n !in s.unlogged && n !in s.misread
    ensures var s := Run(cfg, actions);
            var found := BackupOnDisk(s.db.events, n, s.disk.Keys);
            found.Some? ==>
              n in s.db.servers && found.value.server == n
              && found.value in s.disk && s.disk[found.value] == WorldOf(s, n)
  {
    EveryRunKeepsInv(cfg, actions);
    var s := Run(cfg, actions);
    ScanFindsCurrent(s.db.events, n, s.disk, LiveWorld(s, n));
  }

  /** A delete that decided to reuse a backup still points at its own world when it records that. */
  lemma ReusingOwnWorld(cfg: Settings, actions: seq<Action>, id: nat)
    requires var s := Run(cfg, actions);
             id in s.threads && s.threads[id].Delete? && s.threads[id].stage.Reusing?
             && s.threads[id].name !in s.misread
    ensures var s := Run(cfg, actions);
            var t := s.threads[id];
            t.name in s.db.servers && t.stage.path.server == t.name
            && (t.stage.path in s.disk ==> s.disk[t.stage.path] == WorldOf(s, t.name))
  {
    EveryRunKeepsInv(cfg, actions);
    assert Holds(Run(cfg, actions).threads[id]);
  }

  /** A delete that fails puts the row back as the delete found it. */
  lemma FailedDeleteRestores(cfg: Settings, actions: seq<Action>, id: nat, o: Outcome)
    requires var s := Run(cfg, actions);
             id in s.threads && s.threads[id].Delete? && s.threads[id].stage.Failing?
    ensures var s, s' := Run(cfg, actions), Run(cfg, actions + [Advance(id, o)]);
            var n := s.threads[id].name;
            n in s.before && n in s'.db.servers && s'.db.servers[n].status == s.before[n]
  {
    EveryRunKeepsInv(cfg, actions);
    LifecycleRuns.Then(cfg, actions, Advance(id, o));
    assert Holds(Run(cfg, actions).threads[id]);
  }

  /**
   A restart leaves no row in a transient status: an interrupted create is
   `failed`, and an interrupted delete is back at the status it was accepted
   from, however many deletes failed before it, once its request is in the log.
   */
  lemma RestartRestores(cfg: Settings, actions: seq<Action>, notes: seq<Event>)
    requires forall e | e in notes :: IsNote(e)
    ensures var s, s' := Run(cfg, actions), Run(cfg, actions + [Restart(notes)]);
            && s'.threads == map[] && s'.db.servers.Keys == s.db.servers.Keys
            && forall n | n in s.db.servers ::
                 && s'.db.servers[n].tenant == s.db.servers[n].tenant
                 && (match s.db.servers[n].status
                     case Provisioning => s'.db.servers[n].status == Failed
                     case Deleting => n in s.before && (!Unrecorded(s, n) ==> s'.db.servers[n].status == s.before[n])
                     case settled => s'.db.servers[n].status == settled)
                 && (s'.db.servers[n].status.Ready? || s'.db.servers[n].status.Failed?)
  {
    EveryRunKeepsInv(cfg, actions);
    LifecycleRuns.Then(cfg, actions, Restart(notes));
    var s := Run(cfg, actions);
    forall n | n in s.db.servers
      ensures Recovered(s.db)[n].status.Ready? || Recovered(s.db)[n].status.Failed?
      ensures s.db.servers[n].status.Deleting? ==>
                n in s.before && (!Unrecorded(s, n) ==> Recovered(s.db)[n].status == s.before[n])
    {
    }
  }

  // --- what decides when the request is not in the log ---------------------------------

  predicate Requests(e: Event, n: string) { e.server == n && e.kind.DeleteRequested? }

  /** The newest delete request of this name in the log. */
  ghost predicate NewestRequest(events: seq<Event>, n: string, i: nat) {
    i < |events| && Requests(events[i], n) && forall j | i < j < |events| :: !Requests(events[j], n)
  }

  /** The newest request of this name, of whichever of its servers, found it failed. */
  ghost predicate LastWasFailed(events: seq<Event>, n: string) {
    exists i: nat :: NewestRequest(events, n, i) && events[i].kind.was == Failed
  }

  lemma OthersAddNoRequest(events: seq<Event>, e: Event, n: string, i: nat)
    requires !Requests(e, n)
    ensures NewestRequest(events + [e], n, i) <==> NewestRequest(events, n, i)
  {
    var more := events + [e];
    if NewestRequest(events, n, i) {
      forall j | i < j < |more|
        ensures !Requests(more[j], n)
      {
        assert j < |events| ==> more[j] == events[j];
      }
    }
    if NewestRequest(more, n, i) {
      forall j | i < j < |events|
        ensures !Requests(events[j], n)
      {
        assert more[j] == events[j];
      }
    }
  }

  /** The scan answers `failed` exactly when the newest request says so, and `ready` otherwise. */
  lemma {:induction false} NewestRequestDecides(events: seq<Event>, n: string)
    ensures StatusBeforeDelete(events, n) == if LastWasFailed(events, n) then Failed else Ready
    decreases |events|
  {
    if events != [] {
      var last := |events| - 1;
      var init, e := events[..last], events[last];
      if Requests(e, n) {
        assert NewestRequest(events, n, last);
      } else {
        NewestRequestDecides(init, n);
        assert events == init + [e];
        forall i: nat
          ensures NewestRequest(events, n, i) <==> NewestRequest(init, n, i)
        {
          OthersAddNoRequest(init, e, n, i);
        }
      }
    }
  }

  /**
   A restart puts an interrupted delete back to the status it was accepted from
   exactly when its request is in the log, or the log happens to say the same: the
   name's newest request was of a failed server and this one was failed too, or
   neither was.
   */
  lemma RestartRestoresExactly(cfg: Settings, actions: seq<Action>, notes: seq<Event>, n: string)
    requires forall e | e in notes :: IsNote(e)
    requires var s := Run(cfg, actions); n in s.db.servers && s.db.servers[n].status.Deleting?
    ensures var s, s' := Run(cfg, actions), Run(cfg, actions + [Restart(notes)]);
            && n in s.before && n in s'.db.servers
            && (s'.db.servers[n].status == s.before[n]
                <==> !Unrecorded(s, n) || (LastWasFailed(s.db.events, n) <==> s.before[n] == Failed))
  {
    EveryRunKeepsInv(cfg, actions);
    LifecycleRuns.Then(cfg, actions, Restart(notes));
    NewestRequestDecides(Run(cfg, actions).db.events, n);
  }

  // --- a restart during recovery -------------------------------------------------------

  /** Recovery cut short after some of the rows. */
  function RecoveredSome(db: Tables, some: set<string>): map<string, ServerRow> {
    map n | n in db.servers :: if n in some then Recovered(db)[n] else db.servers[n]
  }

  /** Starting recovery over gives what an undisturbed recovery gives. */
  lemma RecoveryMayBeCutShort(db: Tables, some: set<string>, notes: seq<Event>)
    requires forall e | e in notes :: IsNote(e)
    ensures Recovered(db.(servers := RecoveredSome(db, some), events := db.events + notes)) == Recovered(db)
  {
    var again := Recovered(db.(servers := RecoveredSome(db, some), events := db.events + notes));
    forall n | n in db.servers
      ensures again[n] == Recovered(db)[n]
    {
      NotesChangeNoScan(db.events, notes, n, map[], None);
    }
  }
}
