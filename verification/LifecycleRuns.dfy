/** The runs that show where the lifecycle's guarantees end, step by step. */
module LifecycleRuns {
  import opened Options
  import opened Db
  import opened ServerLifecycle
  import LifecycleInvariant

  lemma Then(cfg: Settings, actions: seq<Action>, a: Action)
    ensures Run(cfg, actions + [a]) == Apply(cfg, Run(cfg, actions), a)
  {
    assert (actions + [a])[..|actions|] == actions;
  }

  /** One more step of a thread, whatever it is. */
  lemma Go(cfg: Settings, actions: seq<Action>, id: nat, o: Outcome) returns (longer: seq<Action>)
    requires id in Run(cfg, actions).threads
    ensures var s, s' := Run(cfg, actions), Run(cfg, longer);
            s' == if s.threads[id].Create? then AdvanceCreate(cfg, s, id, o) else AdvanceDelete(s, id, o)
  {
    longer := actions + [Advance(id, o)];
    Then(cfg, actions, Advance(id, o));
  }

  // --- creates ----------------------------------------------------------------------

  /** A reservation with its event, and the job at its first cluster step. */
  function Started(s: State, tenant: string, name: string): State {
    s.(db := s.db.(servers := s.db.servers[name := ServerRow(tenant, Provisioning)],
                   events := s.db.events + [Event(tenant, name, CreateRequested)]),
       threads := s.threads[s.nextThread := Create(tenant, name, Building(0))],
       nextThread := s.nextThread + 1,
       world := s.world[name := s.nextThread], holder := s.holder[name := s.nextThread])
  }

  lemma StartedCreate(cfg: Settings, actions: seq<Action>, tenant: string, name: string) returns (longer: seq<Action>)
    requires CanReserve(Run(cfg, actions).db, name, tenant, cfg.maxServers)
    ensures Run(cfg, longer) == Started(Run(cfg, actions), tenant, name)
  {
    var id := Run(cfg, actions).nextThread;
    Then(cfg, actions, Reserve(tenant, name));
    longer := actions + [Reserve(tenant, name)];
    longer := Go(cfg, longer, id, Crashes);
    assert Run(cfg, longer).threads == Started(Run(cfg, actions), tenant, name).threads;
  }

  /** The create's cluster steps have ended one way or the other. */
  function Ended(s: State, id: nat, at: CreateAt): State
    requires id in s.threads && s.threads[id].Create?
  {
    s.(threads := s.threads[id := s.threads[id].(making := at)])
  }

  lemma FirstStepFails(cfg: Settings, actions: seq<Action>, id: nat) returns (longer: seq<Action>)
    requires var s := Run(cfg, actions); id in s.threads && s.threads[id].Create? && s.threads[id].making.Building?
    ensures Run(cfg, longer) == Ended(Run(cfg, actions), id, Spoiled)
  {
    longer := Go(cfg, actions, id, Crashes);
  }

  /** Every cluster step left works. */
  lemma {:induction false} StepsWork(cfg: Settings, actions: seq<Action>, id: nat) returns (longer: seq<Action>)
    requires var s := Run(cfg, actions);
             && id in s.threads && s.threads[id].Create? && s.threads[id].making.Building?
             && s.threads[id].making.done < ClusterSteps(cfg)
    ensures Run(cfg, longer) == Ended(Run(cfg, actions), id, Built)
    decreases ClusterSteps(cfg) - Run(cfg, actions).threads[id].making.done
  {
    var s := Run(cfg, actions);
    var done := s.threads[id].making.done;
    longer := Go(cfg, actions, id, Works(""));
    if done + 1 < ClusterSteps(cfg) {
      assert Run(cfg, longer) == Ended(s, id, Building(done + 1));
      longer := StepsWork(cfg, longer, id);
      assert Run(cfg, longer).threads == Ended(s, id, Built).threads;
    }
  }

  /** The row is settled; what is left is to say so. */
  function Settled(s: State, id: nat, name: string, status: Status, kind: Kind): State
    requires id in s.threads && s.threads[id].Create?
  {
    s.(db := SetStatus(s.db, name, status), threads := s.threads[id := s.threads[id].(making := CreateTold(kind))])
  }

  lemma RowSettles(cfg: Settings, actions: seq<Action>, id: nat) returns (longer: seq<Action>)
    requires var s := Run(cfg, actions);
             id in s.threads && s.threads[id].Create? && (s.threads[id].making.Built? || s.threads[id].making.Spoiled?)
    ensures var s := Run(cfg, actions);
            var t := s.threads[id];
            Run(cfg, longer) == if t.making.Built? then Settled(s, id, t.name, Ready, CreateDone)
                                else Settled(s, id, t.name, Failed, CreateFailed)
  {
    longer := Go(cfg, actions, id, Crashes);
  }

  /** A new row, settled as `status`. */
  function Created(s: State, tenant: string, name: string, status: Status, kind: Kind): State {
    s.(db := s.db.(servers := s.db.servers[name := ServerRow(tenant, status)],
                   events := s.db.events + [Event(tenant, name, CreateRequested)]),
       threads := s.threads[s.nextThread := Create(tenant, name, CreateTold(kind))],
       nextThread := s.nextThread + 1,
       world := s.world[name := s.nextThread], holder := s.holder[name := s.nextThread])
  }

  lemma SettledIsCreated(s: State, tenant: string, name: string, at: CreateAt, status: Status, kind: Kind)
    ensures var id := s.nextThread;
            Settled(Ended(Started(s, tenant, name), id, at), id, name, status, kind)
            == Created(s, tenant, name, status, kind)
  {
    var id := s.nextThread;
    var end := Settled(Ended(Started(s, tenant, name), id, at), id, name, status, kind);
    assert end.threads == Created(s, tenant, name, status, kind).threads;
    assert end.db.servers == Created(s, tenant, name, status, kind).db.servers;
  }

  /** A create whose first cluster step fails. */
  lemma FailedCreate(cfg: Settings, actions: seq<Action>, tenant: string, name: string) returns (longer: seq<Action>)
    requires CanReserve(Run(cfg, actions).db, name, tenant, cfg.maxServers)
    ensures Run(cfg, longer) == Created(Run(cfg, actions), tenant, name, Failed, CreateFailed)
  {
    var id := Run(cfg, actions).nextThread;
    longer := StartedCreate(cfg, actions, tenant, name);
    longer := FirstStepFails(cfg, longer, id);
    longer := RowSettles(cfg, longer, id);
    SettledIsCreated(Run(cfg, actions), tenant, name, Spoiled, Failed, CreateFailed);
  }

  /** A create that works. */
  lemma GoodCreate(cfg: Settings, actions: seq<Action>, tenant: string, name: string) returns (longer: seq<Action>)
    requires CanReserve(Run(cfg, actions).db, name, tenant, cfg.maxServers)
    ensures Run(cfg, longer) == Created(Run(cfg, actions), tenant, name, Ready, CreateDone)
  {
    var id := Run(cfg, actions).nextThread;
    longer := StartedCreate(cfg, actions, tenant, name);
    longer := StepsWork(cfg, longer, id);
    longer := RowSettles(cfg, longer, id);
    SettledIsCreated(Run(cfg, actions), tenant, name, Built, Ready, CreateDone);
  }

  // --- deletes ----------------------------------------------------------------------

  /** A delete asked of its tenant's settled row. */
  function Asking(s: State, tenant: string, name: string, prior: Status): State {
    s.(threads := s.threads[s.nextThread := Delete(tenant, name, prior, false, 0, Asked)], nextThread := s.nextThread + 1)
  }

  lemma AskedDelete(cfg: Settings, actions: seq<Action>, tenant: string, name: string, prior: Status)
    returns (longer: seq<Action>)
    requires var s := Run(cfg, actions); name in s.db.servers && s.db.servers[name] == ServerRow(tenant, prior)
    requires prior.Ready? || prior.Failed?
    ensures Run(cfg, longer) == Asking(Run(cfg, actions), tenant, name, prior)
  {
    Then(cfg, actions, Ask(tenant, name, false));
    longer := actions + [Ask(tenant, name, false)];
  }

  /** The compare-and-set has won. */
  function Won(s: State, id: nat): State
    requires id in s.threads && s.threads[id].Delete?
  {
    var t := s.threads[id];
    s.(db := SetStatus(s.db, t.name, Deleting),
       threads := s.threads[id := t.(since := |s.db.events|, stage := Accepted)],
       holder := s.holder[t.name := id], before := s.before[t.name := t.prior])
  }

  lemma WinsTheRow(cfg: Settings, actions: seq<Action>, id: nat) returns (longer: seq<Action>)
    requires var s := Run(cfg, actions);
             && id in s.threads && s.threads[id].Delete? && s.threads[id].stage.Asked?
             && CanBeginDelete(s.db, s.threads[id].name, s.threads[id].prior)
    ensures Run(cfg, longer) == Won(Run(cfg, actions), id)
  {
    longer := Go(cfg, actions, id, Crashes);
  }

  /** An accepted delete whose event is not in the log yet. */
  function Taken(s: State, tenant: string, name: string, prior: Status): State {
    s.(db := s.db.(servers := s.db.servers[name := ServerRow(tenant, Deleting)]),
       threads := s.threads[s.nextThread := Delete(tenant, name, prior, false, |s.db.events|, Accepted)],
       nextThread := s.nextThread + 1,
       holder := s.holder[name := s.nextThread], before := s.before[name := prior])
  }

  lemma AcceptedDelete(cfg: Settings, actions: seq<Action>, tenant: string, name: string, prior: Status)
    returns (longer: seq<Action>)
    requires var s := Run(cfg, actions); name in s.db.servers && s.db.servers[name] == ServerRow(tenant, prior)
    requires prior.Ready? || prior.Failed?
    ensures Run(cfg, longer) == Taken(Run(cfg, actions), tenant, name, prior)
  {
    var s := Run(cfg, actions);
    longer := AskedDelete(cfg, actions, tenant, name, prior);
    longer := WinsTheRow(cfg, longer, s.nextThread);
    var won := Won(Asking(s, tenant, name, prior), s.nextThread);
    assert won.threads == Taken(s, tenant, name, prior).threads;
    assert won.db.servers == Taken(s, tenant, name, prior).db.servers;
  }

  /** A delete one event further. */
  function Noted(s: State, id: nat, kind: Kind, stage: DeleteAt): State
    requires id in s.threads && s.threads[id].Delete?
  {
    var t := s.threads[id];
    s.(db := Record(s.db, Event(t.tenant, t.name, kind)), threads := s.threads[id := t.(stage := stage)])
  }

  lemma Notes(cfg: Settings, actions: seq<Action>, id: nat) returns (longer: seq<Action>)
    requires var s := Run(cfg, actions);
             id in s.threads && s.threads[id].Delete? && (s.threads[id].stage.Accepted? || s.threads[id].stage.Archived?)
    ensures var s := Run(cfg, actions);
            var t := s.threads[id];
            Run(cfg, longer) == if t.stage.Accepted? then Noted(s, id, DeleteRequested(t.prior), BackingUp)
                                else Noted(s, id, BackupTaken(t.stage.path), Uninstalling(Cover.Taken(t.stage.path, |s.db.events|)))
  {
    longer := Go(cfg, actions, id, Crashes);
  }

  /** The backup is written. */
  function Copied(s: State, id: nat, path: BackupPath): State
    requires id in s.threads && s.threads[id].Delete?
  {
    s.(disk := s.disk[path := WorldOf(s, path.server)], threads := s.threads[id := s.threads[id].(stage := Archived(path))])
  }

  lemma Copies(cfg: Settings, actions: seq<Action>, id: nat, stamp: string) returns (longer: seq<Action>)
    requires var s := Run(cfg, actions); id in s.threads && s.threads[id].Delete? && s.threads[id].stage.BackingUp?
    ensures Run(cfg, longer) == Copied(Run(cfg, actions), id, BackupPath(Run(cfg, actions).threads[id].name, stamp))
  {
    longer := Go(cfg, actions, id, Works(stamp));
  }

  /** A delete that has its backup in the log, about to uninstall the release. */
  function Backed(s: State, id: nat, path: BackupPath): State
    requires id in s.threads && s.threads[id].Delete?
  {
    var t := s.threads[id];
    s.(db := s.db.(events := s.db.events + [Event(t.tenant, t.name, DeleteRequested(t.prior)),
                                            Event(t.tenant, t.name, BackupTaken(path))]),
       disk := s.disk[path := WorldOf(s, t.name)],
       threads := s.threads[id := t.(stage := Uninstalling(Cover.Taken(path, |s.db.events| + 1)))])
  }

  lemma BackedUpDelete(cfg: Settings, actions: seq<Action>, id: nat, stamp: string) returns (longer: seq<Action>)
    requires var s := Run(cfg, actions); id in s.threads && s.threads[id].Delete? && s.threads[id].stage.Accepted?
    ensures var s := Run(cfg, actions); Run(cfg, longer) == Backed(s, id, BackupPath(s.threads[id].name, stamp))
  {
    var s := Run(cfg, actions);
    var t := s.threads[id];
    var path := BackupPath(t.name, stamp);
    longer := Notes(cfg, actions, id);
    longer := Copies(cfg, longer, id, stamp);
    longer := Notes(cfg, longer, id);
    var s1 := Noted(s, id, DeleteRequested(t.prior), BackingUp);
    var s2 := Copied(s1, id, path);
    var s3 := Noted(s2, id, BackupTaken(path), Uninstalling(Cover.Taken(path, |s2.db.events|)));
    assert s3.threads == Backed(s, id, path).threads;
    assert s3.db.events == Backed(s, id, path).db.events;
  }

  /** A delete at another stage, nothing else changed. */
  function Moved(s: State, id: nat, stage: DeleteAt): State
    requires id in s.threads && s.threads[id].Delete?
  {
    s.(threads := s.threads[id := s.threads[id].(stage := stage)])
  }

  /** The release and the namespace go; the row is next. */
  lemma TornDown(cfg: Settings, actions: seq<Action>, id: nat) returns (longer: seq<Action>)
    requires var s := Run(cfg, actions); id in s.threads && s.threads[id].Delete? && s.threads[id].stage.Uninstalling?
    ensures var s := Run(cfg, actions); Run(cfg, longer) == Moved(s, id, Removing(s.threads[id].stage.cover))
  {
    var s := Run(cfg, actions);
    var cover := s.threads[id].stage.cover;
    longer := Go(cfg, actions, id, Works(""));
    assert Run(cfg, longer) == Moved(s, id, Dropping(cover));
    longer := Go(cfg, longer, id, Works(""));
    assert Run(cfg, longer).threads == Moved(s, id, Removing(cover)).threads;
  }

  /** The row has gone; its `delete` event is next. */
  function RowGone(s: State, id: nat): State
    requires id in s.threads && s.threads[id].Delete?
  {
    var n := s.threads[id].name;
    s.(db := DeleteServer(s.db, n), threads := s.threads[id := s.threads[id].(stage := Removed)],
       unlogged := s.unlogged + {n})
  }

  lemma RowGoes(cfg: Settings, actions: seq<Action>, id: nat) returns (longer: seq<Action>)
    requires var s := Run(cfg, actions); id in s.threads && s.threads[id].Delete? && s.threads[id].stage.Removing?
    ensures Run(cfg, longer) == RowGone(Run(cfg, actions), id)
  {
    longer := Go(cfg, actions, id, Works(""));
  }

  lemma RemovalIsLogged(cfg: Settings, actions: seq<Action>, id: nat) returns (longer: seq<Action>)
    requires var s := Run(cfg, actions); id in s.threads && s.threads[id].Delete? && s.threads[id].stage.Removed?
    ensures var s, s' := Run(cfg, actions), Run(cfg, longer);
            var t := s.threads[id];
            && s'.db == Record(s.db, Event(t.tenant, t.name, Deleted)) && s'.nextThread == s.nextThread
            && s'.disk == s.disk && s'.world == s.world && s'.before == s.before && s'.threads == s.threads - {id}
  {
    longer := Go(cfg, actions, id, Crashes);
  }

  // --- a request that is not in the log ---------------------------------------------------

  /** The first reservation of all can be made. */
  lemma RoomForOne(cfg: Settings, tenant: string, name: string, events: seq<Event>)
    requires cfg.maxServers > 0
    ensures CanReserve(EMPTY.(events := events), name, tenant, cfg.maxServers)
  {
    assert ServersOf(EMPTY.(events := events), tenant) == {};
  }

  /** A failed server, and a delete of it that is not in the log yet. */
  lemma FailedThenTaken(cfg: Settings, tenant: string, name: string) returns (actions: seq<Action>)
    requires cfg.maxServers > 0
    ensures Run(cfg, actions) == Taken(Created(START, tenant, name, Failed, CreateFailed), tenant, name, Failed)
  {
    RoomForOne(cfg, tenant, name, []);
    actions := FailedCreate(cfg, [], tenant, name);
    actions := AcceptedDelete(cfg, actions, tenant, name, Failed);
  }

  lemma OneEventNoRequest(e: Event, name: string)
    requires !e.kind.DeleteRequested?
    ensures StatusBeforeDelete([e], name) == Ready
  {
    assert [e][..0] == [];
  }

  /** The process dies between the compare-and-set and its event: a `failed` server comes back `ready`. */
  lemma UnrecordedDeleteComesBackReady(cfg: Settings, tenant: string, name: string) returns (actions: seq<Action>)
    requires cfg.maxServers > 0
    ensures var s := Run(cfg, actions);
            name in s.db.servers && name in s.before && s.before[name] == Failed && s.db.servers[name].status == Ready
  {
    actions := FailedThenTaken(cfg, tenant, name);
    var s := Run(cfg, actions);
    assert s.db.events == [Event(tenant, name, CreateRequested)];
    OneEventNoRequest(Event(tenant, name, CreateRequested), name);
    actions := CutOff(cfg, actions, name);
  }

  /** A failed server, deleted for good and logged: the log is all that is left. */
  lemma RemovedAndLogged(cfg: Settings, tenant: string, name: string, stamp: string) returns (actions: seq<Action>)
    requires cfg.maxServers > 0
    ensures var s := Run(cfg, actions);
            && s.db == EMPTY.(events := [Event(tenant, name, CreateRequested), Event(tenant, name, DeleteRequested(Failed)),
                                         Event(tenant, name, BackupTaken(BackupPath(name, stamp))),
                                         Event(tenant, name, Deleted)])
  {
    actions := RemovedUnlogged(cfg, tenant, name, stamp);
    actions := RemovalIsLogged(cfg, actions, 1);
  }

  /** The newest request in that log is of the old server, which had failed. */
  lemma OldRequestIsFound(tenant: string, other: string, name: string, stamp: string)
    ensures StatusBeforeDelete([Event(tenant, name, CreateRequested), Event(tenant, name, DeleteRequested(Failed)),
                                Event(tenant, name, BackupTaken(BackupPath(name, stamp))), Event(tenant, name, Deleted),
                                Event(other, name, CreateRequested)], name) == Failed
  {
    var e0, e1, e2 := Event(tenant, name, CreateRequested), Event(tenant, name, DeleteRequested(Failed)),
                      Event(tenant, name, BackupTaken(BackupPath(name, stamp)));
    var e3, e4 := Event(tenant, name, Deleted), Event(other, name, CreateRequested);
    assert [e0, e1][..1] == [e0];
    assert StatusBeforeDelete([e0, e1], name) == Failed;
    assert [e0, e1] + [e2] == [e0, e1, e2];
    LifecycleInvariant.StatusAfterEvent([e0, e1], e2, name);
    assert [e0, e1, e2] + [e3] == [e0, e1, e2, e3];
    LifecycleInvariant.StatusAfterEvent([e0, e1, e2], e3, name);
    assert [e0, e1, e2, e3] + [e4] == [e0, e1, e2, e3, e4];
    LifecycleInvariant.StatusAfterEvent([e0, e1, e2, e3], e4, name);
  }

  /** A restart that cuts a delete off puts the row to what the log says. */
  lemma CutOff(cfg: Settings, actions: seq<Action>, name: string) returns (longer: seq<Action>)
    requires var s := Run(cfg, actions); name in s.db.servers && s.db.servers[name].status.Deleting?
    ensures var s, s' := Run(cfg, actions), Run(cfg, longer);
            && s'.before == s.before && name in s'.db.servers
            && s'.db.servers[name].status == StatusBeforeDelete(s.db.events, name)
  {
    Then(cfg, actions, Restart([]));
    longer := actions + [Restart([])];
  }

  /** So is one that worked: a `ready` server comes back `failed`, because an earlier server of its name had failed. */
  lemma UnrecordedDeleteComesBackFailed(cfg: Settings, tenant: string, other: string, name: string, stamp: string)
    returns (actions: seq<Action>)
    requires cfg.maxServers > 0
    ensures var s := Run(cfg, actions);
            name in s.db.servers && name in s.before && s.before[name] == Ready && s.db.servers[name].status == Failed
  {
    actions := TakenAfterARemoval(cfg, tenant, other, name, stamp);
    OldRequestIsFound(tenant, other, name, stamp);
    actions := CutOff(cfg, actions, name);
  }

  /** A working server of a name whose last server had failed, and a delete of it that is not in the log yet. */
  lemma TakenAfterARemoval(cfg: Settings, tenant: string, other: string, name: string, stamp: string)
    returns (actions: seq<Action>)
    requires cfg.maxServers > 0
    ensures var s := Run(cfg, actions);
            && name in s.db.servers && s.db.servers[name].status == Deleting
            && name in s.before && s.before[name] == Ready
            && s.db.events == [Event(tenant, name, CreateRequested), Event(tenant, name, DeleteRequested(Failed)),
                               Event(tenant, name, BackupTaken(BackupPath(name, stamp))), Event(tenant, name, Deleted),
                               Event(other, name, CreateRequested)]
  {
    actions := RemovedAndLogged(cfg, tenant, name, stamp);
    RoomForOne(cfg, other, name, Run(cfg, actions).db.events);
    actions := GoodCreate(cfg, actions, other, name);
    actions := AcceptedDelete(cfg, actions, other, name, Ready);
  }

  // --- a removal that is not in the log ---------------------------------------------------

  lemma RemovedUnlogged(cfg: Settings, tenant: string, name: string, stamp: string) returns (actions: seq<Action>)
    requires cfg.maxServers > 0
    ensures var s := Run(cfg, actions);
            && s.db == EMPTY.(events := [Event(tenant, name, CreateRequested), Event(tenant, name, DeleteRequested(Failed)),
                                         Event(tenant, name, BackupTaken(BackupPath(name, stamp)))])
            && s.nextThread == 2 && s.disk == map[BackupPath(name, stamp) := 0]
            && 1 in s.threads && s.threads[1].Delete? && s.threads[1].stage.Removed?
            && s.threads[1].tenant == tenant && s.threads[1].name == name
  {
    actions := FailedThenTaken(cfg, tenant, name);
    actions := BackedUpDelete(cfg, actions, 1, stamp);
    var backed := Run(cfg, actions);
    actions := TornDown(cfg, actions, 1);
    actions := RowGoes(cfg, actions, 1);
    OnlyRow(backed, name);
  }

  lemma OnlyRow(s: State, name: string)
    requires s.db.servers.Keys == {name} && s.db.plugins == map[] && s.db.pluginStates == map[]
    ensures DeleteServer(s.db, name) == s.db.(servers := map[])
  {
    assert DeleteServer(s.db, name).servers.Keys == {};
  }

  /**
   Without its `delete` event a removal is invisible to the scan: the next
   server of that name is handed its predecessor's backup.
   */
  lemma UnloggedRemovalIsMisread(cfg: Settings, tenant: string, other: string, name: string, stamp: string)
    returns (actions: seq<Action>)
    requires cfg.maxServers > 0
    ensures var s := Run(cfg, actions);
            && name in s.db.servers && s.db.servers[name].tenant == other
            && BackupOnDisk(s.db.events, name, s.disk.Keys) == Some(BackupPath(name, stamp))
            && BackupPath(name, stamp) in s.disk && s.disk[BackupPath(name, stamp)] != WorldOf(s, name)
  {
    actions := RemovedUnlogged(cfg, tenant, name, stamp);
    var s := Run(cfg, actions);
    RoomForOne(cfg, other, name, s.db.events);
    actions := FailedCreate(cfg, actions, other, name);
    var s' := Run(cfg, actions);
    assert s'.db.events[..|s'.db.events| - 1] == s.db.events;
    assert BackupOnDisk(s.db.events, name, s'.disk.Keys) == Some(BackupPath(name, stamp));
  }
}
