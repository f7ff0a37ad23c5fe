/**
 The server service as it runs (`service.py`): requests and jobs over a
 `Database` and a cluster.  Each method is tied to the steps of the lifecycle
 protocol: undisturbed, it does exactly what its thread's steps do one by one.
 */
module ServerService {
  import opened Options
  import Db
  import opened Database
  import opened ServerLifecycle
  import opened LifecycleInvariant
  import opened LifecycleTheorems
  import LifecycleRuns

  datatype ClusterCall =
    | CreateNamespace(name: string)
    | GrantAccess(name: string)
    | CreateCredentials(name: string)
    | WriteSelection(name: string)
    | InstallRelease(name: string)
    | ScaleUp(name: string)
    | WaitForRollout(name: string)
    | BackUp(name: string)
    | UninstallRelease(name: string)
    | DeleteNamespace(name: string)

  /** The calls of a create, in order. */
  function Planned(cfg: Settings, name: string): seq<ClusterCall> {
    [CreateNamespace(name), GrantAccess(name), CreateCredentials(name)]
    + (if cfg.pluginSelection then [WriteSelection(name)] else [])
    + [InstallRelease(name), ScaleUp(name), WaitForRollout(name)]
  }

  /**
   The cluster: what each volume holds, the backups taken, and how the coming calls
   will end.  `calls` is history: every call made that changes something.
   */
  class Cluster {
    ghost var calls: seq<ClusterCall>
    var namespaces: set<string>
    var volumes: map<string, nat>
    var disk: map<Db.BackupPath, nat>
    var script: seq<Outcome>

    constructor (volumes: map<string, nat>, script: seq<Outcome>)
      ensures this.volumes == volumes && this.script == script && disk == map[] && namespaces == {} && calls == []
    {
      this.volumes, this.script, disk, namespaces, calls := volumes, script, map[], {}, [];
    }

    function World(name: string): nat
      reads this`volumes
    {
      if name in volumes then volumes[name] else 0
    }

    /** Any call whose effect on the cluster no decision reads. */
    method Call(call: ClusterCall) returns (o: Outcome)
      modifies this`script, this`calls
      ensures o == Next(old(script)) && script == Rest(old(script)) && calls == old(calls) + [call]
    {
      o, script, calls := Next(script), Rest(script), calls + [call];
    }

    method BackupWorld(name: string) returns (o: Outcome)
      modifies this`script, this`disk, this`calls
      ensures o == Next(old(script)) && script == Rest(old(script)) && calls == old(calls) + [BackUp(name)]
      ensures disk == if o.Works? then old(disk)[Db.BackupPath(name, o.stamp) := World(name)] else old(disk)
    {
      o, script, calls := Next(script), Rest(script), calls + [BackUp(name)];
      if o.Works? {
        disk := disk[Db.BackupPath(name, o.stamp) := World(name)];
      }
    }
  }

  /** Past its script a call raises. */
  function Next(script: seq<Outcome>): Outcome { if script == [] then Crashes else script[0] }
  function Rest(script: seq<Outcome>): seq<Outcome> { if script == [] then [] else script[1..] }

  function After(script: seq<Outcome>, calls: nat): seq<Outcome> { if calls <= |script| then script[calls..] else [] }

  predicate WorksAt(script: seq<Outcome>, i: nat) { i < |script| && script[i].Works? }

  lemma OneCallOn(script: seq<Outcome>, i: nat)
    ensures Rest(After(script, i)) == After(script, i + 1)
    ensures Next(After(script, i)).Works? <==> WorksAt(script, i)
  {
  }

  // --- a thread on its own ----------------------------------------------------------

  datatype Outside = Outside(db: Db.Tables, disk: map<Db.BackupPath, nat>, script: seq<Outcome>)

  function Rank(a: DeleteAt): nat {
    match a
    case Asked => 12
    case Accepted => 11
    case BackingUp => 10
    case NoArchive(_) => 9
    case Archived(_) => 8
    case Reusing(_, _) => 8
    case Skipping => 8
    case Uninstalling(_) => 7
    case Dropping(_) => 6
    case Removing(_) => 5
    case Removed => 4
    case Failing(_) => 3
    case DeleteTold(_) => 2
  }

  /** A delete's steps one after another, with nobody else in between, until it ends. */
  function Solo(w: Outside, world: nat, t: Thread): Outside
    requires t.Delete?
    decreases Rank(t.stage)
  {
    var e := DeleteStep(w.db, w.disk, world, t, if AtCluster(t.stage) then Next(w.script) else Crashes);
    var w' := Outside(e.db, e.disk, if AtCluster(t.stage) then Rest(w.script) else w.script);
    if e.next.None? then w' else Solo(w', world, e.next.value)
  }

  function CreateRank(cfg: Settings, at: CreateAt): nat {
    match at
    case Reserved => ClusterSteps(cfg) + 4
    case Building(done) => 3 + if done < ClusterSteps(cfg) then ClusterSteps(cfg) - done else 0
    case Built => 2
    case Spoiled => 2
    case CreateTold(_) => 1
  }

  function SoloCreate(cfg: Settings, w: Outside, t: Thread): Outside
    requires t.Create?
    decreases CreateRank(cfg, t.making)
  {
    var e := CreateStep(cfg, w.db, w.disk, t, if t.making.Building? then Next(w.script) else Crashes);
    var w' := Outside(e.db, e.disk, if t.making.Building? then Rest(w.script) else w.script);
    if e.next.None? then w' else SoloCreate(cfg, w', e.next.value)
  }

  predicate AtCluster(a: DeleteAt) { a.BackingUp? || a.Uninstalling? || a.Dropping? }

  lemma StepGoesOn(db: Db.Tables, disk: map<Db.BackupPath, nat>, world: nat, t: Thread, o: Outcome)
    requires t.Delete?
    ensures var next := DeleteStep(db, disk, world, t, o).next;
            next.Some? ==> next.value.Delete? && next.value.name == t.name && Rank(next.value.stage) < Rank(t.stage)
  {
  }

  lemma AdvanceTakesTheStep(s: State, id: nat, o: Outcome)
    requires id in s.threads && s.threads[id].Delete?
    ensures var s' := AdvanceDelete(s, id, o);
            var e := DeleteStep(s.db, s.disk, WorldOf(s, s.threads[id].name), s.threads[id], o);
            && s'.db == e.db && s'.disk == e.disk && s'.world == s.world
            && (if e.next.Some? then id in s'.threads && s'.threads[id] == e.next.value else id !in s'.threads)
  {
  }

  /** A thread's steps on its own are a run of the protocol. */
  lemma {:induction false} SoloIsARun(cfg: Settings, actions: seq<Action>, id: nat, t: Thread, script: seq<Outcome>)
    returns (longer: seq<Action>)
    requires t.Delete? && id in Run(cfg, actions).threads && Run(cfg, actions).threads[id] == t
    ensures var s, s' := Run(cfg, actions), Run(cfg, longer);
            var end := Solo(Outside(s.db, s.disk, script), WorldOf(s, t.name), t);
            s'.db == end.db && s'.disk == end.disk && id !in s'.threads
    decreases Rank(t.stage)
  {
    var s := Run(cfg, actions);
    var o := if AtCluster(t.stage) then Next(script) else Crashes;
    longer := LifecycleRuns.Go(cfg, actions, id, o);
    AdvanceTakesTheStep(s, id, o);
    StepGoesOn(s.db, s.disk, WorldOf(s, t.name), t, o);
    var next := DeleteStep(s.db, s.disk, WorldOf(s, t.name), t, o).next;
    if next.Some? {
      longer := SoloIsARun(cfg, longer, id, next.value, if AtCluster(t.stage) then Rest(script) else script);
    }
  }

  lemma CreateStepGoesOn(cfg: Settings, db: Db.Tables, disk: map<Db.BackupPath, nat>, t: Thread, o: Outcome)
    requires t.Create?
    ensures var next := CreateStep(cfg, db, disk, t, o).next;
            next.Some? ==> next.value.Create? && CreateRank(cfg, next.value.making) < CreateRank(cfg, t.making)
  {
  }

  /** So are a create's. */
  lemma {:induction false} SoloCreateIsARun(cfg: Settings, actions: seq<Action>, id: nat, t: Thread, script: seq<Outcome>)
    returns (longer: seq<Action>)
    requires t.Create? && id in Run(cfg, actions).threads && Run(cfg, actions).threads[id] == t
    ensures var s, s' := Run(cfg, actions), Run(cfg, longer);
            var end := SoloCreate(cfg, Outside(s.db, s.disk, script), t);
            s'.db == end.db && s'.disk == end.disk && id !in s'.threads
    decreases CreateRank(cfg, t.making)
  {
    var s := Run(cfg, actions);
    var o := if t.making.Building? then Next(script) else Crashes;
    longer := LifecycleRuns.Go(cfg, actions, id, o);
    CreateStepGoesOn(cfg, s.db, s.disk, t, o);
    var next := CreateStep(cfg, s.db, s.disk, t, o).next;
    if next.Some? {
      longer := SoloCreateIsARun(cfg, longer, id, next.value, if t.making.Building? then Rest(script) else script);
    }
  }

  /** A create's calls, all but the last of which worked, are as many of its steps. */
  lemma {:induction false} CallsAreSteps(cfg: Settings, w: Outside, t: Thread, made: nat)
    requires t.Create? && t.making == Building(0) && 0 < made <= ClusterSteps(cfg)
    requires forall i | 0 <= i < made - 1 :: WorksAt(w.script, i)
    requires WorksAt(w.script, made - 1) ==> made == ClusterSteps(cfg)
    ensures SoloCreate(cfg, w, t)
         == SoloCreate(cfg, w.(script := After(w.script, made)),
                       t.(making := if WorksAt(w.script, made - 1) then Built else Spoiled))
  {
    StepsSoFar(cfg, w, t, made - 1);
    OneCallOn(w.script, made - 1);
  }

  lemma {:induction false} StepsSoFar(cfg: Settings, w: Outside, t: Thread, done: nat)
    requires t.Create? && t.making == Building(0) && done < ClusterSteps(cfg)
    requires forall i | 0 <= i < done :: WorksAt(w.script, i)
    ensures SoloCreate(cfg, w, t) == SoloCreate(cfg, w.(script := After(w.script, done)), t.(making := Building(done)))
  {
    if done > 0 {
      StepsSoFar(cfg, w, t, done - 1);
      OneCallOn(w.script, done - 1);
    } else {
      assert w.(script := After(w.script, 0)) == w && t.(making := Building(0)) == t;
    }
  }

  // --- the log scans ------------------------------------------------------------------

  method StatusBeforeDelete(events: seq<Db.Event>, name: string) returns (was: Db.Status)
    ensures was == Db.StatusBeforeDelete(events, name)
  {
    var i := |events|;
    assert events[..i] == events;
    while i > 0
      invariant 0 <= i <= |events|
      invariant Db.StatusBeforeDelete(events, name) == Db.StatusBeforeDelete(events[..i], name)
    {
      i := i - 1;
      assert events[..i + 1][..i] == events[..i];
      if events[i].server == name && events[i].kind.DeleteRequested? {
        return if events[i].kind.was == Db.Failed then Db.Failed else Db.Ready;
      }
    }
    return Db.Ready;
  }

  /** The newest recorded backup still on disk, looking no further back than the last `delete`. */
  method BackupStillOnDisk(events: seq<Db.Event>, name: string, disk: set<Db.BackupPath>)
    returns (found: Option<Db.BackupPath>)
    ensures found == Db.BackupOnDisk(events, name, disk)
  {
    var i := |events|;
    assert events[..i] == events;
    while i > 0
      invariant 0 <= i <= |events|
      invariant Db.BackupOnDisk(events, name, disk) == Db.BackupOnDisk(events[..i], name, disk)
    {
      i := i - 1;
      assert events[..i + 1][..i] == events[..i];
      var e := events[i];
      if e.server == name {
        if e.kind.Deleted? {
          break;
        }
        if Db.IsBackup(e.kind) && e.kind.path in disk {
          return Some(e.kind.path);
        }
      }
    }
    return None;
  }

  datatype Attempt = Fine | ClusterError | Unexpected

  datatype CreateAnswer = CreateInProgress(pending: string) | AtCap | NameTaken | Creating
  datatype DeleteAnswer = NotFound | StillCreating | AlreadyDeleting | PlayersOnline(count: nat) | Deleting(accepted: bool)

  /** Why the rows refuse a create, in the order the service asks. */
  ghost predicate Refusal(db: Db.Tables, cfg: Settings, tenant: string, name: string, why: CreateAnswer) {
    if Db.HasProvisioning(db, tenant) then
      why.CreateInProgress? && why.pending in db.servers
      && db.servers[why.pending] == Db.ServerRow(tenant, Db.Provisioning)
    else if |Db.ServersOf(db, tenant)| >= cfg.maxServers then why == AtCap
    else why == NameTaken && name in db.servers
  }

  predicate Mine(servers: map<string, Db.ServerRow>, tenant: string, name: string) {
    name in servers && servers[name].tenant == tenant
  }

  /** Without a backup a delete may go on with one on disk when the volume is gone, by force, or when the create had failed. */
  predicate MayDoWithout(db: Db.Tables, disk: set<Db.BackupPath>, t: Thread, gone: bool)
    requires t.Delete?
  {
    (gone && Db.BackupOnDisk(db.events, t.name, disk).Some?) || t.force || t.prior == Db.Failed
  }

  /** What is told of going on without: the backup found, or that there is none. */
  function Without(db: Db.Tables, disk: set<Db.BackupPath>, t: Thread, gone: bool): Db.Event
    requires t.Delete?
  {
    var found := Db.BackupOnDisk(db.events, t.name, disk);
    Db.Event(t.tenant, t.name, if gone && found.Some? then Db.BackupReused(found.value) else Db.BackupSkipped)
  }

  /** The backup worked, or may be done without. */
  predicate Goes(db: Db.Tables, disk: set<Db.BackupPath>, t: Thread, o: Outcome)
    requires t.Delete?
  {
    o.Works? || (o.Fails? && MayDoWithout(db, disk, t, o.gone))
  }

  /** A create cut off has failed, a delete cut off is as its newest request found it, and a settled row stays. */
  ghost predicate MovedOnAs(events: seq<Db.Event>, n: string, row: Db.ServerRow, row': Db.ServerRow) {
    && row'.tenant == row.tenant
    && (row.status == Db.Provisioning ==> row'.status == Db.Failed)
    && (row.status == Db.Deleting ==> row'.status == if LastWasFailed(events, n) then Db.Failed else Db.Ready)
    && (row.status == Db.Ready || row.status == Db.Failed ==> row'.status == row.status)
  }

  lemma RecoveredAsMeant(db: Db.Tables)
    ensures Recovered(db).Keys == db.servers.Keys
    ensures forall n | n in db.servers :: MovedOnAs(db.events, n, db.servers[n], Recovered(db)[n])
  {
    forall n | n in db.servers
      ensures MovedOnAs(db.events, n, db.servers[n], Recovered(db)[n])
    {
      NewestRequestDecides(db.events, n);
    }
  }

  function SetBack(servers: map<string, Db.ServerRow>, t: Thread): map<string, Db.ServerRow>
    requires t.Delete?
  {
    if t.name in servers then servers[t.name := servers[t.name].(status := t.prior)] else servers
  }

  class ServerService {
    const cfg: Settings
    const db: Database
    const cluster: Cluster

    constructor (cfg: Settings, db: Database, cluster: Cluster)
      ensures this.cfg == cfg && this.db == db && this.cluster == cluster
    {
      this.cfg, this.db, this.cluster := cfg, db, cluster;
    }

    function World(): Outside
      reads db, cluster
    {
      Outside(db.Contents(), cluster.disk, cluster.script)
    }

    /** What other requests and jobs do while this one asks the cluster: anything, to the tables. */
    method OthersRun()
      modifies db
    {
    }

    /** Why the rows say a create cannot go ahead, if they do. */
    method RefuseCreate(tenant: string, name: string) returns (why: Option<CreateAnswer>)
      ensures why.None? <==> Db.CanReserve(db.Contents(), name, tenant, cfg.maxServers)
      ensures why.Some? ==> Refusal(db.Contents(), cfg, tenant, name, why.value)
    {
      var pending := db.ProvisioningServer(tenant);
      if pending.Some? {
        return Some(CreateInProgress(pending.value));
      }
      if |Db.ServersOf(db.Contents(), tenant)| >= cfg.maxServers {
        return Some(AtCap);
      }
      var row := db.GetServer(name);
      if row.Some? {
        return Some(NameTaken);
      }
      return None;
    }

    /**
     The checks, then, after whatever the others did (`met` is what they left),
     the reservation that decides.  A refused create changes nothing and says why.
     */
    method Create(tenant: string, name: string) returns (answer: CreateAnswer, ghost met: Db.Tables)
      modifies db
      ensures answer.Creating? ==>
                && name !in cluster.namespaces && Db.CanReserve(met, name, tenant, cfg.maxServers)
                && db.Contents() == Db.Record(Db.ReserveServer(met, name, tenant, cfg.maxServers),
                                              Db.Event(tenant, name, Db.CreateRequested))
      ensures !answer.Creating? ==>
                && db.Contents() == met
                && (Refusal(met, cfg, tenant, name, answer) || (answer.NameTaken? && name in cluster.namespaces))
      ensures !Db.CanReserve(old(db.Contents()), name, tenant, cfg.maxServers) ==>
                met == old(db.Contents()) && Refusal(met, cfg, tenant, name, answer)
    {
      met := db.Contents();
      var why := RefuseCreate(tenant, name);
      if why.Some? {
        return why.value, met;
      }
      if name in cluster.namespaces {
        return NameTaken, met;
      }
      OthersRun();
      met := db.Contents();
      var reserved := db.ReserveServer(name, tenant, cfg.maxServers);
      if !reserved {
        why := RefuseCreate(tenant, name);
        answer := if why.Some? then why.value else NameTaken;
        return;
      }
      db.Record(tenant, name, Db.CreateRequested);
      answer := Creating;
    }

    /** So many calls of the create have been made since, and all but the last of them worked. */
    ghost predicate Made(script: seq<Outcome>, calls: seq<ClusterCall>, name: string, count: nat)
      reads cluster
    {
      && count <= |Planned(cfg, name)| && cluster.calls == calls + Planned(cfg, name)[..count]
      && cluster.script == After(script, count) && forall i | 0 <= i < count - 1 :: WorksAt(script, i)
    }

    /** The next cluster call of a create. */
    method BuildStep(name: string, call: ClusterCall, ghost script: seq<Outcome>, ghost calls: seq<ClusterCall>, ghost done: nat)
      returns (ok: bool)
      requires Made(script, calls, name, done) && (done > 0 ==> WorksAt(script, done - 1))
      requires done < |Planned(cfg, name)| && call == Planned(cfg, name)[done]
      modifies cluster`script, cluster`calls
      ensures Made(script, calls, name, done + 1) && (ok <==> WorksAt(script, done))
    {
      ghost var plan := Planned(cfg, name);
      OneCallOn(script, done);
      assert plan[..done + 1] == plan[..done] + [call];
      var o := cluster.Call(call);
      ok := o.Works?;
    }

    /**
     The cluster calls of a create, these and in this order, up to the first that
     fails; `made` of them were made.
     */
    method Build(name: string, ghost t: Thread) returns (ok: bool, ghost made: nat)
      requires t.Create? && t.name == name && t.making == Building(0)
      modifies cluster`script, cluster`calls
      ensures 0 < made && Made(old(cluster.script), old(cluster.calls), name, made)
      ensures ok <==> made == |Planned(cfg, name)| && WorksAt(old(cluster.script), made - 1)
      ensures !ok ==> !WorksAt(old(cluster.script), made - 1)
      ensures SoloCreate(cfg, old(World()), t)
           == SoloCreate(cfg, World(), t.(making := if ok then Built else Spoiled))
    {
      ghost var before := World();
      ok, made := MakeCalls(name);
      CallsAreSteps(cfg, before, t, made);
    }

    method MakeCalls(name: string) returns (ok: bool, ghost made: nat)
      modifies cluster`script, cluster`calls
      ensures 0 < made && Made(old(cluster.script), old(cluster.calls), name, made)
      ensures ok <==> made == |Planned(cfg, name)| && WorksAt(old(cluster.script), made - 1)
      ensures !ok ==> !WorksAt(old(cluster.script), made - 1)
    {
      ghost var script, calls := cluster.script, cluster.calls;
      made := 1;
      ok := BuildStep(name, CreateNamespace(name), script, calls, 0);
      if !ok { return; }
      made := 2;
      ok := BuildStep(name, GrantAccess(name), script, calls, 1);
      if !ok { return; }
      made := 3;
      ok := BuildStep(name, CreateCredentials(name), script, calls, 2);
      if !ok { return; }
      if cfg.pluginSelection {
        made := 4;
        ok := BuildStep(name, WriteSelection(name), script, calls, 3);
        if !ok { return; }
      }
      ok, made := BringUp(name, script, calls, made);
    }

    /** The last three of them. */
    method BringUp(name: string, ghost script: seq<Outcome>, ghost calls: seq<ClusterCall>, ghost done: nat)
      returns (ok: bool, ghost made: nat)
      requires done == ClusterSteps(cfg) - 3 && Made(script, calls, name, done) && WorksAt(script, done - 1)
      modifies cluster`script, cluster`calls
      ensures 0 < made && Made(script, calls, name, made)
      ensures ok <==> made == |Planned(cfg, name)| && WorksAt(script, made - 1)
      ensures !ok ==> !WorksAt(script, made - 1)
    {
      made := done + 1;
      ok := BuildStep(name, InstallRelease(name), script, calls, done);
      if !ok { return; }
      made := done + 2;
      ok := BuildStep(name, ScaleUp(name), script, calls, done + 1);
      if !ok { return; }
      made := done + 3;
      ok := BuildStep(name, WaitForRollout(name), script, calls, done + 2);
    }

    lemma AllCalls(calls: seq<ClusterCall>, name: string)
      ensures calls + Planned(cfg, name)[..|Planned(cfg, name)|]
           == calls + [CreateNamespace(name), GrantAccess(name), CreateCredentials(name)]
              + (if cfg.pluginSelection then [WriteSelection(name)] else [])
              + [InstallRelease(name), ScaleUp(name), WaitForRollout(name)]
    {
    }

    method Provision(tenant: string, name: string)
      modifies db, cluster`script, cluster`calls
      ensures World() == SoloCreate(cfg, old(World()), Thread.Create(tenant, name, Building(0)))
      ensures var all := forall i | 0 <= i < |Planned(cfg, name)| :: WorksAt(old(cluster.script), i);
              && db.servers == (if name in old(db.servers)
                                then old(db.servers)[name := old(db.servers)[name].(status := if all then Db.Ready else Db.Failed)]
                                else old(db.servers))
              && db.events == old(db.events) + [Db.Event(tenant, name, if all then Db.CreateDone else Db.CreateFailed)]
              && (all ==>
                    cluster.calls == old(cluster.calls)
                      + [CreateNamespace(name), GrantAccess(name), CreateCredentials(name)]
                      + (if cfg.pluginSelection then [WriteSelection(name)] else [])
                      + [InstallRelease(name), ScaleUp(name), WaitForRollout(name)])
    {
      AllCalls(cluster.calls, name);
      var ok;
      ghost var made;
      ok, made := Build(name, Thread.Create(tenant, name, Building(0)));
      if ok {
        db.SetStatus(name, Db.Ready);
        db.Record(tenant, name, Db.CreateDone);
      } else {
        db.SetStatus(name, Db.Failed);
        db.Record(tenant, name, Db.CreateFailed);
      }
    }

    /**
     Refuse at once what can be refused at once; otherwise, after whatever the
     others did (`met`), the compare-and-set decides, on the status read first.
     */
    method Delete(tenant: string, name: string, force: bool, awake: bool, online: nat)
      returns (answer: DeleteAnswer, ghost met: Db.Tables)
      modifies db
      ensures answer.NotFound? <==> name !in old(db.servers) || old(db.servers)[name].tenant != tenant
      ensures answer.Deleting? <==>
                name in old(db.servers) && old(db.servers)[name].tenant == tenant
                && (old(db.servers)[name].status.Ready? || old(db.servers)[name].status.Failed?)
                && (force || !awake || online == 0)
      ensures answer.StillCreating? <==> Mine(old(db.servers), tenant, name) && old(db.servers)[name].status == Db.Provisioning
      ensures answer.AlreadyDeleting? <==> Mine(old(db.servers), tenant, name) && old(db.servers)[name].status == Db.Deleting
      ensures answer.PlayersOnline? <==>
                Mine(old(db.servers), tenant, name)
                && (old(db.servers)[name].status == Db.Ready || old(db.servers)[name].status == Db.Failed)
                && awake && !force && online > 0
      ensures answer.PlayersOnline? ==> answer.count == online
      ensures answer.Deleting? ==>
                answer.accepted == (name in met.servers && met.servers[name].status == old(db.servers)[name].status)
      ensures answer == Deleting(true) ==>
                && db.servers == met.servers[name := met.servers[name].(status := Db.Deleting)]
                && db.events == met.events + [Db.Event(tenant, name, Db.DeleteRequested(old(db.servers)[name].status))]
      ensures answer.Deleting? ==> answer.accepted == Db.CanBeginDelete(met, name, old(db.servers)[name].status)
      ensures !answer.Deleting? ==> met == old(db.Contents())
      ensures answer != Deleting(true) ==> db.Contents() == met
      ensures answer == Deleting(true) ==>
                var t := Thread.Delete(tenant, name, old(db.servers)[name].status, force, 0, Asked);
                var asked := DeleteStep(met, cluster.disk, 0, t, Crashes);
                asked.next.Some? && asked.next.value.Delete?
                && db.Contents() == DeleteStep(asked.db, cluster.disk, 0, asked.next.value, Crashes).db
    {
      met := db.Contents();
      var row := db.GetServer(name);
      if row.None? || row.value.tenant != tenant {
        answer := NotFound;
        return;
      }
      var was := row.value.status;
      if was.Provisioning? {
        answer := StillCreating;
        return;
      }
      if was.Deleting? {
        answer := AlreadyDeleting;
        return;
      }
      if awake && !force && online > 0 {
        answer := PlayersOnline(online);
        return;
      }
      OthersRun();
      met := db.Contents();
      var won := db.BeginDelete(name, was);
      if won {
        db.Record(tenant, name, Db.DeleteRequested(was));
      }
      answer := Deleting(won);
    }

    /** What to do when the backup could not be taken. */
    method GoWithout(t: Thread) returns (r: Attempt, ghost t': Thread)
      requires t.Delete? && t.stage.NoArchive?
      modifies db
      ensures t'.Delete? && t' == t.(stage := t'.stage)
      ensures Solo(World(), cluster.World(t.name), t') == Solo(old(World()), cluster.World(t.name), t)
      ensures !r.Unexpected?
      ensures r.Fine? ==> t'.stage.Uninstalling?
      ensures r.ClusterError? ==> t'.stage == Failing(Db.BackupFailed)
      ensures r.Fine? <==> MayDoWithout(old(db.Contents()), cluster.disk.Keys, t, t.stage.gone)
      ensures db.Contents() == if r.Fine? then Db.Record(old(db.Contents()), Without(old(db.Contents()), cluster.disk.Keys, t, t.stage.gone))
                               else old(db.Contents())
    {
      var n := t.name;
      ghost var here := |db.events|;
      ghost var decided := t.(stage := Decide(db.Contents(), cluster.disk, t, t.stage.gone));
      assert Solo(World(), cluster.World(n), t) == Solo(World(), cluster.World(n), decided);
      var found := BackupStillOnDisk(db.events, n, cluster.disk.Keys);
      if found.Some? && t.stage.gone {
        db.Record(t.tenant, n, Db.BackupReused(found.value));
        return Fine, t.(stage := Uninstalling(Kept(found.value, t.stage.gone, here)));
      }
      if !t.force && t.prior != Db.Failed {
        return ClusterError, decided;
      }
      db.Record(t.tenant, n, Db.BackupSkipped);
      return Fine, t.(stage := Uninstalling(Waived(here)));
    }

    /** A backup, or the decision to do without one. */
    method BackUpForDelete(t: Thread) returns (r: Attempt, ghost t': Thread)
      requires t.Delete? && t.stage.BackingUp?
      modifies db, cluster`script, cluster`disk, cluster`calls
      ensures t'.Delete? && t' == t.(stage := t'.stage)
      ensures Solo(World(), cluster.World(t.name), t') == Solo(old(World()), cluster.World(t.name), t)
      ensures r.Fine? ==> t'.stage.Uninstalling?
      ensures r.ClusterError? ==> t'.stage == Failing(Db.BackupFailed)
      ensures r.Unexpected? ==> t'.stage == Failing(Db.DeleteFailed)
      ensures var o := Next(old(cluster.script));
              && cluster.script == Rest(old(cluster.script)) && cluster.calls == old(cluster.calls) + [BackUp(t.name)]
              && (r.Fine? <==> Goes(old(db.Contents()), old(cluster.disk.Keys), t, o))
              && (r.Unexpected? <==> o.Crashes?)
              && (o.Works? ==>
                    && cluster.disk == old(cluster.disk)[Db.BackupPath(t.name, o.stamp) := cluster.World(t.name)]
                    && db.Contents() == Db.Record(old(db.Contents()),
                                                  Db.Event(t.tenant, t.name, Db.BackupTaken(Db.BackupPath(t.name, o.stamp)))))
              && (!o.Works? ==>
                    && cluster.disk == old(cluster.disk)
                    && db.Contents() == if r.Fine?
                                        then Db.Record(old(db.Contents()), Without(old(db.Contents()), old(cluster.disk.Keys), t, o.gone))
                                        else old(db.Contents()))
    {
      var o := cluster.BackupWorld(t.name);
      ghost var next := t.(stage := AfterCall(db.Contents(), cluster.disk, t, o));
      assert Solo(old(World()), cluster.World(t.name), t) == Solo(World(), cluster.World(t.name), next);
      match o
      case Works(stamp) =>
        ghost var here := |db.events|;
        db.Record(t.tenant, t.name, Db.BackupTaken(Db.BackupPath(t.name, stamp)));
        return Fine, t.(stage := Uninstalling(Taken(Db.BackupPath(t.name, stamp), here)));
      case Crashes =>
        return Unexpected, next;
      case Fails(gone) =>
        r, t' := GoWithout(t.(stage := NoArchive(gone)));
    }

    /** Uninstalling the release and deleting the namespace. */
    method TearDown(name: string, ghost t: Thread) returns (ok: bool, ghost t': Thread)
      requires t.Delete? && t.name == name && t.stage.Uninstalling?
      modifies cluster`script, cluster`calls
      ensures cluster.calls == old(cluster.calls) + [UninstallRelease(name)]
                               + if WorksAt(old(cluster.script), 0) then [DeleteNamespace(name)] else []
      ensures ok <==> WorksAt(old(cluster.script), 0) && WorksAt(old(cluster.script), 1)
      ensures t'.Delete? && Solo(World(), cluster.World(t.name), t') == Solo(old(World()), cluster.World(t.name), t)
      ensures t' == t.(stage := if ok then Removing(t.stage.cover) else Failing(Db.DeleteFailed))
    {
      var o := cluster.Call(UninstallRelease(name));
      t' := t.(stage := if o.Works? then Dropping(t.stage.cover) else Failing(Db.DeleteFailed));
      assert Solo(old(World()), cluster.World(t.name), t) == Solo(World(), cluster.World(t.name), t');
      if !o.Works? {
        return false, t';
      }
      o := cluster.Call(DeleteNamespace(name));
      return o.Works?, t.(stage := if o.Works? then Removing(t.stage.cover) else Failing(Db.DeleteFailed));
    }

    method DeleteFails(t: Thread)
      requires t.Delete? && t.stage.Failing?
      modifies db
      ensures World() == Solo(old(World()), cluster.World(t.name), t)
      ensures db.servers == SetBack(old(db.servers), t)
      ensures db.events == old(db.events) + [Db.Event(t.tenant, t.name, t.stage.kind)]
    {
      db.SetStatus(t.name, t.prior);
      db.Record(t.tenant, t.name, t.stage.kind);
    }

    /**
     `_remove`: the whole job, undisturbed, is its protocol steps.  The server goes
     exactly when its world was backed up or may be done without, the release was
     uninstalled and the namespace deleted; otherwise its row is as the delete found it.
     No other row is touched, and no call is made after one that failed.
     */
    method Remove(t: Thread)
      requires t.Delete? && t.stage.BackingUp?
      modifies db, cluster`script, cluster`disk, cluster`calls
      ensures World() == Solo(old(World()), cluster.World(t.name), t)
      ensures var goes := Goes(old(db.Contents()), old(cluster.disk.Keys), t, Next(old(cluster.script)));
              var torn := goes && WorksAt(Rest(old(cluster.script)), 0) && WorksAt(Rest(old(cluster.script)), 1);
              && db.servers == (if torn then old(db.servers) - {t.name} else SetBack(old(db.servers), t))
              && db.events != []
              && db.events[|db.events| - 1] == Db.Event(t.tenant, t.name,
                   if torn then Db.Deleted else if goes || Next(old(cluster.script)).Crashes? then Db.DeleteFailed else Db.BackupFailed)
              && cluster.calls == old(cluster.calls) + [BackUp(t.name)]
                                  + (if goes then [UninstallRelease(t.name)] else [])
                                  + (if goes && WorksAt(Rest(old(cluster.script)), 0) then [DeleteNamespace(t.name)] else [])
    {
      var r;
      ghost var t';
      r, t' := BackUpForDelete(t);
      if r.ClusterError? {
        DeleteFails(t.(stage := Failing(Db.BackupFailed)));
        return;
      }
      if r.Unexpected? {
        DeleteFails(t.(stage := Failing(Db.DeleteFailed)));
        return;
      }
      TakeDown(t, t');
    }

    /** The rest of it, once the world may go. */
    method TakeDown(t: Thread, ghost t': Thread)
      requires t.Delete? && t'.Delete? && t' == t.(stage := t'.stage) && t'.stage.Uninstalling?
      modifies db, cluster`script, cluster`calls
      ensures World() == Solo(old(World()), cluster.World(t.name), t')
      ensures var torn := WorksAt(old(cluster.script), 0) && WorksAt(old(cluster.script), 1);
              && db.servers == (if torn then old(db.servers) - {t.name} else SetBack(old(db.servers), t))
              && db.events == old(db.events) + [Db.Event(t.tenant, t.name, if torn then Db.Deleted else Db.DeleteFailed)]
      ensures cluster.calls == old(cluster.calls) + [UninstallRelease(t.name)]
                               + if WorksAt(old(cluster.script), 0) then [DeleteNamespace(t.name)] else []
    {
      var ok;
      ghost var torn;
      ok, torn := TearDown(t.name, t');
      if !ok {
        DeleteFails(t.(stage := Failing(Db.DeleteFailed)));
        return;
      }
      Finish(t, torn.stage.cover);
    }

    method Finish(t: Thread, ghost cover: Cover)
      requires t.Delete?
      modifies db
      ensures World() == Solo(old(World()), cluster.World(t.name), t.(stage := Removing(cover)))
      ensures db.servers == old(db.servers) - {t.name}
      ensures db.events == old(db.events) + [Db.Event(t.tenant, t.name, Db.Deleted)]
    {
      db.DeleteServer(t.name);
      db.Record(t.tenant, t.name, Db.Deleted);
    }

    /** Move every row of one status on, each with its note. */
    method MoveOn(from: Db.Status) returns (ghost notes: seq<Db.Event>)
      requires from.Provisioning? || from.Deleting?
      modifies db
      ensures exists names: seq<string> ::
                (forall n | n in old(db.servers) && old(db.servers)[n].status == from :: n in names)
                && db.Contents() == MovedOn(old(db.Contents()), from, names, notes)
      ensures forall e | e in notes :: IsNote(e)
    {
      notes := [];
      ghost var before := db.Contents();
      var names := db.ListWithStatus(from);
      assert before == MovedOn(before, from, [], []);
      for i := 0 to |names|
        invariant db.Contents() == MovedOn(before, from, names[..i], notes)
        invariant forall e | e in notes :: IsNote(e)
      {
        assert names[i] in names && names[i] !in names[..i];
        MovedOneMore(before, from, names[..i], notes, names[i]);
        assert names[..i + 1] == names[..i] + [names[i]];
        ghost var e := MoveOne(from, names[i]);
        notes := notes + [e];
      }
      assert names[..|names|] == names;
    }

    method MoveOne(from: Db.Status, name: string) returns (ghost e: Db.Event)
      requires name in db.servers && db.servers[name].status == from && (from.Provisioning? || from.Deleting?)
      modifies db
      ensures e == Note(old(db.Contents()), from, name)
      ensures db.Contents() == Db.Record(Db.SetStatus(old(db.Contents()), name, Moved(old(db.Contents()), from, name)), e)
    {
      e := Note(db.Contents(), from, name);
      if from.Provisioning? {
        db.SetStatus(name, Db.Failed);
        db.Record(db.servers[name].tenant, name, Db.CreateInterrupted);
      } else {
        var was := StatusBeforeDelete(db.events, name);
        db.SetStatus(name, was);
        db.Record(db.servers[name].tenant, name, Db.DeleteInterrupted);
      }
    }

    /**
     `recover_interrupted`: no transient row is left, every other row is as it
     was, and the log has only gained notes of it.
     */
    method RecoverInterrupted() returns (ghost notes: seq<Db.Event>)
      modifies db
      ensures db.servers == Recovered(old(db.Contents()))
      ensures db.servers.Keys == old(db.servers).Keys
      ensures forall n | n in db.servers :: MovedOnAs(old(db.events), n, old(db.servers)[n], db.servers[n])
      ensures db.Contents() == old(db.Contents()).(servers := db.servers, events := old(db.events) + notes)
      ensures forall e | e in notes :: IsNote(e)
    {
      ghost var before := db.Contents();
      notes := MoveOn(Db.Provisioning);
      ghost var created: seq<string> :|
        (forall n | n in before.servers && before.servers[n].status == Db.Provisioning :: n in created)
        && db.Contents() == MovedOn(before, Db.Provisioning, created, notes);
      ghost var half := db.Contents();
      ghost var more := MoveOn(Db.Deleting);
      ghost var deleted: seq<string> :|
        (forall n | n in half.servers && half.servers[n].status == Db.Deleting :: n in deleted)
        && db.Contents() == MovedOn(half, Db.Deleting, deleted, more);
      RecoveredInTurn(before, created, notes, deleted, more);
      notes := notes + more;
      RecoveredAsMeant(before);
    }
  }

  function Moved(db: Db.Tables, from: Db.Status, n: string): Db.Status {
    if from.Deleting? then Db.StatusBeforeDelete(db.events, n) else Db.Failed
  }

  function Note(db: Db.Tables, from: Db.Status, n: string): Db.Event
    requires n in db.servers
  {
    Db.Event(db.servers[n].tenant, n, if from.Deleting? then Db.DeleteInterrupted else Db.CreateInterrupted)
  }

  /** The rows of one status, among `names`, moved on, and the notes of it. */
  ghost function MovedOn(db: Db.Tables, from: Db.Status, names: seq<string>, notes: seq<Db.Event>): Db.Tables {
    db.(servers := map n | n in db.servers ::
          if n in names && db.servers[n].status == from then db.servers[n].(status := Moved(db, from, n)) else db.servers[n],
        events := db.events + notes)
  }

  lemma MovedOneMore(db: Db.Tables, from: Db.Status, names: seq<string>, notes: seq<Db.Event>, n: string)
    requires n in db.servers && db.servers[n].status == from && n !in names
    requires forall e | e in notes :: IsNote(e)
    ensures var now := MovedOn(db, from, names, notes);
            && n in now.servers && now.servers[n] == db.servers[n] && IsNote(Note(now, from, n))
            && Db.Record(Db.SetStatus(now, n, Moved(now, from, n)), Note(now, from, n))
               == MovedOn(db, from, names + [n], notes + [Note(now, from, n)])
  {
    NotesChangeNoScan(db.events, notes, n, map[], None);
    var now := MovedOn(db, from, names, notes);
    var after := Db.Record(Db.SetStatus(now, n, Moved(now, from, n)), Note(now, from, n));
    var all := MovedOn(db, from, names + [n], notes + [Note(now, from, n)]);
    assert after.servers == all.servers;
    assert after.events == all.events;
  }

  lemma RecoveredInTurn(db: Db.Tables, created: seq<string>, notes: seq<Db.Event>, deleted: seq<string>, more: seq<Db.Event>)
    requires forall e | e in notes :: IsNote(e)
    requires forall n | n in db.servers && db.servers[n].status.Provisioning? :: n in created
    requires forall n | n in db.servers && db.servers[n].status.Deleting? :: n in deleted
    ensures MovedOn(MovedOn(db, Db.Provisioning, created, notes), Db.Deleting, deleted, more)
         == db.(servers := Recovered(db), events := db.events + (notes + more))
  {
    var half := MovedOn(db, Db.Provisioning, created, notes);
    var end := MovedOn(half, Db.Deleting, deleted, more);
    forall n | n in db.servers
      ensures end.servers[n] == Recovered(db)[n]
    {
      NotesChangeNoScan(db.events, notes, n, map[], None);
    }
    assert end.servers == Recovered(db);
    assert end.events == db.events + (notes + more);
  }
}
