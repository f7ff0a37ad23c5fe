/** The runs that show where the three copies of a selection part, step by step. */
module PluginRuns {
  import opened Options
  import opened Db
  import opened SelectionText
  import opened PluginChanges
  import opened PluginSync
  import opened PluginSyncProofs

  lemma Then(defaults: seq<Plugin>, actions: seq<Action>, a: Action) returns (longer: seq<Action>)
    ensures longer == actions + [a]
    ensures Run(defaults, longer) == Apply(defaults, Run(defaults, actions), a)
  {
    longer := actions + [a];
    assert longer[..|actions|] == actions;
  }

  const GOES_WELL := Answer(true, None)

  // --- a ready server ----------------------------------------------------------------

  /** One server, with the defaults in its rows and its ConfigMap. */
  function Seeded(defaults: seq<Plugin>, name: string, tenant: string, status: Status): State {
    START.(db := EMPTY.(servers := map[name := ServerRow(tenant, status)], plugins := map[name := defaults],
                        pluginStates := map[name := PluginState(Some(Sha256(SelectionJson(defaults))), None)]),
           configMaps := map[name := SelectionJson(defaults)], nextWorker := 1)
  }

  /** Its create's seeding, the text written, and the rows or not yet. */
  function HalfSeeded(defaults: seq<Plugin>, name: string, tenant: string, rowsToo: bool): State {
    START.(db := EMPTY.(servers := map[name := ServerRow(tenant, Provisioning)],
                        plugins := if rowsToo then map[name := defaults] else map[],
                        pluginStates := if rowsToo then map[name := PluginState(None, None)] else map[]),
           configMaps := map[name := SelectionJson(defaults)], nextWorker := 1,
           workers := map[0 := Seed(name, if rowsToo then SeedHash else SeedRows)])
  }

  lemma TextWritten(defaults: seq<Plugin>, name: string, tenant: string) returns (actions: seq<Action>)
    ensures Run(defaults, actions) == HalfSeeded(defaults, name, tenant, false)
  {
    actions := Then(defaults, [], Reserve(name, tenant));
    actions := Then(defaults, actions, StartSeed(name));
    actions := Then(defaults, actions, Advance(0, GOES_WELL));
  }

  lemma SeedsTheDefaults(defaults: seq<Plugin>, d: Tables, name: string)
    requires Usable(defaults) && name !in d.pluginStates && name !in d.plugins
    ensures SeedPlugins(d, name, defaults)
         == d.(pluginStates := d.pluginStates[name := PluginState(None, None)], plugins := d.plugins[name := defaults])
  {
    InsertDistinct([], defaults);
    assert [] + defaults == defaults;
  }

  lemma RowsStored(defaults: seq<Plugin>, name: string, tenant: string) returns (actions: seq<Action>)
    requires Usable(defaults)
    ensures Run(defaults, actions) == HalfSeeded(defaults, name, tenant, true)
  {
    actions := TextWritten(defaults, name, tenant);
    SeedsTheDefaults(defaults, Run(defaults, actions).db, name);
    actions := Then(defaults, actions, Advance(0, GOES_WELL));
  }

  lemma ReadyServer(defaults: seq<Plugin>, name: string, tenant: string) returns (actions: seq<Action>)
    requires Usable(defaults)
    ensures Run(defaults, actions) == Seeded(defaults, name, tenant, Ready)
  {
    actions := RowsStored(defaults, name, tenant);
    actions := Then(defaults, actions, Advance(0, GOES_WELL));
    assert Run(defaults, actions) == Seeded(defaults, name, tenant, Provisioning);
    actions := Then(defaults, actions, Settle(name, Ready));
  }

  // --- a restart between the ConfigMap and the rows -------------------------------------

  /** The server's change of one plugin, at this stage. */
  function Changing(defaults: seq<Plugin>, name: string, tenant: string, slug: string, at: ChangeAt): State {
    Seeded(defaults, name, tenant, Ready).(
      locks := if at.Waiting? then map[] else map[name := 1],
      workers := map[1 := Change(tenant, name, Add(slug), at)], nextWorker := 2)
  }

  /** A stage that writes nothing. */
  lemma MovesOn(defaults: seq<Plugin>, actions: seq<Action>, name: string, tenant: string, slug: string,
                at: ChangeAt, a: Answer, to: ChangeAt)
    returns (longer: seq<Action>)
    requires at.Locked? || at.Seeding? || at.Reading? || at.Planning?
    requires Run(defaults, actions) == Changing(defaults, name, tenant, slug, at)
    requires to == NextAt(Seeded(defaults, name, tenant, Ready).db, Change(tenant, name, Add(slug), at), a) && !to.Waiting?
    ensures Run(defaults, longer) == Changing(defaults, name, tenant, slug, to)
  {
    longer := Then(defaults, actions, Advance(1, a));
  }

  lemma ChangeLocked(defaults: seq<Plugin>, name: string, tenant: string, slug: string) returns (actions: seq<Action>)
    requires Usable(defaults)
    ensures Run(defaults, actions) == Changing(defaults, name, tenant, slug, Locked)
  {
    actions := ReadyServer(defaults, name, tenant);
    actions := Then(defaults, actions, StartChange(tenant, name, Add(slug)));
    assert Run(defaults, actions) == Changing(defaults, name, tenant, slug, Waiting);
    actions := Then(defaults, actions, Advance(1, GOES_WELL));
  }

  /** The change has its plan and is about to write the ConfigMap. */
  lemma ChangePlanned(defaults: seq<Plugin>, name: string, tenant: string, slug: string, e: Entry)
    returns (actions: seq<Action>)
    requires Usable(defaults) && slug !in Slugs(defaults) && e.needs == []
    ensures Run(defaults, actions)
         == Changing(defaults, name, tenant, slug, Writing(defaults, Plus([SelectedFrom(slug, e, Tenant)])))
  {
    var plan := Plus([SelectedFrom(slug, e, Tenant)]);
    actions := ChangeLocked(defaults, name, tenant, slug);
    actions := MovesOn(defaults, actions, name, tenant, slug, Locked, GOES_WELL, Seeding);
    actions := MovesOn(defaults, actions, name, tenant, slug, Seeding, GOES_WELL, Reading);
    actions := MovesOn(defaults, actions, name, tenant, slug, Reading, GOES_WELL, Planning(defaults));
    AddsOne(defaults, slug, e);
    actions := MovesOn(defaults, actions, name, tenant, slug, Planning(defaults),
                       Answer(true, Some(map[slug := e])), Writing(defaults, plan));
  }

  lemma AddsOne(rows: seq<Plugin>, slug: string, e: Entry)
    requires slug !in Slugs(rows) && e.needs == []
    ensures AddPlan(map[slug := e], rows, slug) == Brings([SelectedFrom(slug, e, Tenant)])
  {
    var added := [SelectedFrom(slug, e, Tenant)];
    assert [Request(slug, Tenant)][1..] + Dependencies(e) == [] && [] + added == added;
    assert Close(map[slug := e], Slugs(rows) + {slug}, [], added) == Brings(added);
  }

  /** A ready server, its lock free, a hash written, and yet the ConfigMap is not the rows' text. */
  ghost predicate CutApart(defaults: seq<Plugin>, actions: seq<Action>, name: string, tenant: string) {
    var s := Run(defaults, actions);
    && ReadyFor(s.db, tenant, name) && name !in s.locks && s.workers == map[] && name in s.cut && Written(s.db, name).Some?
    && !(name in s.configMaps && s.configMaps[name] == SelectionJson(Rows(s.db, name)))
  }

  /** The ConfigMap and its hash are written; the rows come next. */
  lemma AboutToStore(defaults: seq<Plugin>, name: string, tenant: string, slug: string, e: Entry)
    returns (actions: seq<Action>)
    requires Usable(defaults) && slug !in Slugs(defaults) && e.needs == []
    ensures var s, plan := Run(defaults, actions), Plus([SelectedFrom(slug, e, Tenant)]);
            && s.db.servers == map[name := ServerRow(tenant, Ready)] && s.cut == {}
            && s.workers == map[1 := Change(tenant, name, Add(slug), Storing(defaults, plan))]
            && name in s.configMaps && Written(s.db, name).Some?
  {
    var plan := Plus([SelectedFrom(slug, e, Tenant)]);
    actions := ChangePlanned(defaults, name, tenant, slug, e);
    actions := Then(defaults, actions, Advance(1, GOES_WELL));
    assert Run(defaults, actions).workers[1].at == Hashing(defaults, plan);
    actions := Then(defaults, actions, Advance(1, GOES_WELL));
  }

  lemma RestartCuts(defaults: seq<Plugin>, actions: seq<Action>, name: string, tenant: string) returns (longer: seq<Action>)
    requires var s := Run(defaults, actions);
             && s.db.servers == map[name := ServerRow(tenant, Ready)] && name in s.configMaps && Written(s.db, name).Some?
             && 1 in s.workers && s.workers[1].Change? && s.workers[1].name == name && s.workers[1].at.Storing?
    ensures var s, s' := Run(defaults, actions), Run(defaults, longer);
            && ReadyFor(s'.db, tenant, name) && s'.locks == map[] && s'.workers == map[]
            && Written(s'.db, name).Some? && name in s'.configMaps && name in s'.cut
  {
    longer := Then(defaults, actions, Restart({}));
    assert name in CutNow(Run(defaults, actions));
  }

  /** The ConfigMap and its hash are written, and the process dies before the rows are. */
  lemma ARestartCutsTheCopiesApart(defaults: seq<Plugin>, name: string, tenant: string, slug: string, e: Entry)
    returns (actions: seq<Action>)
    requires Usable(defaults) && slug !in Slugs(defaults) && e.needs == []
    ensures CutApart(defaults, actions, name, tenant) && name in Run(defaults, actions).configMaps
  {
    actions := AboutToStore(defaults, name, tenant, slug, e);
    actions := RestartCuts(defaults, actions, name, tenant);
    ThreeCopiesAgree(defaults, actions, name);
  }

  /** A delete has dropped the namespace, and the process dies before the row goes. */
  lemma ALostNamespaceCutsTheCopiesApart(defaults: seq<Plugin>, name: string, tenant: string) returns (actions: seq<Action>)
    requires Usable(defaults)
    ensures CutApart(defaults, actions, name, tenant) && name !in Run(defaults, actions).configMaps
  {
    actions := ReadyServer(defaults, name, tenant);
    actions := Then(defaults, actions, BeginRemoval(name));
    assert Run(defaults, actions) == Seeded(defaults, name, tenant, Deleting);
    actions := Then(defaults, actions, DropNamespace(name));
    actions := Then(defaults, actions, Restart({}));
  }
}
