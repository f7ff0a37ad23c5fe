/**
 The plugin service as it runs (`plugin_service.py`), over a `Database` and the
 ConfigMaps: each request undisturbed, tied to the steps `PluginSync` interleaves.
 */
module PluginService {
  import opened Options
  import Db
  import opened Database
  import opened SelectionText
  import opened PluginChanges
  import opened PluginSync

  /** The tenant namespaces' `<name>-plugins` ConfigMaps; a write fails while the cluster does. */
  class ConfigMaps {
    var texts: map<string, string>
    var failing: bool

    constructor ()
      ensures texts == map[] && !failing
    {
      texts, failing := map[], false;
    }

    method Write(name: string, text: string) returns (ok: bool)
      modifies this`texts
      ensures ok == !failing
      ensures texts == if ok then old(texts)[name := text] else old(texts)
    {
      ok := !failing;
      if ok {
        texts := texts[name := text];
      }
    }
  }

  datatype Answer = Busy | Unavailable | UnknownPlugin(slug: string) | NotChosen | IsRequired(dependents: set<string>)
    | WriteFailed | Changed(plan: Plan, unused: set<string>) | Unchanged

  function NoteOf(tenant: string, name: string, p: Plan): Db.Event {
    Db.Event(tenant, name, Db.Other(if p.Plus? then "plugins.add" else "plugins.remove"))
  }

  /** What every refusal and failure leaves, and what a change writes and then stores. */
  ghost predicate Outcome(seeded: Db.Tables, texts: map<string, string>, tenant: string, name: string, p: Option<Plan>,
                          db: Db.Tables, texts': map<string, string>) {
    match p
    case None => db == seeded && texts' == texts
    case Some(plan) =>
      var text := SelectionJson(Target(Db.Rows(seeded, name), plan));
      && texts' == texts[name := text]
      && db == Db.Record(Store(Db.SetWritten(seeded, name, Db.Sha256(text)), name, plan), NoteOf(tenant, name, plan))
  }

  /** After a change these are the rows, their text is in the ConfigMap, and its hash is the one written. */
  ghost predicate Stands(db: Db.Tables, texts: map<string, string>, name: string, rows: seq<Db.Plugin>) {
    && Db.Rows(db, name) == rows && name in texts && texts[name] == SelectionJson(rows)
    && name in db.pluginStates && db.pluginStates[name].written == Some(Db.Sha256(texts[name]))
  }

  /** Rows whose slugs are new are put behind those there. */
  lemma {:induction false} NewOnesLast(rows: seq<Db.Plugin>, added: seq<Db.Plugin>)
    requires Distinct(added) && Db.Slugs(added) !! Db.Slugs(rows)
    ensures Db.InsertAll(rows, added) == rows + added
    decreases |added|
  {
    if added == [] {
      assert rows + added == rows;
    } else {
      var first, others := added[0], added[1..];
      assert first in added && forall r | r in others :: r in added;
      assert Distinct(others) && first.slug !in Db.Slugs(others);
      SlugsOfConcat(rows, [first]);
      NewOnesLast(rows + [first], others);
      assert rows + added == (rows + [first]) + others;
    }
  }

  /** An add that was carried out leaves the old rows and the new ones behind them. */
  lemma AddStands(seeded: Db.Tables, texts: map<string, string>, tenant: string, name: string, catalog: Catalog, slug: string,
                  db: Db.Tables, texts': map<string, string>)
    requires name in seeded.pluginStates && AddPlan(catalog, Db.Rows(seeded, name), slug).Brings?
    requires Outcome(seeded, texts, tenant, name, Some(Plus(AddPlan(catalog, Db.Rows(seeded, name), slug).rows)), db, texts')
    ensures Stands(db, texts', name, Db.Rows(seeded, name) + AddPlan(catalog, Db.Rows(seeded, name), slug).rows)
    ensures db.events == seeded.events + [Db.Event(tenant, name, Db.Other("plugins.add"))]
  {
    AddBringsWhatIsReachable(catalog, Db.Rows(seeded, name), slug);
    NewOnesLast(Db.Rows(seeded, name), AddPlan(catalog, Db.Rows(seeded, name), slug).rows);
  }

  lemma RemoveStands(seeded: Db.Tables, texts: map<string, string>, tenant: string, name: string, slug: string,
                     db: Db.Tables, texts': map<string, string>)
    requires name in seeded.pluginStates && Outcome(seeded, texts, tenant, name, Some(Minus(slug)), db, texts')
    ensures Stands(db, texts', name, Db.Rows(db, name))
    ensures forall r :: r in Db.Rows(db, name) <==> r in Db.Rows(seeded, name) && r.slug != slug
    ensures db.events == seeded.events + [Db.Event(tenant, name, Db.Other("plugins.remove"))]
  {
    WithoutMembers(Db.Rows(seeded, name), slug);
  }

  /** Refused exactly when the plugin is not selected, or another one needs it, and then by all that do. */
  ghost predicate Refused(rows: seq<Db.Plugin>, slug: string, answer: Answer) {
    && (answer.NotChosen? <==> forall r | r in rows :: r.slug != slug)
    && (answer.IsRequired? <==> (exists r :: r in rows && r.slug == slug)
                                && exists o :: o in rows && o.slug != slug && slug in o.needs)
    && (answer.IsRequired? ==> forall s :: s in answer.dependents <==>
          exists o :: o in rows && o.slug == s && s != slug && slug in o.needs)
  }

  /** Only that plugin has gone, and what is offered is every dependency that nothing left needs. */
  ghost predicate Removed(before: seq<Db.Plugin>, rows: seq<Db.Plugin>, slug: string, unused: set<string>) {
    && (forall r :: r in rows <==> r in before && r.slug != slug)
    && (forall s :: s in unused <==>
          exists r :: r in rows && r.slug == s && r.addedBy.Dependency? && forall o | o in rows :: s !in o.needs)
  }

  /** Who needs a plugin, and that it is selected at all. */
  lemma DependentsAre(rows: seq<Db.Plugin>, slug: string)
    ensures slug !in Db.Slugs(rows) <==> forall r | r in rows :: r.slug != slug
    ensures Dependents(rows, slug) != {} <==> exists o :: o in rows && o.slug != slug && slug in o.needs
    ensures forall s :: s in Dependents(rows, slug) <==> exists o :: o in rows && o.slug == s && s != slug && slug in o.needs
  {
    if o :| o in rows && o.slug != slug && slug in o.needs {
      assert o.slug in Dependents(rows, slug);
    }
    if s :| s in Dependents(rows, slug) {
      var o :| o in rows && o.slug == s && slug in o.needs && o.slug != slug;
    }
  }

  class PluginService {
    const defaults: seq<Db.Plugin>
    const db: Database
    const maps: ConfigMaps
    var held: set<string>

    constructor (defaults: seq<Db.Plugin>, db: Database, maps: ConfigMaps)
      ensures this.defaults == defaults && this.db == db && this.maps == maps && held == {}
    {
      this.defaults, this.db, this.maps, held := defaults, db, maps, {};
    }

    /** `_rows`: the selection, seeded from the defaults if there never was one. */
    method EnsureRows(name: string) returns (rows: seq<Db.Plugin>)
      modifies db
      ensures db.Contents() == Db.SeedPlugins(old(db.Contents()), name, defaults)
      ensures rows == Db.Rows(db.Contents(), name)
    {
      var seeded := db.SeedPlugins(name, defaults);
      rows := Db.Rows(db.Contents(), name);
    }

    /** `_write`: the ConfigMap first; if it cannot be written, nothing is. */
    method WriteSelection(name: string, rows: seq<Db.Plugin>) returns (ok: bool)
      modifies db, maps`texts
      ensures ok == !maps.failing
      ensures !ok ==> db.Contents() == old(db.Contents()) && maps.texts == old(maps.texts)
      ensures ok ==> maps.texts == old(maps.texts)[name := SelectionJson(rows)]
                     && db.Contents() == Db.SetWritten(old(db.Contents()), name, Db.Sha256(SelectionJson(rows)))
    {
      var text := SelectionJson(rows);
      ok := maps.Write(name, text);
      if ok {
        db.SetWritten(name, Db.Sha256(text));
      }
    }

    /** `_seed_plugin_selection`: the ConfigMap, the rows, the hash. */
    method SeedSelection(name: string) returns (ok: bool)
      modifies db, maps`texts
      ensures ok == !maps.failing
      ensures !ok ==> db.Contents() == old(db.Contents()) && maps.texts == old(maps.texts)
      ensures ok ==>
                && maps.texts == old(maps.texts)[name := SelectionJson(defaults)]
                && db.Contents() == Db.SetWritten(Db.SeedPlugins(old(db.Contents()), name, defaults), name,
                                                  Db.Sha256(SelectionJson(defaults)))
    {
      var text := SelectionJson(defaults);
      ok := maps.Write(name, text);
      if ok {
        var seeded := db.SeedPlugins(name, defaults);
        db.SetWritten(name, Db.Sha256(text));
      }
    }

    /** The worklist of `add`. */
    method Collect(catalog: Catalog, rows: seq<Db.Plugin>, slug: string) returns (r: Added)
      requires slug in catalog
      ensures r == AddPlan(catalog, rows, slug)
    {
      var selected := Db.Slugs(rows);
      var brought: seq<Db.Plugin> := [];
      var queue := [Request(slug, Db.Tenant)];
      while queue != []
        invariant Close(catalog, selected, queue, brought) == AddPlan(catalog, rows, slug)
        decreases catalog.Keys - selected, |queue|
      {
        var current := queue[0];
        queue := queue[1..];
        if current.slug in selected {
          continue;
        }
        if current.slug !in catalog {
          return Unknown(current.slug);
        }
        var entry := catalog[current.slug];
        brought := brought + [SelectedFrom(current.slug, entry, current.origin)];
        selected := selected + {current.slug};
        queue := queue + Dependencies(entry);
      }
      return Brings(brought);
    }

    /** Store a plan whose text is already written, and say so in the log. */
    method Keep(tenant: string, name: string, plan: Plan)
      modifies db
      ensures db.Contents() == Db.Record(Store(old(db.Contents()), name, plan), NoteOf(tenant, name, plan))
    {
      match plan {
        case Plus(added) => db.AddPlugins(name, added);
        case Minus(slug) => db.RemovePlugin(name, slug);
      }
      db.Record(tenant, name, Db.Other(if plan.Plus? then "plugins.add" else "plugins.remove"));
    }

    /** Write, then store. */
    method Carry(tenant: string, name: string, rows: seq<Db.Plugin>, plan: Plan) returns (ok: bool)
      requires rows == Db.Rows(db.Contents(), name)
      modifies db, maps`texts
      ensures ok == !maps.failing
      ensures Outcome(old(db.Contents()), old(maps.texts), tenant, name, if ok then Some(plan) else None, db.Contents(), maps.texts)
    {
      ok := WriteSelection(name, Target(rows, plan));
      if ok {
        Keep(tenant, name, plan);
      }
    }

    /** `add`: what it selects is `AddPlan`'s, all of it or none. */
    method Add(tenant: string, name: string, slug: string, catalog: Option<Catalog>) returns (answer: Answer)
      modifies this`held, db, maps`texts
      ensures held == old(held)
      ensures answer.Busy? <==>
                name in held || !(name in old(db.servers) && old(db.servers)[name].tenant == tenant
                                  && old(db.servers)[name].status == Db.Ready)
      ensures answer.Busy? ==> db.Contents() == old(db.Contents()) && maps.texts == old(maps.texts)
      ensures !answer.Busy? ==>
                var seeded := Db.SeedPlugins(old(db.Contents()), name, defaults);
                Outcome(seeded, old(maps.texts), tenant, name, if answer.Changed? then Some(answer.plan) else None,
                        db.Contents(), maps.texts)
                && match answer
                   case Unavailable => catalog.None?
                   case UnknownPlugin(s) => catalog.Some? && AddPlan(catalog.value, Db.Rows(seeded, name), slug) == Unknown(s)
                   case Unchanged => catalog.Some? && AddPlan(catalog.value, Db.Rows(seeded, name), slug) == Brings([])
                   case Changed(plan, _) => PlanOf(PluginSync.Add(slug), catalog, Db.Rows(seeded, name)) == Some(plan)
                   case WriteFailed => maps.failing && PlanOf(PluginSync.Add(slug), catalog, Db.Rows(seeded, name)).Some?
                   case _ => false
      ensures answer.Changed? ==>
                var seeded := Db.SeedPlugins(old(db.Contents()), name, defaults);
                catalog.Some? && AddPlan(catalog.value, Db.Rows(seeded, name), slug).Brings?
                && var brought := AddPlan(catalog.value, Db.Rows(seeded, name), slug).rows;
                   && brought != [] && answer.plan == Plus(brought)
                   && Stands(db.Contents(), maps.texts, name, Db.Rows(seeded, name) + brought)
                   && db.events == old(db.events) + [Db.Event(tenant, name, Db.Other("plugins.add"))]
    {
      // the wait for the lock is capped
      if !ReadyFor(db.Contents(), tenant, name) || name in held {
        return Busy;
      }
      held := held + {name};
      var rows := EnsureRows(name);
      ghost var seeded, texts := db.Contents(), maps.texts;
      answer := AddHeld(tenant, name, slug, catalog, rows);
      held := held - {name};
      if answer.Changed? {
        AddStands(seeded, texts, tenant, name, catalog.value, slug, db.Contents(), maps.texts);
      }
    }

    method AddHeld(tenant: string, name: string, slug: string, catalog: Option<Catalog>, rows: seq<Db.Plugin>)
      returns (answer: Answer)
      requires rows == Db.Rows(db.Contents(), name)
      modifies db, maps`texts
      ensures Outcome(old(db.Contents()), old(maps.texts), tenant, name, if answer.Changed? then Some(answer.plan) else None,
                      db.Contents(), maps.texts)
      ensures match answer
              case Unavailable => catalog.None?
              case UnknownPlugin(s) => catalog.Some? && AddPlan(catalog.value, rows, slug) == Unknown(s)
              case Unchanged => catalog.Some? && AddPlan(catalog.value, rows, slug) == Brings([])
              case Changed(plan, _) => PlanOf(PluginSync.Add(slug), catalog, rows) == Some(plan)
              case WriteFailed => maps.failing && PlanOf(PluginSync.Add(slug), catalog, rows).Some?
              case _ => false
    {
      if catalog.None? {
        return Unavailable;
      }
      if slug !in catalog.value {
        return UnknownPlugin(slug);
      }
      var r := Collect(catalog.value, rows, slug);
      if r.Unknown? {
        return UnknownPlugin(r.slug);
      }
      if r.rows == [] {
        return Unchanged;
      }
      var ok := Carry(tenant, name, rows, Plus(r.rows));
      answer := if ok then Changed(Plus(r.rows), {}) else WriteFailed;
    }

    /** `remove`: refused while something selected needs the plugin; the dependencies left over are offered. */
    method Remove(tenant: string, name: string, slug: string) returns (answer: Answer)
      modifies this`held, db, maps`texts
      ensures held == old(held)
      ensures answer.Busy? <==>
                name in held || !(name in old(db.servers) && old(db.servers)[name].tenant == tenant
                                  && old(db.servers)[name].status == Db.Ready)
      ensures answer.Busy? ==> db.Contents() == old(db.Contents()) && maps.texts == old(maps.texts)
      ensures !answer.Busy? ==>
                var seeded := Db.SeedPlugins(old(db.Contents()), name, defaults);
                Outcome(seeded, old(maps.texts), tenant, name, if answer.Changed? then Some(answer.plan) else None,
                        db.Contents(), maps.texts)
                && match RemovePlan(Db.Rows(seeded, name), slug)
                   case NotSelected => answer == NotChosen
                   case Required(dependents) => answer == IsRequired(dependents)
                   case Leaves(rest) => answer == if maps.failing then WriteFailed else Changed(Minus(slug), Unused(rest))
      ensures !answer.Busy? ==> Refused(Db.Rows(Db.SeedPlugins(old(db.Contents()), name, defaults), name), slug, answer)
      ensures answer.Changed? ==>
                var before, rows := Db.Rows(Db.SeedPlugins(old(db.Contents()), name, defaults), name), Db.Rows(db.Contents(), name);
                && answer.plan == Minus(slug) && Removed(before, rows, slug, answer.unused)
                && Stands(db.Contents(), maps.texts, name, rows)
                && db.events == old(db.events) + [Db.Event(tenant, name, Db.Other("plugins.remove"))]
    {
      // the wait for the lock is capped
      if !ReadyFor(db.Contents(), tenant, name) || name in held {
        return Busy;
      }
      held := held + {name};
      var rows := EnsureRows(name);
      answer := RemoveHeld(tenant, name, slug, rows);
      held := held - {name};
    }

    method RemoveHeld(tenant: string, name: string, slug: string, rows: seq<Db.Plugin>) returns (answer: Answer)
      requires rows == Db.Rows(db.Contents(), name) && name in db.pluginStates
      modifies db, maps`texts
      ensures Outcome(old(db.Contents()), old(maps.texts), tenant, name, if answer.Changed? then Some(answer.plan) else None,
                      db.Contents(), maps.texts)
      ensures match RemovePlan(rows, slug)
              case NotSelected => answer == NotChosen
              case Required(dependents) => answer == IsRequired(dependents)
              case Leaves(rest) => answer == if maps.failing then WriteFailed else Changed(Minus(slug), Unused(rest))
      ensures Refused(rows, slug, answer)
      ensures answer.Changed? ==>
                && answer.plan == Minus(slug) && Removed(rows, Db.Rows(db.Contents(), name), slug, answer.unused)
                && Stands(db.Contents(), maps.texts, name, Db.Rows(db.Contents(), name))
                && db.events == old(db.events) + [Db.Event(tenant, name, Db.Other("plugins.remove"))]
    {
      var dependents := Dependents(rows, slug);
      DependentsAre(rows, slug);
      if slug !in Db.Slugs(rows) {
        return NotChosen;
      }
      if dependents != {} {
        return IsRequired(dependents);
      }
      ghost var before, texts := db.Contents(), maps.texts;
      var ok := Carry(tenant, name, rows, Minus(slug));
      answer := if ok then Changed(Minus(slug), Unused(Db.Without(rows, slug))) else WriteFailed;
      if ok {
        RemoveStands(before, texts, tenant, name, slug, db.Contents(), maps.texts);
      }
    }

    /** `view`'s question: is a change still waiting for the server's next start? */
    method ViewPending(name: string, report: Option<Db.Digest>) returns (pending: bool)
      modifies db
      ensures var seeded := Db.SeedPlugins(old(db.Contents()), name, defaults);
              && db.Contents() == (if report.Some? then Db.SetApplied(seeded, name, report.value) else seeded)
              && name in db.pluginStates && name in seeded.pluginStates
              && db.pluginStates[name].written == seeded.pluginStates[name].written
              && db.pluginStates[name].applied == (if report.Some? then report else seeded.pluginStates[name].applied)
              && (pending <==> db.pluginStates[name].written.Some? && db.pluginStates[name].written != db.pluginStates[name].applied)
    {
      var rows := EnsureRows(name);
      if report.Some? {
        db.SetApplied(name, report.value);
      }
      pending := Pending(db.pluginStates[name]);
    }
  }
}
