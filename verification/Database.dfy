/**
 The `Database` object (`db.py`): its tables are fields, and each method is one
 transaction.  What a transaction does is the function of the same name in `Db`.
 */
module Database {
  import opened Options
  import Db

  ghost predicate HasSlug(rows: seq<Db.Plugin>, slug: string) { exists x :: x in rows && x.slug == slug }

  ghost predicate FirstAt(added: seq<Db.Plugin>, r: Db.Plugin, i: nat) {
    i < |added| && added[i] == r && forall j | 0 <= j < i :: added[j].slug != r.slug
  }

  /** The first of the new rows of a slug that no row has yet. */
  ghost predicate FirstNew(rows: seq<Db.Plugin>, added: seq<Db.Plugin>, r: Db.Plugin) {
    !HasSlug(rows, r.slug) && exists i: nat :: FirstAt(added, r, i)
  }

  lemma FirstAtLater(added: seq<Db.Plugin>, r: Db.Plugin, i: nat)
    requires added != []
    ensures FirstAt(added, r, i + 1) <==> FirstAt(added[1..], r, i) && added[0].slug != r.slug
  {
    var others := added[1..];
    if FirstAt(added, r, i + 1) {
      forall j | 0 <= j < i
        ensures others[j].slug != r.slug
      {
        assert others[j] == added[j + 1];
      }
    }
    if FirstAt(others, r, i) && added[0].slug != r.slug {
      forall j | 0 <= j < i + 1
        ensures added[j].slug != r.slug
      {
        assert j > 0 ==> added[j] == others[j - 1];
      }
    }
  }

  /** The first of them is the one in front, or comes later and is of another slug. */
  lemma FirstOrLater(added: seq<Db.Plugin>, r: Db.Plugin)
    requires added != []
    ensures (exists i: nat :: FirstAt(added, r, i))
       <==> r == added[0] || (r.slug != added[0].slug && exists i: nat :: FirstAt(added[1..], r, i))
  {
    if r == added[0] {
      assert FirstAt(added, r, 0);
    }
    if i: nat :| FirstAt(added, r, i) {
      if i > 0 {
        FirstAtLater(added, r, i - 1);
      }
    }
    if i: nat :| FirstAt(added[1..], r, i) {
      FirstAtLater(added, r, i);
    }
  }

  /** `INSERT OR IGNORE`: the rows there stay, and of each new slug the first row comes in. */
  lemma {:induction false} InsertedAre(rows: seq<Db.Plugin>, added: seq<Db.Plugin>)
    ensures forall r :: r in Db.InsertAll(rows, added) <==> r in rows || FirstNew(rows, added, r)
    decreases |added|
  {
    if added != [] {
      var first := added[0];
      var rows' := if first.slug in Db.Slugs(rows) then rows else rows + [first];
      InsertedAre(rows', added[1..]);
      forall r
        ensures r in rows' || FirstNew(rows', added[1..], r) <==> r in rows || FirstNew(rows, added, r)
      {
        FirstOrLater(added, r);
        OneRowMore(rows, first, r.slug);
      }
    }
  }

  lemma OneRowMore(rows: seq<Db.Plugin>, first: Db.Plugin, slug: string)
    ensures HasSlug(rows, slug) <==> slug in Db.Slugs(rows)
    ensures HasSlug(rows + [first], slug) <==> HasSlug(rows, slug) || slug == first.slug
  {
    if HasSlug(rows, slug) {
      var x :| x in rows && x.slug == slug;
      assert x in rows + [first];
    }
    assert first in rows + [first];
  }

  /** Where the log has the tenant's starts later than this. */
  ghost function StartsSince(events: seq<Db.Event>, tenant: string, since: int): set<nat> {
    set i: nat | i < |events| && events[i].tenant == tenant && events[i].kind.ExportRequested? && events[i].kind.at > since
  }

  lemma {:induction false} StartsAreCounted(events: seq<Db.Event>, tenant: string, since: int)
    ensures Db.CountExports(events, tenant, since) == |StartsSince(events, tenant, since)|
  {
    if events != [] {
      var last := |events| - 1;
      var init, e := events[..last], events[last];
      StartsAreCounted(init, tenant, since);
      var counts := e.tenant == tenant && e.kind.ExportRequested? && e.kind.at > since;
      assert StartsSince(events, tenant, since) == StartsSince(init, tenant, since) + if counts then {last} else {};
    }
  }

  /** Where the table has the user's messages from this on. */
  ghost function MessagesSince(rows: seq<Db.FeedbackRow>, username: string, since: int): set<nat> {
    set i: nat | i < |rows| && rows[i].username == username && rows[i].createdAt >= since
  }

  lemma {:induction false} MessagesAreCounted(rows: seq<Db.FeedbackRow>, username: string, since: int)
    ensures Db.CountFeedback(rows, username, since) == |MessagesSince(rows, username, since)|
  {
    if rows != [] {
      var last := |rows| - 1;
      var init, f := rows[..last], rows[last];
      MessagesAreCounted(init, username, since);
      var counts := f.username == username && f.createdAt >= since;
      assert MessagesSince(rows, username, since) == MessagesSince(init, username, since) + if counts then {last} else {};
    }
  }

  class Database {
    var servers: map<string, Db.ServerRow>
    var events: seq<Db.Event>
    var plugins: map<string, seq<Db.Plugin>>
    var pluginStates: map<string, Db.PluginState>
    var exports: map<string, Db.ExportRow>
    var feedback: seq<Db.FeedbackRow>

    function Contents(): Db.Tables
      reads this
    {
      Db.Tables(servers, events, plugins, pluginStates, exports, feedback)
    }

    constructor ()
      ensures Contents() == Db.EMPTY
    {
      servers, events, plugins, pluginStates, exports, feedback := map[], [], map[], map[], map[], [];
    }

    // --- servers ----------------------------------------------------------------

    method ReserveServer(name: string, tenant: string, maxServers: int) returns (reserved: bool)
      modifies this
      ensures reserved <==>
                && name !in old(servers)
                && (forall n | n in old(servers) && old(servers)[n].tenant == tenant :: old(servers)[n].status != Db.Provisioning)
                && |set n | n in old(servers) && old(servers)[n].tenant == tenant| < maxServers
      ensures servers == if reserved then old(servers)[name := Db.ServerRow(tenant, Db.Provisioning)] else old(servers)
      ensures reserved == Db.CanReserve(old(Contents()), name, tenant, maxServers)
      ensures Contents() == Db.ReserveServer(old(Contents()), name, tenant, maxServers)
    {
      reserved := Db.CanReserve(Contents(), name, tenant, maxServers);
      if reserved {
        servers := servers[name := Db.ServerRow(tenant, Db.Provisioning)];
      }
    }

    method GetServer(name: string) returns (row: Option<Db.ServerRow>)
      ensures row == if name in servers then Some(servers[name]) else None
    {
      row := if name in servers then Some(servers[name]) else None;
    }

    /** The tenant's create in flight, if any. */
    method ProvisioningServer(tenant: string) returns (name: Option<string>)
      ensures name.Some? <==> Db.HasProvisioning(Contents(), tenant)
      ensures name.Some? ==> name.value in servers && servers[name.value] == Db.ServerRow(tenant, Db.Provisioning)
    {
      if n :| n in servers && servers[n] == Db.ServerRow(tenant, Db.Provisioning) {
        name := Some(n);
      } else {
        name := None;
      }
    }

    /** The names with a status, each once; their order is not modelled. */
    method ListWithStatus(status: Db.Status) returns (names: seq<string>)
      ensures forall n :: n in names <==> n in servers && servers[n].status == status
      ensures forall i, j | 0 <= i < j < |names| :: names[i] != names[j]
    {
      var left := set n | n in servers && servers[n].status == status;
      names := [];
      while left != {}
        invariant forall n :: n in left || n in names <==> n in servers && servers[n].status == status
        invariant forall n | n in left :: n !in names
        invariant forall i, j | 0 <= i < j < |names| :: names[i] != names[j]
        decreases left
      {
        var n :| n in left;
        left, names := left - {n}, names + [n];
      }
    }

    method SetStatus(name: string, status: Db.Status)
      modifies this
      ensures Contents() == Db.SetStatus(old(Contents()), name, status)
    {
      if name in servers {
        servers := servers[name := servers[name].(status := status)];
      }
    }

    method BeginDelete(name: string, current: Db.Status) returns (won: bool)
      modifies this
      ensures won <==> name in old(servers) && old(servers)[name].status == current
      ensures servers == if won then old(servers)[name := Db.ServerRow(old(servers)[name].tenant, Db.Deleting)] else old(servers)
      ensures won == Db.CanBeginDelete(old(Contents()), name, current)
      ensures Contents() == Db.BeginDelete(old(Contents()), name, current)
    {
      won := name in servers && servers[name].status == current;
      if won {
        servers := servers[name := servers[name].(status := Db.Deleting)];
      }
    }

    method DeleteServer(name: string)
      modifies this
      ensures Contents() == Db.DeleteServer(old(Contents()), name)
    {
      servers := servers - {name};
      plugins := plugins - {name};
      pluginStates := pluginStates - {name};
    }

    method Record(tenant: string, server: string, kind: Db.Kind)
      modifies this
      ensures Contents() == Db.Record(old(Contents()), Db.Event(tenant, server, kind))
    {
      events := events + [Db.Event(tenant, server, kind)];
    }

    // --- plugin selection ---------------------------------------------------------

    /** `_insert_plugin` for each row in turn. */
    method AddPlugins(server: string, rows: seq<Db.Plugin>)
      modifies this
      ensures Contents() == Db.AddPlugins(old(Contents()), server, rows)
      ensures server in plugins && forall r :: r in plugins[server] <==>
                r in Db.Rows(old(Contents()), server) || FirstNew(Db.Rows(old(Contents()), server), rows, r)
    {
      InsertedAre(Db.Rows(Contents(), server), rows);
      var table := Db.Rows(Contents(), server);
      for i := 0 to |rows|
        invariant Db.InsertAll(table, rows[i..]) == Db.InsertAll(Db.Rows(old(Contents()), server), rows)
        invariant Contents() == old(Contents())
      {
        assert rows[i..][0] == rows[i] && rows[i..][1..] == rows[i + 1..];
        if rows[i].slug !in Db.Slugs(table) {
          table := table + [rows[i]];
        }
      }
      plugins := plugins[server := table];
    }

    method SeedPlugins(server: string, rows: seq<Db.Plugin>) returns (seeded: bool)
      modifies this
      ensures seeded == (server !in old(pluginStates))
      ensures pluginStates == if seeded then old(pluginStates)[server := Db.PluginState(None, None)] else old(pluginStates)
      ensures !seeded ==> plugins == old(plugins)
      ensures Contents() == Db.SeedPlugins(old(Contents()), server, rows)
    {
      seeded := server !in pluginStates;
      if seeded {
        pluginStates := pluginStates[server := Db.PluginState(None, None)];
        AddPlugins(server, rows);
      }
    }

    method RemovePlugin(server: string, slug: string)
      modifies this
      ensures Contents() == Db.RemovePlugin(old(Contents()), server, slug)
    {
      plugins := plugins[server := Db.Without(Db.Rows(Contents(), server), slug)];
    }

    method SetWritten(server: string, hash: Db.Digest)
      modifies this
      ensures Contents() == Db.SetWritten(old(Contents()), server, hash)
    {
      if server in pluginStates {
        pluginStates := pluginStates[server := pluginStates[server].(written := Some(hash))];
      }
    }

    method SetApplied(server: string, hash: Db.Digest)
      modifies this
      ensures Contents() == Db.SetApplied(old(Contents()), server, hash)
    {
      if server in pluginStates {
        pluginStates := pluginStates[server := pluginStates[server].(applied := Some(hash))];
      }
    }

    // --- exports and feedback -----------------------------------------------------

    method ReserveExport(id: string, server: string, tenant: string, limit: int, since: int, at: int)
      returns (reserved: bool)
      modifies this
      ensures reserved <==>
                && (forall i | i in old(exports) && old(exports)[i].server == server && old(exports)[i].tenant == tenant ::
                      old(exports)[i].status != Db.Queued && old(exports)[i].status != Db.Running)
                && |StartsSince(old(events), tenant, since)| < limit
      ensures exports == if reserved then old(exports)[id := Db.ExportRow(server, tenant, Db.Queued, None)] else old(exports)
      ensures events == if reserved then old(events) + [Db.Event(tenant, server, Db.ExportRequested(id, at))] else old(events)
      ensures reserved == Db.CanReserveExport(old(Contents()), server, tenant, limit, since)
      ensures Contents() == Db.ReserveExport(old(Contents()), id, server, tenant, limit, since, at)
    {
      StartsAreCounted(events, tenant, since);
      reserved := Db.CanReserveExport(Contents(), server, tenant, limit, since);
      if reserved {
        exports := exports[id := Db.ExportRow(server, tenant, Db.Queued, None)];
        events := events + [Db.Event(tenant, server, Db.ExportRequested(id, at))];
      }
    }

    method UpdateExport(id: string, status: Db.ExportStatus, expires: Option<int>)
      modifies this
      ensures Contents() == Db.UpdateExport(old(Contents()), id, status, expires)
    {
      if id in exports {
        exports := exports[id := exports[id].(status := status, expires := expires)];
      }
    }

    method DeleteExport(id: string)
      modifies this
      ensures Contents() == Db.DeleteExport(old(Contents()), id)
    {
      exports := exports - {id};
    }

    method DeleteExportsOf(server: string) returns (ids: set<string>)
      modifies this
      ensures forall id :: id in ids <==> id in old(exports) && old(exports)[id].server == server
      ensures exports == old(exports) - ids
      ensures ids == Db.ExportsOf(old(Contents()), server)
      ensures Contents() == Db.DeleteExportsOf(old(Contents()), server)
    {
      ids := Db.ExportsOf(Contents(), server);
      exports := exports - ids;
    }

    method ReserveFeedback(username: string, limit: int, since: int, at: int) returns (stored: bool)
      modifies this
      ensures stored <==> |MessagesSince(old(feedback), username, since)| < limit
      ensures feedback == if stored then old(feedback) + [Db.FeedbackRow(username, at)] else old(feedback)
      ensures Contents() == Db.ReserveFeedback(old(Contents()), username, limit, since, at)
    {
      MessagesAreCounted(feedback, username, since);
      stored := Db.CountFeedback(feedback, username, since) < limit;
      if stored {
        feedback := feedback + [Db.FeedbackRow(username, at)];
      }
    }
  }
}
