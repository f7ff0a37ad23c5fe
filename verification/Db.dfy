/**
 The SQLite state (`db.py`): the tables as a value, each transaction as a
 function on them, and the `Database` whose methods run those transactions.

 A transaction is one atomic step.  Only the columns some decision reads are
 kept.  A time is kept where it is read: on the events and rows the rolling
 limits count, in whole seconds, as the stored text has it.
 */
module Db {
  import opened Options

  datatype Status = Provisioning | Ready | Failed | Deleting

  datatype ServerRow = ServerRow(tenant: string, status: Status)

  /** `<server>-<stamp>.tar.gz`; the stamp's alphabet keeps two servers' paths apart. */
  datatype BackupPath = BackupPath(server: string, stamp: string)

  /** An event's kind with the detail it carries. */
  datatype Kind =
    | CreateRequested | CreateDone | CreateFailed | CreateInterrupted
    | DeleteRequested(was: Status) | DeleteFailed | DeleteInterrupted | Deleted
    | BackupTaken(path: BackupPath) | BackupReused(path: BackupPath) | BackupSkipped | BackupFailed
    | ExportRequested(id: string, at: int) | ExportDone(id: string) | Other(what: string)

  datatype Event = Event(tenant: string, server: string, kind: Kind)

  datatype Origin = Tenant | Dependency | Default

  datatype Plugin = Plugin(
    slug: string, tag: string, filename: string, url: string, needs: seq<string>, addedBy: Origin)

  /** A hash that does not collide is its text. */
  datatype Digest = Sha256(text: string)

  datatype PluginState = PluginState(written: Option<Digest>, applied: Option<Digest>)

  datatype ExportStatus = Queued | Running | Done | Broken

  datatype ExportRow = ExportRow(server: string, tenant: string, status: ExportStatus, expires: Option<int>)

  datatype FeedbackRow = FeedbackRow(username: string, createdAt: int)

  datatype Tables = Tables(
    servers: map<string, ServerRow>,
    events: seq<Event>,
    plugins: map<string, seq<Plugin>>,
    pluginStates: map<string, PluginState>,
    exports: map<string, ExportRow>,
    feedback: seq<FeedbackRow>)

  const EMPTY := Tables(map[], [], map[], map[], map[], [])

  // --- time -------------------------------------------------------------------

  const MICROS: int := 1_000_000
  const DAY: int := 86_400
  const HOUR: int := 3_600

  /** `_iso`: microseconds dropped.  Stored times compare as text the way these compare. */
  function Iso(micros: int): int { micros / MICROS }

  // --- servers ----------------------------------------------------------------

  function ServersOf(d: Tables, tenant: string): set<string> {
    set n | n in d.servers && d.servers[n].tenant == tenant
  }

  predicate HasProvisioning(d: Tables, tenant: string) {
    exists n :: n in d.servers && d.servers[n] == ServerRow(tenant, Provisioning)
  }

  predicate CanReserve(d: Tables, name: string, tenant: string, maxServers: int) {
    name !in d.servers && !HasProvisioning(d, tenant) && |ServersOf(d, tenant)| < maxServers
  }

  function ReserveServer(d: Tables, name: string, tenant: string, maxServers: int): Tables {
    if CanReserve(d, name, tenant, maxServers)
    then d.(servers := d.servers[name := ServerRow(tenant, Provisioning)]) else d
  }

  function SetStatus(d: Tables, name: string, status: Status): Tables {
    if name in d.servers then d.(servers := d.servers[name := d.servers[name].(status := status)]) else d
  }

  predicate CanBeginDelete(d: Tables, name: string, current: Status) {
    name in d.servers && d.servers[name].status == current
  }

  /** The compare-and-set: it compares the name and the status. */
  function BeginDelete(d: Tables, name: string, current: Status): Tables {
    if CanBeginDelete(d, name, current) then SetStatus(d, name, Deleting) else d
  }

  /** The row and its plugin selection; its events and exports stay. */
  function DeleteServer(d: Tables, name: string): Tables {
    d.(servers := d.servers - {name}, plugins := d.plugins - {name}, pluginStates := d.pluginStates - {name})
  }

  // --- events -----------------------------------------------------------------

  function Record(d: Tables, e: Event): Tables {
    d.(events := d.events + [e])
  }

  /** The backward scan for the newest accepted delete's detail. */
  function StatusBeforeDelete(events: seq<Event>, name: string): (was: Status)
    ensures was.Ready? || was.Failed?
  {
    if events == [] then Ready
    else
      var e := events[|events| - 1];
      if e.server == name && e.kind.DeleteRequested?
      then (if e.kind.was == Failed then Failed else Ready)
      else StatusBeforeDelete(events[..|events| - 1], name)
  }

  predicate IsBackup(k: Kind) { k.BackupTaken? || k.BackupReused? }

  /** The backward scan for the newest backup still on disk; it stops at the last `delete`. */
  function BackupOnDisk(events: seq<Event>, name: string, disk: set<BackupPath>): Option<BackupPath> {
    if events == [] then None
    else
      var e := events[|events| - 1];
      if e.server == name && e.kind.Deleted? then None
      else if e.server == name && IsBackup(e.kind) && e.kind.path in disk then Some(e.kind.path)
      else BackupOnDisk(events[..|events| - 1], name, disk)
  }

  // --- plugin selection ---------------------------------------------------------

  function Slugs(rows: seq<Plugin>): set<string> { set r | r in rows :: r.slug }

  function Rows(d: Tables, server: string): seq<Plugin> {
    if server in d.plugins then d.plugins[server] else []
  }

  /** `INSERT OR IGNORE`, row by row: a slug already there keeps its row. */
  function InsertAll(rows: seq<Plugin>, added: seq<Plugin>): seq<Plugin>
    decreases |added|
  {
    if added == [] then rows
    else if added[0].slug in Slugs(rows) then InsertAll(rows, added[1..])
    else InsertAll(rows + [added[0]], added[1..])
  }

  function Without(rows: seq<Plugin>, slug: string): seq<Plugin> {
    if rows == [] then []
    else (if rows[0].slug == slug then [] else [rows[0]]) + Without(rows[1..], slug)
  }

  function AddPlugins(d: Tables, server: string, added: seq<Plugin>): Tables {
    d.(plugins := d.plugins[server := InsertAll(Rows(d, server), added)])
  }

  function SeedPlugins(d: Tables, server: string, rows: seq<Plugin>): Tables {
    if server in d.pluginStates then d
    else AddPlugins(d.(pluginStates := d.pluginStates[server := PluginState(None, None)]), server, rows)
  }

  function RemovePlugin(d: Tables, server: string, slug: string): Tables {
    d.(plugins := d.plugins[server := Without(Rows(d, server), slug)])
  }

  function SetWritten(d: Tables, server: string, hash: Digest): Tables {
    if server in d.pluginStates
    then d.(pluginStates := d.pluginStates[server := d.pluginStates[server].(written := Some(hash))]) else d
  }

  function SetApplied(d: Tables, server: string, hash: Digest): Tables {
    if server in d.pluginStates
    then d.(pluginStates := d.pluginStates[server := d.pluginStates[server].(applied := Some(hash))]) else d
  }

  // --- exports and feedback -----------------------------------------------------

  predicate Active(s: ExportStatus) { s.Queued? || s.Running? }

  predicate ActiveFor(d: Tables, server: string, tenant: string) {
    exists id :: id in d.exports && d.exports[id].server == server && d.exports[id].tenant == tenant
                 && Active(d.exports[id].status)
  }

  /** `COUNT(*)` of a tenant's accepted exports stamped after `since`. */
  function CountExports(events: seq<Event>, tenant: string, since: int): nat {
    if events == [] then 0
    else
      var e := events[|events| - 1];
      CountExports(events[..|events| - 1], tenant, since)
      + if e.tenant == tenant && e.kind.ExportRequested? && e.kind.at > since then 1 else 0
  }

  predicate CanReserveExport(d: Tables, server: string, tenant: string, limit: int, since: int) {
    !ActiveFor(d, server, tenant) && CountExports(d.events, tenant, since) < limit
  }

  /** The queued row and the event that counts it, together, or neither. */
  function ReserveExport(d: Tables, id: string, server: string, tenant: string, limit: int, since: int, at: int): Tables {
    if CanReserveExport(d, server, tenant, limit, since)
    then Record(d.(exports := d.exports[id := ExportRow(server, tenant, Queued, None)]),
                Event(tenant, server, ExportRequested(id, at)))
    else d
  }

  function UpdateExport(d: Tables, id: string, status: ExportStatus, expires: Option<int>): Tables {
    if id in d.exports
    then d.(exports := d.exports[id := d.exports[id].(status := status, expires := expires)]) else d
  }

  function DeleteExport(d: Tables, id: string): Tables {
    d.(exports := d.exports - {id})
  }

  function ExportsOf(d: Tables, server: string): set<string> {
    set id | id in d.exports && d.exports[id].server == server
  }

  function DeleteExportsOf(d: Tables, server: string): Tables {
    d.(exports := d.exports - ExportsOf(d, server))
  }

  function CountFeedback(rows: seq<FeedbackRow>, username: string, since: int): nat {
    if rows == [] then 0
    else
      var f := rows[|rows| - 1];
      CountFeedback(rows[..|rows| - 1], username, since)
      + if f.username == username && f.createdAt >= since then 1 else 0
  }

  function ReserveFeedback(d: Tables, username: string, limit: int, since: int, at: int): Tables {
    if CountFeedback(d.feedback, username, since) < limit
    then d.(feedback := d.feedback + [FeedbackRow(username, at)]) else d
  }
}
