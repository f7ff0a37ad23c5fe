/** How the transactions of `db.py` go together: what one undoes, and what one leaves to another. */
module DbLaws {
  import opened Options
  import opened Db

  /** A won delete loses to no second one, and putting the status back undoes it. */
  lemma CompareAndSetOnce(d: Tables, name: string, current: Status)
    requires CanBeginDelete(d, name, current)
    ensures SetStatus(BeginDelete(d, name, current), name, current) == d
    ensures current != Deleting ==> !CanBeginDelete(BeginDelete(d, name, current), name, current)
  {
    assert SetStatus(BeginDelete(d, name, current), name, current).servers == d.servers;
  }

  /** Removing a server undoes its reservation, and the same reservation can be made again. */
  lemma RemovalUndoesReservation(d: Tables, name: string, tenant: string, maxServers: int)
    requires CanReserve(d, name, tenant, maxServers) && name !in d.plugins && name !in d.pluginStates
    ensures DeleteServer(ReserveServer(d, name, tenant, maxServers), name) == d
  {
    var back := DeleteServer(ReserveServer(d, name, tenant, maxServers), name);
    assert back.servers == d.servers && back.plugins == d.plugins && back.pluginStates == d.pluginStates;
  }

  /** One server's events never change what either scan finds for another. */
  lemma OthersEventsAreNotRead(d: Tables, e: Event, name: string, disk: set<BackupPath>)
    requires e.server != name
    ensures StatusBeforeDelete(Record(d, e).events, name) == StatusBeforeDelete(d.events, name)
    ensures BackupOnDisk(Record(d, e).events, name, disk) == BackupOnDisk(d.events, name, disk)
  {
    assert (d.events + [e])[..|d.events|] == d.events;
  }

  lemma {:induction false} WithoutTheNew(rows: seq<Plugin>, r: Plugin)
    requires r.slug !in Slugs(rows)
    ensures Without(rows + [r], r.slug) == rows
  {
    if rows == [] {
      assert [r][1..] == [];
      assert Without([], r.slug) == [];
    } else {
      assert rows[0] in rows;
      assert (rows + [r])[1..] == rows[1..] + [r];
      WithoutTheNew(rows[1..], r);
    }
  }

  /** Removing a plugin undoes adding it, and leaves every other server's selection alone. */
  lemma RemovalUndoesAdd(d: Tables, server: string, r: Plugin, other: string)
    requires r.slug !in Slugs(Rows(d, server)) && other != server
    ensures var back := RemovePlugin(AddPlugins(d, server, [r]), server, r.slug);
            Rows(back, server) == Rows(d, server) && Rows(back, other) == Rows(d, other)
  {
    assert InsertAll(Rows(d, server), [r]) == Rows(d, server) + [r] by {
      assert [r][1..] == [];
      assert InsertAll(Rows(d, server) + [r], []) == Rows(d, server) + [r];
    }
    WithoutTheNew(Rows(d, server), r);
  }

  /** The two hashes are written apart: neither order loses the other. */
  lemma HashesDoNotMix(d: Tables, server: string, written: Digest, applied: Digest)
    ensures SetWritten(SetApplied(d, server, applied), server, written)
         == SetApplied(SetWritten(d, server, written), server, applied)
  {
    if server in d.pluginStates {
      var a, b := SetWritten(SetApplied(d, server, applied), server, written).pluginStates,
                  SetApplied(SetWritten(d, server, written), server, applied).pluginStates;
      assert a == b;
    }
  }

  /** An accepted export uses the day up: deleting it, or its server with all its exports, hands nothing back. */
  lemma DeletingGivesNothingBack(d: Tables, id: string, server: string, tenant: string, limit: int, since: int, at: int)
    requires CanReserveExport(d, server, tenant, limit, since) && at > since
    ensures var d' := ReserveExport(d, id, server, tenant, limit, since, at);
            && CountExports(DeleteExport(d', id).events, tenant, since) == CountExports(d.events, tenant, since) + 1
            && CountExports(DeleteServer(DeleteExportsOf(d', server), server).events, tenant, since)
               == CountExports(d.events, tenant, since) + 1
  {
    assert (d.events + [Event(tenant, server, ExportRequested(id, at))])[..|d.events|] == d.events;
  }

  /** An export that is deleted stays deleted, whichever of its job's last update and the deletion comes first. */
  lemma UpdateRevivesNothing(d: Tables, id: string, status: ExportStatus, expires: Option<int>)
    ensures UpdateExport(DeleteExport(d, id), id, status, expires) == DeleteExport(d, id)
    ensures DeleteExport(UpdateExport(d, id, status, expires), id) == DeleteExport(d, id)
  {
    assert DeleteExport(UpdateExport(d, id, status, expires), id).exports == DeleteExport(d, id).exports;
  }

  // --- what the log says of backups ------------------------------------------------------

  /** A backup of this name, new or reused, whose file is there. */
  predicate OnDisk(e: Event, name: string, disk: set<BackupPath>) {
    e.server == name && (e.kind.BackupTaken? || e.kind.BackupReused?) && e.kind.path in disk
  }

  predicate Ends(e: Event, name: string) { e.server == name && e.kind == Deleted }

  /** The newest of them, with no removal of the name after it. */
  ghost predicate NewestOnDisk(events: seq<Event>, name: string, disk: set<BackupPath>, i: nat) {
    && i < |events| && OnDisk(events[i], name, disk)
    && forall j | i < j < |events| :: !OnDisk(events[j], name, disk) && !Ends(events[j], name)
  }

  lemma OneEventLater(events: seq<Event>, e: Event, name: string, disk: set<BackupPath>, i: nat)
    requires !OnDisk(e, name, disk) && !Ends(e, name)
    ensures NewestOnDisk(events + [e], name, disk, i) <==> NewestOnDisk(events, name, disk, i)
  {
    var more := events + [e];
    if NewestOnDisk(events, name, disk, i) {
      forall j | i < j < |more|
        ensures !OnDisk(more[j], name, disk) && !Ends(more[j], name)
      {
        assert j < |events| ==> more[j] == events[j];
      }
    }
    if NewestOnDisk(more, name, disk, i) {
      forall j | i < j < |events|
        ensures !OnDisk(events[j], name, disk) && !Ends(events[j], name)
      {
        assert more[j] == events[j];
      }
    }
  }

  /**
   The scan hands out a path exactly when it is the newest backup of the name with its
   file on disk, and no removal of the name came after it.
   */
  lemma {:induction false} NewestBackupIsTaken(events: seq<Event>, name: string, disk: set<BackupPath>, path: BackupPath)
    ensures BackupOnDisk(events, name, disk) == Some(path)
       <==> exists i: nat :: NewestOnDisk(events, name, disk, i) && events[i].kind.path == path
    decreases |events|
  {
    if events != [] {
      var last := |events| - 1;
      var init, e := events[..last], events[last];
      assert events == init + [e];
      if OnDisk(e, name, disk) {
        assert NewestOnDisk(events, name, disk, last);
      } else if !Ends(e, name) {
        NewestBackupIsTaken(init, name, disk, path);
        forall i: nat
          ensures NewestOnDisk(events, name, disk, i) <==> NewestOnDisk(init, name, disk, i)
        {
          OneEventLater(init, e, name, disk, i);
        }
      }
    }
  }
}
