/** When what an add brought can be removed again (`plugin_service.py`), and when it never can. */
module PluginUndo {
  import opened Options
  import opened Db
  import opened SelectionText
  import opened PluginChanges

  /** Plugins each of which another of them needs: a cycle, or several. */
  ghost predicate Knot(rows: seq<Plugin>, c: set<string>) {
    c != {} && forall s {:trigger HeldBy(rows, c, s)} | s in c :: HeldBy(rows, c, s)
  }

  ghost predicate HeldBy(rows: seq<Plugin>, c: set<string>, s: string) {
    exists r :: r in rows && r.slug in c && Blocks(r, s)
  }

  /** Something that is to stay needs one of these. */
  ghost predicate NeededOutside(rows: seq<Plugin>, gone: set<string>) {
    exists r, s :: r in rows && r.slug !in gone && s in gone && Blocks(r, s)
  }

  ghost predicate Untangled(rows: seq<Plugin>, gone: set<string>) {
    forall c | c <= gone :: !Knot(rows, c)
  }

  /** Requirements going round: each plugin is needed by the next, and the last by the first. */
  ghost predicate Cycle(rows: seq<Plugin>, p: seq<string>) {
    p != [] && forall i | 0 <= i < |p| :: NeededBy(rows, p[i], p[if i + 1 < |p| then i + 1 else 0])
  }

  ghost predicate NeededBy(rows: seq<Plugin>, s: string, by': string) {
    exists r :: r in rows && r.slug == by' && Blocks(r, s)
  }

  lemma ACycleIsAKnot(rows: seq<Plugin>, p: seq<string>)
    requires Cycle(rows, p)
    ensures Knot(rows, Named(p))
  {
    assert p[0] in Named(p);
    forall s | s in Named(p)
      ensures HeldBy(rows, Named(p), s)
    {
      var i :| 0 <= i < |p| && p[i] == s;
      var next := if i + 1 < |p| then i + 1 else 0;
      assert NeededBy(rows, p[i], p[next]);
      var r :| r in rows && r.slug == p[next] && Blocks(r, s);
      assert r.slug in Named(p);
    }
  }

  /** Each plugin of the line is needed by the one after it. */
  ghost predicate Line(rows: seq<Plugin>, p: seq<string>) {
    forall i | 0 <= i < |p| - 1 :: NextHolds(rows, p, i)
  }

  ghost predicate NextHolds(rows: seq<Plugin>, p: seq<string>, i: nat)
    requires i < |p| - 1
  {
    NeededBy(rows, p[i], p[i + 1])
  }

  /** And every knot has a cycle in it: follow who holds whom until someone comes again. */
  lemma {:induction false} AKnotHasACycle(rows: seq<Plugin>, c: set<string>, line: seq<string>) returns (p: seq<string>)
    requires Knot(rows, c) && line != [] && Line(rows, line) && Named(line) <= c
    ensures Cycle(rows, p) && Named(p) <= c
    decreases c - Named(line)
  {
    var last := line[|line| - 1];
    assert last in Named(line) && HeldBy(rows, c, last);
    var r :| r in rows && r.slug in c && Blocks(r, last);
    assert NeededBy(rows, last, r.slug);
    if r.slug in line {
      var k :| 0 <= k < |line| && line[k] == r.slug;
      p := line[k..];
      forall i | 0 <= i < |p|
        ensures NeededBy(rows, p[i], p[if i + 1 < |p| then i + 1 else 0])
      {
        if i + 1 < |p| {
          assert NextHolds(rows, line, k + i);
        }
      }
      assert forall s | s in p :: s in Named(line);
    } else {
      var longer := line + [r.slug];
      forall i | 0 <= i < |longer| - 1
        ensures NextHolds(rows, longer, i)
      {
        if i + 1 < |line| {
          assert NextHolds(rows, line, i);
        }
      }
      assert Named(longer) == Named(line) + {r.slug};
      p := AKnotHasACycle(rows, c, longer);
    }
  }

  /** No knot among them is no cycle among them. */
  lemma UntangledIsAcyclic(rows: seq<Plugin>, gone: set<string>)
    ensures Untangled(rows, gone) <==> !exists p :: Cycle(rows, p) && Named(p) <= gone
  {
    if p :| Cycle(rows, p) && Named(p) <= gone {
      ACycleIsAKnot(rows, p);
    }
    if !Untangled(rows, gone) {
      var c :| c <= gone && Knot(rows, c);
      var s :| s in c;
      assert Named([s]) == {s};
      var p := AKnotHasACycle(rows, c, [s]);
    }
  }

  lemma BlockedIsRefused(rows: seq<Plugin>, slug: string, r: Plugin)
    requires r in rows && Blocks(r, slug)
    ensures !RemovePlan(rows, slug).Leaves?
  {
    assert r.slug in Dependents(rows, slug);
  }

  /** Removing a plugin outside a knot, or none, neither ties nor unties it. */
  lemma KnotOutlives(rows: seq<Plugin>, c: set<string>, gone: string)
    ensures Knot(Without(rows, gone), c) ==> Knot(rows, c)
    ensures gone !in c && Knot(rows, c) ==> Knot(Without(rows, gone), c)
  {
    forall s
      ensures HeldBy(Without(rows, gone), c, s) ==> HeldBy(rows, c, s)
      ensures gone !in c && HeldBy(rows, c, s) ==> HeldBy(Without(rows, gone), c, s)
    {
      HoldOutlives(rows, c, s, gone);
    }
  }

  lemma HoldOutlives(rows: seq<Plugin>, c: set<string>, s: string, gone: string)
    ensures HeldBy(Without(rows, gone), c, s) ==> HeldBy(rows, c, s)
    ensures gone !in c && HeldBy(rows, c, s) ==> HeldBy(Without(rows, gone), c, s)
  {
    WithoutMembers(rows, gone);
  }

  /** No removals ever touch a knot: any that name one of its plugins are refused. */
  lemma {:induction false} AKnotStays(rows: seq<Plugin>, c: set<string>, order: seq<string>, s: string)
    requires Knot(rows, c) && s in c && s in order
    ensures RemoveAll(rows, order).None?
    decreases |order|
  {
    var first := order[0];
    if first in c {
      assert HeldBy(rows, c, first);
      var r :| r in rows && r.slug in c && Blocks(r, first);
      BlockedIsRefused(rows, first, r);
    } else if RemovePlan(rows, first).Leaves? {
      assert order == [first] + order[1..];
      KnotOutlives(rows, c, first);
      AKnotStays(Without(rows, first), c, order[1..], s);
    }
  }

  /** Nor what a plugin that stays needs. */
  lemma {:induction false} TheNeededStays(rows: seq<Plugin>, order: seq<string>, r: Plugin, s: string)
    requires r in rows && r.slug !in Named(order) && s in Named(order) && Blocks(r, s)
    ensures RemoveAll(rows, order).None?
    decreases |order|
  {
    var first := order[0];
    NamedFirst(order);
    if first == s {
      BlockedIsRefused(rows, first, r);
    } else if RemovePlan(rows, first).Leaves? {
      WithoutKeepsTheRest(rows, first);
      TheNeededStays(Without(rows, first), order[1..], r, s);
    }
  }

  /** One of them is needed by nothing. */
  lemma OneIsFree(rows: seq<Plugin>, gone: set<string>) returns (free: string)
    requires gone != {} && gone <= Slugs(rows) && Untangled(rows, gone) && !NeededOutside(rows, gone)
    ensures free in gone && RemovePlan(rows, free) == Leaves(Without(rows, free))
  {
    assert !Knot(rows, gone);
    free :| free in gone && !HeldBy(rows, gone, free);
    forall r | r in rows
      ensures !Blocks(r, free)
    {
    }
    assert Dependents(rows, free) == {};
  }

  lemma OneLess(rows: seq<Plugin>, gone: set<string>, free: string)
    requires gone <= Slugs(rows) && Untangled(rows, gone) && !NeededOutside(rows, gone) && free in gone
    ensures var rest, left := Without(rows, free), gone - {free};
            left <= Slugs(rest) && Untangled(rest, left) && !NeededOutside(rest, left)
  {
    var rest, left := Without(rows, free), gone - {free};
    WithoutKeepsTheRest(rows, free);
    forall c | c <= left
      ensures !Knot(rest, c)
    {
      assert c <= gone;
      KnotOutlives(rows, c, free);
    }
    forall r, s | r in rest && r.slug !in left && s in left
      ensures !Blocks(r, s)
    {
      assert r in rows && r.slug !in gone;
    }
  }

  /** Untangled, and needed by nothing that stays, they can all go. */
  lemma {:induction false} AllCanGo(rows: seq<Plugin>, gone: set<string>) returns (order: seq<string>)
    requires gone <= Slugs(rows) && Untangled(rows, gone) && !NeededOutside(rows, gone)
    ensures NoRepeats(order) && Named(order) == gone && RemoveAll(rows, order).Some?
    decreases |gone|
  {
    if gone == {} {
      order := [];
    } else {
      var free := OneIsFree(rows, gone);
      OneLess(rows, gone, free);
      var others := AllCanGo(Without(rows, free), gone - {free});
      order := [free] + others;
      FirstAndOthers(free, others);
      assert order[1..] == others;
    }
  }

  lemma FirstAndOthers(first: string, others: seq<string>)
    requires NoRepeats(others) && first !in Named(others)
    ensures NoRepeats([first] + others) && Named([first] + others) == {first} + Named(others)
  {
    NamedFirst([first] + others);
    assert ([first] + others)[1..] == others;
    assert forall i | 0 <= i < |others| :: others[i] in Named(others);
  }

  /** Some order of removing all of these goes through. */
  ghost predicate CanGo(rows: seq<Plugin>, gone: set<string>) {
    exists order :: NoRepeats(order) && Named(order) == gone && RemoveAll(rows, order).Some?
  }

  /** Selected plugins can all be removed, in some order, exactly when nothing that stays needs one and no knot is among them. */
  lemma CanGoExactly(rows: seq<Plugin>, gone: set<string>)
    requires gone <= Slugs(rows)
    ensures CanGo(rows, gone) <==> !NeededOutside(rows, gone) && Untangled(rows, gone)
  {
    if CanGo(rows, gone) {
      var order :| NoRepeats(order) && Named(order) == gone && RemoveAll(rows, order).Some?;
      if NeededOutside(rows, gone) {
        var r, s :| r in rows && r.slug !in gone && s in gone && Blocks(r, s);
        TheNeededStays(rows, order, r, s);
      }
      forall c | c <= gone
        ensures !Knot(rows, c)
      {
        if Knot(rows, c) {
          var s :| s in c;
          AKnotStays(rows, c, order, s);
        }
      }
    } else if !NeededOutside(rows, gone) && Untangled(rows, gone) {
      var order := AllCanGo(rows, gone);
    }
  }

  /**
   What an add brought can be taken back, in some order and with the old selection
   left, exactly when no brought plugins need each other in a cycle and nothing that was
   selected before needs one of them; in a selection closed under its requirements the
   second holds of itself.
   */
  lemma AddCanBeUndoneExactly(catalog: Catalog, rows: seq<Plugin>, slug: string)
    requires Distinct(rows) && AddPlan(catalog, rows, slug).Brings?
    ensures var brought := AddPlan(catalog, rows, slug).rows;
            var gone := Slugs(brought);
            && (CanGo(rows + brought, gone)
                <==> !NeededOutside(rows + brought, gone) && !exists p :: Cycle(rows + brought, p) && Named(p) <= gone)
            && (Closed(rows) ==> !NeededOutside(rows + brought, gone))
            && (forall order | Named(order) == gone && RemoveAll(rows + brought, order).Some? ::
                  RemoveAll(rows + brought, order).value == rows)
  {
    var brought := AddPlan(catalog, rows, slug).rows;
    var gone := Slugs(brought);
    AddBringsWhatIsReachable(catalog, rows, slug);
    SlugsOfConcat(rows, brought);
    CanGoExactly(rows + brought, gone);
    UntangledIsAcyclic(rows + brought, gone);
    if Closed(rows) {
      OldNeedsOld(rows, brought);
    }
    forall order | Named(order) == gone && RemoveAll(rows + brought, order).Some?
      ensures RemoveAll(rows + brought, order).value == rows
    {
      AddThenRemoveRestores(catalog, rows, slug, order, None);
    }
  }

  lemma OldNeedsOld(rows: seq<Plugin>, brought: seq<Plugin>)
    requires Closed(rows) && Slugs(brought) !! Slugs(rows)
    ensures !NeededOutside(rows + brought, Slugs(brought))
  {
    forall r, s | r in rows + brought && r.slug !in Slugs(brought) && s in Slugs(brought)
      ensures !Blocks(r, s)
    {
      assert r in rows || r in brought;
    }
  }

  // --- an add that cannot be taken back ------------------------------------------------

  /** Two plugins that need each other, as the catalog has them. */
  predicate NeedEachOther(catalog: Catalog, a: string, b: string) {
    a != b && a in catalog && b in catalog && catalog[a].needs == [b] && catalog[b].needs == [a]
  }

  /** Whatever is selected, adding one of them brings both. */
  lemma BothAreBrought(catalog: Catalog, rows: seq<Plugin>, a: string, b: string)
    requires NeedEachOther(catalog, a, b) && a !in Slugs(rows) && b !in Slugs(rows)
    ensures AddPlan(catalog, rows, a)
         == Brings([SelectedFrom(a, catalog[a], Tenant), SelectedFrom(b, catalog[b], Dependency)])
  {
    var ra, rb := SelectedFrom(a, catalog[a], Tenant), SelectedFrom(b, catalog[b], Dependency);
    var one, two := Slugs(rows) + {a}, Slugs(rows) + {a} + {b};
    var first, second, third := Request(a, Tenant), Request(b, Dependency), Request(a, Dependency);
    assert [first][1..] + Dependencies(catalog[a]) == [second];
    assert [second][1..] + Dependencies(catalog[b]) == [third];
    assert [third][1..] == [] && [] + [ra] == [ra] && [ra] + [rb] == [ra, rb];
    assert Close(catalog, two, [third], [ra, rb]) == Close(catalog, two, [], [ra, rb]) == Brings([ra, rb]);
    assert Close(catalog, one, [second], [ra]) == Brings([ra, rb]);
  }

  /** And they are there for good. */
  lemma ABroughtCycleStays(catalog: Catalog, rows: seq<Plugin>, a: string, b: string)
    requires NeedEachOther(catalog, a, b) && a !in Slugs(rows) && b !in Slugs(rows)
    ensures AddPlan(catalog, rows, a).Brings?
    ensures var all := rows + AddPlan(catalog, rows, a).rows;
            Cycle(all, [a, b]) && forall order | a in order || b in order :: RemoveAll(all, order).None?
  {
    BothAreBrought(catalog, rows, a, b);
    var brought := AddPlan(catalog, rows, a).rows;
    var all := rows + brought;
    assert brought[0] in all && brought[1] in all;
    assert Blocks(brought[0], b) && Blocks(brought[1], a);
    assert NeededBy(all, a, b) && NeededBy(all, b, a);
    ACycleIsAKnot(all, [a, b]);
    forall order | a in order || b in order
      ensures RemoveAll(all, order).None?
    {
      AKnotStays(all, Named([a, b]), order, if a in order then a else b);
    }
  }
}
