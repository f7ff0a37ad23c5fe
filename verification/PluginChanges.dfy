/**
 Changing a server's plugin selection (`plugin_service.py`): what adding a
 plugin brings with it, and what removing one is refused for and leaves unused.
 The catalog is a finite map from slug to entry; its graph may have cycles.
 */
module PluginChanges {
  import opened Options
  import opened Db
  import opened SelectionText

  datatype Entry = Entry(tag: string, filename: string, url: string, needs: seq<string>)

  type Catalog = map<string, Entry>

  datatype Request = Request(slug: string, origin: Origin)

  datatype Added = Unknown(slug: string) | Brings(rows: seq<Plugin>)

  function SelectedFrom(slug: string, e: Entry, origin: Origin): Plugin {
    Plugin(slug, e.tag, e.filename, e.url, e.needs, origin)
  }

  function Dependencies(e: Entry): seq<Request> {
    seq(|e.needs|, i requires 0 <= i < |e.needs| => Request(e.needs[i], Dependency))
  }

  /** The worklist, from any point on. */
  function Close(catalog: Catalog, selected: set<string>, queue: seq<Request>, brought: seq<Plugin>): Added
    decreases catalog.Keys - selected, |queue|
  {
    if queue == [] then Brings(brought)
    else
      var r := queue[0];
      if r.slug in selected then Close(catalog, selected, queue[1..], brought)
      else if r.slug !in catalog then Unknown(r.slug)
      else
        Close(catalog, selected + {r.slug}, queue[1..] + Dependencies(catalog[r.slug]),
              brought + [SelectedFrom(r.slug, catalog[r.slug], r.origin)])
  }

  /** What `add` writes, or the slug it raises for. */
  function AddPlan(catalog: Catalog, rows: seq<Plugin>, slug: string): Added {
    if slug !in catalog then Unknown(slug) else Close(catalog, Slugs(rows), [Request(slug, Tenant)], [])
  }

  // --- reachability, independently --------------------------------------------------

  /** A chain of requirements from `root`, every link of it unselected, every link but the last in the catalog. */
  ghost predicate Chain(catalog: Catalog, selected: set<string>, root: string, p: seq<string>) {
    && p != [] && p[0] == root
    && (forall s | s in p :: s !in selected)
    && (forall i | 0 <= i < |p| - 1 :: p[i] in catalog && p[i + 1] in catalog[p[i]].needs)
  }

  ghost predicate Reaches(catalog: Catalog, selected: set<string>, root: string, slug: string) {
    exists p :: Chain(catalog, selected, root, p) && p[|p| - 1] == slug
  }

  lemma ReachesOnward(catalog: Catalog, selected: set<string>, root: string, slug: string, dep: string)
    requires Reaches(catalog, selected, root, slug) && slug in catalog && dep in catalog[slug].needs && dep !in selected
    ensures Reaches(catalog, selected, root, dep)
  {
    var p :| Chain(catalog, selected, root, p) && p[|p| - 1] == slug;
    assert Chain(catalog, selected, root, p + [dep]);
  }

  ghost predicate Asked(queue: seq<Request>, slug: string) {
    exists r :: r in queue && r.slug == slug
  }

  /** The dependencies of what has been brought are selected, brought or asked. */
  ghost predicate Followed(catalog: Catalog, before: set<string>, queue: seq<Request>, brought: seq<Plugin>) {
    forall b, d | b in brought && b.slug in catalog && d in catalog[b.slug].needs ::
      d in before || d in Slugs(brought) || Asked(queue, d)
  }

  /** The row is pinned to the catalog's release, and says why it is there. */
  predicate PinnedNow(catalog: Catalog, root: string, b: Plugin) {
    && b.slug in catalog
    && b.tag == catalog[b.slug].tag && b.filename == catalog[b.slug].filename && b.url == catalog[b.slug].url
    && b.needs == catalog[b.slug].needs
    && (if b.slug == root then b.addedBy == Tenant else b.addedBy == Dependency)
  }

  /** What holds each time round the worklist, started at `root` over `before`. */
  ghost predicate Working(catalog: Catalog, before: set<string>, root: string, queue: seq<Request>, brought: seq<Plugin>) {
    && Distinct(brought) && Slugs(brought) !! before
    && (forall b | b in brought ::
          && PinnedNow(catalog, root, b)
          && Reaches(catalog, before, root, b.slug))
    && Followed(catalog, before, queue, brought)
    && (forall r | r in queue && r.slug !in before :: Reaches(catalog, before, root, r.slug))
    && (root in before || root in Slugs(brought) || queue == [Request(root, Tenant)])
    && (root in before || root in Slugs(brought) ==> forall r | r in queue && r.slug == root :: r.slug in before + Slugs(brought))
    && (forall r | r in queue && r.slug != root :: r.origin == Dependency)
    && (brought == [] ==> forall r | r in queue :: r == Request(root, Tenant))
  }

  lemma TakeOneFollows(catalog: Catalog, before: set<string>, queue: seq<Request>, brought: seq<Plugin>, row: Plugin)
    requires queue != [] && queue[0].slug in catalog && row.slug == queue[0].slug
    requires Followed(catalog, before, queue, brought)
    ensures Followed(catalog, before, queue[1..] + Dependencies(catalog[row.slug]), brought + [row])
  {
    var brought', queue' := brought + [row], queue[1..] + Dependencies(catalog[row.slug]);
    assert row in brought' && forall b | b in brought :: b in brought';
    forall b, d | b in brought' && b.slug in catalog && d in catalog[b.slug].needs
      ensures d in before || d in Slugs(brought') || Asked(queue', d)
    {
      if b == row {
        var i :| 0 <= i < |catalog[row.slug].needs| && catalog[row.slug].needs[i] == d;
        assert Dependencies(catalog[row.slug])[i] in queue';
      } else if d in Slugs(brought) {
        assert d in Slugs(brought');
      } else if d !in before && d != row.slug {
        var r :| r in queue && r.slug == d;
        assert r in queue';
      }
    }
  }

  lemma TakeOne(catalog: Catalog, before: set<string>, root: string, queue: seq<Request>, brought: seq<Plugin>)
    requires Working(catalog, before, root, queue, brought) && queue != []
    requires queue[0].slug !in before + Slugs(brought) && queue[0].slug in catalog
    ensures var slug := queue[0].slug;
            var brought' := brought + [SelectedFrom(slug, catalog[slug], queue[0].origin)];
            Working(catalog, before, root, queue[1..] + Dependencies(catalog[slug]), brought')
            && Slugs(brought') == Slugs(brought) + {slug}
  {
    var slug := queue[0].slug;
    var row := SelectedFrom(slug, catalog[slug], queue[0].origin);
    var brought', queue' := brought + [row], queue[1..] + Dependencies(catalog[slug]);
    assert queue[0] in queue && row in brought';
    assert Slugs([row]) == {slug};
    SlugsOfConcat(brought, [row]);
    TakeOneFollows(catalog, before, queue, brought, row);
    forall r | r in queue' && r.slug !in before
      ensures Reaches(catalog, before, root, r.slug)
    {
      if r in Dependencies(catalog[slug]) {
        ReachesOnward(catalog, before, root, slug, r.slug);
      }
    }
  }

  lemma DropOne(catalog: Catalog, before: set<string>, root: string, queue: seq<Request>, brought: seq<Plugin>)
    requires Working(catalog, before, root, queue, brought) && queue != []
    requires queue[0].slug in before + Slugs(brought)
    ensures Working(catalog, before, root, queue[1..], brought)
  {
    assert forall r | r in queue[1..] :: r in queue;
    forall b, d | b in brought && d in catalog[b.slug].needs && d !in before && d !in Slugs(brought)
      ensures Asked(queue[1..], d)
    {
      var r :| r in queue && r.slug == d;
      assert r in queue[1..];
    }
  }

  /** The worklist ends with everything working and nothing asked, or at a slug it reached that nobody lists. */
  lemma {:induction false} CloseWorks(catalog: Catalog, before: set<string>, root: string, queue: seq<Request>, brought: seq<Plugin>)
    requires Working(catalog, before, root, queue, brought)
    ensures match Close(catalog, before + Slugs(brought), queue, brought)
            case Brings(rows) => Working(catalog, before, root, [], rows)
            case Unknown(slug) => slug !in catalog && Reaches(catalog, before, root, slug)
    decreases catalog.Keys - (before + Slugs(brought)), |queue|
  {
    if queue != [] {
      assert queue[0] in queue;
      var slug := queue[0].slug;
      if slug in before + Slugs(brought) {
        DropOne(catalog, before, root, queue, brought);
        CloseWorks(catalog, before, root, queue[1..], brought);
      } else if slug in catalog {
        TakeOne(catalog, before, root, queue, brought);
        var brought' := brought + [SelectedFrom(slug, catalog[slug], queue[0].origin)];
        assert before + Slugs(brought') == (before + Slugs(brought)) + {slug};
        CloseWorks(catalog, before, root, queue[1..] + Dependencies(catalog[slug]), brought');
      }
    }
  }

  /** With nothing left to ask, every chain is covered to its end. */
  lemma {:induction false} ChainIsCovered(catalog: Catalog, before: set<string>, root: string, rows: seq<Plugin>, p: seq<string>)
    requires Working(catalog, before, root, [], rows) && Chain(catalog, before, root, p)
    ensures p[|p| - 1] in Slugs(rows)
    decreases |p|
  {
    var last := |p| - 1;
    assert p[last] in p;
    if last > 0 {
      var q := p[..last];
      assert q[|q| - 1] == p[last - 1];
      ChainIsCovered(catalog, before, root, rows, q);
      var b :| b in rows && b.slug == p[last - 1];
      assert p[last] in catalog[b.slug].needs;
    }
  }

  lemma StartWorking(catalog: Catalog, rows: seq<Plugin>, slug: string)
    ensures Working(catalog, Slugs(rows), slug, [Request(slug, Tenant)], [])
  {
    if slug !in Slugs(rows) {
      assert Chain(catalog, Slugs(rows), slug, [slug]);
    }
  }

  /**
   Adding brings exactly the unselected plugins reachable from the request
   through unselected catalog entries, each once, pinned as the catalog has it
   now; it raises exactly when the request or something so reached is unlisted.
   */
  lemma AddBringsWhatIsReachable(catalog: Catalog, rows: seq<Plugin>, slug: string)
    ensures var plan := AddPlan(catalog, rows, slug);
            && (plan.Unknown? <==>
                  slug !in catalog || exists x :: Reaches(catalog, Slugs(rows), slug, x) && x !in catalog)
            && (plan.Unknown? ==> plan.slug !in catalog && (plan.slug == slug || Reaches(catalog, Slugs(rows), slug, plan.slug)))
            && (plan.Brings? ==>
                  && (forall x :: x in Slugs(plan.rows) <==> Reaches(catalog, Slugs(rows), slug, x))
                  && Distinct(plan.rows) && Slugs(plan.rows) !! Slugs(rows)
                  && forall b | b in plan.rows ::
                       && b.slug in catalog
                       && b.tag == catalog[b.slug].tag && b.filename == catalog[b.slug].filename
                       && b.url == catalog[b.slug].url && b.needs == catalog[b.slug].needs
                       && b.addedBy == if b.slug == slug then Tenant else Dependency)
  {
    var plan := AddPlan(catalog, rows, slug);
    if slug in catalog {
      StartWorking(catalog, rows, slug);
      assert Slugs(rows) + Slugs([]) == Slugs(rows);
      CloseWorks(catalog, Slugs(rows), slug, [Request(slug, Tenant)], []);
      if plan.Brings? {
        forall x | Reaches(catalog, Slugs(rows), slug, x)
          ensures x in Slugs(plan.rows)
        {
          var p :| Chain(catalog, Slugs(rows), slug, p) && p[|p| - 1] == x;
          ChainIsCovered(catalog, Slugs(rows), slug, plan.rows, p);
        }
      }
    }
  }

  // --- the order they come in ---------------------------------------------------------

  function SlugList(rows: seq<Plugin>): seq<string> { seq(|rows|, i requires 0 <= i < |rows| => rows[i].slug) }

  /** What these need, one plugin's after another's. */
  function NeedsOf(rows: seq<Plugin>): seq<string> {
    if rows == [] then [] else NeedsOf(rows[..|rows| - 1]) + rows[|rows| - 1].needs
  }

  /** Each slug where it is first met, but none of those selected before. */
  function Firsts(list: seq<string>, before: set<string>): seq<string> {
    if list == [] then []
    else
      var init, x := Firsts(list[..|list| - 1], before), list[|list| - 1];
      if x in before || x in init then init else init + [x]
  }

  lemma FirstsOneMore(list: seq<string>, x: string, before: set<string>)
    ensures Firsts(list + [x], before)
         == if x in before || x in Firsts(list, before) then Firsts(list, before) else Firsts(list, before) + [x]
  {
    assert (list + [x])[..|list|] == list;
  }

  function Asking(queue: seq<Request>): seq<string> { seq(|queue|, i requires 0 <= i < |queue| => queue[i].slug) }

  /** What has been met, and the queue, are the request and what those brought need. */
  ghost predicate InOrder(before: set<string>, root: string, queue: seq<Request>, brought: seq<Plugin>, met: seq<string>) {
    met + Asking(queue) == [root] + NeedsOf(brought) && Firsts(met, before) == SlugList(brought)
  }

  lemma MeetOne(before: set<string>, root: string, queue: seq<Request>, brought: seq<Plugin>, met: seq<string>)
    requires InOrder(before, root, queue, brought, met) && queue != []
    ensures (met + [queue[0].slug]) + Asking(queue[1..]) == [root] + NeedsOf(brought)
    ensures Firsts(met + [queue[0].slug], before)
         == if queue[0].slug in before + Slugs(brought) then SlugList(brought) else SlugList(brought) + [queue[0].slug]
  {
    var slug := queue[0].slug;
    FirstsOneMore(met, slug, before);
    SlugsAreListed(brought, slug);
    assert Asking(queue) == [slug] + Asking(queue[1..]);
  }

  lemma BringOne(before: set<string>, root: string, queue: seq<Request>, brought: seq<Plugin>, met: seq<string>,
                 row: Plugin, e: Entry)
    requires met + Asking(queue) == [root] + NeedsOf(brought) && Firsts(met, before) == SlugList(brought) + [row.slug]
    requires row.needs == e.needs
    ensures InOrder(before, root, queue + Dependencies(e), brought + [row], met)
  {
    OneMoreBrought(brought, row);
    assert Asking(queue + Dependencies(e)) == Asking(queue) + e.needs;
    assert met + (Asking(queue) + e.needs) == (met + Asking(queue)) + e.needs;
    assert [root] + (NeedsOf(brought) + e.needs) == ([root] + NeedsOf(brought)) + e.needs;
  }

  lemma {:induction false} CloseInOrder(catalog: Catalog, before: set<string>, root: string, queue: seq<Request>,
                                        brought: seq<Plugin>, met: seq<string>)
    requires InOrder(before, root, queue, brought, met)
    ensures var plan := Close(catalog, before + Slugs(brought), queue, brought);
            plan.Brings? ==> SlugList(plan.rows) == Firsts([root] + NeedsOf(plan.rows), before)
    decreases catalog.Keys - (before + Slugs(brought)), |queue|
  {
    if queue == [] {
      assert met + Asking(queue) == met;
    } else {
      var slug := queue[0].slug;
      MeetOne(before, root, queue, brought, met);
      if slug in before + Slugs(brought) {
        CloseInOrder(catalog, before, root, queue[1..], brought, met + [slug]);
      } else if slug in catalog {
        var row := SelectedFrom(slug, catalog[slug], queue[0].origin);
        BringOne(before, root, queue[1..], brought, met + [slug], row, catalog[slug]);
        OneMoreBrought(brought, row);
        assert before + Slugs(brought + [row]) == (before + Slugs(brought)) + {slug};
        CloseInOrder(catalog, before, root, queue[1..] + Dependencies(catalog[slug]), brought + [row], met + [slug]);
      }
    }
  }

  lemma SlugsAreListed(rows: seq<Plugin>, slug: string)
    ensures slug in SlugList(rows) <==> slug in Slugs(rows)
  {
    if slug in Slugs(rows) {
      var i :| 0 <= i < |rows| && rows[i].slug == slug;
      assert SlugList(rows)[i] == slug;
    }
  }

  lemma OneMoreBrought(brought: seq<Plugin>, row: Plugin)
    ensures NeedsOf(brought + [row]) == NeedsOf(brought) + row.needs
    ensures SlugList(brought + [row]) == SlugList(brought) + [row.slug]
    ensures Slugs(brought + [row]) == Slugs(brought) + {row.slug}
  {
    var all := brought + [row];
    assert all[..|brought|] == brought;
    assert row in all && forall b | b in brought :: b in all;
  }

  /**
   They come in the order a reader meets them: the request, then what the first one
   needs, then what the second needs, each where it is first met.
   */
  lemma BroughtInOrder(catalog: Catalog, rows: seq<Plugin>, slug: string)
    requires AddPlan(catalog, rows, slug).Brings?
    ensures var brought := AddPlan(catalog, rows, slug).rows;
            SlugList(brought) == Firsts([slug] + NeedsOf(brought), Slugs(rows))
  {
    var queue := [Request(slug, Tenant)];
    assert Asking(queue) == [slug] && [] + [slug] == [slug] + NeedsOf([]);
    assert Slugs(rows) + Slugs([]) == Slugs(rows);
    CloseInOrder(catalog, Slugs(rows), slug, queue, [], []);
  }

  // --- keeping a selection closed ------------------------------------------------------

  ghost predicate Closed(rows: seq<Plugin>) {
    forall r, d | r in rows && d in r.needs :: d in Slugs(rows)
  }

  lemma SlugsOfConcat(a: seq<Plugin>, b: seq<Plugin>)
    ensures Slugs(a + b) == Slugs(a) + Slugs(b)
    ensures Distinct(a) && Distinct(b) && Slugs(a) !! Slugs(b) ==> Distinct(a + b)
  {
    forall s | s in Slugs(a) + Slugs(b)
      ensures s in Slugs(a + b)
    {
      var r :| (r in a || r in b) && r.slug == s;
      assert r in a + b;
    }
    assert forall i | 0 <= i < |a| :: a[i].slug in Slugs(a);
    assert forall i | 0 <= i < |b| :: b[i].slug in Slugs(b);
  }

  lemma AddOfSelected(catalog: Catalog, rows: seq<Plugin>, slug: string)
    requires slug in catalog && slug in Slugs(rows)
    ensures AddPlan(catalog, rows, slug) == Brings([])
  {
    var queue := [Request(slug, Tenant)];
    assert queue[1..] == [];
    assert Close(catalog, Slugs(rows), [], []) == Brings([]);
  }

  /** Adding keeps a selection closed under its requirements and free of duplicates, and a second add brings nothing. */
  lemma AddKeepsClosed(catalog: Catalog, rows: seq<Plugin>, slug: string)
    requires Distinct(rows) && AddPlan(catalog, rows, slug).Brings?
    ensures var all := rows + AddPlan(catalog, rows, slug).rows;
            && Distinct(all) && slug in Slugs(all)
            && (Closed(rows) ==> Closed(all))
            && AddPlan(catalog, all, slug) == Brings([])
  {
    var brought := AddPlan(catalog, rows, slug).rows;
    StartWorking(catalog, rows, slug);
    assert Slugs(rows) + Slugs([]) == Slugs(rows);
    CloseWorks(catalog, Slugs(rows), slug, [Request(slug, Tenant)], []);
    SlugsOfConcat(rows, brought);
    AddOfSelected(catalog, rows + brought, slug);
    FollowedIsClosed(catalog, rows, slug, brought);
  }

  /** What was brought is followed, so nothing it needs is missing. */
  lemma FollowedIsClosed(catalog: Catalog, rows: seq<Plugin>, root: string, brought: seq<Plugin>)
    requires Working(catalog, Slugs(rows), root, [], brought)
    ensures Closed(rows) ==> Closed(rows + brought)
  {
    SlugsOfConcat(rows, brought);
    if Closed(rows) {
      forall r, d | r in rows + brought && d in r.needs
        ensures d in Slugs(rows + brought)
      {
        if r in brought {
          assert PinnedNow(catalog, root, r);
        }
      }
    }
  }

  // --- removing -------------------------------------------------------------------------

  datatype Removal = NotSelected | Required(dependents: set<string>) | Leaves(rows: seq<Plugin>)

  function Dependents(rows: seq<Plugin>, slug: string): set<string> {
    set r | r in rows && slug in r.needs && r.slug != slug :: r.slug
  }

  function RemovePlan(rows: seq<Plugin>, slug: string): Removal {
    if slug !in Slugs(rows) then NotSelected
    else if Dependents(rows, slug) != {} then Required(Dependents(rows, slug))
    else Leaves(Without(rows, slug))
  }

  /** The dependencies nothing selected needs, offered for removal. */
  function Unused(rows: seq<Plugin>): set<string> {
    set r | r in rows && r.addedBy.Dependency? && forall o | o in rows :: r.slug !in o.needs :: r.slug
  }

  lemma {:induction false} WithoutMembers(rows: seq<Plugin>, slug: string)
    ensures forall r :: r in Without(rows, slug) <==> r in rows && r.slug != slug
  {
    if rows != [] {
      WithoutMembers(rows[1..], slug);
      assert rows == [rows[0]] + rows[1..];
    }
  }

  lemma {:induction false} WithoutIsDistinct(rows: seq<Plugin>, slug: string)
    requires Distinct(rows)
    ensures Distinct(Without(rows, slug))
  {
    if rows != [] {
      var tail := rows[1..];
      WithoutIsDistinct(tail, slug);
      WithoutMembers(tail, slug);
      var rest := Without(tail, slug);
      forall i | 0 <= i < |rest|
        ensures rest[i].slug != rows[0].slug
      {
        assert rest[i] in tail;
        var j :| 0 <= j < |tail| && tail[j] == rest[i];
        assert rows[j + 1] == tail[j];
      }
    }
  }

  lemma WithoutKeepsTheRest(rows: seq<Plugin>, slug: string)
    ensures forall r :: r in Without(rows, slug) <==> r in rows && r.slug != slug
    ensures Slugs(Without(rows, slug)) == Slugs(rows) - {slug}
  {
    WithoutMembers(rows, slug);
  }

  /** Removing keeps a selection closed. */
  lemma RemoveKeepsClosed(rows: seq<Plugin>, slug: string)
    requires Closed(rows) && RemovePlan(rows, slug).Leaves?
    ensures Closed(RemovePlan(rows, slug).rows)
  {
    WithoutKeepsTheRest(rows, slug);
    var rest := Without(rows, slug);
    forall r, d | r in rest && d in r.needs
      ensures d in Slugs(rest)
    {
      NoDependent(rows, slug, r);
      assert d in Slugs(rows);
    }
  }

  lemma NoDependent(rows: seq<Plugin>, slug: string, r: Plugin)
    requires Dependents(rows, slug) == {} && r in rows && r.slug != slug
    ensures slug !in r.needs
  {
    assert slug in r.needs ==> r.slug in Dependents(rows, slug);
  }

  /** One removal after another; none if any is refused. */
  function RemoveAll(rows: seq<Plugin>, order: seq<string>): Option<seq<Plugin>>
    decreases |order|
  {
    if order == [] then Some(rows)
    else
      match RemovePlan(rows, order[0])
      case Leaves(rest) => RemoveAll(rest, order[1..])
      case _ => None
  }

  ghost predicate NoRepeats(order: seq<string>) {
    forall i, j | 0 <= i < j < |order| :: order[i] != order[j]
  }

  /** A slug offered as unused is not refused, and the others are still offered after it. */
  lemma UnusedGoes(rows: seq<Plugin>, slug: string)
    requires slug in Unused(rows)
    ensures RemovePlan(rows, slug) == Leaves(Without(rows, slug))
    ensures Unused(rows) - {slug} <= Unused(Without(rows, slug))
    ensures Slugs(Without(rows, slug)) == Slugs(rows) - {slug}
  {
    WithoutKeepsTheRest(rows, slug);
    var rest := Without(rows, slug);
    forall s | s in Unused(rows) - {slug}
      ensures s in Unused(rest)
    {
      var r :| r in rows && r.addedBy.Dependency? && (forall o | o in rows :: r.slug !in o.needs) && r.slug == s;
      assert r in rest;
    }
  }

  function Named(order: seq<string>): set<string> { set s | s in order }

  lemma NamedFirst(order: seq<string>)
    requires order != []
    ensures Named(order) == {order[0]} + Named(order[1..])
    ensures NoRepeats(order) ==> NoRepeats(order[1..]) && order[0] !in Named(order[1..])
  {
    assert order == [order[0]] + order[1..];
  }

  /** Everything offered as unused can go, all of it, one after another, in any order. */
  lemma {:induction false} UnusedGoInAnyOrder(rows: seq<Plugin>, order: seq<string>)
    requires NoRepeats(order) && Named(order) <= Unused(rows)
    ensures RemoveAll(rows, order).Some?
    ensures Slugs(RemoveAll(rows, order).value) == Slugs(rows) - Named(order)
    decreases |order|
  {
    if order != [] {
      NamedFirst(order);
      UnusedGoes(rows, order[0]);
      UnusedGoInAnyOrder(Without(rows, order[0]), order[1..]);
    }
  }

  predicate Blocks(r: Plugin, slug: string) { slug in r.needs && r.slug != slug }

  /** Whatever needs a plugin has gone before it. */
  ghost predicate InTurn(rows: seq<Plugin>, order: seq<string>) {
    forall i, r | 0 <= i < |order| && r in rows && Blocks(r, order[i]) :: r.slug in Named(order[..i])
  }

  lemma InTurnFirst(rows: seq<Plugin>, order: seq<string>)
    requires order != []
    ensures InTurn(rows, order) <==> Dependents(rows, order[0]) == {} && InTurn(Without(rows, order[0]), order[1..])
  {
    var first, others := order[0], order[1..];
    WithoutKeepsTheRest(rows, first);
    forall i | 0 <= i < |others|
      ensures others[i] == order[i + 1] && Named(order[..i + 1]) == {first} + Named(others[..i])
    {
      NamedFirst(order[..i + 1]);
      assert order[..i + 1][1..] == others[..i];
    }
    if InTurn(rows, order) {
      forall r | r in rows
        ensures !Blocks(r, first)
      {
        assert Named(order[..0]) == {};
      }
      forall i, r | 0 <= i < |others| && r in Without(rows, first) && Blocks(r, others[i])
        ensures r.slug in Named(others[..i])
      {
        assert Blocks(r, order[i + 1]);
      }
    }
    if Dependents(rows, first) == {} && InTurn(Without(rows, first), others) {
      forall i, r | 0 <= i < |order| && r in rows && Blocks(r, order[i])
        ensures r.slug in Named(order[..i])
      {
        if r.slug != first {
          NoDependent(rows, first, r);
          assert Blocks(r, others[i - 1]);
        }
      }
    }
  }

  /** A run of removals goes through exactly when whatever needs a plugin goes before it. */
  lemma {:induction false} RemovalsInTurn(rows: seq<Plugin>, order: seq<string>)
    requires NoRepeats(order) && Named(order) <= Slugs(rows)
    ensures RemoveAll(rows, order).Some? <==> InTurn(rows, order)
    decreases |order|
  {
    if order != [] {
      NamedFirst(order);
      InTurnFirst(rows, order);
      WithoutKeepsTheRest(rows, order[0]);
      if Dependents(rows, order[0]) == {} {
        RemovalsInTurn(Without(rows, order[0]), order[1..]);
      }
    }
  }

  /** The rows that a run of removals leaves are the ones it did not name. */
  function Keep(rows: seq<Plugin>, gone: set<string>): seq<Plugin> {
    if rows == [] then []
    else (if rows[0].slug in gone then [] else [rows[0]]) + Keep(rows[1..], gone)
  }

  lemma {:induction false} KeepWithout(rows: seq<Plugin>, slug: string, gone: set<string>)
    ensures Keep(Without(rows, slug), gone) == Keep(rows, gone + {slug})
  {
    if rows != [] {
      KeepWithout(rows[1..], slug, gone);
      var w := Without(rows[1..], slug);
      if rows[0].slug != slug {
        assert ([rows[0]] + w)[1..] == w;
      } else {
        assert [] + w == w;
      }
    }
  }

  lemma {:induction false} KeepAll(rows: seq<Plugin>, gone: set<string>)
    requires Slugs(rows) !! gone
    ensures Keep(rows, gone) == rows
  {
    if rows != [] {
      assert rows == [rows[0]] + rows[1..];
      assert rows[0].slug in Slugs(rows);
      assert Slugs(rows[1..]) <= Slugs(rows);
      KeepAll(rows[1..], gone);
    }
  }

  lemma {:induction false} KeepNone(rows: seq<Plugin>, gone: set<string>)
    requires Slugs(rows) <= gone
    ensures Keep(rows, gone) == []
  {
    if rows != [] {
      assert rows == [rows[0]] + rows[1..];
      assert rows[0].slug in Slugs(rows);
      assert Slugs(rows[1..]) <= Slugs(rows);
      KeepNone(rows[1..], gone);
    }
  }

  lemma {:induction false} KeepConcat(a: seq<Plugin>, b: seq<Plugin>, gone: set<string>)
    ensures Keep(a + b, gone) == Keep(a, gone) + Keep(b, gone)
  {
    if a == [] {
      assert a + b == b;
    } else {
      assert (a + b)[1..] == a[1..] + b;
      KeepConcat(a[1..], b, gone);
    }
  }

  lemma {:induction false} RemoveAllKeeps(rows: seq<Plugin>, order: seq<string>)
    requires RemoveAll(rows, order).Some?
    ensures RemoveAll(rows, order).value == Keep(rows, Named(order))
    decreases |order|
  {
    if order == [] {
      KeepAll(rows, Named(order));
    } else {
      RemoveAllKeeps(Without(rows, order[0]), order[1..]);
      KeepWithout(rows, order[0], Named(order[1..]));
      NamedFirst(order);
      assert Named(order) == Named(order[1..]) + {order[0]};
    }
  }

  /** The hash `view` compares with the one last applied. */
  predicate Pending(s: PluginState) { s.written.Some? && s.written != s.applied }

  /**
   Adding a plugin and then removing all it added, in any order that is not
   refused, gives the very rows back, so the text, its hash and the pending
   answer are the earlier ones.
   */
  lemma AddThenRemoveRestores(catalog: Catalog, rows: seq<Plugin>, slug: string, order: seq<string>, applied: Option<Digest>)
    requires Distinct(rows) && AddPlan(catalog, rows, slug).Brings?
    requires Named(order) == Slugs(AddPlan(catalog, rows, slug).rows)
    requires RemoveAll(rows + AddPlan(catalog, rows, slug).rows, order).Some?
    ensures var back := RemoveAll(rows + AddPlan(catalog, rows, slug).rows, order).value;
            && back == rows
            && Pending(PluginState(Some(Sha256(SelectionJson(back))), applied))
               == Pending(PluginState(Some(Sha256(SelectionJson(rows))), applied))
  {
    var brought := AddPlan(catalog, rows, slug).rows;
    var gone := Named(order);
    AddBringsWhatIsReachable(catalog, rows, slug);
    RemoveAllKeeps(rows + brought, order);
    KeepConcat(rows, brought, gone);
    KeepAll(rows, gone);
    KeepNone(brought, gone);
  }

  /** In between, the text and hence the hash do differ: the change is pending on a server that had applied the earlier one. */
  lemma AddIsPending(catalog: Catalog, rows: seq<Plugin>, slug: string)
    requires Distinct(rows) && AddPlan(catalog, rows, slug).Brings?
    ensures var all := rows + AddPlan(catalog, rows, slug).rows;
            Pending(PluginState(Some(Sha256(SelectionJson(all))), Some(Sha256(SelectionJson(rows)))))
            <==> slug !in Slugs(rows)
  {
    var brought := AddPlan(catalog, rows, slug).rows;
    AddKeepsClosed(catalog, rows, slug);
    AddBringsWhatIsReachable(catalog, rows, slug);
    TextIsThePins(rows + brought, rows);
    if slug in Slugs(rows) {
      var queue := [Request(slug, Tenant)];
      assert queue[1..] == [];
      assert brought == Close(catalog, Slugs(rows), [], []).rows;
      assert rows + brought == rows;
    } else {
      assert Chain(catalog, Slugs(rows), slug, [slug]);
      var b :| b in brought && b.slug == slug;
      assert b in rows + brought;
      assert PinOf(b) in PinSet(rows + brought);
      assert PinOf(b) !in PinSet(rows);
    }
  }
}
