/**
  The inter-cluster edge index: `search.intercluster_edges()` and its two row triggers keep
  the 'interCluster' rows of `search.edges` equal to a join of `search.resources` with itself.

  A statement changes rows first and then fires one AFTER ROW trigger per changed row; every
  firing sees the final table (PostgreSQL 16 documentation, section 39.2).
 */
module EdgeIndex {
  import opened Text
  import opened Values

  // ---------------------------------------------------------------------------------------
  // SQL values. A comparison in a WHERE clause keeps a row only when it is true, and a
  // comparison with NULL never is.
  // ---------------------------------------------------------------------------------------

  datatype SqlText = Null | Val(v: string)

  predicate SqlEq(a: SqlText, b: SqlText) { a.Val? && b.Val? && a.v == b.v }

  predicate SqlNe(a: SqlText, b: SqlText) { a.Val? && b.Val? && a.v != b.v }

  function Coalesce(a: SqlText, default: string): string {
    if a.Val? then a.v else default
  }

  /** `split_part(a, '/', n)`: NULL for NULL, '' past the last part. */
  function SplitPart(a: SqlText, n: nat): SqlText
    requires n >= 1
  {
    if a.Null? then Null
    else
      var parts := Split(a.v, '/');
      Val(if n <= |parts| then parts[n - 1] else "")
  }

  const SUBSCRIPTION := Val("Subscription")
  const INTER_CLUSTER := "interCluster"

  /** A row of search.resources, with the keys of its JSON `data` that the trigger reads. */
  datatype Row = Row(uid: string, cluster: SqlText, kind: SqlText,
                     namespace: SqlText, name: SqlText, hosting: SqlText)

  /** uid is the primary key. */
  type Table = map<string, Row>

  /** The primary key of search.edges, and the columns it determines. */
  datatype EdgeKey = EdgeKey(source: string, dest: string, edgeType: string)
  datatype EdgeColumns = EdgeColumns(sourceKind: SqlText, destKind: SqlText, cluster: SqlText)
  type Edges = map<EdgeKey, EdgeColumns>

  function Have(edges: Edges, k: EdgeKey): Option<EdgeColumns> {
    if k in edges then Some(edges[k]) else None
  }

  function Cross(s: string, d: string): EdgeKey {
    EdgeKey(s, d, INTER_CLUSTER)
  }

  // ---------------------------------------------------------------------------------------
  // What the index should hold
  // ---------------------------------------------------------------------------------------

  /** `s` was deployed to its cluster by the hub subscription `d`. */
  predicate Joined(s: Row, d: Row) {
    && s.uid != d.uid && SqlNe(s.cluster, d.cluster)
    && s.kind == SUBSCRIPTION && d.kind == SUBSCRIPTION
    && s.hosting.Val? && d.hosting.Null?
    && SqlEq(SplitPart(s.hosting, 1), d.namespace)
    && SqlEq(SplitPart(s.hosting, 2), d.name)
  }

  function Want(t: Table, s: string, d: string): Option<EdgeColumns> {
    if s in t && d in t && Joined(t[s], t[d])
    then Some(EdgeColumns(SUBSCRIPTION, SUBSCRIPTION, t[s].cluster)) else None
  }

  ghost predicate Exact(edges: Edges, t: Table) {
    forall s, d :: Have(edges, Cross(s, d)) == Want(t, s, d)
  }

  predicate ValidTable(t: Table) {
    forall u | u in t :: t[u].uid == u
  }

  // ---------------------------------------------------------------------------------------
  // Statements
  // ---------------------------------------------------------------------------------------

  datatype Change = Insert(new_: Row) | Update(old_: Row, new_: Row) | Delete(old_: Row) {
    function Uid(): string {
      if Insert? then new_.uid else old_.uid
    }
  }

  /** The row a change leaves behind. */
  function After(c: Change): Option<Row> {
    if c.Delete? then None else Some(c.new_)
  }

  predicate ValidChange(t: Table, c: Change) {
    match c
    case Insert(n) => n.uid !in t
    case Update(o, n) => o.uid in t && t[o.uid] == o && n.uid == o.uid
    case Delete(o) => o.uid in t && t[o.uid] == o
  }

  /** A statement changes each row at most once, and an insert meets no existing key. */
  predicate ValidBatch(t: Table, batch: seq<Change>) {
    && (forall i | 0 <= i < |batch| :: ValidChange(t, batch[i]))
    && (forall i, j | 0 <= i < j < |batch| :: batch[i].Uid() != batch[j].Uid())
  }

  function Apply(t: Table, c: Change): Table {
    if c.Delete? then t - {c.old_.uid} else t[c.new_.uid := c.new_]
  }

  function ApplyAll(t: Table, batch: seq<Change>): Table
    decreases batch
  {
    if batch == [] then t else ApplyAll(Apply(t, batch[0]), batch[1..])
  }

  ghost predicate Untouched(u: string, changes: seq<Change>) {
    forall c | c in changes :: c.Uid() != u
  }

  /** What a batch does to the table, row by row. */
  ghost predicate Reflects(t: Table, t': Table, batch: seq<Change>) {
    && (forall c | c in batch ::
          (c.Uid() in t' <==> After(c).Some?) && (After(c).Some? ==> t'[c.Uid()] == After(c).value))
    && (forall u | Untouched(u, batch) ::
          (u in t' <==> u in t) && (u in t ==> t'[u] == t[u]))
  }

  lemma {:induction false} ApplyAllReflects(t: Table, batch: seq<Change>)
    requires ValidTable(t) && ValidBatch(t, batch)
    ensures ValidTable(ApplyAll(t, batch))
    ensures Reflects(t, ApplyAll(t, batch), batch)
    decreases batch
  {
    if batch != [] {
      var c, rest, t1 := batch[0], batch[1..], Apply(t, batch[0]);
      assert ValidChange(t, c);
      forall i | 0 <= i < |rest| ensures ValidChange(t1, rest[i]) {
        assert rest[i] == batch[i + 1] && ValidChange(t, batch[i + 1]);
        assert batch[0].Uid() != batch[i + 1].Uid();
      }
      ApplyAllReflects(t1, rest);
      assert Untouched(c.Uid(), rest);
      forall d | d in batch && d != c ensures d in rest {
        var i :| 0 <= i < |batch| && batch[i] == d;
        assert d == rest[i - 1];
      }
      forall u | Untouched(u, batch) ensures Untouched(u, rest) && u != c.Uid() {
        assert forall d :: d in rest ==> d in batch;
      }
    }
  }

  // ---------------------------------------------------------------------------------------
  // The trigger
  // ---------------------------------------------------------------------------------------

  /** The WHEN clauses of `resources_upsert` and `resources_delete`. */
  predicate Fires(c: Change) {
    if c.Delete? then SqlEq(c.old_.kind, SUBSCRIPTION) else SqlEq(c.new_.kind, SUBSCRIPTION)
  }

  predicate Rehosted(c: Change)
    requires c.Update?
  {
    Coalesce(c.new_.hosting, "") != Coalesce(c.old_.hosting, "")
  }

  /** The trigger fires and does not return before touching search.edges. */
  predicate Loud(c: Change) {
    Fires(c) && (c.Update? ==> Rehosted(c))
  }

  /** `DELETE ... WHERE sourceid=uid OR destid=uid AND edgetype='interCluster'`: AND binds first. */
  function Cleared(edges: Edges, uid: string): Edges {
    map k | k in edges && !(k.source == uid || (k.dest == uid && k.edgeType == INTER_CLUSTER)) :: edges[k]
  }

  predicate SelectedDest(n: Row, res: Row) {
    && SqlEq(res.kind, SUBSCRIPTION) && n.hosting.Val?
    && SqlEq(SplitPart(n.hosting, 1), res.namespace)
    && SqlEq(SplitPart(n.hosting, 2), res.name)
    && res.uid != n.uid && SqlNe(res.cluster, n.cluster) && res.hosting.Null?
  }

  predicate SelectedSource(n: Row, res: Row) {
    && SqlEq(res.kind, SUBSCRIPTION)
    && SqlEq(SplitPart(res.hosting, 1), n.namespace)
    && SqlEq(SplitPart(res.hosting, 2), n.name)
    && res.uid != n.uid && SqlNe(res.cluster, n.cluster)
  }

  function EdgesFrom(t: Table, n: Row): Edges {
    map u | u in t && SelectedDest(n, t[u]) :: Cross(n.uid, u) := EdgeColumns(n.kind, t[u].kind, n.cluster)
  }

  function EdgesTo(t: Table, n: Row): Edges {
    map u | u in t && SelectedSource(n, t[u]) :: Cross(u, n.uid) := EdgeColumns(t[u].kind, n.kind, t[u].cluster)
  }

  /** `INSERT ... ON CONFLICT DO NOTHING`: a row already there stays. */
  function InsertMissing(edges: Edges, rows: Edges): Edges {
    rows + edges
  }

  function Connected(edges: Edges, t: Table, n: Row): Edges {
    InsertMissing(edges, if n.hosting.Val? then EdgesFrom(t, n) else EdgesTo(t, n))
  }

  function Fire(edges: Edges, t: Table, c: Change): Edges {
    if !Loud(c) then edges
    else match c
      case Insert(n) => Connected(edges, t, n)
      case Update(o, n) => Connected(Cleared(edges, o.uid), t, n)
      case Delete(o) => Cleared(edges, o.uid)
  }

  function FireAll(edges: Edges, t: Table, firing: seq<Change>): Edges {
    if firing == [] then edges
    else Fire(FireAll(edges, t, firing[..|firing| - 1]), t, firing[|firing| - 1])
  }

  ghost predicate LoudIn(u: string, changes: seq<Change>) {
    exists c | c in changes :: Loud(c) && c.Uid() == u
  }

  /** Sources whose every edge, of any type, the statement removes. */
  ghost predicate ClearedIn(u: string, changes: seq<Change>) {
    exists c | c in changes :: Loud(c) && !c.Insert? && c.Uid() == u
  }

  // ---------------------------------------------------------------------------------------
  // One firing
  // ---------------------------------------------------------------------------------------

  /** A connected row's edges, in both directions, are the ones the table calls for. */
  lemma ConnectedIsRight(edges: Edges, t: Table, n: Row, s: string, d: string)
    requires ValidTable(t) && n.uid in t && t[n.uid] == n && n.kind == SUBSCRIPTION
    requires s == n.uid || d == n.uid
    requires Have(edges, Cross(s, d)) in {None, Want(t, s, d)}
    ensures Have(Connected(edges, t, n), Cross(s, d)) == Want(t, s, d)
  {
    var k := Cross(s, d);
    var rows := if n.hosting.Val? then EdgesFrom(t, n) else EdgesTo(t, n);
    assert Have(rows, k) == Want(t, s, d);
  }

  lemma FireIncident(edges: Edges, t: Table, c: Change, s: string, d: string)
    requires ValidTable(t) && Loud(c)
    requires c.Uid() in t <==> After(c).Some?
    requires After(c).Some? ==> t[c.Uid()] == After(c).value
    requires c.Update? ==> c.new_.uid == c.old_.uid
    requires s == c.Uid() || d == c.Uid()
    requires c.Insert? ==> Have(edges, Cross(s, d)) in {None, Want(t, s, d)}
    ensures Have(Fire(edges, t, c), Cross(s, d)) == Want(t, s, d)
  {
    match c
    case Insert(n) => ConnectedIsRight(edges, t, n, s, d);
    case Update(o, n) => ConnectedIsRight(Cleared(edges, o.uid), t, n, s, d);
    case Delete(o) =>
  }

  /** A firing touches only keys at its own row: inter-cluster ones, or any edge leaving it. */
  lemma FireElsewhere(edges: Edges, t: Table, c: Change, k: EdgeKey)
    requires c.Update? ==> c.new_.uid == c.old_.uid
    requires !Loud(c) || (k.source != c.Uid() && (k.dest != c.Uid() || k.edgeType != INTER_CLUSTER))
    ensures Have(Fire(edges, t, c), k) == Have(edges, k)
  {
  }

  lemma FireForeign(edges: Edges, t: Table, c: Change, k: EdgeKey)
    requires c.Update? ==> c.new_.uid == c.old_.uid
    requires k.edgeType != INTER_CLUSTER
    ensures Have(Fire(edges, t, c), k) ==
            if Loud(c) && !c.Insert? && c.Uid() == k.source then None else Have(edges, k)
  {
  }

  // ---------------------------------------------------------------------------------------
  // A whole statement
  // ---------------------------------------------------------------------------------------

  /** `firing` runs the statement's triggers in some order. */
  ghost predicate FiringOf(firing: seq<Change>, batch: seq<Change>) {
    multiset(firing) == multiset(batch)
  }

  lemma SameMembers(firing: seq<Change>, batch: seq<Change>)
    requires FiringOf(firing, batch)
    ensures forall c :: c in firing <==> c in batch
  {
    forall c ensures c in firing <==> c in batch {
      assert c in firing <==> c in multiset(firing);
      assert c in batch <==> c in multiset(batch);
    }
  }

  /** Between two firings, every pair with a fired endpoint is right and every other is as it was. */
  lemma {:induction false} MidStatement(edges: Edges, t: Table, t': Table, batch: seq<Change>,
                                        fired: seq<Change>, s: string, d: string)
    requires ValidTable(t') && ValidBatch(t, batch) && Reflects(t, t', batch) && Exact(edges, t)
    requires forall c :: c in fired ==> c in batch
    ensures Have(FireAll(edges, t', fired), Cross(s, d)) ==
            if LoudIn(s, fired) || LoudIn(d, fired) then Want(t', s, d) else Want(t, s, d)
  {
    if fired != [] {
      var before, c := fired[..|fired| - 1], fired[|fired| - 1];
      MidStatement(edges, t, t', batch, before, s, d);
      var mid := FireAll(edges, t', before);
      assert forall x :: x in fired <==> x in before || x == c;
      assert LoudIn(s, fired) <==> LoudIn(s, before) || (Loud(c) && c.Uid() == s);
      assert LoudIn(d, fired) <==> LoudIn(d, before) || (Loud(c) && c.Uid() == d);
      assert c in batch && ValidChange(t, c);
      if Loud(c) && (s == c.Uid() || d == c.Uid()) {
        FireIncident(mid, t', c, s, d);
      } else {
        FireElsewhere(mid, t', c, Cross(s, d));
      }
    } else {
      assert Have(edges, Cross(s, d)) == Want(t, s, d);
    }
  }

  /** No pair whose endpoints are both unchanged or quietly changed starts or stops being joined. */
  ghost predicate QuietPairsAgree(t: Table, t': Table, batch: seq<Change>) {
    forall s, d :: !LoudIn(s, batch) && !LoudIn(d, batch) ==> Want(t, s, d) == Want(t', s, d)
  }

  /**
    The index after any statement, for any batch and any firing order: it is exact precisely
    when the rows the trigger skips did not change the join among themselves.
   */
  lemma StatementExactIff(edges: Edges, t: Table, batch: seq<Change>, firing: seq<Change>)
    requires ValidTable(t) && ValidBatch(t, batch) && Exact(edges, t) && FiringOf(firing, batch)
    ensures var t' := ApplyAll(t, batch);
            Exact(FireAll(edges, t', firing), t') <==> QuietPairsAgree(t, t', batch)
  {
    var t' := ApplyAll(t, batch);
    ApplyAllReflects(t, batch);
    SameMembers(firing, batch);
    var edges' := FireAll(edges, t', firing);
    forall s, d
      ensures Have(edges', Cross(s, d)) ==
              if LoudIn(s, batch) || LoudIn(d, batch) then Want(t', s, d) else Want(t, s, d)
    {
      MidStatement(edges, t, t', batch, firing, s, d);
      assert LoudIn(s, firing) <==> LoudIn(s, batch);
      assert LoudIn(d, firing) <==> LoudIn(d, batch);
    }
    if Exact(edges', t') {
      forall s, d | !LoudIn(s, batch) && !LoudIn(d, batch) ensures Want(t, s, d) == Want(t', s, d) {
        assert Have(edges', Cross(s, d)) == Want(t', s, d);
      }
    }
  }

  /** Edges of other types: removed exactly when their source was deleted or re-hosted, never added. */
  lemma {:induction false} ForeignEdgesAfter(edges: Edges, t: Table, fired: seq<Change>, k: EdgeKey)
    requires forall c :: c in fired && c.Update? ==> c.new_.uid == c.old_.uid
    requires k.edgeType != INTER_CLUSTER
    ensures Have(FireAll(edges, t, fired), k) == if ClearedIn(k.source, fired) then None else Have(edges, k)
  {
    if fired != [] {
      var before, c := fired[..|fired| - 1], fired[|fired| - 1];
      ForeignEdgesAfter(edges, t, before, k);
      FireForeign(FireAll(edges, t, before), t, c, k);
      assert forall x :: x in fired <==> x in before || x == c;
      assert ClearedIn(k.source, fired) <==>
        ClearedIn(k.source, before) || (Loud(c) && !c.Insert? && c.Uid() == k.source);
    }
  }

  /** An edge at no fired row is left alone, whatever the table holds. */
  lemma {:induction false} UntouchedEdges(edges: Edges, t: Table, fired: seq<Change>, k: EdgeKey)
    requires forall c :: c in fired && c.Update? ==> c.new_.uid == c.old_.uid
    requires !LoudIn(k.source, fired) && !LoudIn(k.dest, fired)
    ensures Have(FireAll(edges, t, fired), k) == Have(edges, k)
  {
    if fired != [] {
      var before, c := fired[..|fired| - 1], fired[|fired| - 1];
      assert c in fired && forall x :: x in before ==> x in fired;
      UntouchedEdges(edges, t, before, k);
      FireElsewhere(FireAll(edges, t, before), t, c, k);
    }
  }

  // ---------------------------------------------------------------------------------------
  // Which single updates are safe to skip
  // ---------------------------------------------------------------------------------------

  /** All that the join can see of a row. */
  datatype View = Apart | Source(cluster: string, ns: string, name: string)
                        | Target(cluster: string, ns: string, name: string)

  function ViewOf(r: Row): View {
    if r.kind != SUBSCRIPTION || r.cluster.Null? then Apart
    else if r.hosting.Val? then Source(r.cluster.v, SplitPart(r.hosting, 1).v, SplitPart(r.hosting, 2).v)
    else if r.namespace.Val? && r.name.Val? && '/' !in r.namespace.v && '/' !in r.name.v
    then Target(r.cluster.v, r.namespace.v, r.name.v)
    else Apart
  }

  lemma PartsAreClean(a: SqlText, n: nat)
    requires a.Val? && n >= 1
    ensures '/' !in SplitPart(a, n).v
  {
    SplitPiecesAreClean(a.v, '/');
  }

  lemma JoinedByView(s: Row, d: Row)
    ensures Joined(s, d) <==>
            && s.uid != d.uid && ViewOf(s).Source? && ViewOf(d).Target?
            && ViewOf(s).ns == ViewOf(d).ns && ViewOf(s).name == ViewOf(d).name
            && ViewOf(s).cluster != ViewOf(d).cluster
  {
    if s.hosting.Val? {
      PartsAreClean(s.hosting, 1);
      PartsAreClean(s.hosting, 2);
    }
  }

  /** The trigger re-derives the row's edges, or nothing the join can see of the row changed. */
  predicate Faithful(c: Change) {
    Loud(c) || !c.Update? || ViewOf(c.old_) == ViewOf(c.new_)
  }

  /** Tables whose rows look alike to the join call for the same edges. */
  lemma WantByView(t: Table, t': Table, s: string, d: string)
    requires ValidTable(t) && ValidTable(t')
    requires forall u :: u in {s, d} ==>
               (if u in t then ViewOf(t[u]) else Apart) == (if u in t' then ViewOf(t'[u]) else Apart)
    ensures Want(t, s, d) == Want(t', s, d)
  {
    assert s in {s, d} && d in {s, d};
    if s in t && d in t { JoinedByView(t[s], t[d]); }
    if s in t' && d in t' { JoinedByView(t'[s], t'[d]); }
  }

  /** Changes that are each faithful keep the index exact, in any batch and firing order. */
  lemma FaithfulStatementExact(edges: Edges, t: Table, batch: seq<Change>, firing: seq<Change>)
    requires ValidTable(t) && ValidBatch(t, batch) && Exact(edges, t) && FiringOf(firing, batch)
    requires forall c :: c in batch ==> Faithful(c)
    ensures Exact(FireAll(edges, ApplyAll(t, batch), firing), ApplyAll(t, batch))
  {
    var t' := ApplyAll(t, batch);
    ApplyAllReflects(t, batch);
    StatementExactIff(edges, t, batch, firing);
    forall s, d | !LoudIn(s, batch) && !LoudIn(d, batch) ensures Want(t, s, d) == Want(t', s, d) {
      forall u | u in {s, d}
        ensures (if u in t then ViewOf(t[u]) else Apart) == (if u in t' then ViewOf(t'[u]) else Apart)
      {
        QuietRowKeepsView(t, t', batch, u);
      }
      WantByView(t, t', s, d);
    }
  }

  lemma QuietRowKeepsView(t: Table, t': Table, batch: seq<Change>, u: string)
    requires ValidTable(t) && ValidTable(t') && ValidBatch(t, batch) && Reflects(t, t', batch)
    requires forall c :: c in batch ==> Faithful(c)
    requires !LoudIn(u, batch)
    ensures (if u in t then ViewOf(t[u]) else Apart) == (if u in t' then ViewOf(t'[u]) else Apart)
  {
    if c :| c in batch && c.Uid() == u {
      assert !Loud(c) && Faithful(c) && ValidChange(t, c);
    }
  }

  /** What the indexer promises of its rows: a uid stands for one object, and '' is never stored. */
  lemma StableUpdateIsFaithful(o: Row, n: Row)
    requires o.cluster == n.cluster && o.kind == n.kind && o.namespace == n.namespace && o.name == n.name
    requires o.hosting != Val("") && n.hosting != Val("")
    ensures Faithful(Update(o, n))
  {
  }

  ghost predicate KeepsIndex(o: Row, n: Row, edges: Edges, t: Table) {
    ValidTable(t) && o.uid in t && t[o.uid] == o && Exact(edges, t) ==>
      Exact(Fire(edges, Apply(t, Update(o, n)), Update(o, n)), Apply(t, Update(o, n)))
  }

  /** The index rows of a two-row table. */
  function IndexOf(t: Table, s: string, d: string): Edges {
    if Want(t, s, d).Some? then map[Cross(s, d) := Want(t, s, d).value] else map[]
  }

  lemma TwoRowIndex(t: Table, a: Row, b: Row)
    requires a.uid != b.uid && t == map[a.uid := a, b.uid := b]
    requires !Joined(b, a)
    ensures Exact(IndexOf(t, a.uid, b.uid), t)
  {
    forall s, d ensures Have(IndexOf(t, a.uid, b.uid), Cross(s, d)) == Want(t, s, d) {
      assert Joined(a, a) == Joined(b, b) == false;
    }
  }

  function Hub(uid: string, cluster: string, ns: string, name: string): Row {
    Row(uid, Val(cluster), SUBSCRIPTION, Val(ns), Val(name), Null)
  }

  function Hosted(uid: string, cluster: string, ns: string, name: string): Row {
    Row(uid, Val(cluster), SUBSCRIPTION, Null, Null, Val(ns + ['/'] + name))
  }

  lemma HostedView(uid: string, cluster: string, ns: string, name: string)
    requires '/' !in ns && '/' !in name
    ensures ViewOf(Hosted(uid, cluster, ns, name)) == Source(cluster, ns, name)
  {
    SplitOfClean(ns, '/');
    SplitOfClean(name, '/');
    SplitOfConcat(ns, name, '/');
  }

  lemma ViewPartsAreClean(r: Row)
    ensures !ViewOf(r).Apart? ==> '/' !in ViewOf(r).ns && '/' !in ViewOf(r).name
  {
    if r.hosting.Val? {
      PartsAreClean(r.hosting, 1);
      PartsAreClean(r.hosting, 2);
    }
  }

  /** A row that is joined with one of two rows that look different, but not with the other. */
  lemma Partner(o: Row, n: Row) returns (p: Row)
    requires o.uid == n.uid && ViewOf(o) != ViewOf(n)
    ensures p.uid != o.uid
    ensures (Joined(o, p) <==> !Joined(n, p)) || (Joined(p, o) <==> !Joined(p, n))
    ensures !(Joined(o, p) && Joined(p, o))
  {
    var seen, other := if ViewOf(o).Apart? then n else o, if ViewOf(o).Apart? then o else n;
    var v, w := ViewOf(seen), ViewOf(other);
    ViewPartsAreClean(seen);
    // A cluster that differs from v's and, when only the clusters differ, is w's.
    var cluster := if !w.Apart? && w.cluster != v.cluster then w.cluster else v.cluster + "'";
    assert |v.cluster + "'"| == |v.cluster| + 1;
    var uid := o.uid + "'";
    assert |uid| == |o.uid| + 1;
    p := if v.Source? then Hub(uid, cluster, v.ns, v.name) else Hosted(uid, cluster, v.ns, v.name);
    HostedView(uid, cluster, v.ns, v.name);
    JoinedByView(seen, p); JoinedByView(p, seen);
    JoinedByView(other, p); JoinedByView(p, other);
  }

  /** Skipping an update is safe in every state just when the join cannot see it. */
  lemma QuietUpdateSafeIff(o: Row, n: Row)
    requires o.uid == n.uid && !Loud(Update(o, n))
    ensures (forall edges, t :: KeepsIndex(o, n, edges, t)) <==> ViewOf(o) == ViewOf(n)
  {
    var c := Update(o, n);
    if ViewOf(o) == ViewOf(n) {
      forall edges, t ensures KeepsIndex(o, n, edges, t) {
        if ValidTable(t) && o.uid in t && t[o.uid] == o && Exact(edges, t) {
          FaithfulStatementExact(edges, t, [c], [c]);
          OneFiring(edges, t, c);
          OneFiring(edges, Apply(t, c), c);
        }
      }
    } else {
      VisibleUpdateBreaks(o, n);
    }
  }

  /** A skipped update that the join can see leaves some exact index wrong. */
  lemma VisibleUpdateBreaks(o: Row, n: Row)
    requires o.uid == n.uid && !Loud(Update(o, n)) && ViewOf(o) != ViewOf(n)
    ensures exists edges, t :: !KeepsIndex(o, n, edges, t)
  {
    var p := Partner(o, n);
    var a, b := if Joined(p, o) then p else o, if Joined(p, o) then o else p;
    var t: Table := map[a.uid := a, b.uid := b];
    var edges := IndexOf(t, a.uid, b.uid);
    TwoRowIndex(t, a, b);
    TwoRowsGoStale(edges, t, o, n, p);
    assert !KeepsIndex(o, n, edges, t);
  }

  lemma TwoRowsGoStale(edges: Edges, t: Table, o: Row, n: Row, p: Row)
    requires o.uid == n.uid && !Loud(Update(o, n)) && p.uid != o.uid
    requires o.uid in t && t[o.uid] == o && p.uid in t && t[p.uid] == p && Exact(edges, t)
    requires (Joined(o, p) <==> !Joined(n, p)) || (Joined(p, o) <==> !Joined(p, n))
    ensures !Exact(Fire(edges, Apply(t, Update(o, n)), Update(o, n)), Apply(t, Update(o, n)))
  {
    var t' := Apply(t, Update(o, n));
    assert Have(edges, Cross(o.uid, p.uid)) == Want(t, o.uid, p.uid);
    assert Have(edges, Cross(p.uid, o.uid)) == Want(t, p.uid, o.uid);
    assert Want(t, o.uid, p.uid) != Want(t', o.uid, p.uid) || Want(t, p.uid, o.uid) != Want(t', p.uid, o.uid);
  }

  lemma OneFiring(edges: Edges, t: Table, c: Change)
    ensures ApplyAll(t, [c]) == Apply(t, c)
    ensures FireAll(edges, t, [c]) == Fire(edges, t, c)
  {
    assert [c][1..] == [] && [c][..0] == [];
    assert ApplyAll(Apply(t, c), []) == Apply(t, c);
  }

  /** `coalesce(.., '')` equates NULL and '': the trigger skips this update, and the index goes stale. */
  lemma NullToEmptyGoesStale(o: Row, n: Row)
    requires o == Hub("u", "hub", "ns", "app") && n == o.(hosting := Val(""))
    ensures !Loud(Update(o, n)) && ViewOf(o) != ViewOf(n)
    ensures exists edges, t :: !KeepsIndex(o, n, edges, t)
  {
    QuietUpdateSafeIff(o, n);
  }

  // ---------------------------------------------------------------------------------------
  // Runs
  // ---------------------------------------------------------------------------------------

  /** The database: both tables, and the statements that change them. */
  class Database {
    var resources: Table
    var edges: Edges

    constructor ()
      ensures resources == map[] && edges == map[]
    {
      resources, edges := map[], map[];
    }

    /** `search.intercluster_edges()`, called for one changed row. */
    method InterclusterEdges(c: Change)
      requires Fires(c)
      modifies this`edges
      ensures edges == Fire(old(edges), resources, c)
    {
      if c.Update? {
        if Coalesce(c.new_.hosting, "") != Coalesce(c.old_.hosting, "") {
          edges := Cleared(edges, c.old_.uid);
        } else {
          return;
        }
      }
      if c.Insert? || c.Update? {
        if c.new_.hosting.Val? {
          edges := InsertMissing(edges, EdgesFrom(resources, c.new_));
        } else if c.new_.hosting.Null? {
          edges := InsertMissing(edges, EdgesTo(resources, c.new_));
        }
      } else {
        edges := Cleared(edges, c.old_.uid);
      }
    }

    /** A multi-row statement: all row changes, then the row triggers in the order `firing`. */
    method Execute(batch: seq<Change>, firing: seq<Change>) returns (ok: bool)
      requires ValidTable(resources) && FiringOf(firing, batch)
      modifies this
      ensures ok == ValidBatch(old(resources), batch)
      ensures !ok ==> unchanged(this)
      ensures ok ==> resources == ApplyAll(old(resources), batch)
      ensures ok ==> edges == FireAll(old(edges), resources, firing)
      ensures ok && old(Exact(edges, resources)) ==>
                (Exact(edges, resources) <==> QuietPairsAgree(old(resources), resources, batch))
      ensures ok && old(Exact(edges, resources)) && (forall c :: c in batch ==> Faithful(c)) ==>
                Exact(edges, resources)
    {
      if !ValidBatch(resources, batch) {
        return false;
      }
      ghost var edges0, t := edges, resources;
      for i := 0 to |batch|
        invariant ApplyAll(resources, batch[i..]) == ApplyAll(t, batch)
        invariant edges == edges0
      {
        assert batch[i..][0] == batch[i] && batch[i..][1..] == batch[i + 1..];
        resources := Apply(resources, batch[i]);
      }
      for i := 0 to |firing|
        invariant resources == ApplyAll(t, batch)
        invariant edges == FireAll(edges0, resources, firing[..i])
      {
        assert firing[..i + 1][..i] == firing[..i] && firing[..i + 1][i] == firing[i];
        if Fires(firing[i]) {
          InterclusterEdges(firing[i]);
        }
      }
      assert firing[..|firing|] == firing;
      if Exact(edges0, t) {
        StatementExactIff(edges0, t, batch, firing);
        if forall c :: c in batch ==> Faithful(c) {
          FaithfulStatementExact(edges0, t, batch, firing);
        }
      }
      return true;
    }
  }

  /** Statements on search.resources, and the indexer's own writes to the other edges. */
  datatype Step = Statement(batch: seq<Change>, firing: seq<Change>)
                | IndexerWrites(upserts: Edges, deletes: set<EdgeKey>)

  datatype State = State(table: Table, edges: Edges)

  const EMPTY := State(map[], map[])

  ghost predicate Allowed(s: State, step: Step) {
    match step
    case Statement(batch, firing) =>
      ValidBatch(s.table, batch) && FiringOf(firing, batch) && forall c :: c in batch ==> Faithful(c)
    case IndexerWrites(upserts, deletes) =>
      forall k :: k in upserts.Keys + deletes ==> k.edgeType != INTER_CLUSTER
  }

  function Next(s: State, step: Step): State {
    match step
    case Statement(batch, firing) =>
      var t := ApplyAll(s.table, batch);
      State(t, FireAll(s.edges, t, firing))
    case IndexerWrites(upserts, deletes) => State(s.table, (s.edges - deletes) + upserts)
  }

  function Run(s: State, steps: seq<Step>): State {
    if steps == [] then s else Next(Run(s, steps[..|steps| - 1]), steps[|steps| - 1])
  }

  ghost predicate AllowedRun(steps: seq<Step>) {
    forall i | 0 <= i < |steps| :: Allowed(Run(EMPTY, steps[..i]), steps[i])
  }

  /** The index is exact in every reachable state. */
  lemma {:induction false} EveryRunIsExact(steps: seq<Step>)
    requires AllowedRun(steps)
    ensures ValidTable(Run(EMPTY, steps).table)
    ensures Exact(Run(EMPTY, steps).edges, Run(EMPTY, steps).table)
  {
    if steps != [] {
      var before := steps[..|steps| - 1];
      assert forall i :: 0 <= i < |before| ==> before[..i] == steps[..i];
      EveryRunIsExact(before);
      var s, step := Run(EMPTY, before), steps[|steps| - 1];
      assert Allowed(s, step);
      match step
      case Statement(batch, firing) =>
        ApplyAllReflects(s.table, batch);
        FaithfulStatementExact(s.edges, s.table, batch, firing);
      case IndexerWrites(upserts, deletes) =>
        forall a, b ensures Have(Next(s, step).edges, Cross(a, b)) == Want(s.table, a, b) {
          assert Have(s.edges, Cross(a, b)) == Want(s.table, a, b);
        }
    }
  }

  /**
    History independence: however two databases got to the same resources, their inter-cluster
    rows are the same, columns included. ON CONFLICT DO NOTHING never kept a wrong row.
   */
  lemma SameResourcesSameIndex(run1: seq<Step>, run2: seq<Step>)
    requires AllowedRun(run1) && AllowedRun(run2)
    requires Run(EMPTY, run1).table == Run(EMPTY, run2).table
    ensures forall k: EdgeKey :: k.edgeType == INTER_CLUSTER ==>
              Have(Run(EMPTY, run1).edges, k) == Have(Run(EMPTY, run2).edges, k)
  {
    EveryRunIsExact(run1);
    EveryRunIsExact(run2);
    forall k: EdgeKey | k.edgeType == INTER_CLUSTER
      ensures Have(Run(EMPTY, run1).edges, k) == Have(Run(EMPTY, run2).edges, k)
    {
      assert k == Cross(k.source, k.dest);
    }
  }

  /** Every index row's columns: two Subscriptions, and the cluster of its source. */
  lemma IndexRowColumns(steps: seq<Step>, k: EdgeKey)
    requires AllowedRun(steps) && k.edgeType == INTER_CLUSTER && k in Run(EMPTY, steps).edges
    ensures var s := Run(EMPTY, steps);
            && k.source in s.table && k.dest in s.table && Joined(s.table[k.source], s.table[k.dest])
            && s.edges[k] == EdgeColumns(SUBSCRIPTION, SUBSCRIPTION, s.table[k.source].cluster)
  {
    EveryRunIsExact(steps);
    assert k == Cross(k.source, k.dest);
    assert Have(Run(EMPTY, steps).edges, k) == Want(Run(EMPTY, steps).table, k.source, k.dest);
  }
}
