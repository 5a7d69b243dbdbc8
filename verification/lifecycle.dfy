/**
  The life of a Search and of the cluster-scoped RBAC objects made for it. Cluster-scoped objects
  cannot be owned by a namespaced Search, so only the finalizer keeps them from being left behind.

  The operator is a step machine: one API call per step, each of which may fail; it may crash
  between any two calls, users act between any two calls, and it reads the Search from a cache that
  may lag behind.
 */
module Lifecycle {
  const FINALIZER := "search.open-cluster-management.io/finalizer"

  /**
    A Search named search-v2-operator. `version` is its resourceVersion; `features` stands for the
    variables and conditions of its optional features.
   */
  datatype Search = Search(version: nat, deleting: bool, finalizers: seq<string>, paused: bool, features: string)

  /** A marker is the ManagedServiceAccount of a feature in a managed cluster's namespace. */
  datatype Object = AddonRole | AddonBinding | IndexerRole | GlobalSearchUserRole
                  | ApiBinding | CollectorBinding | IndexerBinding
                  | LegacyRole | LegacyBinding
                  | Marker(cluster: string)

  /** A binding's immutable roleRef, and the part that can be updated: its subjects, or a role's rules. */
  datatype Content = Content(roleRef: string, rest: string)

  predicate IsBinding(o: Object) {
    o in {AddonBinding, ApiBinding, CollectorBinding, IndexerBinding, LegacyBinding}
  }

  /** What must not outlive the Search: everything finalizeSearch deletes that a reconcile makes. */
  const TRACKED: set<Object> := {AddonRole, IndexerRole, ApiBinding, CollectorBinding, IndexerBinding}

  /** The objects a Search in a namespace calls for; names depend on the operator's environment. */
  type Wanted = (Object, string) -> Content

  // ---------------------------------------------------------------------------------------
  // The operator's calls
  // ---------------------------------------------------------------------------------------

  /**
    `Ensure` reads an object and decides; the others write. `Elsewhere` touches nothing modelled
    here. In `Features` the optional features make or remove markers and update the Search, as often
    as they like; FeatureMarkers has their own logic.
   */
  datatype Call = Elsewhere | Ensure(o: Object) | Make(o: Object) | Modify(o: Object) | Discard(o: Object)
                | Features | DropLegacy(o: Object)

  const RECONCILE: seq<Call> := [
    Elsewhere,
    Ensure(IndexerRole), Ensure(AddonRole), Ensure(GlobalSearchUserRole),
    Ensure(ApiBinding), Ensure(CollectorBinding), Ensure(IndexerBinding),
    Elsewhere, Features, DropLegacy(LegacyRole), DropLegacy(LegacyBinding)]

  /** What finalizeSearch deletes, in its order. */
  const FINALIZE: seq<Object> := [AddonRole, AddonBinding, ApiBinding, CollectorBinding, IndexerRole, IndexerBinding]

  const FINALIZED: set<Object> := {AddonRole, AddonBinding, ApiBinding, CollectorBinding, IndexerRole, IndexerBinding}

  /**
    What the operator is doing, with its copy of the Search. `done` counts the steps behind it: of
    finalizing, first releasing the addon and then the deletions; of reconciling, those in
    RECONCILE, the last of which may still have calls pending.
   */
  datatype Operator = Idle
                    | Finalizing(ns: string, search: Search, done: nat)
                    | Adding(ns: string, search: Search)
                    | Reconciling(ns: string, search: Search, done: nat, pending: seq<Call>)

  type History = set<(string, Search)>

  /** `history` holds every Search ever stored, and `seen` the newest version read, by namespace. */
  datatype State = State(searches: map<string, Search>, history: History, seen: map<string, nat>,
                         objects: map<Object, Content>, next: nat, operator: Operator)

  const INITIAL := State(map[], {}, map[], map[], 0, Idle)

  datatype Event = UserCreates(ns: string, finalizers: seq<string>, paused: bool, features: string)
                 | UserDeletes(ns: string)
                 | UserEdits(ns: string, finalizers: seq<string>, paused: bool, features: string)
                 | OthersRemove(o: Object)
                 | OthersChange(o: Object, content: Content)
                 | MarkerMade(cluster: string, content: Content)
                 | Begin(ns: string, read: Search)
                 | Step(ok: bool)
                 | FeatureMakes(cluster: string, content: Content)
                 | FeatureDrops(cluster: string)
                 | FeatureSaves(features: string)
                 | Crash

  // ---------------------------------------------------------------------------------------
  // The Search and its users
  // ---------------------------------------------------------------------------------------

  function Without(finalizers: seq<string>): seq<string> {
    if finalizers == [] then []
    else if finalizers[0] == FINALIZER then Without(finalizers[1..])
    else [finalizers[0]] + Without(finalizers[1..])
  }

  /** Stores a new version of a Search; one that is being deleted goes with its last finalizer. */
  function Store(s: State, ns: string, c: Search): State {
    if c.deleting && c.finalizers == [] then s.(searches := s.searches - {ns}, next := s.next + 1)
    else
      var d := c.(version := s.next);
      s.(searches := s.searches[ns := d], history := s.history + {(ns, d)}, next := s.next + 1)
  }

  /** Users leave the operator's finalizer alone, and nothing is added to a Search being deleted. */
  predicate EditAllowed(before: Search, finalizers: seq<string>) {
    && (FINALIZER in before.finalizers ==> FINALIZER in finalizers)
    && (before.deleting ==> forall f | f in finalizers :: f in before.finalizers)
  }

  function UserStep(s: State, e: Event): State
    requires e.UserCreates? || e.UserDeletes? || e.UserEdits?
  {
    match e
    case UserCreates(ns, finalizers, paused, features) =>
      if ns in s.searches then s else Store(s, ns, Search(0, false, finalizers, paused, features))
    case UserDeletes(ns) =>
      if ns !in s.searches then s else Store(s, ns, s.searches[ns].(deleting := true))
    case UserEdits(ns, finalizers, paused, features) =>
      if ns !in s.searches || !EditAllowed(s.searches[ns], finalizers) then s
      else Store(s, ns, s.searches[ns].(finalizers := finalizers, paused := paused, features := features))
  }

  // ---------------------------------------------------------------------------------------
  // The operator
  // ---------------------------------------------------------------------------------------

  /** setFinalizer's case distinction: what a reconcile of this Search does first. */
  function Begins(ns: string, c: Search): Operator {
    if c.deleting then
      if FINALIZER in c.finalizers then Finalizing(ns, c, 0) else Idle
    else if FINALIZER !in c.finalizers then Adding(ns, c)
    else Main(ns, c)
  }

  function Seen(s: State, ns: string): nat {
    if ns in s.seen then s.seen[ns] else 0
  }

  /** A reconcile begins with some version of the Search that was stored at one time. */
  function Start(s: State, ns: string, c: Search): State {
    if s.operator != Idle || (ns, c) !in s.history then s
    else s.(seen := if c.version > Seen(s, ns) then s.seen[ns := c.version] else s.seen, operator := Begins(ns, c))
  }

  function Main(ns: string, c: Search): Operator {
    if c.paused then Idle else Reconciling(ns, c, 0, [])
  }

  /** An update of the whole Search is accepted only for the version it was read at. */
  predicate Current(s: State, ns: string, c: Search) {
    ns in s.searches && s.searches[ns].version == c.version
  }

  function AddStep(s: State, ns: string, c: Search): State {
    if !Current(s, ns, c) then s.(operator := Idle)
    else
      var c' := c.(finalizers := c.finalizers + [FINALIZER]);
      var t := Store(s, ns, c');
      t.(operator := Main(ns, c'.(version := s.next)))
  }

  function FinalizeStep(s: State, ns: string, c: Search, done: nat): State {
    if done == 0 then s.(operator := Finalizing(ns, c, 1))
    else if done <= |FINALIZE| then
      s.(objects := s.objects - {FINALIZE[done - 1]}, operator := Finalizing(ns, c, done + 1))
    else if !Current(s, ns, c) then s.(operator := Idle)
    else Store(s, ns, c.(finalizers := Without(c.finalizers))).(operator := Idle)
  }

  /** The calls an `Ensure` leads to: create, recreate under another roleRef, update, or none. */
  function Decide(objects: map<Object, Content>, o: Object, want: Content): seq<Call> {
    if o !in objects then [Make(o)]
    else if IsBinding(o) && objects[o].roleRef != want.roleRef then [Discard(o), Make(o)]
    else if objects[o].rest != want.rest then [Modify(o)]
    else []
  }

  /** Makes a call; if it succeeds the operator goes on to `after`. `Features` is then behind it. */
  function CallStep(s: State, call: Call, after: Operator, want: Wanted): State
    requires after.Reconciling?
  {
    var ns, c := after.ns, after.search;
    var go := s.(operator := after);
    match call
    case Elsewhere => go
    case Ensure(o) => s.(operator := after.(pending := Decide(s.objects, o, want(o, ns))))
    case Make(o) =>
      if o in s.objects then s.(operator := Idle) else go.(objects := s.objects[o := want(o, ns)])
    case Modify(o) =>
      if o !in s.objects then s.(operator := Idle)
      else go.(objects := s.objects[o := s.objects[o].(rest := want(o, ns).rest)])
    case Discard(o) =>
      if o !in s.objects then s.(operator := Idle) else go.(objects := s.objects - {o})
    case Features => go
    case DropLegacy(o) => go.(objects := s.objects - {o})
  }

  function ReconcileStep(s: State, ns: string, c: Search, done: nat, pending: seq<Call>, want: Wanted): State {
    if pending != [] then CallStep(s, pending[0], Reconciling(ns, c, done, pending[1..]), want)
    else if done < |RECONCILE| then CallStep(s, RECONCILE[done], Reconciling(ns, c, done + 1, []), want)
    else s.(operator := Idle)
  }

  /** One API call. A failing call ends the reconcile; it is retried from the start. */
  function OperatorStep(s: State, ok: bool, want: Wanted): State {
    if s.operator == Idle then s
    else if !ok then s.(operator := Idle)
    else match s.operator
      case Finalizing(ns, c, done) => FinalizeStep(s, ns, c, done)
      case Adding(ns, c) => AddStep(s, ns, c)
      case Reconciling(ns, c, done, pending) => ReconcileStep(s, ns, c, done, pending, want)
      case Idle => s
  }

  /** The features' turn. */
  predicate AtFeatures(op: Operator) {
    op.Reconciling? && op.pending == [] && op.done < |RECONCILE| && RECONCILE[op.done].Features?
  }

  predicate OfFeatures(e: Event) {
    e.FeatureMakes? || e.FeatureDrops? || e.FeatureSaves?
  }

  /** A successful call of a feature; a failing one changes nothing, and may or may not end the reconcile. */
  function FeatureStep(s: State, e: Event): State
    requires OfFeatures(e)
  {
    if !AtFeatures(s.operator) then s
    else match e
      case FeatureMakes(cluster, content) => s.(objects := s.objects[Marker(cluster) := content])
      case FeatureDrops(cluster) => s.(objects := s.objects - {Marker(cluster)})
      case FeatureSaves(features) =>
        var ns, c := s.operator.ns, s.operator.search.(features := features);
        if !Current(s, ns, c) then s
        else Store(s, ns, c).(operator := s.operator.(search := c.(version := s.next)))
  }

  /** Everything that is not the operator's doing, nor its end. */
  predicate Outside(e: Event) {
    !e.Begin? && !e.Step? && !e.Crash? && !OfFeatures(e)
  }

  function OutsideStep(s: State, e: Event): State
    requires Outside(e)
  {
    match e
    case UserCreates(_, _, _, _) => UserStep(s, e)
    case UserDeletes(_) => UserStep(s, e)
    case UserEdits(_, _, _, _) => UserStep(s, e)
    case OthersRemove(o) => s.(objects := s.objects - {o})
    case OthersChange(o, content) => if o in s.objects then s.(objects := s.objects[o := content]) else s
    case MarkerMade(cluster, content) => s.(objects := s.objects[Marker(cluster) := content])
  }

  function Next(s: State, e: Event, want: Wanted): State {
    if e.Begin? then Start(s, e.ns, e.read)
    else if e.Step? then OperatorStep(s, e.ok, want)
    else if e.Crash? then s.(operator := Idle)
    else if OfFeatures(e) then FeatureStep(s, e)
    else OutsideStep(s, e)
  }

  function Run(s: State, events: seq<Event>, want: Wanted): State {
    if events == [] then s
    else Next(Run(s, events[..|events| - 1], want), events[|events| - 1], want)
  }

  lemma {:induction false} RunConcat(s: State, a: seq<Event>, b: seq<Event>, want: Wanted)
    ensures Run(s, a + b, want) == Run(Run(s, a, want), b, want)
  {
    if b == [] {
      assert a + b == a;
    } else {
      assert (a + b)[..|a + b| - 1] == a + b[..|b| - 1];
      RunConcat(s, a, b[..|b| - 1], want);
    }
  }

  /** A copy of the Search that makes the operator create objects right away. */
  predicate Creates(c: Search) {
    !c.deleting && FINALIZER in c.finalizers && !c.paused
  }

  predicate Guarded(s: State, ns: string) {
    ns in s.searches && FINALIZER in s.searches[ns].finalizers
  }

  /**
    The cache may lag behind, but does not go back behind what was read from it - or if it does, the
    copy does no harm: it creates nothing, or its Search is still there with the finalizer.
   */
  predicate Monotone(s: State, e: Event) {
    e.Begin? ==> e.read.version >= Seen(s, e.ns) || !Creates(e.read) || Guarded(s, e.ns)
  }

  ghost predicate MonotoneRun(events: seq<Event>, want: Wanted) {
    forall i | 0 <= i < |events| :: Monotone(Run(INITIAL, events[..i], want), events[i])
  }

  // ---------------------------------------------------------------------------------------
  // Safety
  // ---------------------------------------------------------------------------------------

  /** No tracked object without a Search that carries the finalizer. */
  predicate Safe(s: State) {
    (exists o | o in TRACKED :: o in s.objects) ==>
      exists ns | ns in s.searches :: Guarded(s, ns)
  }

  /**
    A record is older than what is stored now, or is it. And if it can still be read and would make
    the operator create objects, its Search is still there with the finalizer.
   */
  predicate RecordOk(s: State, ns: string, c: Search) {
    && c.version < s.next
    && (ns in s.searches ==> c == s.searches[ns] || c.version < s.searches[ns].version)
    && (c.version >= Seen(s, ns) && !c.deleting && FINALIZER in c.finalizers ==> Guarded(s, ns))
  }

  predicate HistoryInv(s: State) {
    && (forall p | p in s.history :: RecordOk(s, p.0, p.1))
    && (forall ns | ns in s.searches :: (ns, s.searches[ns]) in s.history)
  }

  predicate OperatorInv(s: State) {
    match s.operator
    case Idle => true
    case Adding(ns, c) => (ns, c) in s.history && !c.deleting
    case Finalizing(ns, c, done) =>
      && (ns, c) in s.history && c.deleting && c.version <= Seen(s, ns)
      && forall i | 0 <= i < |FINALIZE| && i + 1 < done :: FINALIZE[i] !in s.objects
    case Reconciling(ns, c, _, _) => (ns, c) in s.history && FINALIZER in c.finalizers && Guarded(s, ns)
  }

  predicate Inv(s: State) {
    Safe(s) && HistoryInv(s) && OperatorInv(s)
  }

  lemma {:induction false} WithoutIsExact(finalizers: seq<string>)
    ensures forall f :: f in Without(finalizers) <==> f in finalizers && f != FINALIZER
  {
    if finalizers != [] {
      WithoutIsExact(finalizers[1..]);
    }
  }

  /** Storing a new version of a Search that keeps the finalizer, or of a new one. */
  lemma StoreKeepsInv(s: State, ns: string, c: Search)
    requires Inv(s) && (Guarded(s, ns) ==> FINALIZER in c.finalizers)
    ensures Inv(Store(s, ns, c))
    ensures forall n :: Guarded(s, n) ==> Guarded(Store(s, ns, c), n)
  {
    var t := Store(s, ns, c);
    forall n | Guarded(s, n) ensures Guarded(t, n) {
    }
    forall p | p in t.history ensures RecordOk(t, p.0, p.1) {
      if p in s.history {
        assert RecordOk(s, p.0, p.1);
      }
    }
  }

  lemma UserStepKeepsInv(s: State, e: Event)
    requires Inv(s) && (e.UserCreates? || e.UserDeletes? || e.UserEdits?)
    ensures Inv(UserStep(s, e))
  {
    match e
    case UserCreates(ns, finalizers, paused, features) =>
      if ns !in s.searches { StoreKeepsInv(s, ns, Search(0, false, finalizers, paused, features)); }
    case UserDeletes(ns) =>
      if ns in s.searches { StoreKeepsInv(s, ns, s.searches[ns].(deleting := true)); }
    case UserEdits(ns, finalizers, paused, features) =>
      if ns in s.searches && EditAllowed(s.searches[ns], finalizers) {
        StoreKeepsInv(s, ns, s.searches[ns].(finalizers := finalizers, paused := paused, features := features));
      }
  }

  /** A state that differs in objects that are not tracked, or only has fewer of the tracked ones. */
  lemma FewerObjectsKeepInv(s: State, t: State)
    requires Inv(s) && t == s.(objects := t.objects)
    requires forall o | o in FINALIZED :: o in t.objects ==> o in s.objects
    ensures Inv(t)
  {
    forall n | Guarded(s, n) ensures Guarded(t, n) {
    }
    forall p | p in t.history ensures RecordOk(t, p.0, p.1) {
      assert RecordOk(s, p.0, p.1);
    }
    assert forall o | o in FINALIZE :: o in FINALIZED;
    assert forall o | o in TRACKED :: o in FINALIZED;
    if t.operator.Finalizing? {
      assert forall i | 0 <= i < |FINALIZE| :: FINALIZE[i] in FINALIZE;
    }
  }

  /** Only the operator's position changes, to one that satisfies its part of the invariant. */
  lemma MoveKeepsInv(s: State, t: State)
    requires Inv(s) && t == s.(operator := t.operator) && OperatorInv(t)
    ensures Inv(t)
  {
    forall n | Guarded(s, n) ensures Guarded(t, n) {
    }
    forall p | p in t.history ensures RecordOk(t, p.0, p.1) {
      assert RecordOk(s, p.0, p.1);
    }
  }

  lemma OutsideKeepsInv(s: State, e: Event)
    requires Inv(s) && Outside(e)
    ensures Inv(OutsideStep(s, e))
  {
    if e.UserCreates? || e.UserDeletes? || e.UserEdits? {
      UserStepKeepsInv(s, e);
    } else {
      FewerObjectsKeepInv(s, OutsideStep(s, e));
    }
  }

  lemma StartKeepsInv(s: State, ns: string, c: Search)
    requires Inv(s) && Monotone(s, Begin(ns, c))
    ensures Inv(Start(s, ns, c))
  {
    var t := Start(s, ns, c);
    if (ns, c) in s.history {
      assert RecordOk(s, ns, c);
    }
    forall n | Guarded(s, n) ensures Guarded(t, n) {
    }
    forall p | p in t.history ensures RecordOk(t, p.0, p.1) {
      assert RecordOk(s, p.0, p.1);
    }
  }

  /** A copy of the version now stored is a copy of what is stored. */
  lemma CurrentCopy(s: State, ns: string, c: Search)
    requires HistoryInv(s) && (ns, c) in s.history && Current(s, ns, c)
    ensures c == s.searches[ns]
  {
    assert RecordOk(s, ns, c);
  }

  lemma AddKeepsInv(s: State)
    requires Inv(s) && s.operator.Adding?
    ensures Inv(AddStep(s, s.operator.ns, s.operator.search))
  {
    var ns, c := s.operator.ns, s.operator.search;
    if Current(s, ns, c) {
      var c' := c.(finalizers := c.finalizers + [FINALIZER]);
      assert FINALIZER in c'.finalizers;
      StoreKeepsInv(s, ns, c');
      MoveKeepsInv(Store(s, ns, c'), AddStep(s, ns, c));
    } else {
      MoveKeepsInv(s, AddStep(s, ns, c));
    }
  }

  /** The finalizer goes once nothing tracked is left. */
  lemma ReleaseKeepsInv(s: State, ns: string, c: Search)
    requires Inv(s) && (ns, c) in s.history && c.deleting && c.version <= Seen(s, ns) && Current(s, ns, c)
    requires forall o | o in TRACKED :: o !in s.objects
    ensures Inv(Store(s, ns, c.(finalizers := Without(c.finalizers))).(operator := Idle))
  {
    var t := Store(s, ns, c.(finalizers := Without(c.finalizers))).(operator := Idle);
    CurrentCopy(s, ns, c);
    forall p | p in t.history ensures RecordOk(t, p.0, p.1) {
      if p in s.history {
        assert RecordOk(s, p.0, p.1);
        if p.0 != ns && Guarded(s, p.0) { assert Guarded(t, p.0); }
      }
    }
  }

  lemma FinalizeKeepsInv(s: State)
    requires Inv(s) && s.operator.Finalizing?
    ensures Inv(FinalizeStep(s, s.operator.ns, s.operator.search, s.operator.done))
  {
    var ns, c, done := s.operator.ns, s.operator.search, s.operator.done;
    var t := FinalizeStep(s, ns, c, done);
    if 0 < done <= |FINALIZE| {
      var u := s.(objects := s.objects - {FINALIZE[done - 1]});
      FewerObjectsKeepInv(s, u);
      MoveKeepsInv(u, t);
    } else if done > |FINALIZE| && Current(s, ns, c) {
      forall o | o in TRACKED ensures o !in s.objects {
        assert o in FINALIZE;
      }
      ReleaseKeepsInv(s, ns, c);
    } else {
      MoveKeepsInv(s, t);
    }
  }

  lemma FeatureKeepsInv(s: State, e: Event)
    requires Inv(s) && OfFeatures(e)
    ensures Inv(FeatureStep(s, e))
  {
    var t := FeatureStep(s, e);
    if e.FeatureSaves? && AtFeatures(s.operator) && Current(s, s.operator.ns, s.operator.search) {
      var ns, c := s.operator.ns, s.operator.search.(features := e.features);
      CurrentCopy(s, ns, s.operator.search);
      StoreKeepsInv(s, ns, c);
      assert c.finalizers != [];
      MoveKeepsInv(Store(s, ns, c), t);
    } else {
      FewerObjectsKeepInv(s, t);
    }
  }

  lemma CallKeepsInv(s: State, call: Call, after: Operator, want: Wanted)
    requires Inv(s) && s.operator.Reconciling? && after.Reconciling?
    requires after.ns == s.operator.ns && after.search == s.operator.search
    ensures Inv(CallStep(s, call, after, want))
  {
    var t := CallStep(s, call, after, want);
    assert t == s.(objects := t.objects, operator := t.operator);
    assert Guarded(t, after.ns);
    forall p | p in t.history ensures RecordOk(t, p.0, p.1) {
      assert RecordOk(s, p.0, p.1);
    }
  }

  lemma OperatorKeepsInv(s: State, ok: bool, want: Wanted)
    requires Inv(s)
    ensures Inv(OperatorStep(s, ok, want))
  {
    if !ok || s.operator.Idle? {
      MoveKeepsInv(s, OperatorStep(s, ok, want));
    } else {
      match s.operator
      case Adding(_, _) => AddKeepsInv(s);
      case Finalizing(_, _, _) => FinalizeKeepsInv(s);
      case Reconciling(ns, c, done, pending) =>
        if pending != [] {
          CallKeepsInv(s, pending[0], Reconciling(ns, c, done, pending[1..]), want);
        } else if done < |RECONCILE| {
          CallKeepsInv(s, RECONCILE[done], Reconciling(ns, c, done + 1, []), want);
        } else {
          MoveKeepsInv(s, OperatorStep(s, ok, want));
        }
    }
  }

  lemma StepKeepsInv(s: State, e: Event, want: Wanted)
    requires Inv(s) && Monotone(s, e)
    ensures Inv(Next(s, e, want))
  {
    if e.Begin? {
      StartKeepsInv(s, e.ns, e.read);
    } else if e.Step? {
      OperatorKeepsInv(s, e.ok, want);
    } else if e.Crash? {
      MoveKeepsInv(s, Next(s, e, want));
    } else if OfFeatures(e) {
      FeatureKeepsInv(s, e);
    } else {
      OutsideKeepsInv(s, e);
    }
  }

  lemma {:induction false} RunsKeepInv(events: seq<Event>, want: Wanted)
    requires MonotoneRun(events, want)
    ensures Inv(Run(INITIAL, events, want))
  {
    if events != [] {
      var n := |events| - 1;
      assert forall i | 0 <= i < n :: events[..n][..i] == events[..i];
      RunsKeepInv(events[..n], want);
      StepKeepsInv(Run(INITIAL, events[..n], want), events[n], want);
    }
  }

  /**
    Over every run - faults and crashes at any call, stale reads, users creating, editing and
    deleting Searches in any namespace at any moment - a tracked object exists only while some
    Search carries the finalizer.
   */
  lemma NothingIsLeftBehind(events: seq<Event>, want: Wanted)
    requires MonotoneRun(events, want)
    ensures Safe(Run(INITIAL, events, want))
  {
    RunsKeepInv(events, want);
  }

  lemma OperatorMakesNoSearch(s: State, ok: bool, want: Wanted)
    ensures OperatorStep(s, ok, want).searches.Keys <= s.searches.Keys
  {
  }

  lemma {:induction false} SearchesAreWhereCreated(events: seq<Event>, ns: string, want: Wanted)
    requires forall e | e in events :: e.UserCreates? ==> e.ns == ns
    ensures Run(INITIAL, events, want).searches.Keys <= {ns}
  {
    if events != [] {
      var e := events[|events| - 1];
      assert e in events;
      var before := Run(INITIAL, events[..|events| - 1], want);
      SearchesAreWhereCreated(events[..|events| - 1], ns, want);
      if e.Step? {
        OperatorMakesNoSearch(before, e.ok, want);
      } else {
        assert Next(before, e, want).searches.Keys <= before.searches.Keys + {ns};
      }
    }
  }

  /** With Searches in one namespace only, it is that Search that is still there with the finalizer. */
  lemma TheSearchIsStillThere(events: seq<Event>, ns: string, want: Wanted)
    requires MonotoneRun(events, want) && forall e | e in events :: e.UserCreates? ==> e.ns == ns
    ensures var s := Run(INITIAL, events, want); TRACKED !! s.objects.Keys || Guarded(s, ns)
  {
    NothingIsLeftBehind(events, want);
    SearchesAreWhereCreated(events, ns, want);
  }

  // ---------------------------------------------------------------------------------------
  // Finalizing to its end, and what it leaves
  // ---------------------------------------------------------------------------------------

  /** A Search goes with its last finalizer; otherwise just the operator's is taken off. */
  ghost predicate FinalizerGone(searches: map<string, Search>, ns: string, c: Search) {
    if forall f | f in c.finalizers :: f == FINALIZER then ns !in searches
    else
      && ns in searches && FINALIZER !in searches[ns].finalizers
      && forall f | f != FINALIZER :: f in searches[ns].finalizers <==> f in c.finalizers
  }

  lemma WithoutIsGone(s: State, ns: string, c: Search)
    requires c.deleting
    ensures FinalizerGone(Store(s, ns, c.(finalizers := Without(c.finalizers))).searches, ns, c)
  {
    WithoutIsExact(c.finalizers);
    if Without(c.finalizers) != [] {
      assert Without(c.finalizers)[0] in Without(c.finalizers);
    }
  }

  lemma OneStep(s: State, e: Event, events: seq<Event>, want: Wanted)
    ensures Run(s, [e] + events, want) == Run(Next(s, e, want), events, want)
  {
    RunConcat(s, [e], events, want);
    assert [e][..0] == [];
    assert Run(s, [], want) == s;
  }

  /** Undisturbed and with an answering API server, finalizing comes to its end. */
  lemma FinalizingEnds(s: State, want: Wanted) returns (events: seq<Event>)
    requires s.operator.Finalizing? && s.operator.done <= 7 && s.operator.search.deleting
    requires Current(s, s.operator.ns, s.operator.search)
    ensures forall e | e in events :: e == Step(true)
    ensures var t := Run(s, events, want);
            && t.operator == Idle && FinalizerGone(t.searches, s.operator.ns, s.operator.search)
            && t.seen == s.seen && s.history <= t.history
            && forall o | o !in FINALIZED :: o in t.objects <==> o in s.objects
    decreases 7 - s.operator.done
  {
    var t := Next(s, Step(true), want);
    if s.operator.done == 7 {
      events := [];
      WithoutIsGone(s, s.operator.ns, s.operator.search);
    } else {
      events := FinalizingEnds(t, want);
    }
    OneStep(s, Step(true), events, want);
    events := [Step(true)] + events;
  }

  /** Others and the features: the only ones to make a marker ... */
  predicate Makes(s: State, e: Event, cluster: string) {
    (e.MarkerMade? && e.cluster == cluster) || (AtFeatures(s.operator) && e.FeatureMakes? && e.cluster == cluster)
  }

  /** ... or to take one away. */
  predicate Takes(s: State, e: Event, cluster: string) {
    e == OthersRemove(Marker(cluster)) || (AtFeatures(s.operator) && e == FeatureDrops(cluster))
  }

  /** No call under way is on a marker. */
  predicate Spares(call: Call) {
    call.Make? || call.Modify? || call.Discard? || call.DropLegacy? || call.Ensure? ==> !call.o.Marker?
  }

  predicate SparesMarkers(op: Operator) {
    op.Reconciling? ==> forall call | call in op.pending :: Spares(call)
  }

  lemma CallSparesMarkers(s: State, call: Call, after: Operator, want: Wanted, cluster: string)
    requires after.Reconciling? && SparesMarkers(after) && Spares(call)
    ensures SparesMarkers(CallStep(s, call, after, want).operator)
    ensures Marker(cluster) in CallStep(s, call, after, want).objects <==> Marker(cluster) in s.objects
  {
  }

  lemma OperatorSparesMarkers(s: State, ok: bool, want: Wanted, cluster: string)
    requires SparesMarkers(s.operator)
    ensures SparesMarkers(OperatorStep(s, ok, want).operator)
    ensures Marker(cluster) in OperatorStep(s, ok, want).objects <==> Marker(cluster) in s.objects
  {
    if ok && s.operator.Reconciling? {
      var ns, c, done, pending := s.operator.ns, s.operator.search, s.operator.done, s.operator.pending;
      if pending != [] {
        CallSparesMarkers(s, pending[0], Reconciling(ns, c, done, pending[1..]), want, cluster);
      } else if done < |RECONCILE| {
        CallSparesMarkers(s, RECONCILE[done], Reconciling(ns, c, done + 1, []), want, cluster);
      }
    }
  }

  /** The fate of a marker in one event of any kind. */
  lemma MarkerStepIff(s: State, e: Event, want: Wanted, cluster: string)
    requires SparesMarkers(s.operator)
    ensures SparesMarkers(Next(s, e, want).operator)
    ensures Marker(cluster) in Next(s, e, want).objects <==>
            Makes(s, e, cluster) || (Marker(cluster) in s.objects && !Takes(s, e, cluster))
  {
    if e.Step? {
      OperatorSparesMarkers(s, e.ok, want, cluster);
    }
  }

  /** What others do with a marker while a Search is finalized: the last of it counts. */
  predicate LeftByOthers(before: bool, events: seq<Event>, cluster: string) {
    if events == [] then before
    else
      var e := events[|events| - 1];
      (e.MarkerMade? && e.cluster == cluster)
      || (LeftByOthers(before, events[..|events| - 1], cluster) && e != OthersRemove(Marker(cluster)))
  }

  /**
    The deletion of a Search, from the moment the operator begins to finalize it to the end or to
    any point in between, with faults, crashes and others acting: whether a marker is there is up to
    the others alone.
   */
  lemma {:induction false} FinalizingSparesMarkers(s: State, events: seq<Event>, want: Wanted, cluster: string)
    requires s.operator.Finalizing? && forall e | e in events :: !e.Begin?
    ensures var op := Run(s, events, want).operator; op.Finalizing? || op.Idle?
    ensures Marker(cluster) in Run(s, events, want).objects <==>
            LeftByOthers(Marker(cluster) in s.objects, events, cluster)
  {
    if events != [] {
      var rest, e := events[..|events| - 1], events[|events| - 1];
      assert e in events && forall x | x in rest :: x in events;
      FinalizingSparesMarkers(s, rest, want, cluster);
      MarkerStepIff(Run(s, rest, want), e, want, cluster);
    }
  }

  // ---------------------------------------------------------------------------------------
  // Two runs: what a deletion leaves, and what a read that goes back does
  // ---------------------------------------------------------------------------------------

  const SEARCH := Search(0, false, [FINALIZER], false, "")
  const DELETED := SEARCH.(version := 1, deleting := true)
  const MARKED: map<Object, Content> := map[Marker("hub1") := Content("", "")]

  /** A Search is created, a marker is made, and the Search is deleted. */
  const PRELUDE: seq<Event> :=
    [UserCreates("ocm", [FINALIZER], false, ""), MarkerMade("hub1", Content("", "")), UserDeletes("ocm")]

  const DOOMED := State(map["ocm" := DELETED], {("ocm", SEARCH), ("ocm", DELETED)}, map[], MARKED, 2, Idle)

  lemma PreludeDooms(want: Wanted)
    ensures Run(INITIAL, PRELUDE, want) == DOOMED
  {
    var marked := State(map["ocm" := SEARCH], {("ocm", SEARCH)}, map[], MARKED, 1, Idle);
    assert PRELUDE == [PRELUDE[0]] + ([PRELUDE[1]] + ([PRELUDE[2]] + []));
    assert [FINALIZER] != [];
    assert Next(Next(INITIAL, PRELUDE[0], want), PRELUDE[1], want) == marked;
    assert Next(marked, PRELUDE[2], want) == DOOMED;
    OneStep(INITIAL, PRELUDE[0], [PRELUDE[1]] + ([PRELUDE[2]] + []), want);
    OneStep(Next(INITIAL, PRELUDE[0], want), PRELUDE[1], [PRELUDE[2]] + [], want);
    OneStep(marked, PRELUDE[2], [], want);
  }

  lemma OneBeginIsMonotone(before: seq<Event>, e: Event, after: seq<Event>, want: Wanted)
    requires (forall x | x in before + after :: !x.Begin?) && Monotone(Run(INITIAL, before, want), e)
    ensures MonotoneRun(before + [e] + after, want)
  {
    var events := before + [e] + after;
    forall i | 0 <= i < |events| ensures Monotone(Run(INITIAL, events[..i], want), events[i]) {
      if i == |before| {
        assert events[..i] == before;
      } else {
        assert events[i] in before + after;
      }
    }
  }

  const FINALIZING := DOOMED.(seen := map["ocm" := 1], operator := Finalizing("ocm", DELETED, 0))

  lemma DoomedIsFinalized(want: Wanted) returns (rest: seq<Event>)
    ensures forall e | e in rest :: e == Step(true)
    ensures var s := Run(FINALIZING, rest, want);
            && "ocm" !in s.searches && s.operator == Idle && Marker("hub1") in s.objects
            && s.seen == map["ocm" := 1] && ("ocm", SEARCH) in s.history
  {
    rest := FinalizingEnds(FINALIZING, want);
    assert forall f | f in DELETED.finalizers :: f == FINALIZER;
    assert Marker("hub1") in FINALIZING.objects && ("ocm", SEARCH) in FINALIZING.history;
  }

  lemma DoomedBegins(rest: seq<Event>, want: Wanted)
    ensures Run(INITIAL, PRELUDE + [Begin("ocm", DELETED)] + rest, want) == Run(FINALIZING, rest, want)
    ensures Monotone(Run(INITIAL, PRELUDE, want), Begin("ocm", DELETED))
  {
    var begin := Begin("ocm", DELETED);
    PreludeDooms(want);
    assert FINALIZER in DELETED.finalizers;
    assert Next(DOOMED, begin, want) == FINALIZING;
    assert PRELUDE + [begin] + rest == PRELUDE + ([begin] + rest);
    RunConcat(INITIAL, PRELUDE, [begin] + rest, want);
    OneStep(DOOMED, begin, rest, want);
  }

  lemma PreludeEvents(rest: seq<Event>)
    requires forall e | e in rest :: e == Step(true)
    ensures forall e | e in PRELUDE + rest :: !e.Begin?
    ensures forall e | e in PRELUDE + [Begin("ocm", DELETED)] + rest ::
              (e.UserCreates? ==> e.ns == "ocm") && e != OthersRemove(Marker("hub1"))
  {
  }

  /**
    A Search deleted and finalized, with the marker of one of its features still there: finalizing
    does not clean up the features, and without a Search there is no reconcile that would.
   */
  lemma DeletionLeavesMarkers(want: Wanted) returns (events: seq<Event>)
    ensures MonotoneRun(events, want) && OthersRemove(Marker("hub1")) !in events
    ensures var s := Run(INITIAL, events, want);
            && s.searches == map[] && s.operator == Idle && Marker("hub1") in s.objects
            && s.seen == map["ocm" := 1] && ("ocm", SEARCH) in s.history && Safe(s)
  {
    var rest := DoomedIsFinalized(want);
    DoomedBegins(rest, want);
    events := PRELUDE + [Begin("ocm", DELETED)] + rest;
    PreludeEvents(rest);
    OneBeginIsMonotone(PRELUDE, Begin("ocm", DELETED), rest, want);
    NothingIsLeftBehind(events, want);
    assert Run(INITIAL, events, want).searches.Keys <= {"ocm"} by {
      SearchesAreWhereCreated(events, "ocm", want);
    }
  }

  function Steps(n: nat): (steps: seq<Event>)
    ensures |steps| == n && forall e | e in steps :: e == Step(true)
  {
    if n == 0 then [] else [Step(true)] + Steps(n - 1)
  }

  /** Three calls after such a read a role is there. */
  lemma CopyCreates(s: State, ns: string, c: Search, want: Wanted)
    requires s.operator == Idle && (ns, c) in s.history && Creates(c) && IndexerRole !in s.objects
    ensures var t := Run(s, [Begin(ns, c)] + Steps(3), want);
            IndexerRole in t.objects && t.searches == s.searches
  {
    var s1 := Next(s, Begin(ns, c), want);
    assert s1.operator == Reconciling(ns, c, 0, []);
    var s2 := Next(s1, Step(true), want);
    assert s2.operator == Reconciling(ns, c, 1, []);
    var s3 := Next(s2, Step(true), want);
    assert s3.operator == Reconciling(ns, c, 2, [Make(IndexerRole)]);
    var s4 := Next(s3, Step(true), want);
    OneStep(s, Begin(ns, c), Steps(3), want);
    OneStep(s1, Step(true), Steps(2), want);
    OneStep(s2, Step(true), Steps(1), want);
    OneStep(s3, Step(true), Steps(0), want);
    assert Run(s4, [], want) == s4;
  }

  /** An undisturbed reconcile begun with a copy that creates nothing is safe throughout. */
  lemma HarmlessCopy(s: State, ns: string, c: Search, n: nat, want: Wanted)
    requires Inv(s) && s.operator == Idle && (ns, c) in s.history && !Creates(c)
    ensures Safe(Run(s, [Begin(ns, c)] + Steps(n), want))
  {
    StartKeepsInv(s, ns, c);
    OneStep(s, Begin(ns, c), Steps(n), want);
    StepsKeepInv(Next(s, Begin(ns, c), want), n, want);
  }

  lemma {:induction false} StepsKeepInv(s: State, n: nat, want: Wanted)
    requires Inv(s)
    ensures Inv(Run(s, Steps(n), want))
    decreases n
  {
    if n > 0 {
      OneStep(s, Step(true), Steps(n - 1), want);
      OperatorKeepsInv(s, true, want);
      StepsKeepInv(OperatorStep(s, true, want), n - 1, want);
    }
  }

  /** Where no Search carries the finalizer, a read is safe exactly when its copy creates nothing. */
  lemma SafeReadIff(s: State, ns: string, c: Search, want: Wanted)
    requires Inv(s) && s.operator == Idle && (ns, c) in s.history && forall n | n in s.searches :: !Guarded(s, n)
    ensures (forall n :: Safe(Run(s, [Begin(ns, c)] + Steps(n), want))) <==> !Creates(c)
  {
    if Creates(c) {
      assert IndexerRole in TRACKED;
      CopyCreates(s, ns, c, want);
      var t := Run(s, [Begin(ns, c)] + Steps(3), want);
      assert forall n | n in t.searches :: Guarded(t, n) == Guarded(s, n);
      assert !Safe(t);
    } else {
      forall n ensures Safe(Run(s, [Begin(ns, c)] + Steps(n), want)) {
        HarmlessCopy(s, ns, c, n, want);
      }
    }
  }

  /** And such states are reached: one read that goes back leaves a role without a Search. */
  lemma OldReadLeavesBehind(want: Wanted) returns (events: seq<Event>)
    ensures !MonotoneRun(events, want) && !Safe(Run(INITIAL, events, want))
  {
    var before := DeletionLeavesMarkers(want);
    var begin := Begin("ocm", SEARCH);
    var s := Run(INITIAL, before, want);
    assert FINALIZER in SEARCH.finalizers && IndexerRole in TRACKED;
    CopyCreates(s, "ocm", SEARCH, want);
    RunConcat(INITIAL, before, [begin] + Steps(3), want);
    events := before + ([begin] + Steps(3));
    assert events[..|before|] == before && events[|before|] == begin;
    assert !Monotone(s, begin);
  }
}
