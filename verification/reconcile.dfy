/**
  The code of a reconcile as far as it concerns the Search and its cluster-scoped RBAC: finalizer,
  deletion, roles and bindings. It is shown to take only steps of the machine in Lifecycle.
 */
module Reconcile {
  import opened Keyed
  import opened Lifecycle
  import opened Values

  function OwnerKind(): string -> string { (kind: string) => kind }

  /** An object's content after an `Ensure` of it ran through. */
  function Ensured(objects: map<Object, Content>, o: Object, want: Content): Content {
    if o !in objects || (IsBinding(o) && objects[o].roleRef != want.roleRef) then want
    else objects[o].(rest := want.rest)
  }

  function WithFinalizer(finalizers: seq<string>): seq<string> {
    if FINALIZER in finalizers then finalizers else finalizers + [FINALIZER]
  }

  /**
    What a feature does in a reconcile: make or remove a marker, which it goes on from if it fails,
    or update the Search, which it may have to succeed with.
   */
  datatype FeatureAct = MakeMarker(cluster: string, content: Content)
                      | DropMarker(cluster: string)
                      | SaveSearch(features: string, must: bool)

  function ActOn(objects: map<Object, Content>, act: FeatureAct): map<Object, Content> {
    if act.MakeMarker? then
      if Marker(act.cluster) in objects then objects else objects[Marker(act.cluster) := act.content]
    else if act.DropMarker? then objects - {Marker(act.cluster)}
    else objects
  }

  /** The objects after the features' acts, if all are answered. */
  function Acted(objects: map<Object, Content>, acts: seq<FeatureAct>): map<Object, Content> {
    if acts == [] then objects else ActOn(Acted(objects, acts[..|acts| - 1]), acts[|acts| - 1])
  }

  /** The features' variables and conditions after their acts. */
  function Saved(features: string, acts: seq<FeatureAct>): string {
    if acts == [] then features
    else if acts[|acts| - 1].SaveSearch? then acts[|acts| - 1].features
    else Saved(features, acts[..|acts| - 1])
  }

  lemma ActedNext(objects: map<Object, Content>, features: string, acts: seq<FeatureAct>, i: nat)
    requires i < |acts|
    ensures Acted(objects, acts[..i + 1]) == ActOn(Acted(objects, acts[..i]), acts[i])
    ensures Saved(features, acts[..i + 1]) ==
            if acts[i].SaveSearch? then acts[i].features else Saved(features, acts[..i])
  {
    assert acts[..i + 1][..i] == acts[..i];
  }

  lemma {:induction false} ActsAreOnMarkers(objects: map<Object, Content>, acts: seq<FeatureAct>)
    ensures forall o: Object | !o.Marker? :: (o in Acted(objects, acts) <==> o in objects)
                                     && (o in objects ==> Acted(objects, acts)[o] == objects[o])
  {
    if acts != [] {
      ActsAreOnMarkers(objects, acts[..|acts| - 1]);
    }
  }

  /** The Search after a reconcile that finds it to be `c`, its version apart. */
  predicate AfterReconcile(a: Search, c: Search, acts: seq<FeatureAct>) {
    a == c.(version := a.version, finalizers := WithFinalizer(c.finalizers),
            features := if c.paused then c.features else Saved(c.features, acts))
  }

  function With(objects: map<Object, Content>, o: Object, want: Content): map<Object, Content> {
    objects[o := Ensured(objects, o, want)]
  }

  function WithRoles(objects: map<Object, Content>, ns: string, want: Wanted): map<Object, Content> {
    With(With(With(objects, IndexerRole, want(IndexerRole, ns)), AddonRole, want(AddonRole, ns)),
         GlobalSearchUserRole, want(GlobalSearchUserRole, ns))
  }

  function WithBindings(objects: map<Object, Content>, ns: string, want: Wanted): map<Object, Content> {
    objects[ApiBinding := want(ApiBinding, ns)][CollectorBinding := want(CollectorBinding, ns)]
           [IndexerBinding := want(IndexerBinding, ns)]
  }

  /** The objects after a reconcile that ran through. */
  function Settled(objects: map<Object, Content>, ns: string, want: Wanted, acts: seq<FeatureAct>)
    : map<Object, Content>
  {
    Acted(WithBindings(WithRoles(objects, ns, want), ns, want), acts) - {LegacyRole, LegacyBinding}
  }

  /** Roles have the rules wanted, bindings also the roleRef; the legacy pair is gone. */
  predicate InPlace(objects: map<Object, Content>, ns: string, want: Wanted) {
    && (forall o | o in {IndexerRole, AddonRole, GlobalSearchUserRole} ::
          o in objects && objects[o].rest == want(o, ns).rest)
    && (forall o | o in {ApiBinding, CollectorBinding, IndexerBinding} ::
          o in objects && objects[o] == want(o, ns))
    && LegacyRole !in objects && LegacyBinding !in objects
  }

  /** A reconcile that runs through puts everything in place ... */
  lemma SettledIsInPlace(objects: map<Object, Content>, ns: string, want: Wanted, acts: seq<FeatureAct>)
    ensures InPlace(Settled(objects, ns, want, acts), ns, want)
  {
    ActsAreOnMarkers(WithBindings(WithRoles(objects, ns, want), ns, want), acts);
  }

  lemma EnsuringInPlaceIsIdle(objects: map<Object, Content>, ns: string, want: Wanted)
    requires InPlace(objects, ns, want)
    ensures WithBindings(WithRoles(objects, ns, want), ns, want) == objects
  {
    assert WithRoles(objects, ns, want) == objects;
  }

  /** ... and another one, whatever its features do, changes no RBAC object. */
  lemma SettledStays(objects: map<Object, Content>, ns: string, want: Wanted, acts: seq<FeatureAct>,
                     again: seq<FeatureAct>, o: Object)
    requires !o.Marker?
    ensures var once := Settled(objects, ns, want, acts);
            var twice := Settled(once, ns, want, again);
            (o in twice <==> o in once) && (o in once ==> twice[o] == once[o])
  {
    var once := Settled(objects, ns, want, acts);
    SettledIsInPlace(objects, ns, want, acts);
    EnsuringInPlaceIsIdle(once, ns, want);
    ActsAreOnMarkers(once, again);
  }

  /** What a reconcile has no business with, it leaves alone. */
  lemma SettledSparesOthers(objects: map<Object, Content>, ns: string, want: Wanted, acts: seq<FeatureAct>)
    ensures TRACKED <= Settled(objects, ns, want, acts).Keys
    ensures AddonBinding in Settled(objects, ns, want, acts) <==> AddonBinding in objects
    ensures AddonBinding in objects ==> Settled(objects, ns, want, acts)[AddonBinding] == objects[AddonBinding]
  {
    ActsAreOnMarkers(WithBindings(WithRoles(objects, ns, want), ns, want), acts);
  }

  ghost predicate Reachable(s: State, want: Wanted) {
    exists events :: MonotoneRun(events, want) && s == Run(INITIAL, events, want)
  }

  lemma ReachableIsClosed(s: State, e: Event, want: Wanted)
    requires Reachable(s, want) && Monotone(s, e)
    ensures Reachable(Next(s, e, want), want)
  {
    var events :| MonotoneRun(events, want) && s == Run(INITIAL, events, want);
    var more := events + [e];
    assert more[..|events|] == events;
    forall i | 0 <= i < |more| ensures Monotone(Run(INITIAL, more[..i], want), more[i]) {
      if i < |events| {
        assert more[..i] == events[..i];
      }
    }
    assert Next(s, e, want) == Run(INITIAL, more, want);
  }

  lemma ReachableIsSafe(s: State, want: Wanted)
    requires Reachable(s, want)
    ensures Inv(s)
  {
    var events :| MonotoneRun(events, want) && s == Run(INITIAL, events, want);
    RunsKeepInv(events, want);
  }

  function HoldersOf(searches: map<string, Search>): set<string> {
    set n | n in searches && FINALIZER in searches[n].finalizers
  }

  /** What others do has nothing to do with what the operator is doing, and brings no finalized object back. */
  lemma OthersStayApart(s: State, e: Event, op: Operator, want: Wanted)
    requires Outside(e)
    ensures Next(s.(operator := op), e, want) == OutsideStep(s, e).(operator := op)
    ensures OutsideStep(s, e).seen == s.seen && s.history <= OutsideStep(s, e).history
    ensures OutsideStep(s, e).objects.Keys * FINALIZED <= s.objects.Keys
  {
  }

  /** And nobody but the operator takes its finalizer off. */
  lemma OthersLeaveFinalizer(s: State, e: Event)
    requires Outside(e)
    ensures HoldersOf(s.searches) <= HoldersOf(OutsideStep(s, e).searches)
  {
  }

  datatype Result = Absent | Deleted | Paused | Reconciled | Failed

  /**
    The cluster and the operator working on it. The API server answers `calls` more calls, then
    fails; before the operator's n-th call, others do `others(n)`. `kept` is any property that all
    monotone steps of the machine keep: what every method keeps of it shows that the code, whatever
    others do between its calls, takes only steps of the machine.
   */
  class Controller {
    const want: Wanted
    const others: nat -> seq<Event>
    ghost const kept: State -> bool
    var searches: map<string, Search>
    var history: History
    var seen: map<string, nat>
    var objects: map<Object, Content>
    var next: nat
    var owners: seq<string>
    var calls: nat
    var clock: nat

    ghost function Now(op: Operator): State
      reads this
    {
      State(searches, history, seen, objects, next, op)
    }

    /** Where a Search carries the finalizer. */
    ghost function Holders(): set<string>
      reads this
    {
      HoldersOf(searches)
    }

    ghost predicate Valid() {
      && (forall s, e :: kept(s) && Monotone(s, e) ==> kept(Next(s, e, want)))
      && (forall n, e | e in others(n) :: Outside(e))
    }

    /** Nobody else does anything. */
    ghost predicate Alone() {
      forall n :: others(n) == []
    }

    /** The operator is about to do `op`. */
    ghost predicate At(op: Operator)
      reads this
    {
      kept(Now(op))
    }

    /** In a new cluster, everything the methods leave is reachable in the machine. */
    constructor (want: Wanted, others: nat -> seq<Event>)
      requires forall n, e | e in others(n) :: Outside(e)
      ensures Valid() && At(Idle)
      ensures forall s :: kept(s) <==> Reachable(s, want)
      ensures searches == map[] && objects == map[]
    {
      this.want, this.others := want, others;
      this.kept := s => Reachable(s, want);
      searches, history, seen, objects, next, owners, calls, clock := map[], {}, map[], map[], 0, [], 0, 0;
      new;
      assert MonotoneRun([], want) && Now(Idle) == Run(INITIAL, [], want);
      forall s, e | kept(s) && Monotone(s, e) ensures kept(Next(s, e, want)) {
        ReachableIsClosed(s, e, want);
      }
    }

    /** The others get their turn. */
    method OthersAct(ghost op: Operator)
      requires Valid() && At(op)
      modifies `searches, `history, `objects, `next, `clock
      ensures old(Holders()) <= Holders()
      ensures At(op) && (Alone() ==> Now(Idle) == old(Now(Idle)))
      ensures old(history) <= history && objects.Keys * FINALIZED <= old(objects.Keys)
    {
      var events := others(clock);
      assert forall e | e in events :: Outside(e);
      for i := 0 to |events|
        invariant At(op) && (Alone() ==> Now(Idle) == old(Now(Idle))) && old(Holders()) <= Holders()
        invariant old(history) <= history && objects.Keys * FINALIZED <= old(objects.Keys)
      {
        assert events[i] in events;
        ghost var before := Now(op);
        OthersStayApart(Now(Idle), events[i], op, want);
        OthersLeaveFinalizer(Now(Idle), events[i]);
        var t := OutsideStep(State(searches, history, seen, objects, next, Idle), events[i]);
        searches, history, objects, next := t.searches, t.history, t.objects, t.next;
        assert Next(before, events[i], want) == Now(op);
      }
      clock := clock + 1;
    }

    /** One call: others may act first, and then the API server answers or does not. */
    method Answers(ghost op: Operator) returns (ok: bool)
      requires Valid() && At(op)
      modifies `searches, `history, `objects, `next, `clock, `calls
      ensures old(Holders()) <= Holders()
      ensures At(op) && (Alone() ==> Now(Idle) == old(Now(Idle)))
      ensures old(history) <= history && objects.Keys * FINALIZED <= old(objects.Keys)
      ensures ok == (old(calls) > 0) && calls == old(calls) - if ok then 1 else 0
    {
      OthersAct(op);
      ok := calls > 0;
      calls := if ok then calls - 1 else 0;
    }

    // -------------------------------------------------------------------------------------
    // Finalizing
    // -------------------------------------------------------------------------------------

    /** removeOwnerRefClusterManagementAddon: takes out the first Search among the addon's owners. */
    method ReleaseAddon(ns: string, c: Search) returns (ok: bool)
      requires Valid() && At(Finalizing(ns, c, 0))
      modifies `searches, `history, `objects, `next, `clock, `calls, `owners
      ensures old(Holders()) <= Holders()
      ensures At(if ok then Finalizing(ns, c, 1) else Idle) && (Alone() ==> Now(Idle) == old(Now(Idle)))
      ensures old(history) <= history && objects.Keys * FINALIZED <= old(objects.Keys)
      ensures owners == if ok then Drop(old(owners), OwnerKind(), "Search") else old(owners)
      ensures old(calls) >= 2 ==> ok && calls >= old(calls) - 2
    {
      ok := Answers(Finalizing(ns, c, 0));
      if ok {
        var index := FindFirst(owners, OwnerKind(), "Search");
        if index > -1 {
          ok := Answers(Finalizing(ns, c, 0));
          if ok {
            owners := owners[..index] + owners[index + 1..];
          }
        }
      }
      assert Next(Now(Finalizing(ns, c, 0)), Step(ok), want) == Now(if ok then Finalizing(ns, c, 1) else Idle);
    }

    /**
      deleteClusterRole and deleteClusterRoleBinding, for the n-th deletion of finalizeSearch: an
      object that is not there counts as deleted.
     */
    method DeleteFinal(o: Object, ns: string, c: Search, ghost n: nat) returns (ok: bool)
      requires Valid() && n < |FINALIZE| && o == FINALIZE[n] && At(Finalizing(ns, c, n + 1))
      modifies `searches, `history, `objects, `next, `clock, `calls
      ensures old(Holders()) <= Holders()
      ensures At(if ok then Finalizing(ns, c, n + 2) else Idle)
      ensures old(history) <= history && objects.Keys * FINALIZED <= old(objects.Keys)
      ensures ok ==> o !in objects
      ensures Alone() ==> Now(Idle) == if ok then old(Now(Idle)).(objects := old(objects) - {o}) else old(Now(Idle))
      ensures ok == (old(calls) > 0) && calls == old(calls) - if ok then 1 else 0
    {
      ok := Answers(Finalizing(ns, c, n + 1));
      ghost var before := Now(Finalizing(ns, c, n + 1));
      if ok {
        objects := objects - {o};
      }
      assert Next(before, Step(ok), want) == Now(if ok then Finalizing(ns, c, n + 2) else Idle);
    }

    method DeleteAddonRbac(ns: string, c: Search) returns (ok: bool)
      requires Valid() && At(Finalizing(ns, c, 1))
      modifies `searches, `history, `objects, `next, `clock, `calls
      ensures old(Holders()) <= Holders()
      ensures At(if ok then Finalizing(ns, c, 3) else Idle)
      ensures old(history) <= history && objects.Keys * FINALIZED <= old(objects.Keys)
      ensures ok ==> objects.Keys !! {AddonRole, AddonBinding}
      ensures Alone() && ok ==> Now(Idle) == old(Now(Idle)).(objects := old(objects) - {AddonRole, AddonBinding})
      ensures Alone() ==> searches == old(searches)
      ensures old(calls) >= 2 ==> ok && calls == old(calls) - 2
    {
      ok := DeleteFinal(AddonRole, ns, c, 0);
      if !ok { return; }
      ok := DeleteFinal(AddonBinding, ns, c, 1);
    }

    method DeleteComponentBindings(ns: string, c: Search) returns (ok: bool)
      requires Valid() && At(Finalizing(ns, c, 3))
      modifies `searches, `history, `objects, `next, `clock, `calls
      ensures old(Holders()) <= Holders()
      ensures At(if ok then Finalizing(ns, c, 5) else Idle)
      ensures old(history) <= history && objects.Keys * FINALIZED <= old(objects.Keys)
      ensures ok ==> objects.Keys !! {ApiBinding, CollectorBinding}
      ensures Alone() && ok ==> Now(Idle) == old(Now(Idle)).(objects := old(objects) - {ApiBinding, CollectorBinding})
      ensures Alone() ==> searches == old(searches)
      ensures old(calls) >= 2 ==> ok && calls == old(calls) - 2
    {
      ok := DeleteFinal(ApiBinding, ns, c, 2);
      if !ok { return; }
      ok := DeleteFinal(CollectorBinding, ns, c, 3);
    }

    method DeleteIndexerRbac(ns: string, c: Search) returns (ok: bool)
      requires Valid() && At(Finalizing(ns, c, 5))
      modifies `searches, `history, `objects, `next, `clock, `calls
      ensures old(Holders()) <= Holders()
      ensures At(if ok then Finalizing(ns, c, 7) else Idle)
      ensures old(history) <= history && objects.Keys * FINALIZED <= old(objects.Keys)
      ensures ok ==> objects.Keys !! {IndexerRole, IndexerBinding}
      ensures Alone() && ok ==> Now(Idle) == old(Now(Idle)).(objects := old(objects) - {IndexerRole, IndexerBinding})
      ensures Alone() ==> searches == old(searches)
      ensures old(calls) >= 2 ==> ok && calls == old(calls) - 2
    {
      ok := DeleteFinal(IndexerRole, ns, c, 4);
      if !ok { return; }
      ok := DeleteFinal(IndexerBinding, ns, c, 5);
    }

    /** finalizeSearch: stops at the first call that fails. */
    method FinalizeSearch(ns: string, c: Search) returns (ok: bool)
      requires Valid() && At(Finalizing(ns, c, 0))
      modifies `searches, `history, `objects, `next, `clock, `calls, `owners
      ensures old(Holders()) <= Holders()
      ensures At(if ok then Finalizing(ns, c, 7) else Idle)
      ensures old(history) <= history
      ensures ok ==> objects.Keys !! FINALIZED && owners == Drop(old(owners), OwnerKind(), "Search")
      ensures Alone() && ok ==> Now(Idle) == old(Now(Idle)).(objects := old(objects) - FINALIZED)
      ensures Alone() ==> searches == old(searches)
      ensures old(calls) >= 8 ==> ok && calls >= old(calls) - 8
    {
      ok := ReleaseAddon(ns, c);
      if !ok { return; }
      ok := DeleteAddonRbac(ns, c);
      if !ok { return; }
      ok := DeleteComponentBindings(ns, c);
      if !ok { return; }
      ok := DeleteIndexerRbac(ns, c);
    }

    /** Stores a Search that may have been changed by others since it was read. */
    method WriteSearch(ns: string, c: Search) returns (ok: bool)
      modifies `searches, `history, `next
      ensures ok <==> Current(old(Now(Idle)), ns, c)
      ensures Now(Idle) == if ok then Store(old(Now(Idle)), ns, c) else old(Now(Idle))
      ensures old(Holders()) - (if FINALIZER in c.finalizers then {} else {ns}) <= Holders()
    {
      if ns !in searches || searches[ns].version != c.version {
        return false;
      }
      if c.deleting && c.finalizers == [] {
        searches := searches - {ns};
      } else {
        searches := searches[ns := c.(version := next)];
        history := history + {(ns, c.(version := next))};
      }
      next := next + 1;
      return true;
    }

    /** Takes the finalizer off. */
    method RemoveFinalizer(ns: string, c: Search) returns (ok: bool)
      requires Valid() && c.deleting && At(Finalizing(ns, c, 7))
      modifies `searches, `history, `objects, `next, `clock, `calls
      ensures At(Idle)
      ensures objects.Keys * FINALIZED <= old(objects.Keys)
      ensures old(Holders()) - (if ok then {ns} else {}) <= Holders()
      ensures ok ==> FinalizerGone(searches, ns, c)
      ensures Alone() ==> objects == old(objects) && searches - {ns} == old(searches) - {ns}
      ensures Alone() && !ok ==> searches == old(searches)
      ensures Alone() && Current(old(Now(Idle)), ns, c) && old(calls) >= 1 ==> ok
    {
      var answered := Answers(Finalizing(ns, c, 7));
      ghost var before := Now(Finalizing(ns, c, 7));
      ok := false;
      if answered {
        WithoutIsGone(Now(Idle), ns, c);
        ok := WriteSearch(ns, c.(finalizers := Without(c.finalizers)));
      }
      assert Next(before, Step(answered), want) == Now(Idle);
    }

    /** The part of setFinalizer for a Search that is being deleted. */
    method FinalizeDeleted(ns: string, c: Search) returns (ok: bool)
      requires Valid() && c.deleting && At(Begins(ns, c))
      modifies `searches, `history, `objects, `next, `clock, `calls, `owners
      ensures At(Idle)
      ensures old(Holders()) - (if ok then {ns} else {}) <= Holders()
      ensures ok && FINALIZER in c.finalizers ==>
                objects.Keys !! FINALIZED && FinalizerGone(searches, ns, c)
                && owners == Drop(old(owners), OwnerKind(), "Search")
      ensures Alone() ==> searches - {ns} == old(searches) - {ns} && (!ok ==> searches == old(searches))
      ensures Alone() && ok ==> objects == if FINALIZER in c.finalizers then old(objects) - FINALIZED else old(objects)
      ensures Alone() && Current(old(Now(Idle)), ns, c) && old(calls) >= 9 ==> ok
    {
      if FINALIZER !in c.finalizers {
        return true;
      }
      ok := FinalizeSearch(ns, c);
      if !ok { return; }
      ok := RemoveFinalizer(ns, c);
    }

    /** The part of setFinalizer for a Search without the finalizer. */
    method AddFinalizer(ns: string, c: Search) returns (ok: bool, instance: Search)
      requires Valid() && At(Adding(ns, c))
      modifies `searches, `history, `objects, `next, `clock, `calls
      ensures old(Holders()) <= Holders()
      ensures At(if ok then Main(ns, instance) else Idle)
      ensures ok ==>
                && FINALIZER in instance.finalizers && ns in searches && searches[ns] == instance
                && instance == c.(version := instance.version, finalizers := c.finalizers + [FINALIZER])
      ensures Alone() ==>
                && objects == old(objects) && searches - {ns} == old(searches) - {ns}
                && (!ok ==> searches == old(searches))
      ensures Alone() && Current(old(Now(Idle)), ns, c) && old(calls) >= 1 ==> ok && calls == old(calls) - 1
    {
      var answered := Answers(Adding(ns, c));
      ghost var before := Now(Adding(ns, c));
      ok, instance := false, c.(finalizers := c.finalizers + [FINALIZER]);
      if answered {
        ok := WriteSearch(ns, instance);
        if ok {
          assert instance.finalizers != [];
          instance := searches[ns];
        }
      }
      assert Next(before, Step(answered), want) == Now(if ok then Main(ns, instance) else Idle);
    }

    /**
      setFinalizer. A Search being deleted is finalized and then loses the finalizer; any other
      gets it. A failure leaves the finalizer where it was.
     */
    method SetFinalizer(ns: string, c: Search) returns (deleted: bool, ok: bool, instance: Search)
      requires Valid() && At(Begins(ns, c))
      modifies `searches, `history, `objects, `next, `clock, `calls, `owners
      ensures At(if ok && !deleted then Main(ns, instance) else Idle)
      ensures old(Holders()) - (if ok && deleted then {ns} else {}) <= Holders()
      ensures ok ==> deleted == c.deleting
      ensures ok && deleted && FINALIZER in c.finalizers ==>
                objects.Keys !! FINALIZED && FinalizerGone(searches, ns, c)
                && owners == Drop(old(owners), OwnerKind(), "Search")
      ensures !c.deleting ==> owners == old(owners)
      ensures ok && !deleted ==>
                && instance == c.(version := instance.version, finalizers := WithFinalizer(c.finalizers))
                && (FINALIZER in c.finalizers ==> instance == c && Now(Idle) == old(Now(Idle)))
                && (FINALIZER !in c.finalizers ==> ns in searches && searches[ns] == instance)
      ensures Alone() ==> searches - {ns} == old(searches) - {ns} && (!ok ==> searches == old(searches))
      ensures Alone() && ok ==>
                objects == if deleted && FINALIZER in c.finalizers then old(objects) - FINALIZED else old(objects)
      ensures Alone() && Current(old(Now(Idle)), ns, c) && old(calls) >= 9 ==> ok
      ensures Alone() && Current(old(Now(Idle)), ns, c) && !c.deleting && old(calls) >= 1 ==>
                ok && calls >= old(calls) - 1
    {
      instance := c;
      if c.deleting {
        ok := FinalizeDeleted(ns, c);
        return ok, ok, instance;
      }
      deleted, ok := false, true;
      if FINALIZER !in c.finalizers {
        ok, instance := AddFinalizer(ns, c);
      }
    }

    // -------------------------------------------------------------------------------------
    // Reconciling
    // -------------------------------------------------------------------------------------

    /** Reading an object settles what is to be done about it. */
    method Look(o: Object, ns: string, c: Search, ghost k: nat) returns (ok: bool)
      requires Valid() && k < |RECONCILE| && RECONCILE[k] == Ensure(o) && At(Reconciling(ns, c, k, []))
      modifies `searches, `history, `objects, `next, `clock, `calls
      ensures old(Holders()) <= Holders()
      ensures At(if ok then Reconciling(ns, c, k + 1, Decide(objects, o, want(o, ns))) else Idle)
      ensures Alone() ==> Now(Idle) == old(Now(Idle))
      ensures ok == (old(calls) > 0) && calls == old(calls) - if ok then 1 else 0
    {
      ok := Answers(Reconciling(ns, c, k, []));
      assert Next(Now(Reconciling(ns, c, k, [])), Step(ok), want) ==
             Now(if ok then Reconciling(ns, c, k + 1, Decide(objects, o, want(o, ns))) else Idle);
    }

    /** Fails if somebody else has made the object in between. */
    method Create(o: Object, ns: string, c: Search, ghost k: nat) returns (ok: bool)
      requires Valid() && At(Reconciling(ns, c, k, [Make(o)]))
      modifies `searches, `history, `objects, `next, `clock, `calls
      ensures old(Holders()) <= Holders()
      ensures At(if ok then Reconciling(ns, c, k, []) else Idle)
      ensures Alone() ==>
                && ok == (old(calls) > 0 && o !in old(objects))
                && calls == (if old(calls) > 0 then old(calls) - 1 else 0)
                && Now(Idle) == if ok then old(Now(Idle)).(objects := old(objects)[o := want(o, ns)])
                                else old(Now(Idle))
    {
      ok := Answers(Reconciling(ns, c, k, [Make(o)]));
      ghost var before, answered := Now(Reconciling(ns, c, k, [Make(o)])), ok;
      assert [Make(o)][1..] == [];
      ok := ok && o !in objects;
      if ok {
        objects := objects[o := want(o, ns)];
      }
      assert Next(before, Step(answered), want) == Now(if ok then Reconciling(ns, c, k, []) else Idle);
    }

    /** Fails if somebody else has removed the object in between. */
    method Update(o: Object, ns: string, c: Search, ghost k: nat) returns (ok: bool)
      requires Valid() && At(Reconciling(ns, c, k, [Modify(o)]))
      modifies `searches, `history, `objects, `next, `clock, `calls
      ensures old(Holders()) <= Holders()
      ensures At(if ok then Reconciling(ns, c, k, []) else Idle)
      ensures Alone() && o in old(objects) ==>
                && ok == (old(calls) > 0) && calls == old(calls) - (if ok then 1 else 0)
                && var changed := old(objects)[o].(rest := want(o, ns).rest);
                   Now(Idle) == if ok then old(Now(Idle)).(objects := old(objects)[o := changed]) else old(Now(Idle))
    {
      ok := Answers(Reconciling(ns, c, k, [Modify(o)]));
      ghost var before, answered := Now(Reconciling(ns, c, k, [Modify(o)])), ok;
      assert [Modify(o)][1..] == [];
      ok := ok && o in objects;
      if ok {
        objects := objects[o := objects[o].(rest := want(o, ns).rest)];
      }
      assert Next(before, Step(answered), want) == Now(if ok then Reconciling(ns, c, k, []) else Idle);
    }

    /** Fails if somebody else has removed the binding in between. */
    method DeleteStale(o: Object, ns: string, c: Search, ghost k: nat) returns (ok: bool)
      requires Valid() && At(Reconciling(ns, c, k, [Discard(o), Make(o)]))
      modifies `searches, `history, `objects, `next, `clock, `calls
      ensures old(Holders()) <= Holders()
      ensures At(if ok then Reconciling(ns, c, k, [Make(o)]) else Idle)
      ensures Alone() && o in old(objects) ==>
                && ok == (old(calls) > 0) && calls == old(calls) - (if ok then 1 else 0)
                && Now(Idle) == if ok then old(Now(Idle)).(objects := old(objects) - {o}) else old(Now(Idle))
    {
      ok := Answers(Reconciling(ns, c, k, [Discard(o), Make(o)]));
      ghost var before, answered := Now(Reconciling(ns, c, k, [Discard(o), Make(o)])), ok;
      assert [Discard(o), Make(o)][1..] == [Make(o)];
      ok := ok && o in objects;
      if ok {
        objects := objects - {o};
      }
      assert Next(before, Step(answered), want) == Now(if ok then Reconciling(ns, c, k, [Make(o)]) else Idle);
    }

    /** createUpdateRoles: creates the role or brings its rules up to date. */
    method CreateUpdateRole(o: Object, ns: string, c: Search, ghost k: nat) returns (ok: bool)
      requires Valid() && k < |RECONCILE| && RECONCILE[k] == Ensure(o) && !IsBinding(o)
      requires At(Reconciling(ns, c, k, []))
      modifies `searches, `history, `objects, `next, `clock, `calls
      ensures old(Holders()) <= Holders()
      ensures At(if ok then Reconciling(ns, c, k + 1, []) else Idle)
      ensures Alone() ==>
                && (old(calls) >= 2 ==> ok && calls >= old(calls) - 2)
                && Now(Idle) == if ok then old(Now(Idle)).(objects := With(old(objects), o, want(o, ns)))
                                else old(Now(Idle))
    {
      ok := Look(o, ns, c, k);
      if !ok { return; }
      if o !in objects {
        ok := Create(o, ns, c, k + 1);
      } else if objects[o].rest != want(o, ns).rest {
        ok := Update(o, ns, c, k + 1);
      } else {
        assert objects == With(objects, o, want(o, ns));
      }
    }

    /** createRoleBinding: a roleRef cannot be changed, so the binding is deleted and made again. */
    method CreateRoleBinding(o: Object, ns: string, c: Search, ghost k: nat) returns (ok: bool)
      requires Valid() && k < |RECONCILE| && RECONCILE[k] == Ensure(o) && IsBinding(o)
      requires At(Reconciling(ns, c, k, []))
      modifies `searches, `history, `objects, `next, `clock, `calls
      ensures old(Holders()) <= Holders()
      ensures At(if ok then Reconciling(ns, c, k + 1, []) else Idle)
      ensures Alone() ==>
                && (old(calls) >= 3 ==> ok && calls >= old(calls) - 3)
                && Now(Idle) == old(Now(Idle)).(objects := objects)
                && if ok then objects == old(objects)[o := want(o, ns)]
                   else objects == old(objects) || objects == old(objects) - {o}
    {
      ok := Look(o, ns, c, k);
      if !ok { return; }
      if o !in objects {
        ok := Create(o, ns, c, k + 1);
      } else if objects[o].roleRef != want(o, ns).roleRef {
        ok := DeleteStale(o, ns, c, k + 1);
        if !ok { return; }
        ok := Create(o, ns, c, k + 1);
      } else if objects[o].rest != want(o, ns).rest {
        ok := Update(o, ns, c, k + 1);
      } else {
        assert objects == objects[o := want(o, ns)];
      }
    }

    method EnsureRoles(ns: string, c: Search) returns (ok: bool)
      requires Valid() && At(Reconciling(ns, c, 1, []))
      modifies `searches, `history, `objects, `next, `clock, `calls
      ensures old(Holders()) <= Holders()
      ensures At(if ok then Reconciling(ns, c, 4, []) else Idle)
      ensures Alone() ==> Now(Idle) == old(Now(Idle)).(objects := objects)
      ensures Alone() && ok ==> objects == WithRoles(old(objects), ns, want)
      ensures Alone() && old(calls) >= 6 ==> ok && calls >= old(calls) - 6
    {
      ok := CreateUpdateRole(IndexerRole, ns, c, 1);
      if !ok { return; }
      ok := CreateUpdateRole(AddonRole, ns, c, 2);
      if !ok { return; }
      ok := CreateUpdateRole(GlobalSearchUserRole, ns, c, 3);
    }

    method EnsureBindings(ns: string, c: Search) returns (ok: bool)
      requires Valid() && At(Reconciling(ns, c, 4, []))
      modifies `searches, `history, `objects, `next, `clock, `calls
      ensures old(Holders()) <= Holders()
      ensures At(if ok then Reconciling(ns, c, 7, []) else Idle)
      ensures Alone() ==> Now(Idle) == old(Now(Idle)).(objects := objects)
      ensures Alone() && ok ==> objects == WithBindings(old(objects), ns, want)
      ensures Alone() && old(calls) >= 9 ==> ok && calls >= old(calls) - 9
    {
      ok := CreateRoleBinding(ApiBinding, ns, c, 4);
      if !ok { return; }
      ok := CreateRoleBinding(CollectorBinding, ns, c, 5);
      if !ok { return; }
      ok := CreateRoleBinding(IndexerBinding, ns, c, 6);
    }

    /** The calls that touch neither the Search nor its RBAC, taken together. */
    method WorkElsewhere(ns: string, c: Search, ghost k: nat) returns (ok: bool)
      requires Valid() && k < |RECONCILE| && RECONCILE[k] == Elsewhere && At(Reconciling(ns, c, k, []))
      modifies `searches, `history, `objects, `next, `clock, `calls
      ensures old(Holders()) <= Holders()
      ensures At(if ok then Reconciling(ns, c, k + 1, []) else Idle)
      ensures Alone() ==> Now(Idle) == old(Now(Idle))
      ensures ok == (old(calls) > 0) && calls == old(calls) - if ok then 1 else 0
    {
      ok := Answers(Reconciling(ns, c, k, []));
      assert Next(Now(Reconciling(ns, c, k, [])), Step(ok), want) ==
             Now(if ok then Reconciling(ns, c, k + 1, []) else Idle);
    }

    /** Creating a marker that is there already is no failure; any other only counts. */
    method Mark(cluster: string, content: Content, ns: string, c: Search)
      requires Valid() && At(Reconciling(ns, c, 8, []))
      modifies `searches, `history, `objects, `next, `clock, `calls
      ensures old(Holders()) <= Holders() && At(Reconciling(ns, c, 8, []))
      ensures calls == if old(calls) > 0 then old(calls) - 1 else 0
      ensures Alone() ==> Now(Idle) == old(Now(Idle)).(objects := objects)
      ensures Alone() && old(calls) > 0 ==> objects == ActOn(old(objects), MakeMarker(cluster, content))
    {
      var answered := Answers(Reconciling(ns, c, 8, []));
      ghost var before := Now(Reconciling(ns, c, 8, []));
      if answered && Marker(cluster) !in objects {
        objects := objects[Marker(cluster) := content];
        assert Next(before, FeatureMakes(cluster, content), want) == Now(Reconciling(ns, c, 8, []));
      }
    }

    /** Deleting a marker that is not there is no failure; any other only counts. */
    method Unmark(cluster: string, ns: string, c: Search)
      requires Valid() && At(Reconciling(ns, c, 8, []))
      modifies `searches, `history, `objects, `next, `clock, `calls
      ensures old(Holders()) <= Holders() && At(Reconciling(ns, c, 8, []))
      ensures calls == if old(calls) > 0 then old(calls) - 1 else 0
      ensures Alone() ==> Now(Idle) == old(Now(Idle)).(objects := objects)
      ensures Alone() && old(calls) > 0 ==> objects == ActOn(old(objects), DropMarker(cluster))
    {
      var answered := Answers(Reconciling(ns, c, 8, []));
      ghost var before := Now(Reconciling(ns, c, 8, []));
      if answered {
        objects := objects - {Marker(cluster)};
        assert Next(before, FeatureDrops(cluster), want) == Now(Reconciling(ns, c, 8, []));
      }
    }

    /** Saves the Search if a feature changed it, and only then. */
    method Save(features: string, must: bool, ns: string, c: Search) returns (ok: bool, instance: Search)
      requires Valid() && FINALIZER in c.finalizers && At(Reconciling(ns, c, 8, []))
      modifies `searches, `history, `objects, `next, `clock, `calls
      ensures old(Holders()) <= Holders()
      ensures At(if ok then Reconciling(ns, instance, 8, []) else Idle)
      ensures instance == c.(version := instance.version, features := instance.features)
      ensures features == c.features ==> ok && instance == c && unchanged(this)
      ensures calls <= old(calls)
      ensures Alone() ==> objects == old(objects) && searches - {ns} == old(searches) - {ns}
      ensures Alone() && ns in old(searches) && old(searches)[ns] == c ==>
                && ns in searches && searches[ns] == instance
                && (old(calls) > 0 ==> ok && instance.features == features && calls >= old(calls) - 1)
    {
      ok, instance := true, c;
      if features == c.features {
        return;
      }
      var answered := Answers(Reconciling(ns, c, 8, []));
      ghost var before := Now(Reconciling(ns, c, 8, []));
      assert c.finalizers != [];
      var saved := false;
      if answered {
        saved := WriteSearch(ns, c.(features := features));
        if saved {
          instance := c.(features := features, version := next - 1);
        }
        assert Next(before, FeatureSaves(features), want) == Now(Reconciling(ns, instance, 8, []));
      }
      if !saved && must {
        ok := false;
        assert Next(Now(Reconciling(ns, c, 8, [])), Step(false), want) == Now(Idle);
      }
    }

    method ActFeature(act: FeatureAct, ns: string, c: Search) returns (ok: bool, instance: Search)
      requires Valid() && FINALIZER in c.finalizers && At(Reconciling(ns, c, 8, []))
      modifies `searches, `history, `objects, `next, `clock, `calls
      ensures old(Holders()) <= Holders()
      ensures At(if ok then Reconciling(ns, instance, 8, []) else Idle)
      ensures instance == c.(version := instance.version, features := instance.features)
      ensures calls <= old(calls)
      ensures Alone() ==> searches - {ns} == old(searches) - {ns}
      ensures Alone() && ns in old(searches) && old(searches)[ns] == c ==>
                && ns in searches && searches[ns] == instance
                && (old(calls) > 0 ==> ok && calls >= old(calls) - 1 && objects == ActOn(old(objects), act)
                                       && instance.features == if act.SaveSearch? then act.features else c.features)
    {
      ok, instance := true, c;
      if act.MakeMarker? {
        Mark(act.cluster, act.content, ns, c);
      } else if act.DropMarker? {
        Unmark(act.cluster, ns, c);
      } else {
        ok, instance := Save(act.features, act.must, ns, c);
      }
    }

    /** The features, one act after the other. */
    method RunFeatures(acts: seq<FeatureAct>, ns: string, c: Search) returns (ok: bool, instance: Search)
      requires Valid() && FINALIZER in c.finalizers && At(Reconciling(ns, c, 8, []))
      modifies `searches, `history, `objects, `next, `clock, `calls
      ensures old(Holders()) <= Holders()
      ensures At(if ok then Reconciling(ns, instance, 9, []) else Idle)
      ensures instance == c.(version := instance.version, features := instance.features)
      ensures Alone() ==> searches - {ns} == old(searches) - {ns}
      ensures Alone() && ns in old(searches) && old(searches)[ns] == c ==>
                && ns in searches && searches[ns] == instance
                && (calls > 0 ==> ok && objects == Acted(old(objects), acts)
                                  && instance.features == Saved(c.features, acts))
                && (old(calls) >= |acts| ==> calls >= old(calls) - |acts|)
    {
      ok, instance := true, c;
      for i := 0 to |acts|
        invariant old(Holders()) <= Holders() && ok
        invariant At(Reconciling(ns, instance, 8, []))
        invariant instance == c.(version := instance.version, features := instance.features)
        invariant calls <= old(calls)
        invariant Alone() ==> searches - {ns} == old(searches) - {ns}
        invariant Alone() && ns in old(searches) && old(searches)[ns] == c ==>
          && ns in searches && searches[ns] == instance
          && (calls > 0 ==> objects == Acted(old(objects), acts[..i])
                            && instance.features == Saved(c.features, acts[..i]))
          && (old(calls) >= |acts| ==> calls >= old(calls) - i)
      {
        ActedNext(old(objects), c.features, acts, i);
        ok, instance := ActFeature(acts[i], ns, instance);
        if !ok { return; }
      }
      assert acts[..|acts|] == acts;
      assert Next(Now(Reconciling(ns, instance, 8, [])), Step(true), want) == Now(Reconciling(ns, instance, 9, []));
    }

    method DropLegacyObject(o: Object, ns: string, c: Search, ghost k: nat) returns (ok: bool)
      requires Valid() && k < |RECONCILE| && RECONCILE[k] == DropLegacy(o) && At(Reconciling(ns, c, k, []))
      modifies `searches, `history, `objects, `next, `clock, `calls
      ensures old(Holders()) <= Holders()
      ensures At(if ok then Reconciling(ns, c, k + 1, []) else Idle)
      ensures Alone() ==> Now(Idle) == if ok then old(Now(Idle)).(objects := old(objects) - {o}) else old(Now(Idle))
      ensures ok == (old(calls) > 0) && calls == old(calls) - if ok then 1 else 0
    {
      ok := Answers(Reconciling(ns, c, k, []));
      ghost var before := Now(Reconciling(ns, c, k, []));
      if ok {
        objects := objects - {o};
      }
      assert Next(before, Step(ok), want) == Now(if ok then Reconciling(ns, c, k + 1, []) else Idle);
    }

    method DropLegacyObjects(ns: string, c: Search) returns (ok: bool)
      requires Valid() && At(Reconciling(ns, c, 9, []))
      modifies `searches, `history, `objects, `next, `clock, `calls
      ensures old(Holders()) <= Holders()
      ensures At(Idle)
      ensures Alone() ==> Now(Idle) == old(Now(Idle)).(objects := objects)
      ensures Alone() && ok ==> objects == old(objects) - {LegacyRole, LegacyBinding}
      ensures ok <==> old(calls) >= 2
    {
      ok := DropLegacyObject(LegacyRole, ns, c, 9);
      if !ok { return; }
      ok := DropLegacyObject(LegacyBinding, ns, c, 10);
      if !ok { return; }
      assert Next(Now(Reconciling(ns, c, 11, [])), Step(true), want) == Now(Idle);
    }

    /** Everything up to the features. */
    method EnsureObjects(ns: string, c: Search) returns (ok: bool)
      requires Valid() && At(Reconciling(ns, c, 0, []))
      modifies `searches, `history, `objects, `next, `clock, `calls
      ensures old(Holders()) <= Holders()
      ensures At(if ok then Reconciling(ns, c, 8, []) else Idle)
      ensures Alone() ==> Now(Idle) == old(Now(Idle)).(objects := objects)
      ensures Alone() && ok ==> objects == WithBindings(WithRoles(old(objects), ns, want), ns, want)
      ensures Alone() && old(calls) >= 17 ==> ok && calls >= old(calls) - 17
    {
      ok := WorkElsewhere(ns, c, 0);
      if !ok { return; }
      ok := EnsureRoles(ns, c);
      if !ok { return; }
      ok := EnsureBindings(ns, c);
      if !ok { return; }
      ok := WorkElsewhere(ns, c, 7);
    }

    /** If it runs through, the Search is as its features left it. */
    method ReconcileObjects(ns: string, c: Search, acts: seq<FeatureAct>) returns (ok: bool)
      requires Valid() && FINALIZER in c.finalizers && At(Reconciling(ns, c, 0, []))
      modifies `searches, `history, `objects, `next, `clock, `calls
      ensures old(Holders()) <= Holders()
      ensures At(Idle)
      ensures Alone() ==> searches - {ns} == old(searches) - {ns}
      ensures Alone() && ns in old(searches) && old(searches)[ns] == c ==>
                && (old(calls) >= 19 + |acts| ==> ok)
                && (ok ==> ns in searches && objects == Settled(old(objects), ns, want, acts)
                           && searches[ns] == c.(version := searches[ns].version, features := Saved(c.features, acts)))
    {
      ok := EnsureObjects(ns, c);
      if !ok { return; }
      var instance;
      ok, instance := RunFeatures(acts, ns, c);
      if !ok { return; }
      ok := DropLegacyObjects(ns, instance);
    }

    /**
      Reconcile, with what the cache gives it. Deletion is served even when paused. The first
      clauses hold whatever others do in between; the others say the whole result when nobody does
      and the cache is up to date.
     */
    method Reconcile(ns: string, read: Option<Search>, acts: seq<FeatureAct>) returns (r: Result)
      requires Valid() && At(Idle)
      requires read.Some? ==> (ns, read.value) in history && read.value.version >= Seen(Now(Idle), ns)
      modifies this
      ensures At(Idle)
      ensures old(Holders()) - (if r == Deleted then {ns} else {}) <= Holders()
      ensures r == Absent ==> read.None?
      ensures r == Deleted ==> read.Some? && read.value.deleting
      ensures r == Deleted && FINALIZER in read.value.finalizers ==>
                && objects.Keys !! FINALIZED && FinalizerGone(searches, ns, read.value)
                && owners == Drop(old(owners), OwnerKind(), "Search")
      ensures r == Paused || r == Reconciled ==>
                read.Some? && !read.value.deleting && read.value.paused == (r == Paused) && owners == old(owners)
      ensures Alone() ==> searches - {ns} == old(searches) - {ns}
      ensures Alone() && Fresh(old(searches), ns, read) ==>
                && (old(calls) >= 21 + |acts| ==> r != Failed)
                && (r == Absent ==> objects == old(objects) && searches == old(searches))
                && (r == Deleted ==>
                      objects == if FINALIZER in read.value.finalizers then old(objects) - FINALIZED else old(objects))
                && (r == Paused ==> objects == old(objects))
                && (r == Reconciled ==> objects == Settled(old(objects), ns, want, acts))
                && (r == Paused || r == Reconciled ==> ns in searches && AfterReconcile(searches[ns], read.value, acts))
    {
      var ok := Answers(Idle);
      if !ok {
        return Failed;
      }
      if read.None? {
        return Absent;
      }
      var c := read.value;
      ghost var before := Now(Idle);
      if c.version > (if ns in seen then seen[ns] else 0) {
        seen := seen[ns := c.version];
      }
      assert Next(before, Begin(ns, c), want) == Now(Begins(ns, c));
      var deleted, instance;
      deleted, ok, instance := SetFinalizer(ns, c);
      if !ok || deleted {
        return if ok then Deleted else Failed;
      }
      if instance.paused {
        return Paused;
      }
      ok := ReconcileObjects(ns, instance, acts);
      return if ok then Reconciled else Failed;
    }
  }

  /** The cache gives what is stored. */
  predicate Fresh(searches: map<string, Search>, ns: string, read: Option<Search>) {
    if read.None? then ns !in searches else ns in searches && searches[ns] == read.value
  }
}
