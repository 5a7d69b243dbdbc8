/**
  The Ready condition of a component in the Search's status, folded from the Ready conditions of
  the component's pods.
 */
module Readiness {
  import opened FeatureMarkers
  import opened Keyed
  import opened Selections
  import opened Text

  datatype PodCondition = PodCondition(kind: string, status: string, reason: string, message: string, since: nat)

  datatype Pod = Pod(name: string, conditions: seq<PodCondition>)

  /** Names too short to cut make the operator slice out of range. */
  predicate Cuttable(name: string) {
    |Split(name, '-')| >= 2
  }

  function Component(name: string): string
    requires Cuttable(name)
  {
    Join(Split(name, '-')[..2], '-')
  }

  function ReadyType(name: string): string
    requires Cuttable(name)
  {
    "Ready--" + Component(name)
  }

  /** Reason and message must not be empty in the Search. */
  function Report(kind: string, c: PodCondition): Condition {
    Condition(kind, c.status, if c.reason != "" then c.reason else "None",
              if c.message != "" then c.message else "None", c.since)
  }

  predicate IsReady(c: PodCondition) { c.kind == "Ready" }

  predicate Failing(c: PodCondition) { IsReady(c) && c.status != "True" }

  /** What the fold takes from one pod, given whether it has anything yet. */
  predicate Takes(c: PodCondition, empty: bool) {
    IsReady(c) && (empty || c.status != "True")
  }

  function FirstTaken(conditions: seq<PodCondition>, empty: bool): (i: nat)
    ensures i <= |conditions|
    ensures i < |conditions| ==> Takes(conditions[i], empty)
    ensures forall j | 0 <= j < i :: !Takes(conditions[j], empty)
  {
    if conditions == [] || Takes(conditions[0], empty) then 0 else 1 + FirstTaken(conditions[1..], empty)
  }

  datatype Verdict = Nothing | Says(condition: Condition)

  function Observed(p: Pod, before: Verdict): Verdict
    requires Cuttable(p.name)
  {
    var i := FirstTaken(p.conditions, before.Nothing?);
    if i < |p.conditions| then Says(Report(ReadyType(p.name), p.conditions[i])) else before
  }

  function Judge(pods: seq<Pod>): Verdict
    requires forall p | p in pods :: Cuttable(p.name)
  {
    if pods == [] then Nothing else Observed(pods[|pods| - 1], Judge(pods[..|pods| - 1]))
  }

  /** The entry of that type is replaced, or the condition is appended. */
  function Placed(conditions: seq<Condition>, kind: string, v: Verdict): seq<Condition> {
    if v.Nothing? then conditions
    else
      var i := First(conditions, Kind(), kind);
      if i < |conditions| then conditions[i := v.condition] else conditions + [v.condition]
  }

  class Instance {
    var conditions: seq<Condition>

    /** Goes through one pod's conditions; the first that is taken ends the search. */
    method Observe(p: Pod, before: Verdict) returns (verdict: Verdict)
      requires Cuttable(p.name)
      ensures verdict == Observed(p, before)
    {
      for k := 0 to |p.conditions|
        invariant forall j | 0 <= j < k :: !Takes(p.conditions[j], before.Nothing?)
      {
        var c := p.conditions[k];
        if c.kind == "Ready" && (before.Nothing? || c.status != "True") {
          assert FirstTaken(p.conditions, before.Nothing?) == k;
          return Says(Report(ReadyType(p.name), c));
        }
      }
      return before;
    }

    method FoldPods(pods: seq<Pod>) returns (panicked: bool, readyType: string, verdict: Verdict)
      ensures panicked <==> exists p | p in pods :: !Cuttable(p.name)
      ensures !panicked ==> verdict == Judge(pods)
      ensures !panicked && pods != [] ==> readyType == ReadyType(pods[|pods| - 1].name)
    {
      panicked, readyType, verdict := false, "", Nothing;
      for n := 0 to |pods|
        invariant forall p | p in pods[..n] :: Cuttable(p.name)
        invariant verdict == Judge(pods[..n])
        invariant n > 0 ==> readyType == ReadyType(pods[n - 1].name)
      {
        var p := pods[n];
        assert pods[..n + 1][..n] == pods[..n] && p in pods;
        if |Split(p.name, '-')| < 2 {
          return true, "", Nothing;
        }
        readyType := ReadyType(p.name);
        verdict := Observe(p, verdict);
      }
      assert pods[..|pods|] == pods;
    }

    method UpdateStatusCondition(pods: seq<Pod>) returns (panicked: bool)
      modifies this
      ensures panicked <==> exists p | p in pods :: !Cuttable(p.name)
      ensures panicked || pods == [] ==> conditions == old(conditions)
      ensures !panicked && pods != [] ==>
                conditions == Placed(old(conditions), ReadyType(pods[|pods| - 1].name), Judge(pods))
    {
      var readyType, verdict;
      panicked, readyType, verdict := FoldPods(pods);
      if panicked {
        return;
      }
      var i := FindFirst(conditions, Kind(), readyType);
      if i > -1 && verdict.Says? {
        conditions := conditions[i := verdict.condition];
      } else if verdict.Says? {
        conditions := conditions + [verdict.condition];
      }
    }

    /** Without pods the component is reported as not ready. */
    method UpdateStatus(podName: string, pods: seq<Pod>, now: nat) returns (panicked: bool)
      modifies this
      ensures panicked <==> !Cuttable(podName) || exists p | p in pods :: !Cuttable(p.name)
      ensures panicked ==> conditions == old(conditions)
      ensures !panicked ==>
                var seen := if pods == [] then [Missing(podName, now)] else pods;
                (forall p | p in seen :: Cuttable(p.name)) &&
                conditions == Placed(old(conditions), ReadyType(seen[|seen| - 1].name), Judge(seen))
    {
      if |Split(podName, '-')| < 2 {
        return true;
      }
      panicked := UpdateStatusCondition(if pods == [] then [Missing(podName, now)] else pods);
    }
  }

  function Missing(podName: string, now: nat): Pod
    requires Cuttable(podName)
  {
    var message := "Check status of deployment: " + Component(podName);
    Pod(podName, [PodCondition("Ready", "False", "NoPodsFound", message, now)])
  }

  // ---------------------------------------------------------------------------------------
  // What the fold means
  // ---------------------------------------------------------------------------------------

  predicate SomeReady(pods: seq<Pod>) {
    exists p, c | p in pods && c in p.conditions :: IsReady(c)
  }

  predicate SomeFailing(pods: seq<Pod>) {
    exists p, c | p in pods && c in p.conditions :: Failing(c)
  }

  /** Pod conditions are keyed by type. */
  predicate OneReady(p: Pod) {
    forall i, j | 0 <= i < |p.conditions| && 0 <= j < |p.conditions|
                  && IsReady(p.conditions[i]) && IsReady(p.conditions[j]) ::
      i == j
  }

  predicate Sound(pods: seq<Pod>) {
    forall p | p in pods :: Cuttable(p.name) && OneReady(p)
  }

  /** A component is reported as soon as one pod reports, and as ready iff no pod says otherwise. */
  lemma {:induction false} ReadyIffAllReady(pods: seq<Pod>)
    requires Sound(pods)
    ensures Judge(pods).Says? <==> SomeReady(pods)
    ensures Judge(pods).Says? ==> (Judge(pods).condition.status == "True" <==> !SomeFailing(pods))
  {
    if pods != [] {
      var rest, p := pods[..|pods| - 1], pods[|pods| - 1];
      ReadyIffAllReady(rest);
      assert pods == rest + [p];
      assert forall q | q in rest :: q in pods;
      assert p in pods;
      var i := FirstTaken(p.conditions, Judge(rest).Nothing?);
      if i < |p.conditions| {
        assert p.conditions[i] in p.conditions;
      }
      assert SomeReady(pods) <==> SomeReady(rest) || exists c | c in p.conditions :: IsReady(c);
      assert SomeFailing(pods) <==> SomeFailing(rest) || exists c | c in p.conditions :: Failing(c);
    }
  }

  predicate Fails(p: Pod) {
    exists c | c in p.conditions :: Failing(c)
  }

  lemma PassingPodChangesNothing(p: Pod, before: Verdict)
    requires Cuttable(p.name) && !Fails(p) && before.Says?
    ensures Observed(p, before) == before
  {
    assert forall c | c in p.conditions :: !Takes(c, false);
  }

  /** It is the last failing pod that is reported. */
  lemma {:induction false} LastFailureIsReported(pods: seq<Pod>, n: nat, k: nat)
    requires Sound(pods) && n < |pods| && k < |pods[n].conditions| && Failing(pods[n].conditions[k])
    requires forall m | n < m < |pods| :: !Fails(pods[m])
    ensures Judge(pods) == Says(Report(ReadyType(pods[n].name), pods[n].conditions[k]))
  {
    var last := |pods| - 1;
    var rest, p := pods[..last], pods[last];
    assert p in pods;
    if n < last {
      assert forall q | q in rest :: q in pods;
      LastFailureIsReported(rest, n, k);
      PassingPodChangesNothing(p, Judge(rest));
    } else {
      assert OneReady(p);
    }
  }

  /** Pods of one component replace that component's condition and nothing else. */
  lemma OnlyOwnConditionChanges(conditions: seq<Condition>, pods: seq<Pod>)
    requires pods != [] && (forall p | p in pods :: Cuttable(p.name))
    requires Cuttable(pods[0].name) && forall p | p in pods :: Component(p.name) == Component(pods[0].name)
    ensures var kind, t := ReadyType(pods[0].name), Placed(conditions, ReadyType(pods[|pods| - 1].name), Judge(pods));
            && Pick(t, Others(Kind(), kind)) == Pick(conditions, Others(Kind(), kind))
            && (Distinct(conditions, Kind()) ==> Distinct(t, Kind()))
            && (Judge(pods).Says? ==> t == Put(conditions, Kind(), Judge(pods).condition))
  {
    VerdictIsOfComponent(pods, Component(pods[0].name));
    assert pods[|pods| - 1] in pods;
    if Judge(pods).Says? {
      PutKeepsOthers(conditions, Kind(), Judge(pods).condition);
      if Distinct(conditions, Kind()) {
        PutKeepsDistinct(conditions, Kind(), Judge(pods).condition);
      }
    }
  }

  lemma {:induction false} VerdictIsOfComponent(pods: seq<Pod>, component: string)
    requires forall p | p in pods :: Cuttable(p.name) && Component(p.name) == component
    ensures Judge(pods).Says? ==> Judge(pods).condition.kind == "Ready--" + component
  {
    if pods != [] {
      VerdictIsOfComponent(pods[..|pods| - 1], component);
      assert pods[|pods| - 1] in pods;
    }
  }

  /** A pod name without a dash, as nothing but convention forbids, makes the operator panic. */
  lemma DashlessNamePanics()
    ensures !Cuttable("search")
  {
    assert '-' !in "search";
    SplitOfClean("search", '-');
  }
}
