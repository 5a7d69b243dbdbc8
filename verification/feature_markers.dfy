/**
  Optional features and the markers they leave: environment variables and status conditions in the
  Search, flags in the console's ConfigMaps, and a ManagedServiceAccount and a ManifestWork for
  each managed hub. The GlobalSearchReady condition is what tells a later reconcile that there is
  something to clean up.
 */
module FeatureMarkers {
  import opened Keyed
  import opened Selections

  const GLOBAL_SEARCH := "GlobalSearchReady"
  const FEDERATED := "FEATURE_FEDERATED_SEARCH"
  const CONSOLE_FLAG := "globalSearchFeatureFlag"
  const RBAC := "FineGrainedRBACReady"
  const RBAC_FLAG := "FEATURE_FINE_GRAINED_RBAC"

  /** `source` stands for the rest of an environment variable (valueFrom). */
  datatype Env = Env(name: string, value: string, source: string)

  datatype Condition = Condition(kind: string, status: string, reason: string, message: string, since: nat)

  function Truth(b: bool): string {
    if b then "True" else "False"
  }

  function EnvName(): Env -> string { (e: Env) => e.name }

  function Kind(): Condition -> string { (c: Condition) => c.kind }

  type Consoles = map<(string, string), map<string, string>>

  /** The operator's copy of the Search, what the API server stores of it, and the markers elsewhere. */
  datatype State = State(env: seq<Env>, conditions: seq<Condition>,
                         storedEnv: seq<Env>, storedConditions: seq<Condition>,
                         accounts: set<string>, works: set<string>, consoles: Consoles)

  /** The operator's copy is what is stored. */
  predicate Fresh(s: State) {
    s.env == s.storedEnv && s.conditions == s.storedConditions
  }

  // ---------------------------------------------------------------------------------------
  // Editing the Search
  // ---------------------------------------------------------------------------------------

  /** An empty value removes the variable; setting one keeps the rest of an existing entry. */
  function WithEnv(env: seq<Env>, name: string, value: string): seq<Env> {
    if value == "" then Drop(env, EnvName(), name)
    else
      var i := First(env, EnvName(), name);
      Put(env, EnvName(), if i < |env| then env[i].(value := value) else Env(name, value, ""))
  }

  predicate SameReport(a: Condition, b: Condition) {
    a.status == b.status && a.reason == b.reason && a.message == b.message
  }

  /** A condition that reports nothing new keeps its time. */
  function WithCondition(conditions: seq<Condition>, c: Condition): seq<Condition> {
    var i := First(conditions, Kind(), c.kind);
    Put(conditions, Kind(), if i < |conditions| && SameReport(conditions[i], c) then conditions[i] else c)
  }

  /** An update of the Search stores its spec, and brings the copy's status up to date. */
  function Deployed(s: State, name: string, value: string, fails: bool): State {
    var env := WithEnv(s.env, name, value);
    if env == s.env then s
    else if fails then s.(env := env)
    else s.(env := env, storedEnv := env, conditions := s.storedConditions)
  }

  predicate DeployFails(s: State, name: string, value: string, fails: bool) {
    WithEnv(s.env, name, value) != s.env && fails
  }

  /** An update of the status stores the status, and brings the copy's spec up to date. */
  function Committed(s: State, fails: bool): State {
    if fails then s else s.(storedConditions := s.conditions, env := s.storedEnv)
  }

  function Reported(s: State, c: Condition, fails: bool): State {
    var conditions := WithCondition(s.conditions, c);
    if conditions == s.conditions then s else Committed(s.(conditions := conditions), fails)
  }

  function Withdrawn(s: State, kind: string, fails: bool): State {
    if Has(s.conditions, Kind(), kind) then Committed(s.(conditions := Drop(s.conditions, Kind(), kind)), fails) else s
  }

  function WithFlag(data: map<string, string>, enabled: bool): map<string, string> {
    if enabled then data[CONSOLE_FLAG := "enabled"]
    else if CONSOLE_FLAG in data && data[CONSOLE_FLAG] == "enabled" then data - {CONSOLE_FLAG}
    else data
  }

  /** Faults by call; consoles and clusters by name. */
  datatype Faults = Faults(mce: bool, gets: set<(string, string)>, puts: set<(string, string)>,
                           update: bool, list: bool, accounts: set<string>, addons: set<string>, works: set<string>,
                           commit: bool)

  const NO_FAULTS := Faults(false, {}, {}, false, false, {}, {}, {}, false)

  predicate FlagFails(consoles: Consoles, console: (string, string), enabled: bool, f: Faults) {
    || console in f.gets || console !in consoles
    || (WithFlag(consoles[console], enabled) != consoles[console] && console in f.puts)
  }

  function Flagged(consoles: Consoles, console: (string, string), enabled: bool, f: Faults): Consoles {
    if FlagFails(consoles, console, enabled, f) then consoles
    else consoles[console := WithFlag(consoles[console], enabled)]
  }

  // ---------------------------------------------------------------------------------------
  // Global search
  // ---------------------------------------------------------------------------------------

  datatype Claim = Claim(name: string, value: string)

  /** `claims` is empty also for a cluster that reports no status. */
  datatype Cluster = Cluster(name: string, local: bool, claims: seq<Claim>)

  predicate ClaimsHub(c: Claim) {
    c.name == "hub.open-cluster-management.io" && c.value != "NotInstalled"
  }

  predicate IsHub(c: Cluster) {
    !c.local && exists i | 0 <= i < |c.claims| :: ClaimsHub(c.claims[i])
  }

  /**
    One reconcile of the feature: whether the annotation is set, whether the dependencies are
    there, the clusters listed, the faults, the text its errors would give, and the time.
   */
  datatype Visit = Visit(on: bool, ready: bool, namespace: string, mceNamespace: string, clusters: seq<Cluster>,
                         faults: Faults, text: string, now: nat)

  function MceConsole(v: Visit): (string, string) {
    (if v.faults.mce then "multicluster-engine" else v.mceNamespace, "console-mce-config")
  }

  function Console(v: Visit): (string, string) {
    (v.namespace, "console-config")
  }

  /** The part enabling and disabling share: the console flags, then the search-api variable. */
  function Switched(s: State, v: Visit, enabled: bool): State {
    var consoles := Flagged(Flagged(s.consoles, MceConsole(v), enabled, v.faults), Console(v), enabled, v.faults);
    Deployed(s.(consoles := consoles), FEDERATED, if enabled then "true" else "", v.faults.update)
  }

  predicate SwitchFails(s: State, v: Visit, enabled: bool) {
    || v.faults.mce
    || FlagFails(s.consoles, MceConsole(v), enabled, v.faults)
    || FlagFails(Flagged(s.consoles, MceConsole(v), enabled, v.faults), Console(v), enabled, v.faults)
    || DeployFails(s, FEDERATED, if enabled then "true" else "", v.faults.update)
  }

  function Names(clusters: seq<Cluster>): set<string> {
    set c | c in clusters :: c.name
  }

  function HubNames(clusters: seq<Cluster>): set<string> {
    set c | c in clusters && IsHub(c) :: c.name
  }

  lemma NamesStep(clusters: seq<Cluster>, i: nat)
    requires i < |clusters|
    ensures Names(clusters[..i + 1]) == Names(clusters[..i]) + {clusters[i].name}
    ensures HubNames(clusters[..i + 1]) ==
            HubNames(clusters[..i]) + if IsHub(clusters[i]) then {clusters[i].name} else {}
  {
    assert clusters[..i + 1] == clusters[..i] + [clusters[i]];
  }

  lemma AddOne(all: set<string>, hubs: set<string>, name: string, failing: set<string>)
    ensures all + (hubs - failing) + ({name} - failing) == all + (hubs + {name} - failing)
  {
  }

  lemma OneMoreDisjoint(hubs: set<string>, name: string, failing: set<string>)
    ensures hubs + {name} !! failing <==> hubs !! failing && name !in failing
  {
  }

  function HubFaults(f: Faults): set<string> {
    f.accounts + f.addons + f.works
  }

  function Enabled(s: State, v: Visit): State {
    var t := Switched(s, v, true);
    if v.faults.list then t
    else t.(accounts := t.accounts + (HubNames(v.clusters) - v.faults.accounts),
            works := t.works + (HubNames(v.clusters) - (v.faults.addons + v.faults.works)))
  }

  predicate EnableFails(s: State, v: Visit) {
    || SwitchFails(s, v, true) || v.faults.list
    || !(HubNames(v.clusters) !! HubFaults(v.faults))
  }

  /** Without the list of clusters, the clean-up dereferences nil. */
  function Disabled(s: State, v: Visit): State {
    var t := Switched(s, v, false);
    if v.faults.list then t
    else t.(accounts := t.accounts - (Names(v.clusters) - v.faults.accounts),
            works := t.works - (Names(v.clusters) - v.faults.works))
  }

  predicate DisableFails(s: State, v: Visit) {
    SwitchFails(s, v, false) || !(Names(v.clusters) !! v.faults.accounts + v.faults.works)
  }

  function GlobalCondition(status: bool, reason: string, message: string, now: nat): Condition {
    Condition(GLOBAL_SEARCH, Truth(status), reason, message, now)
  }

  function EnableReport(s: State, v: Visit): Condition {
    if EnableFails(s, v) then GlobalCondition(false, "GlobalSearchSetupFailed", v.text, v.now)
    else GlobalCondition(true, "None", "None", v.now)
  }

  function CleanupReport(v: Visit): Condition {
    GlobalCondition(false, "GlobalSearchCleanupFailed", v.text, v.now)
  }

  function Reconciled(s: State, v: Visit): State {
    if v.on then
      if !v.ready then s
      else
        Reported(Enabled(s, v), EnableReport(s, v), v.faults.commit)
    else if !Has(s.conditions, Kind(), GLOBAL_SEARCH) then s
    else if v.faults.list then Disabled(s, v)
    else if DisableFails(s, v) then
      Reported(Disabled(s, v), CleanupReport(v), v.faults.commit)
    else Withdrawn(Disabled(s, v), GLOBAL_SEARCH, v.faults.commit)
  }

  datatype Outcome = Finished(ok: bool) | Panicked

  function ReconcileOutcome(s: State, v: Visit): Outcome {
    if v.on then Finished(v.ready)
    else if !Has(s.conditions, Kind(), GLOBAL_SEARCH) then Finished(true)
    else if v.faults.list then Panicked
    else Finished(!DisableFails(s, v) && !v.faults.commit)
  }

  // ---------------------------------------------------------------------------------------
  // Fine-grained RBAC
  // ---------------------------------------------------------------------------------------

  function RbacCondition(status: bool, now: nat): Condition {
    Condition(RBAC, Truth(status), if status then "None" else "ConfigurationError",
              if status then "Fine-grained RBAC enabled." else "Failed to enable fine-grained RBAC.", now)
  }

  function RbacReconciled(s: State, on: bool, f: Faults, now: nat): State {
    var value := if on then "true" else "";
    var t := Deployed(s, RBAC_FLAG, value, f.update);
    if on then Reported(t, RbacCondition(!DeployFails(s, RBAC_FLAG, value, f.update), now), f.commit)
    else if DeployFails(s, RBAC_FLAG, value, f.update) then t
    else Withdrawn(t, RBAC, f.commit)
  }

  /** No error: a failed status update counts only when the condition is taken away. */
  predicate RbacOk(s: State, on: bool, f: Faults) {
    && !DeployFails(s, RBAC_FLAG, if on then "true" else "", f.update)
    && (!on && Has(Deployed(s, RBAC_FLAG, "", f.update).conditions, Kind(), RBAC) ==> !f.commit)
  }

  class Operator {
    var env: seq<Env>
    var conditions: seq<Condition>
    var storedEnv: seq<Env>
    var storedConditions: seq<Condition>
    var accounts: set<string>
    var works: set<string>
    var consoles: Consoles

    ghost function Now(): State
      reads this
    {
      State(env, conditions, storedEnv, storedConditions, accounts, works, consoles)
    }

    method SearchAPIEnvVar(name: string, value: string) returns (upToDate: bool)
      modifies `env
      ensures env == WithEnv(old(env), name, value)
      ensures upToDate <==> env == old(env)
    {
      var i := FindFirst(env, EnvName(), name);
      if value != "" {
        if i == -1 {
          env := env + [Env(name, value, "")];
          return false;
        } else if env[i].value != value {
          env := env[i := env[i].(value := value)];
          return false;
        } else {
          return true;
        }
      } else if i == -1 {
        return true;
      } else {
        env := env[..i] + env[i + 1..];
        return false;
      }
    }

    method UpdateSearchApiDeployment(name: string, value: string, fails: bool) returns (ok: bool)
      modifies `env, `storedEnv, `conditions
      ensures Now() == Deployed(old(Now()), name, value, fails)
      ensures ok <==> !DeployFails(old(Now()), name, value, fails)
    {
      var upToDate := SearchAPIEnvVar(name, value);
      if upToDate {
        return true;
      }
      if fails {
        return false;
      }
      storedEnv, conditions := env, storedConditions;
      return true;
    }

    method CommitSearchCRInstanceState(fails: bool) returns (ok: bool)
      modifies `storedConditions, `env
      ensures Now() == Committed(old(Now()), fails)
      ensures ok == !fails
    {
      if fails {
        return false;
      }
      storedConditions, env := conditions, storedEnv;
      return true;
    }

    method UpdateStatusCondition(c: Condition, fails: bool)
      modifies `conditions, `storedConditions, `env
      ensures Now() == Reported(old(Now()), c, fails)
    {
      var i := FindFirst(conditions, Kind(), c.kind);
      if i == -1 {
        conditions := conditions + [c];
      } else if !SameReport(conditions[i], c) {
        conditions := conditions[i := c];
      } else {
        return;
      }
      var _ := CommitSearchCRInstanceState(fails);
    }

    method RemoveStatusCondition(kind: string, fails: bool) returns (ok: bool)
      modifies `conditions, `storedConditions, `env
      ensures Now() == Withdrawn(old(Now()), kind, fails)
      ensures ok <==> !(Has(old(conditions), Kind(), kind) && fails)
    {
      var i := FindFirst(conditions, Kind(), kind);
      if i == -1 {
        return true;
      }
      conditions := conditions[..i] + conditions[i + 1..];
      ok := CommitSearchCRInstanceState(fails);
    }

    method UpdateConsoleConfig(enabled: bool, console: (string, string), f: Faults) returns (ok: bool)
      modifies `consoles
      ensures consoles == Flagged(old(consoles), console, enabled, f)
      ensures ok <==> !FlagFails(old(consoles), console, enabled, f)
    {
      if console in f.gets || console !in consoles {
        return false;
      }
      var data := consoles[console];
      var isSet := CONSOLE_FLAG in data && data[CONSOLE_FLAG] == "enabled";
      if enabled && !isSet {
        data := data[CONSOLE_FLAG := "enabled"];
      } else if !enabled && isSet {
        data := data - {CONSOLE_FLAG};
      } else {
        assert WithFlag(data, enabled) == data;
        return true;
      }
      if console in f.puts {
        return false;
      }
      consoles := consoles[console := data];
      return true;
    }

    method IsManagedHub(c: Cluster) returns (hub: bool)
      ensures hub == IsHub(c)
    {
      if c.local {
        return false;
      }
      for i := 0 to |c.claims|
        invariant forall j | 0 <= j < i :: !ClaimsHub(c.claims[j])
      {
        if ClaimsHub(c.claims[i]) {
          return true;
        }
      }
      return false;
    }

    method Switch(v: Visit, enabled: bool) returns (errors: nat)
      modifies `env, `storedEnv, `conditions, `consoles
      ensures Now() == Switched(old(Now()), v, enabled)
      ensures errors > 0 <==> SwitchFails(old(Now()), v, enabled)
    {
      errors := if v.faults.mce then 1 else 0;
      var ok := UpdateConsoleConfig(enabled, MceConsole(v), v.faults);
      errors := if ok then errors else errors + 1;
      ok := UpdateConsoleConfig(enabled, Console(v), v.faults);
      errors := if ok then errors else errors + 1;
      ok := UpdateSearchApiDeployment(FEDERATED, if enabled then "true" else "", v.faults.update);
      errors := if ok then errors else errors + 1;
    }

    method CreateManagedServiceAccount(cluster: string, f: Faults) returns (ok: bool)
      modifies `accounts
      ensures ok <==> cluster !in f.accounts
      ensures accounts == old(accounts) + ({cluster} - f.accounts)
    {
      if cluster in f.accounts {
        return false;
      }
      accounts := accounts + {cluster};
      return true;
    }

    method CreateManifestWork(cluster: string, f: Faults) returns (ok: bool)
      modifies `works
      ensures ok <==> cluster !in f.addons + f.works
      ensures works == old(works) + ({cluster} - (f.addons + f.works))
    {
      if cluster in f.addons || cluster in f.works {
        return false;
      }
      works := works + {cluster};
      return true;
    }

    method ConfigureHub(cluster: string, f: Faults) returns (errors: nat)
      modifies `accounts, `works
      ensures accounts == old(accounts) + ({cluster} - f.accounts)
      ensures works == old(works) + ({cluster} - (f.addons + f.works))
      ensures errors == 0 <==> cluster !in HubFaults(f)
    {
      var made := CreateManagedServiceAccount(cluster, f);
      errors := if made then 0 else 1;
      made := CreateManifestWork(cluster, f);
      errors := if made then errors else errors + 1;
    }

    /** Creates the markers of each listed hub; a failure is counted and the loop goes on. */
    method ConfigureHubs(clusters: seq<Cluster>, f: Faults) returns (errors: nat)
      modifies `accounts, `works
      ensures accounts == old(accounts) + (HubNames(clusters) - f.accounts)
      ensures works == old(works) + (HubNames(clusters) - (f.addons + f.works))
      ensures errors == 0 <==> HubNames(clusters) !! HubFaults(f)
    {
      errors := 0;
      for i := 0 to |clusters|
        invariant accounts == old(accounts) + (HubNames(clusters[..i]) - f.accounts)
        invariant works == old(works) + (HubNames(clusters[..i]) - (f.addons + f.works))
        invariant errors == 0 <==> HubNames(clusters[..i]) !! HubFaults(f)
      {
        NamesStep(clusters, i);
        var hub := IsManagedHub(clusters[i]);
        if !hub {
          continue;
        }
        var name := clusters[i].name;
        AddOne(old(accounts), HubNames(clusters[..i]), name, f.accounts);
        AddOne(old(works), HubNames(clusters[..i]), name, f.addons + f.works);
        OneMoreDisjoint(HubNames(clusters[..i]), name, HubFaults(f));
        var failed := ConfigureHub(name, f);
        errors := errors + failed;
      }
      assert clusters[..|clusters|] == clusters;
    }

    method EnableGlobalSearch(v: Visit) returns (ok: bool)
      modifies this
      ensures Now() == Enabled(old(Now()), v)
      ensures ok <==> !EnableFails(old(Now()), v)
    {
      var errors := Switch(v, true);
      if v.faults.list {
        return false;
      }
      var more := ConfigureHubs(v.clusters, v.faults);
      return errors + more == 0;
    }

    /** Deletes the markers of each listed cluster; a failure is counted and the loop goes on. */
    method CleanClusters(clusters: seq<Cluster>, f: Faults) returns (errors: nat)
      modifies `accounts, `works
      ensures accounts == old(accounts) - (Names(clusters) - f.accounts)
      ensures works == old(works) - (Names(clusters) - f.works)
      ensures errors == 0 <==> Names(clusters) !! f.accounts + f.works
    {
      errors := 0;
      for i := 0 to |clusters|
        invariant accounts == old(accounts) - (Names(clusters[..i]) - f.accounts)
        invariant works == old(works) - (Names(clusters[..i]) - f.works)
        invariant errors == 0 <==> forall h | h in Names(clusters[..i]) :: h !in f.accounts && h !in f.works
      {
        NamesStep(clusters, i);
        var name := clusters[i].name;
        if name in f.accounts {
          errors := errors + 1;
        } else {
          accounts := accounts - {name};
        }
        if name in f.works {
          errors := errors + 1;
        } else {
          works := works - {name};
        }
      }
      assert clusters[..|clusters|] == clusters;
    }

    method DisableGlobalSearch(v: Visit) returns (r: Outcome)
      modifies this
      ensures Now() == Disabled(old(Now()), v)
      ensures r == if v.faults.list then Panicked else Finished(!DisableFails(old(Now()), v))
    {
      var errors := Switch(v, false);
      if v.faults.list {
        return Panicked;
      }
      var more := CleanClusters(v.clusters, v.faults);
      return Finished(errors + more == 0);
    }

    method ReconcileGlobalSearch(v: Visit) returns (r: Outcome)
      requires Fresh(Now())
      modifies this
      ensures Now() == Reconciled(old(Now()), v)
      ensures r == ReconcileOutcome(old(Now()), v)
    {
      if v.on {
        if !v.ready {
          return Finished(false);
        }
        var ok := EnableGlobalSearch(v);
        if !ok {
          UpdateStatusCondition(GlobalCondition(false, "GlobalSearchSetupFailed", v.text, v.now), v.faults.commit);
        } else {
          UpdateStatusCondition(GlobalCondition(true, "None", "None", v.now), v.faults.commit);
        }
        return Finished(true);
      }
      var index := FindFirst(conditions, Kind(), GLOBAL_SEARCH);
      if index > -1 {
        r := DisableGlobalSearch(v);
        if r.Panicked? {
          return;
        }
        if !r.ok {
          UpdateStatusCondition(GlobalCondition(false, "GlobalSearchCleanupFailed", v.text, v.now), v.faults.commit);
          return;
        }
        conditions := conditions[..index] + conditions[index + 1..];
        var ok := CommitSearchCRInstanceState(v.faults.commit);
        return Finished(ok);
      }
      return Finished(true);
    }

    method ReconcileFineGrainedRBAC(on: bool, f: Faults, now: nat) returns (ok: bool)
      modifies this
      ensures Now() == RbacReconciled(old(Now()), on, f, now)
      ensures ok <==> RbacOk(old(Now()), on, f)
    {
      if on {
        ok := UpdateSearchApiDeployment(RBAC_FLAG, "true", f.update);
        if !ok {
          UpdateStatusCondition(RbacCondition(false, now), f.commit);
          return false;
        }
        UpdateStatusCondition(RbacCondition(true, now), f.commit);
      } else {
        ok := UpdateSearchApiDeployment(RBAC_FLAG, "", f.update);
        if !ok {
          return false;
        }
        ok := RemoveStatusCondition(RBAC, f.commit);
      }
    }
  }

  // ---------------------------------------------------------------------------------------
  // The condition and the markers
  // ---------------------------------------------------------------------------------------

  /** While a cluster has a marker, the stored status says so. */
  predicate Tracked(s: State) {
    s.accounts + s.works != {} ==> Has(s.storedConditions, Kind(), GLOBAL_SEARCH)
  }

  lemma WithConditionHas(conditions: seq<Condition>, c: Condition)
    ensures Has(WithCondition(conditions, c), Kind(), c.kind)
  {
    var i := First(conditions, Kind(), c.kind);
    assert WithCondition(conditions, c)[i].kind == c.kind;
  }

  /** What a reconcile leaves in the stored status, when it started from a copy of it. */
  function StatusOf(s: State, v: Visit): seq<Condition> {
    if v.faults.commit then s.storedConditions
    else if v.on then
      if v.ready then WithCondition(s.storedConditions, EnableReport(s, v)) else s.storedConditions
    else if !Has(s.storedConditions, Kind(), GLOBAL_SEARCH) || v.faults.list then s.storedConditions
    else if DisableFails(s, v) then WithCondition(s.storedConditions, CleanupReport(v))
    else Drop(s.storedConditions, Kind(), GLOBAL_SEARCH)
  }

  lemma StatusAfter(s: State, v: Visit)
    requires Fresh(s)
    ensures Reconciled(s, v).storedConditions == StatusOf(s, v)
  {
    var t := Switched(s, v, v.on);
    assert t.conditions == t.storedConditions == s.storedConditions;
    if v.on {
      var u := Enabled(s, v);
      assert u.conditions == u.storedConditions == s.storedConditions;
    } else {
      var u := Disabled(s, v);
      assert u.conditions == u.storedConditions == s.storedConditions;
    }
  }

  lemma HasAfter(s: State, v: Visit)
    requires Fresh(s) && Distinct(s.storedConditions, Kind())
    ensures var had := Has(s.storedConditions, Kind(), GLOBAL_SEARCH);
            Has(Reconciled(s, v).storedConditions, Kind(), GLOBAL_SEARCH) <==>
              if v.on then had || (v.ready && !v.faults.commit)
              else had && (v.faults.list || DisableFails(s, v) || v.faults.commit)
  {
    StatusAfter(s, v);
    WithConditionHas(s.storedConditions, EnableReport(s, v));
    WithConditionHas(s.storedConditions, CleanupReport(v));
    DropKeepsDistinct(s.storedConditions, Kind(), GLOBAL_SEARCH);
  }

  /**
    The condition goes only after a complete clean-up: the list was read, and no listed cluster
    has an account or a work.
   */
  lemma RemovalMeansClean(s: State, v: Visit)
    requires Fresh(s)
    requires Has(s.storedConditions, Kind(), GLOBAL_SEARCH)
    requires !Has(Reconciled(s, v).storedConditions, Kind(), GLOBAL_SEARCH)
    ensures !v.on && !v.faults.list && ReconcileOutcome(s, v) == Finished(true)
    ensures Names(v.clusters) !! Reconciled(s, v).accounts + Reconciled(s, v).works
    ensures Reconciled(s, v).accounts <= s.accounts && Reconciled(s, v).works <= s.works
    ensures Reconciled(s, v).storedEnv == Drop(s.storedEnv, EnvName(), FEDERATED)
    ensures forall k | k in {MceConsole(v), Console(v)} ::
              var consoles := Reconciled(s, v).consoles;
              k in consoles && (CONSOLE_FLAG in consoles[k] ==> consoles[k][CONSOLE_FLAG] != "enabled")
  {
    StatusAfter(s, v);
    WithConditionHas(s.storedConditions, EnableReport(s, v));
    WithConditionHas(s.storedConditions, CleanupReport(v));
  }

  /** A disabling reconcile without faults always gets there. */
  lemma CleanupSucceeds(s: State, v: Visit)
    requires Fresh(s) && Distinct(s.storedConditions, Kind())
    requires Has(s.storedConditions, Kind(), GLOBAL_SEARCH)
    requires !v.on && v.faults == NO_FAULTS
    requires MceConsole(v) in s.consoles && Console(v) in s.consoles
    ensures !Has(Reconciled(s, v).storedConditions, Kind(), GLOBAL_SEARCH)
  {
    HasAfter(s, v);
  }

  /** Markers are made, or may be, before a condition that is then not stored. */
  predicate LeaksOn(s: State, v: Visit) {
    && v.on && v.ready && v.faults.commit && !Has(s.storedConditions, Kind(), GLOBAL_SEARCH)
    && !v.faults.list && HubNames(v.clusters) - v.faults.accounts * (v.faults.addons + v.faults.works) != {}
  }

  /** The clean-up runs through, but a cluster with a marker is no longer listed. */
  predicate LeaksOff(s: State, v: Visit) {
    && !v.on && Has(s.storedConditions, Kind(), GLOBAL_SEARCH)
    && !v.faults.list && !DisableFails(s, v) && !v.faults.commit
    && s.accounts + s.works - Names(v.clusters) != {}
  }

  function AccountsOf(s: State, v: Visit): set<string> {
    if v.faults.list then s.accounts
    else if v.on then (if v.ready then s.accounts + (HubNames(v.clusters) - v.faults.accounts) else s.accounts)
    else if Has(s.conditions, Kind(), GLOBAL_SEARCH) then s.accounts - (Names(v.clusters) - v.faults.accounts)
    else s.accounts
  }

  function WorksOf(s: State, v: Visit): set<string> {
    if v.faults.list then s.works
    else if v.on then
      if v.ready then s.works + (HubNames(v.clusters) - (v.faults.addons + v.faults.works)) else s.works
    else if Has(s.conditions, Kind(), GLOBAL_SEARCH) then s.works - (Names(v.clusters) - v.faults.works)
    else s.works
  }

  lemma SwitchTouchesNoMarker(s: State, v: Visit, enabled: bool)
    ensures Switched(s, v, enabled).accounts == s.accounts && Switched(s, v, enabled).works == s.works
  {
  }

  lemma MarkersAfter(s: State, v: Visit)
    ensures Reconciled(s, v).accounts == AccountsOf(s, v) && Reconciled(s, v).works == WorksOf(s, v)
  {
    SwitchTouchesNoMarker(s, v, v.on);
    if v.on {
      assert Reconciled(s, v).accounts == if v.ready then Enabled(s, v).accounts else s.accounts;
      assert Reconciled(s, v).works == if v.ready then Enabled(s, v).works else s.works;
    } else {
      var had := Has(s.conditions, Kind(), GLOBAL_SEARCH);
      assert Reconciled(s, v).accounts == if had then Disabled(s, v).accounts else s.accounts;
      assert Reconciled(s, v).works == if had then Disabled(s, v).works else s.works;
    }
  }

  lemma NewMarkers(hubs: set<string>, f: Faults)
    ensures (hubs - f.accounts) + (hubs - (f.addons + f.works)) == hubs - f.accounts * (f.addons + f.works)
  {
  }

  /** A failing deletion keeps the condition, so the clean-up of a listed cluster is complete. */
  lemma OldMarkers(s: State, v: Visit)
    requires !DisableFails(s, v)
    ensures (s.accounts - (Names(v.clusters) - v.faults.accounts)) + (s.works - (Names(v.clusters) - v.faults.works))
         == s.accounts + s.works - Names(v.clusters)
  {
    assert Names(v.clusters) !! v.faults.accounts + v.faults.works;
  }

  /** Exactly when a reconcile keeps the markers tracked. */
  lemma TrackedKeptIff(s: State, v: Visit)
    requires Fresh(s) && Tracked(s) && Distinct(s.storedConditions, Kind())
    ensures Tracked(Reconciled(s, v)) <==> !LeaksOn(s, v) && !LeaksOff(s, v)
  {
    var t := Reconciled(s, v);
    assert Has(t.storedConditions, Kind(), GLOBAL_SEARCH) <==>
             if v.on then Has(s.storedConditions, Kind(), GLOBAL_SEARCH) || (v.ready && !v.faults.commit)
             else Has(s.storedConditions, Kind(), GLOBAL_SEARCH)
                  && (v.faults.list || DisableFails(s, v) || v.faults.commit)
    by { HasAfter(s, v); }
    assert t.accounts == AccountsOf(s, v) && t.works == WorksOf(s, v) by { MarkersAfter(s, v); }
    TrackedFromParts(s, v, t);
  }

  lemma TrackedFromParts(s: State, v: Visit, t: State)
    requires Fresh(s) && Tracked(s)
    requires Has(t.storedConditions, Kind(), GLOBAL_SEARCH) <==>
               if v.on then Has(s.storedConditions, Kind(), GLOBAL_SEARCH) || (v.ready && !v.faults.commit)
               else Has(s.storedConditions, Kind(), GLOBAL_SEARCH)
                    && (v.faults.list || DisableFails(s, v) || v.faults.commit)
    requires t.accounts == AccountsOf(s, v) && t.works == WorksOf(s, v)
    ensures Tracked(t) <==> !LeaksOn(s, v) && !LeaksOff(s, v)
  {
    NewMarkers(HubNames(v.clusters), v.faults);
    if !DisableFails(s, v) {
      OldMarkers(s, v);
    }
  }

  /** `after` is `before` with at most one entry put in or taken out at the key. */
  ghost predicate EditedAt<T(!new)>(before: seq<T>, after: seq<T>, key: T -> string, k: string) {
    || after == before
    || after == Drop(before, key, k)
    || exists x | key(x) == k :: after == Put(before, key, x)
  }

  lemma EditKeepsOthers<T(!new)>(before: seq<T>, after: seq<T>, key: T -> string, k: string)
    requires EditedAt(before, after, key, k)
    ensures Pick(after, Others(key, k)) == Pick(before, Others(key, k))
    ensures Distinct(before, key) ==> Distinct(after, key)
  {
    if after == before {
    } else if after == Drop(before, key, k) {
      DropKeepsOthers(before, key, k);
      if Distinct(before, key) {
        DropKeepsDistinct(before, key, k);
      }
    } else {
      var x :| key(x) == k && after == Put(before, key, x);
      PutKeepsOthers(before, key, x);
      if Distinct(before, key) {
        PutKeepsDistinct(before, key, x);
      }
    }
  }

  lemma WithConditionEdits(conditions: seq<Condition>, c: Condition)
    ensures EditedAt(conditions, WithCondition(conditions, c), Kind(), c.kind)
  {
  }

  lemma WithEnvEdits(env: seq<Env>, name: string, value: string)
    ensures EditedAt(env, WithEnv(env, name, value), EnvName(), name)
  {
  }

  lemma StatusIsEdited(s: State, v: Visit)
    ensures EditedAt(s.storedConditions, StatusOf(s, v), Kind(), GLOBAL_SEARCH)
  {
    WithConditionEdits(s.storedConditions, EnableReport(s, v));
    WithConditionEdits(s.storedConditions, CleanupReport(v));
  }

  /** Whatever fails, types stay distinct and all other conditions keep value and order ... */
  lemma OtherConditionsKept(s: State, v: Visit)
    requires Fresh(s)
    ensures var t, others := Reconciled(s, v).storedConditions, Others(Kind(), GLOBAL_SEARCH);
            Pick(t, others) == Pick(s.storedConditions, others)
            && (Distinct(s.storedConditions, Kind()) ==> Distinct(t, Kind()))
  {
    assert EditedAt(s.storedConditions, Reconciled(s, v).storedConditions, Kind(), GLOBAL_SEARCH) by {
      StatusAfter(s, v);
      StatusIsEdited(s, v);
    }
    EditKeepsOthers(s.storedConditions, Reconciled(s, v).storedConditions, Kind(), GLOBAL_SEARCH);
  }

  lemma EnvAfter(s: State, v: Visit)
    requires Fresh(s)
    ensures var t := Reconciled(s, v).storedEnv;
            t == s.storedEnv || t == WithEnv(s.storedEnv, FEDERATED, if v.on then "true" else "")
  {
    var t := Switched(s, v, v.on);
    if v.on {
      assert Enabled(s, v).storedEnv == t.storedEnv;
    } else {
      assert Disabled(s, v).storedEnv == t.storedEnv;
    }
  }

  /** ... and so do names and all other variables. */
  lemma OtherVariablesKept(s: State, v: Visit)
    requires Fresh(s)
    ensures var t, others := Reconciled(s, v).storedEnv, Others(EnvName(), FEDERATED);
            Pick(t, others) == Pick(s.storedEnv, others)
            && (Distinct(s.storedEnv, EnvName()) ==> Distinct(t, EnvName()))
  {
    var t := Reconciled(s, v).storedEnv;
    assert EditedAt(s.storedEnv, t, EnvName(), FEDERATED) by {
      EnvAfter(s, v);
      WithEnvEdits(s.storedEnv, FEDERATED, if v.on then "true" else "");
    }
    EditKeepsOthers(s.storedEnv, t, EnvName(), FEDERATED);
  }

  // ---------------------------------------------------------------------------------------
  // Runs
  // ---------------------------------------------------------------------------------------

  /** Between reconciles others edit the Search, but not this feature's condition. */
  datatype Step = Reconcile(v: Visit) | Edited(env: seq<Env>, conditions: seq<Condition>)

  predicate Admissible(s: State, env: seq<Env>, conditions: seq<Condition>) {
    Distinct(conditions, Kind())
    && (Has(conditions, Kind(), GLOBAL_SEARCH) <==> Has(s.storedConditions, Kind(), GLOBAL_SEARCH))
  }

  /** A reconcile reads the Search first. */
  function Reread(s: State): State {
    s.(env := s.storedEnv, conditions := s.storedConditions)
  }

  function Next(s: State, step: Step): State {
    match step
    case Reconcile(v) => Reconciled(Reread(s), v)
    case Edited(env, conditions) =>
      if Admissible(s, env, conditions) then s.(storedEnv := env, storedConditions := conditions) else s
  }

  function Run(s: State, steps: seq<Step>): State {
    if steps == [] then s else Next(Run(s, steps[..|steps| - 1]), steps[|steps| - 1])
  }

  predicate Leaks(s: State, step: Step) {
    step.Reconcile? && (LeaksOn(Reread(s), step.v) || LeaksOff(Reread(s), step.v))
  }

  lemma StepKeepsDistinct(s: State, step: Step)
    requires Distinct(s.storedConditions, Kind())
    ensures Distinct(Next(s, step).storedConditions, Kind())
  {
    if step.Reconcile? {
      OtherConditionsKept(Reread(s), step.v);
    }
  }

  lemma {:induction false} RunKeepsDistinct(s: State, steps: seq<Step>)
    requires Distinct(s.storedConditions, Kind())
    ensures Distinct(Run(s, steps).storedConditions, Kind())
  {
    if steps != [] {
      RunKeepsDistinct(s, steps[..|steps| - 1]);
      StepKeepsDistinct(Run(s, steps[..|steps| - 1]), steps[|steps| - 1]);
    }
  }

  lemma StepStaysTrackedIff(s: State, step: Step)
    requires Tracked(s) && Distinct(s.storedConditions, Kind())
    ensures Tracked(Next(s, step)) <==> !Leaks(s, step)
  {
    if step.Reconcile? {
      TrackedKeptIff(Reread(s), step.v);
    }
  }

  /** In every state of the run. */
  predicate AlwaysTracked(s: State, steps: seq<Step>) {
    Tracked(Run(s, steps)) && (steps == [] || AlwaysTracked(s, steps[..|steps| - 1]))
  }

  /** At every step of the run. */
  predicate NeverLeaks(s: State, steps: seq<Step>) {
    steps == [] ||
    (!Leaks(Run(s, steps[..|steps| - 1]), steps[|steps| - 1]) && NeverLeaks(s, steps[..|steps| - 1]))
  }

  lemma {:induction false} TrackedAtTheEnd(s: State, steps: seq<Step>)
    requires AlwaysTracked(s, steps)
    ensures Tracked(Run(s, steps))
  {
  }

  /** Every marker is tracked in all states of a run exactly when no reconcile of the run leaks. */
  lemma {:induction false} MarkersStayTracked(s: State, steps: seq<Step>)
    requires Tracked(s) && Distinct(s.storedConditions, Kind())
    ensures AlwaysTracked(s, steps) <==> NeverLeaks(s, steps)
  {
    if steps != [] {
      var rest := steps[..|steps| - 1];
      MarkersStayTracked(s, rest);
      RunKeepsDistinct(s, rest);
      if AlwaysTracked(s, rest) {
        TrackedAtTheEnd(s, rest);
        StepStaysTrackedIff(Run(s, rest), steps[|steps| - 1]);
      }
    }
  }

  /** Clusters stay listed once they may carry a marker, and a new condition can be stored. */
  predicate Orderly(step: Step, known: set<string>) {
    step.Reconcile? ==>
      if step.v.on then HubNames(step.v.clusters) <= known && !step.v.faults.commit
      else known <= Names(step.v.clusters)
  }

  /** Runs that are orderly in this sense are known in advance to keep every marker tracked. */
  lemma {:induction false} OrderlyRunsStayTracked(s: State, steps: seq<Step>, known: set<string>)
    requires Tracked(s) && Distinct(s.storedConditions, Kind()) && s.accounts + s.works <= known
    requires forall step | step in steps :: Orderly(step, known)
    ensures var t := Run(s, steps);
            Tracked(t) && Distinct(t.storedConditions, Kind()) && t.accounts + t.works <= known
  {
    if steps != [] {
      var before, step := Run(s, steps[..|steps| - 1]), steps[|steps| - 1];
      OrderlyRunsStayTracked(s, steps[..|steps| - 1], known);
      assert Orderly(step, known);
      match step
      case Reconcile(v) => VisitStaysTracked(before, v, known);
      case Edited(_, _) =>
    }
  }

  lemma VisitStaysTracked(s: State, v: Visit, known: set<string>)
    requires Tracked(s) && Distinct(s.storedConditions, Kind()) && s.accounts + s.works <= known
    requires Orderly(Reconcile(v), known)
    ensures var t := Reconciled(Reread(s), v);
            Tracked(t) && Distinct(t.storedConditions, Kind()) && t.accounts + t.works <= known
  {
    var r := Reread(s);
    assert Tracked(Reconciled(r, v)) by { TrackedKeptIff(r, v); }
    assert Distinct(Reconciled(r, v).storedConditions, Kind()) by { OtherConditionsKept(r, v); }
    MarkersAfter(r, v);
  }

  /** The clean-up panics when the clusters cannot be listed, with everything still in place. */
  lemma FailedListPanics(v: Visit, since: nat)
    requires !v.on && v.faults == NO_FAULTS.(list := true)
    ensures var conditions := [GlobalCondition(true, "None", "None", since)];
            var s := State([], conditions, [], conditions, {"hub1"}, {"hub1"}, map[]);
            && ReconcileOutcome(s, v) == Panicked && Reconciled(s, v).accounts == {"hub1"}
            && Reconciled(s, v).storedConditions == conditions
  {
    var conditions := [GlobalCondition(true, "None", "None", since)];
    var s := State([], conditions, [], conditions, {"hub1"}, {"hub1"}, map[]);
    assert s.conditions[0].kind == GLOBAL_SEARCH;
    SwitchTouchesNoMarker(s, v, false);
  }

  /** A leak is for good: without the condition, reconciles with the feature off touch nothing. */
  lemma {:induction false} LeakIsNeverCleaned(s: State, steps: seq<Step>)
    requires !Has(s.storedConditions, Kind(), GLOBAL_SEARCH)
    requires forall step | step in steps :: step.Reconcile? ==> !step.v.on
    ensures var t := Run(s, steps);
            t.accounts == s.accounts && t.works == s.works && t.consoles == s.consoles
            && !Has(t.storedConditions, Kind(), GLOBAL_SEARCH)
  {
    if steps != [] {
      LeakIsNeverCleaned(s, steps[..|steps| - 1]);
    }
  }

  const HUB_CLUSTER := Cluster("hub1", false, [Claim("hub.open-cluster-management.io", "Installed")])

  /** Enabling global search with one managed hub, when only the status update fails. */
  const FAILED_VISIT := Visit(true, true, "ocm", "mce", [HUB_CLUSTER], NO_FAULTS.(commit := true), "", 0)

  /** One failed status update while enabling is enough, if the annotation is then taken away. */
  lemma FailedCommitLeaks(off: seq<Step>)
    requires forall step | step in off :: step.Reconcile? && !step.v.on
    ensures var s := State([], [], [], [], {}, {}, map[]);
            var t := Run(s, [Reconcile(FAILED_VISIT)] + off);
            Tracked(s) && "hub1" in t.accounts && !Tracked(t)
  {
    var s := State([], [], [], [], {}, {}, map[]);
    var on := FAILED_VISIT;
    var t := Run(s, [Reconcile(on)]);
    assert Run(s, []) == s && [Reconcile(on)][..0] == [];
    assert t == Reconciled(s, on);
    assert ClaimsHub(HUB_CLUSTER.claims[0]) && HUB_CLUSTER in [HUB_CLUSTER];
    MarkersAfter(s, on);
    StatusAfter(s, on);
    RunConcat(s, [Reconcile(on)], off);
    LeakIsNeverCleaned(t, off);
  }

  lemma {:induction false} RunConcat(s: State, a: seq<Step>, b: seq<Step>)
    ensures Run(s, a + b) == Run(Run(s, a), b)
  {
    if b == [] {
      assert a + b == a;
    } else {
      assert (a + b)[..|a + b| - 1] == a + b[..|b| - 1];
      RunConcat(s, a, b[..|b| - 1]);
    }
  }

  // ---------------------------------------------------------------------------------------
  // Fine-grained RBAC: flag and condition
  // ---------------------------------------------------------------------------------------

  /** A reconcile that reports success has stored the flag as the annotation wants it. */
  lemma RbacOkMeansStored(s: State, on: bool, f: Faults, now: nat)
    requires Fresh(s) && Distinct(s.storedConditions, Kind()) && Distinct(s.storedEnv, EnvName()) && RbacOk(s, on, f)
    ensures var t := RbacReconciled(s, on, f, now);
            && (Has(t.storedEnv, EnvName(), RBAC_FLAG) <==> on)
            && (!on ==> !Has(t.storedConditions, Kind(), RBAC))
            && (on ==> (Has(t.storedConditions, Kind(), RBAC) <==> !f.commit || Has(s.storedConditions, Kind(), RBAC)))
  {
    WithConditionHas(s.storedConditions, RbacCondition(true, now));
    DropKeepsDistinct(s.storedConditions, Kind(), RBAC);
    DropKeepsDistinct(s.storedEnv, EnvName(), RBAC_FLAG);
    if on {
      var env := WithEnv(s.storedEnv, RBAC_FLAG, "true");
      assert env[First(s.storedEnv, EnvName(), RBAC_FLAG)].name == RBAC_FLAG;
    }
  }

  /** Without faults the stored flag and the stored condition both say whether the feature is on. */
  lemma RbacMarkersAgree(s: State, on: bool, now: nat)
    requires Fresh(s) && Distinct(s.storedConditions, Kind()) && Distinct(s.storedEnv, EnvName())
    ensures var t := RbacReconciled(s, on, NO_FAULTS, now);
            && Fresh(t)
            && (Has(t.storedEnv, EnvName(), RBAC_FLAG) <==> on)
            && (Has(t.storedConditions, Kind(), RBAC) <==> on)
  {
    RbacOkMeansStored(s, on, NO_FAULTS, now);
  }

  /** Switching the feature on and off again leaves the Search as it was. */
  lemma RbacRoundTrip(s: State, now: nat, later: nat)
    requires Fresh(s) && !Has(s.storedConditions, Kind(), RBAC) && !Has(s.storedEnv, EnvName(), RBAC_FLAG)
    ensures RbacReconciled(RbacReconciled(s, true, NO_FAULTS, now), false, NO_FAULTS, later) == s
  {
    DropUndoesPut(s.storedEnv, EnvName(), Env(RBAC_FLAG, "true", ""));
    DropUndoesPut(s.storedConditions, Kind(), RbacCondition(true, now));
  }
}
