/**
  The CollectorConfig admission webhook: static checks on rules, protection of operator-owned
  configs, and the overlap check against integration configs - and its agreement with the merge.
 */
module Admission {
  import opened CollectorConfigs
  import opened Selections
  import M = Merge
  import Text
  import opened Values

  // ---------------------------------------------------------------------------------------
  // Static protection
  // ---------------------------------------------------------------------------------------

  const CLUSTER_GROUP := "cluster.open-cluster-management.io"

  /** Kinds the RBAC engine depends on, with their groups; Go iterates them in no fixed order. */
  const PROTECTED_KINDS: seq<(string, string)> := [("ManagedCluster", CLUSTER_GROUP), ("Namespace", "")]

  const PROTECTED_GROUPS: set<string> := {
    "", "config.openshift.io", "template.openshift.io", "admissionregistration.k8s.io",
    "operator.open-cluster-management.io", "search.open-cluster-management.io"}

  /** Resource types no exclude rule may match. */
  predicate IsProtected(group: string, kind: string) {
    group in PROTECTED_GROUPS || (kind, group) in PROTECTED_KINDS
  }

  datatype RuleError = UnsupportedAction | NoGroups | NoKinds
                     | WildcardWithFields | FieldsNeedOneKind | FieldsNeedOneGroup | BadField | BadPriority | BadSuffix
                     | FieldsExcluded | ConditionsExcluded | AnnotationsExcluded | SuffixExcluded | PriorityExcluded
                     | AllKindsOf(group: string) | ProtectedKind(kind: string)
                     | AllGroups | ProtectedGroup(group: string)

  predicate NamesGroup(groups: seq<string>, group: string) {
    WILDCARD in groups || group in groups
  }

  method FindGroup(groups: seq<string>, group: string) returns (found: bool)
    ensures found <==> NamesGroup(groups, group)
  {
    for i := 0 to |groups|
      invariant WILDCARD !in groups[..i] && group !in groups[..i]
    {
      if groups[i] == group || groups[i] == "*" {
        return true;
      }
      assert groups[..i + 1] == groups[..i] + [groups[i]];
    }
    assert groups[..|groups|] == groups;
    return false;
  }

  /** The rule names no protected kind of its groups, nor all kinds of a group that has one. */
  predicate KindSafe(kind: string, groups: seq<string>) {
    forall i | 0 <= i < |PROTECTED_KINDS| ::
      (kind == WILDCARD || kind == PROTECTED_KINDS[i].0) ==> !NamesGroup(groups, PROTECTED_KINDS[i].1)
  }

  method ValidateProtectedKinds(s: Selector) returns (errs: seq<RuleError>)
    ensures errs == [] <==> forall i | 0 <= i < |s.kinds| :: KindSafe(s.kinds[i], s.apiGroups)
  {
    errs := [];
    for i := 0 to |s.kinds|
      invariant errs == [] <==> forall x | 0 <= x < i :: KindSafe(s.kinds[x], s.apiGroups)
    {
      var kind, before := s.kinds[i], errs;
      for j := 0 to |PROTECTED_KINDS|
        invariant before <= errs
        invariant errs == before <==> forall y | 0 <= y < j ::
          (kind == WILDCARD || kind == PROTECTED_KINDS[y].0) ==> !NamesGroup(s.apiGroups, PROTECTED_KINDS[y].1)
      {
        var found := FindGroup(s.apiGroups, PROTECTED_KINDS[j].1);
        if kind == "*" {
          if found { errs := errs + [AllKindsOf(PROTECTED_KINDS[j].1)]; }
        } else if kind == PROTECTED_KINDS[j].0 {
          if found { errs := errs + [ProtectedKind(kind)]; }
        }
      }
      assert errs == before <==> KindSafe(kind, s.apiGroups);
    }
  }

  predicate GroupSafe(group: string) {
    group != WILDCARD && group !in PROTECTED_GROUPS
  }

  predicate HasNoExtras(r: Rule) {
    && r.fields == [] && r.collectConditions.None? && r.collectAnnotations.None?
    && r.fieldSuffix == "" && r.printerColumnsPriority.None?
  }

  predicate SelectorSafe(s: Selector) {
    && (forall i | 0 <= i < |s.kinds| :: KindSafe(s.kinds[i], s.apiGroups))
    && (forall i | 0 <= i < |s.apiGroups| :: GroupSafe(s.apiGroups[i]))
  }

  method ValidateExcludeRule(r: Rule) returns (errs: seq<RuleError>)
    ensures errs == [] <==> HasNoExtras(r) && SelectorSafe(r.selector)
  {
    errs := [];
    if |r.fields| > 0 { errs := errs + [FieldsExcluded]; }
    if r.collectConditions.Some? { errs := errs + [ConditionsExcluded]; }
    if r.collectAnnotations.Some? { errs := errs + [AnnotationsExcluded]; }
    if r.fieldSuffix != "" { errs := errs + [SuffixExcluded]; }
    if r.printerColumnsPriority.Some? { errs := errs + [PriorityExcluded]; }
    assert errs == [] <==> HasNoExtras(r);
    var kindErrs := ValidateProtectedKinds(r.selector);
    errs := errs + kindErrs;
    ghost var before := errs;
    var groups := r.selector.apiGroups;
    for i := 0 to |groups|
      invariant before <= errs
      invariant errs == before <==> forall x | 0 <= x < i :: GroupSafe(groups[x])
    {
      if groups[i] == "*" {
        errs := errs + [AllGroups];
        assert !GroupSafe(groups[i]);
        break;
      }
      if groups[i] in PROTECTED_GROUPS {
        errs := errs + [ProtectedGroup(groups[i])];
      }
    }
  }

  /** The static checks pass a selector exactly when it matches no protected resource type. */
  lemma StaticProtectionIsExact(s: Selector)
    requires s.apiGroups != [] && s.kinds != []
    ensures SelectorSafe(s) <==>
            forall g, k :: Concrete(g) && Concrete(k) && Matches(s, g, k) ==> !IsProtected(g, k)
  {
    if SelectorSafe(s) {
      forall g, k | Concrete(g) && Concrete(k) && Matches(s, g, k) ensures !IsProtected(g, k) {
        SafeMatchesNothingProtected(s, g, k);
      }
    } else if i :| 0 <= i < |s.apiGroups| && !GroupSafe(s.apiGroups[i]) {
      var g := if s.apiGroups[i] == WILDCARD then "" else s.apiGroups[i];
      var k := if s.kinds[0] == WILDCARD then "" else s.kinds[0];
      assert |WILDCARD| == 1;
      assert s.apiGroups[i] in s.apiGroups && s.kinds[0] in s.kinds;
      assert Concrete(g) && Concrete(k) && Matches(s, g, k) && IsProtected(g, k);
    } else {
      var i :| 0 <= i < |s.kinds| && !KindSafe(s.kinds[i], s.apiGroups);
      var j :| 0 <= j < |PROTECTED_KINDS| && (s.kinds[i] == WILDCARD || s.kinds[i] == PROTECTED_KINDS[j].0)
               && NamesGroup(s.apiGroups, PROTECTED_KINDS[j].1);
      var (k, g) := PROTECTED_KINDS[j];
      assert s.kinds[i] in s.kinds && PROTECTED_KINDS[j] in PROTECTED_KINDS;
      ProtectedKindsAreConcrete(j);
      assert Concrete(g) && Concrete(k) && Matches(s, g, k) && IsProtected(g, k);
    }
  }

  lemma ProtectedKindsAreConcrete(j: nat)
    requires j < |PROTECTED_KINDS|
    ensures Concrete(PROTECTED_KINDS[j].0) && Concrete(PROTECTED_KINDS[j].1)
  {
    assert |WILDCARD| == 1 && |PROTECTED_KINDS[0].0| > 1 && |PROTECTED_KINDS[0].1| > 1;
    assert |PROTECTED_KINDS[1].0| > 1 && |PROTECTED_KINDS[1].1| == 0;
  }

  lemma SafeMatchesNothingProtected(s: Selector, g: string, k: string)
    requires SelectorSafe(s) && Concrete(g) && Concrete(k) && Matches(s, g, k)
    ensures !IsProtected(g, k)
  {
    assert WILDCARD !in s.apiGroups;
    var i :| 0 <= i < |s.apiGroups| && s.apiGroups[i] == g;
    assert GroupSafe(s.apiGroups[i]);
    var kind := if k in s.kinds then k else WILDCARD;
    var x :| 0 <= x < |s.kinds| && s.kinds[x] == kind;
    assert KindSafe(s.kinds[x], s.apiGroups);
  }

  // ---------------------------------------------------------------------------------------
  // validateCollectorConfig
  // ---------------------------------------------------------------------------------------

  /** `^[a-z0-9\-.]+$`. */
  predicate IsValidFieldSuffix(suffix: string) {
    suffix != "" && forall i | 0 <= i < |suffix| ::
      'a' <= suffix[i] <= 'z' || '0' <= suffix[i] <= '9' || suffix[i] == '-' || suffix[i] == '.'
  }

  predicate IncludeValid(r: Rule, fieldOk: Field -> bool) {
    && (r.fields != [] ==>
          && WILDCARD !in r.selector.kinds && |r.selector.kinds| == 1 && |r.selector.apiGroups| == 1
          && forall i | 0 <= i < |r.fields| :: fieldOk(r.fields[i]))
    && (r.fieldSuffix != "" ==> IsValidFieldSuffix(r.fieldSuffix))
  }

  predicate RuleValid(r: Rule, fieldOk: Field -> bool) {
    && (IsInclude(r) || IsExclude(r))
    && r.selector.apiGroups != [] && r.selector.kinds != []
    && (r.printerColumnsPriority.Some? ==> r.printerColumnsPriority.value >= -1)
    && (IsInclude(r) ==> IncludeValid(r, fieldOk))
    && (IsExclude(r) ==> HasNoExtras(r) && SelectorSafe(r.selector))
  }

  predicate SpecValid(s: Spec, fieldOk: Field -> bool) {
    forall i | 0 <= i < |s.rules| :: RuleValid(s.rules[i], fieldOk)
  }

  method ValidateInclude(r: Rule, fieldOk: Field -> bool) returns (errs: seq<RuleError>)
    requires IsInclude(r)
    ensures errs == [] <==> IncludeValid(r, fieldOk)
  {
    errs := [];
    if |r.fields| > 0 {
      for i := 0 to |r.selector.kinds|
        invariant errs == [] && WILDCARD !in r.selector.kinds[..i]
      {
        if r.selector.kinds[i] == "*" {
          errs := errs + [WildcardWithFields];
          break;
        }
        assert r.selector.kinds[..i + 1] == r.selector.kinds[..i] + [r.selector.kinds[i]];
      }
      assert r.selector.kinds[..|r.selector.kinds|] == r.selector.kinds;
      assert errs == [] <==> WILDCARD !in r.selector.kinds;
      if |r.selector.kinds| != 1 { errs := errs + [FieldsNeedOneKind]; }
      if |r.selector.apiGroups| != 1 { errs := errs + [FieldsNeedOneGroup]; }
      ghost var before := errs;
      for j := 0 to |r.fields|
        invariant before <= errs
        invariant errs == before <==> forall x | 0 <= x < j :: fieldOk(r.fields[x])
      {
        if !fieldOk(r.fields[j]) { errs := errs + [BadField]; }
      }
    }
    if r.fieldSuffix != "" && !IsValidFieldSuffix(r.fieldSuffix) {
      errs := errs + [BadSuffix];
    }
  }

  method ValidateRule(r: Rule, fieldOk: Field -> bool) returns (errs: seq<RuleError>)
    ensures errs == [] <==> RuleValid(r, fieldOk)
  {
    assert ACTION_INCLUDE[0] != ACTION_EXCLUDE[0];
    errs := [];
    if r.action != ACTION_INCLUDE && r.action != ACTION_EXCLUDE { errs := errs + [UnsupportedAction]; }
    if |r.selector.apiGroups| == 0 { errs := errs + [NoGroups]; }
    if |r.selector.kinds| == 0 { errs := errs + [NoKinds]; }
    if r.printerColumnsPriority.Some? && r.printerColumnsPriority.value < -1 { errs := errs + [BadPriority]; }
    var more: seq<RuleError> := [];
    if r.action == ACTION_INCLUDE {
      more := ValidateInclude(r, fieldOk);
    } else if r.action == ACTION_EXCLUDE {
      more := ValidateExcludeRule(r);
    }
    errs := errs + more;
  }

  method ValidateCollectorConfig(s: Spec, fieldOk: Field -> bool) returns (errs: seq<RuleError>)
    ensures errs == [] <==> SpecValid(s, fieldOk)
  {
    errs := [];
    for i := 0 to |s.rules|
      invariant errs == [] <==> forall x | 0 <= x < i :: RuleValid(s.rules[x], fieldOk)
    {
      var more := ValidateRule(s.rules[i], fieldOk);
      errs := errs + more;
    }
  }

  /** An admitted exclude rule matches no protected resource type, whatever config carries it. */
  lemma ValidExcludesAreHarmless(s: Spec, fieldOk: Field -> bool, r: Rule, g: string, k: string)
    requires SpecValid(s, fieldOk) && r in s.rules && IsExclude(r)
    requires Concrete(g) && Concrete(k) && Matches(r.selector, g, k)
    ensures !IsProtected(g, k)
  {
    SafeMatchesNothingProtected(r.selector, g, k);
  }

  // ---------------------------------------------------------------------------------------
  // The overlap check
  // ---------------------------------------------------------------------------------------

  /** The webhook's own copy of the operator's test. */
  method WebhookSetsIntersect(a: seq<string>, b: seq<string>) returns (shared: bool)
    ensures shared <==> exists v :: Concrete(v) && Covers(a, v) && Covers(b, v)
  {
    ShareValueIff(a, b);
    for i := 0 to |a|
      invariant forall x :: 0 <= x < i ==> !MeetsAny(a[x], b)
    {
      for j := 0 to |b|
        invariant forall y :: 0 <= y < j ==> !Meets(a[i], b[y])
      {
        if a[i] == "*" || b[j] == "*" || a[i] == b[j] {
          assert Meets(a[i], b[j]);
          return true;
        }
      }
    }
    return false;
  }

  datatype Listing = ListFailed | Items(configs: seq<Config>)

  /** Some exclude rule and some integration include match a common resource type. */
  predicate Conflicts(c: Config, teams: seq<Config>) {
    exists i | 0 <= i < |c.spec.rules| :: IsExclude(c.spec.rules[i]) && Suppresses(c.spec.rules[i], teams)
  }

  predicate OverlapAdmits(c: Config, hasClient: bool, list: Listing) {
    hasClient && !Labelled(c) && list.Items? ==> !Conflicts(c, list.configs)
  }

  method ConflictsWithTeam(r: Rule, team: Config) returns (count: nat)
    ensures count > 0 <==> Suppresses(r, [team])
  {
    count := 0;
    for j := 0 to |team.spec.rules|
      invariant count > 0 <==> exists y | 0 <= y < j ::
        IsInclude(team.spec.rules[y]) && Overlap(r.selector, team.spec.rules[y].selector)
    {
      var t := team.spec.rules[j];
      if t.action != ACTION_INCLUDE {
        continue;
      }
      ShareValueIff(r.selector.apiGroups, t.selector.apiGroups);
      ShareValueIff(r.selector.kinds, t.selector.kinds);
      var groups := WebhookSetsIntersect(r.selector.apiGroups, t.selector.apiGroups);
      var kinds := WebhookSetsIntersect(r.selector.kinds, t.selector.kinds);
      if groups && kinds {
        count := count + 1;
      }
    }
    assert [team][0] == team;
  }

  lemma SuppressesSplit(r: Rule, a: seq<Config>, b: seq<Config>)
    ensures Suppresses(r, a + b) <==> Suppresses(r, a) || Suppresses(r, b)
  {
    if i :| 0 <= i < |a + b| && Suppresses(r, [(a + b)[i]]) {
      assert [(a + b)[i]][0] == (a + b)[i];
    }
    forall i | 0 <= i < |a| ensures (a + b)[i] == a[i] {}
    forall i | 0 <= i < |b| ensures (a + b)[|a| + i] == b[i] {}
  }

  method ValidateExcludeAgainstIntegrationConfigs(c: Config, hasClient: bool, list: Listing) returns (ok: bool)
    ensures ok <==> OverlapAdmits(c, hasClient, list)
  {
    if !hasClient || Lookup(c.labels, INTEGRATION_LABEL) == INTEGRATION_VALUE {
      return true;
    }
    var excludes := 0;
    for i := 0 to |c.spec.rules|
      invariant excludes == 0 <==> forall x | 0 <= x < i :: !IsExclude(c.spec.rules[x])
    {
      if c.spec.rules[i].action == ACTION_EXCLUDE {
        excludes := excludes + 1;
      }
    }
    if excludes == 0 || list.ListFailed? {
      return true;
    }
    var teams := list.configs;
    var errs: nat := 0;
    for i := 0 to |c.spec.rules|
      invariant errs == 0 <==> forall x | 0 <= x < i ::
        !(IsExclude(c.spec.rules[x]) && Suppresses(c.spec.rules[x], teams))
    {
      var r, before := c.spec.rules[i], errs;
      if r.action != ACTION_EXCLUDE {
        continue;
      }
      for j := 0 to |teams|
        invariant errs >= before
        invariant errs == before <==> !Suppresses(r, teams[..j])
      {
        var count := ConflictsWithTeam(r, teams[j]);
        errs := errs + count;
        assert teams[..j + 1] == teams[..j] + [teams[j]];
        SuppressesSplit(r, teams[..j], [teams[j]]);
      }
      assert teams[..|teams|] == teams;
    }
    return errs == 0;
  }

  // ---------------------------------------------------------------------------------------
  // Operator-owned configs
  // ---------------------------------------------------------------------------------------

  datatype Operation = CreateOp | UpdateOp | DeleteOp

  const GARBAGE_COLLECTOR := "system:serviceaccount:kube-system:generic-garbage-collector"
  const SERVICE_ACCOUNT := "system:serviceaccount:"

  predicate IsOperatorOwned(c: Config) {
    exists i | 0 <= i < |c.owners| :: c.owners[i].controller
  }

  /** A service account of the namespace. */
  predicate IsLocalAccount(user: string, namespace: string) {
    SERVICE_ACCOUNT + namespace + ":" <= user
  }

  predicate MayTouchOwned(user: string, namespace: string, op: Operation) {
    (user == GARBAGE_COLLECTOR && op == DeleteOp) || IsLocalAccount(user, namespace)
  }

  method OperatorOwned(c: Config) returns (owned: bool)
    ensures owned <==> IsOperatorOwned(c)
  {
    for i := 0 to |c.owners|
      invariant forall x | 0 <= x < i :: !c.owners[x].controller
    {
      if c.owners[i].controller {
        return true;
      }
    }
    return false;
  }

  method RejectIfProtected(c: Config, user: string, namespace: string, op: Operation) returns (rejected: bool)
    ensures rejected <==> IsOperatorOwned(c) && !MayTouchOwned(user, namespace, op)
  {
    var owned := OperatorOwned(c);
    if !owned {
      return false;
    }
    if user == GARBAGE_COLLECTOR && op == DeleteOp {
      return false;
    }
    if SERVICE_ACCOUNT + namespace + ":" <= user {
      return false;
    }
    return true;
  }

  /** The prefix test identifies the account's namespace: namespaces contain no colon. */
  lemma PrefixIdentifiesNamespace(namespace: string, other: string, name: string)
    requires ':' !in namespace && ':' !in other
    ensures IsLocalAccount(SERVICE_ACCOUNT + other + ":" + name, namespace) <==> other == namespace
  {
    var rest := other + [':'] + name;
    var user := SERVICE_ACCOUNT + other + ":" + name;
    var prefix := SERVICE_ACCOUNT + namespace + ":";
    var n := |SERVICE_ACCOUNT|;
    assert user[n..] == rest && prefix[n..] == namespace + ":";
    Text.SplitOfClean(other, ':');
    Text.SplitOfConcat(other, name, ':');
    if prefix <= user {
      assert prefix[n..] == user[n..|prefix|] == rest[..|prefix| - n];
      var tail := rest[|prefix| - n..];
      assert rest == namespace + [':'] + tail;
      Text.SplitOfClean(namespace, ':');
      Text.SplitOfConcat(namespace, tail, ':');
      assert Text.Split(rest, ':')[0] == namespace && Text.Split(rest, ':')[0] == other;
    }
  }

  // ---------------------------------------------------------------------------------------
  // ValidateCreate, ValidateUpdate, ValidateDelete
  // ---------------------------------------------------------------------------------------

  /** What one admission request sees: who asks, and the integration configs, if they could be listed. */
  datatype Context = Context(user: string, namespace: string, hasClient: bool, list: Listing)

  predicate ContentAdmits(c: Config, fieldOk: Field -> bool, ctx: Context) {
    SpecValid(c.spec, fieldOk) && OverlapAdmits(c, ctx.hasClient, ctx.list)
  }

  predicate CreateAdmits(c: Config, fieldOk: Field -> bool, ctx: Context) {
    (IsOperatorOwned(c) ==> MayTouchOwned(ctx.user, ctx.namespace, CreateOp)) && ContentAdmits(c, fieldOk, ctx)
  }

  predicate UpdateAdmits(before: Config, c: Config, fieldOk: Field -> bool, ctx: Context) {
    && (IsOperatorOwned(c) || IsOperatorOwned(before) ==> MayTouchOwned(ctx.user, ctx.namespace, UpdateOp))
    && ContentAdmits(c, fieldOk, ctx)
  }

  predicate DeleteAdmits(c: Config, ctx: Context) {
    IsOperatorOwned(c) ==> MayTouchOwned(ctx.user, ctx.namespace, DeleteOp)
  }

  method ValidateCreate(c: Config, fieldOk: Field -> bool, ctx: Context) returns (ok: bool)
    ensures ok <==> CreateAdmits(c, fieldOk, ctx)
  {
    var rejected := RejectIfProtected(c, ctx.user, ctx.namespace, CreateOp);
    if rejected { return false; }
    var errs := ValidateCollectorConfig(c.spec, fieldOk);
    if errs != [] { return false; }
    ok := ValidateExcludeAgainstIntegrationConfigs(c, ctx.hasClient, ctx.list);
  }

  /** Old and new object are both checked, so an owner reference cannot be stripped. */
  method ValidateUpdate(before: Config, c: Config, fieldOk: Field -> bool, ctx: Context) returns (ok: bool)
    ensures ok <==> UpdateAdmits(before, c, fieldOk, ctx)
  {
    var rejected := RejectIfProtected(c, ctx.user, ctx.namespace, UpdateOp);
    if rejected { return false; }
    rejected := RejectIfProtected(before, ctx.user, ctx.namespace, UpdateOp);
    if rejected { return false; }
    var errs := ValidateCollectorConfig(c.spec, fieldOk);
    if errs != [] { return false; }
    ok := ValidateExcludeAgainstIntegrationConfigs(c, ctx.hasClient, ctx.list);
  }

  method ValidateDelete(c: Config, ctx: Context) returns (ok: bool)
    ensures ok <==> DeleteAdmits(c, ctx)
  {
    var rejected := RejectIfProtected(c, ctx.user, ctx.namespace, DeleteOp);
    ok := !rejected;
  }

  // ---------------------------------------------------------------------------------------
  // Webhook and merge
  // ---------------------------------------------------------------------------------------

  /** Whether a rule is suppressed does not depend on the order of the team configs. */
  lemma SuppressesForgetsOrder(r: Rule, a: seq<Config>, b: seq<Config>)
    requires forall c :: c in a ==> c in b
    requires Suppresses(r, a)
    ensures Suppresses(r, b)
  {
    var i :| 0 <= i < |a| && exists j | 0 <= j < |a[i].spec.rules| ::
      IsInclude(a[i].spec.rules[j]) && Overlap(r.selector, a[i].spec.rules[j].selector);
    assert a[i] in b;
    var k :| 0 <= k < |b| && b[k] == a[i];
  }

  lemma TeamsAsListed(s: M.Store, order: seq<string>)
    requires M.Listed(s, order)
    ensures forall c :: c in M.Teams(s, order) <==> c in M.Fetch(s, order)
  {
    M.SortedListed(s, order);
    M.SortedMembers(order);
    var sorted := M.SortNames(order);
    forall c ensures c in M.Teams(s, order) <==> c in M.Fetch(s, order) {
      if c in M.Teams(s, order) {
        var i :| 0 <= i < |sorted| && s[sorted[i]] == c;
        assert sorted[i] in order;
        var j :| 0 <= j < |order| && order[j] == sorted[i];
        assert M.Fetch(s, order)[j] == c;
      }
      if c in M.Fetch(s, order) {
        var j :| 0 <= j < |order| && s[order[j]] == c;
        assert order[j] in sorted;
        var i :| 0 <= i < |sorted| && sorted[i] == order[j];
        assert M.Teams(s, order)[i] == c;
      }
    }
  }

  lemma SurvivesAsListed(s: M.Store, order: seq<string>, r: Rule)
    requires M.Listed(s, order)
    ensures M.Survives(r, M.Teams(s, order)) <==> M.Survives(r, M.Fetch(s, order))
  {
    var teams, listed := M.Teams(s, order), M.Fetch(s, order);
    TeamsAsListed(s, order);
    if Suppresses(r, teams) { SuppressesForgetsOrder(r, teams, listed); }
    if Suppresses(r, listed) { SuppressesForgetsOrder(r, listed, teams); }
  }

  lemma ConflictMeansDrop(c: Config, teams: seq<Config>)
    ensures Conflicts(c, teams) <==> |M.Kept(c.spec.rules, teams)| < |c.spec.rules|
  {
    var rules := c.spec.rules;
    M.KeptMembers(rules, teams);
    assert Conflicts(c, teams) <==> exists i | 0 <= i < |rules| :: !M.Survives(rules[i], teams);
  }

  /** The webhook sees a conflict in a config just when the merge would drop one of its rules. */
  lemma ConflictIsADrop(s: M.Store, order: seq<string>, c: Config)
    requires M.Listed(s, order)
    ensures Conflicts(c, M.Fetch(s, order)) <==>
            |M.Kept(c.spec.rules, M.Teams(s, order))| < |c.spec.rules|
  {
    var teams, listed := M.Teams(s, order), M.Fetch(s, order);
    ConflictMeansDrop(c, listed);
    forall r | r in c.spec.rules ensures M.Surviving(teams)(r) == M.Surviving(listed)(r) {
      SurvivesAsListed(s, order, r);
    }
    PickSame(c.spec.rules, M.Surviving(teams), M.Surviving(listed));
  }

  /**
    Admission and merge agree: with the same integration configs listed, the overlap check admits
    the user's config exactly when it is itself labelled as an integration config or the merge
    keeps all of its rules and reports Applied, whatever becomes of the merged config.
   */
  lemma WebhookAgreesWithMerge(p: M.Progress, order: seq<string>, owner: OwnerRef, f: M.Faults)
    requires p.ok && M.ListingOf(p.store, order) && USER_CONFIG in p.store
    requires M.StatusWritten(p.store, order, f)
    ensures var out := M.MergeOutcome(p, order, owner, f);
            && USER_CONFIG in out.store && out.store[USER_CONFIG].applied.Some?
            && (OverlapAdmits(p.store[USER_CONFIG], true, Items(M.Fetch(p.store, order))) <==>
                  Labelled(p.store[USER_CONFIG]) || out.store[USER_CONFIG].applied.value.status)
  {
    M.AppliedIsHonest(p, order, owner, f);
    ConflictIsADrop(p.store, order, p.store[USER_CONFIG]);
    M.KeptMembers(M.UserRules(p.store), M.Teams(p.store, order));
  }

  /**
    The operator's own write goes through the same webhook. It is admitted exactly when no
    integration exclude conflicts with an integration include: teams may exclude, but the merged
    config, which carries no label, may not repeat it.
   */
  lemma MergedWriteAdmittedIff(s: M.Store, order: seq<string>, merged: Config)
    requires M.Listed(s, order) && !Labelled(merged)
    requires merged.spec == M.MergedSpec(M.Teams(s, order), M.UserIn(s))
    ensures OverlapAdmits(merged, true, Items(M.Fetch(s, order))) <==>
            forall n, r :: n in order && r in s[n].spec.rules && IsExclude(r) ==> !Suppresses(r, M.Teams(s, order))
  {
    var teams, listed := M.Teams(s, order), M.Fetch(s, order);
    ConflictIsADrop(s, order, merged);
    M.KeptMembers(merged.spec.rules, teams);
    M.KeptMembers(M.UserRules(s), teams);
    M.FlattenMembers(teams);
    assert merged.spec.rules == M.Flatten(teams) + M.Kept(M.UserRules(s), teams);
    if !Conflicts(merged, listed) {
      forall n, r | n in order && r in s[n].spec.rules && IsExclude(r) ensures !Suppresses(r, teams) {
        var i := M.TeamIndex(s, order, n);
        assert r in M.Flatten(teams);
        assert M.Survives(r, teams);
      }
    } else {
      var r :| r in merged.spec.rules && !M.Survives(r, teams);
      assert r in M.Flatten(teams);
      var i :| 0 <= i < |teams| && r in teams[i].spec.rules;
      M.SortedListed(s, order);
      M.SortedMembers(order);
      assert M.SortNames(order)[i] in order;
    }
  }

  /** A team that excludes Secrets from the group it otherwise collects. */
  function ExcludingTeam(): Config {
    Config("team", map[INTEGRATION_LABEL := INTEGRATION_VALUE], map[], [],
           Spec(None, [Rule(ACTION_INCLUDE, Selector(["apps.example.io"], ["*"]), [], "", None, None, None),
                       Rule(ACTION_EXCLUDE, Selector(["apps.example.io"], ["Secret"]), [], "", None, None, None)]),
           None)
  }

  lemma ExcludingTeamIsValid(fieldOk: Field -> bool)
    ensures SpecValid(ExcludingTeam().spec, fieldOk)
  {
    // The names differ from the protected ones in length or in their first letters.
    var group, kind := "apps.example.io", "Secret";
    assert |group| == 15 && group[0] == 'a' && group[1] == 'p' && |kind| == 6 && |WILDCARD| == 1;
    assert forall g | g in PROTECTED_GROUPS :: |g| != 15;
    assert |PROTECTED_KINDS[0].0| == 14 && |PROTECTED_KINDS[1].0| == 9;
    assert |CLUSTER_GROUP| == 34;
    assert KindSafe(kind, [group]);
    assert ACTION_INCLUDE[0] != ACTION_EXCLUDE[0];
  }

  lemma ExcludingTeamSuppressesItself(teams: seq<Config>, i: nat)
    requires i < |teams| && teams[i] == ExcludingTeam()
    ensures Suppresses(ExcludingTeam().spec.rules[1], teams) && IsExclude(ExcludingTeam().spec.rules[1])
  {
    var r, t := ExcludingTeam().spec.rules[1].selector, teams[i].spec.rules[0].selector;
    assert Meets(r.apiGroups[0], t.apiGroups[0]) && Meets(r.kinds[0], t.kinds[0]);
    assert MeetsAny(r.apiGroups[0], t.apiGroups) && MeetsAny(r.kinds[0], t.kinds);
    assert Overlap(ExcludingTeam().spec.rules[1].selector, teams[i].spec.rules[0].selector);
  }

  /** That team's config is admitted, and the merged config made from it is not. */
  lemma TeamExcludeBlocksMerge(merged: Config, fieldOk: Field -> bool)
    requires !Labelled(merged)
    requires merged.spec == M.MergedSpec(M.Teams(map["team" := ExcludingTeam()], ["team"]), None)
    ensures SpecValid(ExcludingTeam().spec, fieldOk) && OverlapAdmits(ExcludingTeam(), true, Items([ExcludingTeam()]))
    ensures !OverlapAdmits(merged, true, Items([ExcludingTeam()]))
  {
    ExcludingTeamIsValid(fieldOk);
    var s := map["team" := ExcludingTeam()];
    assert |USER_CONFIG| != |"team"|;
    MergedWriteAdmittedIff(s, ["team"], merged);
    assert M.Fetch(s, ["team"]) == [ExcludingTeam()];
    var i := M.TeamIndex(s, ["team"], "team");
    ExcludingTeamSuppressesItself(M.Teams(s, ["team"]), i);
    assert ExcludingTeam().spec.rules[1] in s["team"].spec.rules && "team" in ["team"];
  }
}
