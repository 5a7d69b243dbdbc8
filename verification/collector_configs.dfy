/**
  CollectorConfig objects and what their resource selectors mean: a selector matches concrete
  (apiGroup, kind) pairs, "*" standing for every value.
 */
module CollectorConfigs {
  import opened Values

  const WILDCARD := "*"
  const ACTION_INCLUDE := "include"
  const ACTION_EXCLUDE := "exclude"

  const USER_CONFIG := "user-collector-config"
  const MERGED_CONFIG := "merged-collector-config"

  const INTEGRATION_LABEL := "search.open-cluster-management.io/config-type"
  const INTEGRATION_VALUE := "integration"
  const BACKUP_LABEL := "cluster.open-cluster-management.io/backup"
  const MANUAL_OVERRIDE := "search.open-cluster-management.io/manual-override"

  datatype Selector = Selector(apiGroups: seq<string>, kinds: seq<string>)

  datatype Field = Field(name: string, jsonPath: string, dataType: string)

  datatype Rule = Rule(action: string, selector: Selector, fields: seq<Field>, fieldSuffix: string,
                       collectAnnotations: Option<bool>, collectConditions: Option<bool>,
                       printerColumnsPriority: Option<int>)

  /** `collectNamespaces` is only ever copied. */
  datatype Spec = Spec(collectNamespaces: Option<string>, rules: seq<Rule>)

  /** `referent` is the owner's group, kind and name. */
  datatype OwnerRef = OwnerRef(referent: string, uid: string, controller: bool)

  /** The Applied condition: its status, and how many messages it joins when rules were skipped. */
  datatype Applied = Applied(status: bool, skipped: nat)

  /** The API server stores no empty map, so an absent label map and an empty one are the same. */
  datatype Config = Config(name: string, labels: map<string, string>, annotations: map<string, string>,
                           owners: seq<OwnerRef>, spec: Spec, applied: Option<Applied>)

  predicate Labelled(c: Config) {
    Lookup(c.labels, INTEGRATION_LABEL) == INTEGRATION_VALUE
  }

  predicate IsInclude(r: Rule) { r.action == ACTION_INCLUDE }

  predicate IsExclude(r: Rule) { r.action == ACTION_EXCLUDE }

  // ---------------------------------------------------------------------------------------
  // Meaning of selectors
  // ---------------------------------------------------------------------------------------

  predicate Covers(values: seq<string>, v: string) {
    v in values || WILDCARD in values
  }

  predicate Matches(s: Selector, group: string, kind: string) {
    Covers(s.apiGroups, group) && Covers(s.kinds, kind)
  }

  /** "*" names no group and no kind. */
  predicate Concrete(v: string) {
    v != WILDCARD
  }

  // ---------------------------------------------------------------------------------------
  // The operator's overlap tests
  // ---------------------------------------------------------------------------------------

  predicate Meets(x: string, y: string) {
    x == WILDCARD || y == WILDCARD || x == y
  }

  predicate MeetsAny(x: string, b: seq<string>) {
    exists j | 0 <= j < |b| :: Meets(x, b[j])
  }

  predicate ShareValue(a: seq<string>, b: seq<string>) {
    exists i | 0 <= i < |a| :: MeetsAny(a[i], b)
  }

  predicate Overlap(a: Selector, b: Selector) {
    ShareValue(a.apiGroups, b.apiGroups) && ShareValue(a.kinds, b.kinds)
  }

  method SetsIntersect(a: seq<string>, b: seq<string>) returns (shared: bool)
    ensures shared <==> ShareValue(a, b)
    ensures shared <==> exists v :: Concrete(v) && Covers(a, v) && Covers(b, v)
  {
    ShareValueIff(a, b);
    for i := 0 to |a|
      invariant forall x :: 0 <= x < i ==> !MeetsAny(a[x], b)
    {
      for j := 0 to |b|
        invariant forall y :: 0 <= y < j ==> !Meets(a[i], b[y])
      {
        if a[i] == "*" || b[j] == "*" || a[i] == b[j] {
          assert Meets(a[i], b[j]);
          return true;
        }
      }
    }
    return false;
  }

  method RulesOverlap(a: Selector, b: Selector) returns (overlap: bool)
    ensures overlap <==> Overlap(a, b)
    ensures overlap <==> exists g, k :: Concrete(g) && Concrete(k) && Matches(a, g, k) && Matches(b, g, k)
  {
    OverlapIff(a, b);
    var groups := SetsIntersect(a.apiGroups, b.apiGroups);
    if !groups {
      return false;
    }
    overlap := SetsIntersect(a.kinds, b.kinds);
  }

  /** The syntactic test finds a shared value just when some concrete value is covered by both sides. */
  lemma ShareValueIff(a: seq<string>, b: seq<string>)
    ensures ShareValue(a, b) <==> exists v :: Concrete(v) && Covers(a, v) && Covers(b, v)
  {
    if ShareValue(a, b) {
      var i :| 0 <= i < |a| && MeetsAny(a[i], b);
      var j :| 0 <= j < |b| && Meets(a[i], b[j]);
      assert a[i] in a && b[j] in b;
      var v := if a[i] != WILDCARD then a[i] else if b[j] != WILDCARD then b[j] else "";
      assert |WILDCARD| == 1;
      assert Concrete(v) && Covers(a, v) && Covers(b, v);
    }
    if v :| Concrete(v) && Covers(a, v) && Covers(b, v) {
      var x, y := if v in a then v else WILDCARD, if v in b then v else WILDCARD;
      var i :| 0 <= i < |a| && a[i] == x;
      var j :| 0 <= j < |b| && b[j] == y;
      assert Meets(a[i], b[j]);
      assert MeetsAny(a[i], b);
    }
  }

  /** Two selectors overlap exactly when some concrete resource type is matched by both. */
  lemma OverlapIff(a: Selector, b: Selector)
    ensures Overlap(a, b) <==> exists g, k :: Concrete(g) && Concrete(k) && Matches(a, g, k) && Matches(b, g, k)
  {
    ShareValueIff(a.apiGroups, b.apiGroups);
    ShareValueIff(a.kinds, b.kinds);
    if Overlap(a, b) {
      var g :| Concrete(g) && Covers(a.apiGroups, g) && Covers(b.apiGroups, g);
      var k :| Concrete(k) && Covers(a.kinds, k) && Covers(b.kinds, k);
      assert Concrete(g) && Concrete(k) && Matches(a, g, k) && Matches(b, g, k);
    }
  }

  /** Some integration include and the rule match a common resource type. */
  predicate Suppresses(rule: Rule, teams: seq<Config>) {
    exists i | 0 <= i < |teams| :: exists j | 0 <= j < |teams[i].spec.rules| ::
      IsInclude(teams[i].spec.rules[j]) && Overlap(rule.selector, teams[i].spec.rules[j].selector)
  }

  method ExcludeOverlapsIntegrationIncludes(rule: Rule, teams: seq<Config>) returns (overlaps: bool)
    ensures overlaps <==> Suppresses(rule, teams)
  {
    for i := 0 to |teams|
      invariant !Suppresses(rule, teams[..i])
    {
      var rules := teams[i].spec.rules;
      for j := 0 to |rules|
        invariant forall y :: 0 <= y < j ==> !(IsInclude(rules[y]) && Overlap(rule.selector, rules[y].selector))
      {
        if rules[j].action != ACTION_INCLUDE {
          continue;
        }
        var o := RulesOverlap(rule.selector, rules[j].selector);
        if o {
          assert teams[i].spec.rules[j] == rules[j];
          return true;
        }
      }
      assert teams[..i + 1] == teams[..i] + [teams[i]];
    }
    assert teams[..|teams|] == teams;
    return false;
  }
}
