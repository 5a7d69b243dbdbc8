/**
  The merge of integration team CollectorConfigs and user-collector-config into
  merged-collector-config.
 */
module Merge {
  import opened CollectorConfigs
  import opened Selections
  import Text
  import opened Values

  /** The CollectorConfigs of the operator's namespace, by name. */
  type Store = map<string, Config>

  datatype Write = PatchLabels(name: string) | StatusUpdate(name: string) | Create(name: string) | Update(name: string)

  /** Which API calls fail; NotFound is not a fault. */
  datatype Faults = Faults(list: bool, patch: set<string>, getUser: bool, status: bool,
                           getMerged: bool, ownerRef: bool, write: bool)

  const NO_FAULTS := Faults(false, {}, false, false, false, false, false)

  /** The labelled configs, in whatever order the API server lists them. */
  ghost predicate ListingOf(s: Store, order: seq<string>) {
    && (forall i, j | 0 <= i < j < |order| :: order[i] != order[j])
    && (forall n :: n in order <==> n in s && Labelled(s[n]))
  }

  // ---------------------------------------------------------------------------------------
  // Order of the team configs
  // ---------------------------------------------------------------------------------------

  function Place(n: string, sorted: seq<string>): (r: seq<string>)
    ensures multiset(r) == multiset(sorted) + multiset{n}
  {
    if sorted == [] || Text.Less(n, sorted[0]) then [n] + sorted
    else
      assert sorted == [sorted[0]] + sorted[1..];
      [sorted[0]] + Place(n, sorted[1..])
  }

  function SortNames(names: seq<string>): (r: seq<string>)
    ensures multiset(r) == multiset(names)
  {
    if names == [] then []
    else
      assert names == [names[0]] + names[1..];
      Place(names[0], SortNames(names[1..]))
  }

  ghost predicate Ascending(names: seq<string>) {
    forall i, j | 0 <= i < j < |names| :: !Text.Less(names[j], names[i])
  }

  lemma {:induction false} PlaceAscends(n: string, sorted: seq<string>)
    requires Ascending(sorted)
    ensures Ascending(Place(n, sorted))
  {
    if sorted != [] {
      if Text.Less(n, sorted[0]) {
        forall j | 0 <= j < |sorted| ensures !Text.Less(sorted[j], n) {
          Text.LessIsStrictTotal(n, sorted[0]);
          if j > 0 && Text.Less(sorted[j], n) {
            Text.LessIsTransitive(sorted[j], n, sorted[0]);
          }
        }
      } else {
        PlaceAscends(n, sorted[1..]);
        var rest := Place(n, sorted[1..]);
        forall j | 0 <= j < |rest| ensures !Text.Less(rest[j], sorted[0]) {
          assert rest[j] in multiset(rest);
          assert rest[j] in sorted[1..] || rest[j] == n;
        }
      }
    }
  }

  lemma {:induction false} SortAscends(names: seq<string>)
    ensures Ascending(SortNames(names))
  {
    if names != [] {
      SortAscends(names[1..]);
      PlaceAscends(names[0], SortNames(names[1..]));
    }
  }

  lemma HeadsAgree(a: seq<string>, b: seq<string>)
    requires Ascending(a) && Ascending(b) && multiset(a) == multiset(b) && a != []
    ensures b != [] && a[0] == b[0]
  {
    assert a[0] in multiset(b);
    var j :| 0 <= j < |b| && b[j] == a[0];
    assert b[0] in multiset(b);
    assert b[0] in multiset(a);
    var i :| 0 <= i < |a| && a[i] == b[0];
    Text.LessIsStrictTotal(a[0], b[0]);
  }

  lemma DropHead(a: seq<string>)
    requires a != []
    ensures multiset(a[1..]) == multiset(a) - multiset{a[0]}
  {
    assert a == [a[0]] + a[1..];
  }

  lemma {:induction false} AscendingIsUnique(a: seq<string>, b: seq<string>)
    requires Ascending(a) && Ascending(b) && multiset(a) == multiset(b)
    ensures a == b
  {
    if a == [] {
      assert |b| == |multiset(b)| == 0;
    } else {
      HeadsAgree(a, b);
      DropHead(a);
      DropHead(b);
      AscendingIsUnique(a[1..], b[1..]);
      assert a == [a[0]] + a[1..] && b == [b[0]] + b[1..];
    }
  }

  /** However the list arrives, it is merged in the same order. */
  lemma SortForgetsOrder(a: seq<string>, b: seq<string>)
    requires multiset(a) == multiset(b)
    ensures SortNames(a) == SortNames(b)
  {
    SortAscends(a);
    SortAscends(b);
    AscendingIsUnique(SortNames(a), SortNames(b));
  }

  // ---------------------------------------------------------------------------------------
  // The merged spec
  // ---------------------------------------------------------------------------------------

  function Fetch(s: Store, names: seq<string>): (r: seq<Config>)
    requires forall n | n in names :: n in s
    ensures |r| == |names| && forall i :: 0 <= i < |r| ==> r[i] == s[names[i]]
  {
    seq(|names|, i requires 0 <= i < |names| => s[names[i]])
  }

  function Flatten(teams: seq<Config>): seq<Rule> {
    if teams == [] then [] else Flatten(teams[..|teams| - 1]) + teams[|teams| - 1].spec.rules
  }

  predicate Survives(r: Rule, teams: seq<Config>) {
    !(IsExclude(r) && Suppresses(r, teams))
  }

  function Surviving(teams: seq<Config>): Rule -> bool {
    r => Survives(r, teams)
  }

  function Kept(rules: seq<Rule>, teams: seq<Config>): seq<Rule> {
    Pick(rules, Surviving(teams))
  }

  function MergedSpec(teams: seq<Config>, user: Option<Config>): Spec {
    if user.None? then Spec(None, Flatten(teams))
    else Spec(user.value.spec.collectNamespaces, Flatten(teams) + Kept(user.value.spec.rules, teams))
  }

  /** Where the kept rules stood among the user's. */
  function KeptAt(rules: seq<Rule>, teams: seq<Config>): seq<nat> {
    Positions(rules, Surviving(teams))
  }

  /** What is kept of the user's rules is an in-order selection of exactly the surviving ones. */
  lemma KeptIsTheSurvivors(rules: seq<Rule>, teams: seq<Config>)
    ensures var at := KeptAt(rules, teams);
            && |at| == |Kept(rules, teams)|
            && (forall i | 0 <= i < |at| :: at[i] < |rules| && Kept(rules, teams)[i] == rules[at[i]])
            && (forall i, j | 0 <= i < j < |at| :: at[i] < at[j])
    ensures forall p :: 0 <= p < |rules| ==> (p in KeptAt(rules, teams) <==> Survives(rules[p], teams))
  {
    PositionsCount(rules, Surviving(teams));
    PositionsAscend(rules, Surviving(teams));
    forall i | 0 <= i < |Kept(rules, teams)|
      ensures KeptAt(rules, teams)[i] < |rules| && Kept(rules, teams)[i] == rules[KeptAt(rules, teams)[i]]
    {
      PickAtPositions(rules, Surviving(teams), i);
    }
    forall p | 0 <= p < |rules| ensures p in KeptAt(rules, teams) <==> Survives(rules[p], teams) {
      PositionsAreExact(rules, Surviving(teams), p);
    }
  }

  /** Includes are never dropped. */
  lemma IncludesAreKept(rules: seq<Rule>, teams: seq<Config>, r: Rule)
    requires r in rules && IsInclude(r)
    ensures r in Kept(rules, teams)
  {
    KeptMembers(rules, teams);
    assert ACTION_INCLUDE[0] != ACTION_EXCLUDE[0];
  }

  lemma KeptMembers(rules: seq<Rule>, teams: seq<Config>)
    ensures forall r :: r in Kept(rules, teams) <==> r in rules && Survives(r, teams)
    ensures |Kept(rules, teams)| <= |rules|
    ensures |Kept(rules, teams)| == |rules| <==> forall r :: r in rules ==> Survives(r, teams)
  {
    PickMembers(rules, Surviving(teams));
  }

  lemma {:induction false} FlattenMembers(teams: seq<Config>)
    ensures forall r :: r in Flatten(teams) <==> exists i :: 0 <= i < |teams| && r in teams[i].spec.rules
  {
    if teams != [] {
      var n := |teams| - 1;
      FlattenMembers(teams[..n]);
      forall r ensures r in Flatten(teams) <==> exists i :: 0 <= i < |teams| && r in teams[i].spec.rules {
        if r in Flatten(teams[..n]) {
          var i :| 0 <= i < n && r in teams[..n][i].spec.rules;
          assert r in teams[i].spec.rules;
        }
        if i :| 0 <= i < |teams| && r in teams[i].spec.rules {
          assert i < n ==> r in teams[..n][i].spec.rules;
        }
      }
    }
  }

  /** No exclude kept from the user matches a resource type that an integration include matches. */
  lemma KeptExcludesAreHarmless(rules: seq<Rule>, teams: seq<Config>, r: Rule, team: Rule, i: nat, g: string, k: string)
    requires r in Kept(rules, teams) && IsExclude(r)
    requires i < |teams| && team in teams[i].spec.rules && IsInclude(team)
    requires Concrete(g) && Concrete(k) && Matches(team.selector, g, k)
    ensures !Matches(r.selector, g, k)
  {
    KeptMembers(rules, teams);
    OverlapIff(r.selector, team.selector);
    var j :| 0 <= j < |teams[i].spec.rules| && teams[i].spec.rules[j] == team;
    assert !Suppresses(r, teams);
    assert !Overlap(r.selector, teams[i].spec.rules[j].selector);
  }

  // ---------------------------------------------------------------------------------------
  // createOrUpdateMergedCollectorConfig
  // ---------------------------------------------------------------------------------------

  datatype Progress = Progress(store: Store, log: seq<Write>, ok: bool)

  function WithBackup(c: Config): Config {
    c.(labels := c.labels[BACKUP_LABEL := ""])
  }

  function AddBackup(p: Progress, name: string, f: Faults): Progress
    requires name in p.store
  {
    if BACKUP_LABEL in p.store[name].labels then p
    else if name in f.patch then p.(ok := false)
    else Progress(p.store[name := WithBackup(p.store[name])], p.log + [PatchLabels(name)], true)
  }

  /** Stops at the first patch that fails. */
  function AddBackups(p: Progress, names: seq<string>, f: Faults): (q: Progress)
    requires forall n | n in names :: n in p.store
    ensures q.store.Keys == p.store.Keys
  {
    if names == [] then p
    else
      var q := AddBackups(p, names[..|names| - 1], f);
      if q.ok then AddBackup(q, names[|names| - 1], f) else q
  }

  function Report(p: Progress, dropped: nat, f: Faults): Progress
    requires USER_CONFIG in p.store
  {
    if f.status then p
    else Progress(p.store[USER_CONFIG := p.store[USER_CONFIG].(applied := Some(Applied(dropped == 0, dropped)))],
                  p.log + [StatusUpdate(USER_CONFIG)], p.ok)
  }

  function MergedConfig(spec: Spec, owner: OwnerRef): Config {
    Config(MERGED_CONFIG, map[], map[], [owner], spec, None)
  }

  function WriteMerged(p: Progress, spec: Spec, owner: OwnerRef, f: Faults): Progress {
    if f.getMerged then p.(ok := false)
    else if MERGED_CONFIG !in p.store then
      if f.ownerRef || f.write then p.(ok := false)
      else Progress(p.store[MERGED_CONFIG := MergedConfig(spec, owner)], p.log + [Create(MERGED_CONFIG)], true)
    else if p.store[MERGED_CONFIG].spec == spec then p
    else if f.write then p.(ok := false)
    else Progress(p.store[MERGED_CONFIG := p.store[MERGED_CONFIG].(spec := spec)],
                  p.log + [Update(MERGED_CONFIG)], true)
  }

  /** The user's part: rules to keep, backup label, Applied condition. */
  function HandleUser(p: Progress, teams: seq<Config>, f: Faults): Progress {
    if f.getUser then p.(ok := false)
    else if USER_CONFIG !in p.store then p
    else
      var rules := p.store[USER_CONFIG].spec.rules;
      KeptMembers(rules, teams);
      var q := AddBackup(p, USER_CONFIG, f);
      if q.ok then Report(q, |rules| - |Kept(rules, teams)|, f) else q
  }

  function UserIn(s: Store): Option<Config> {
    if USER_CONFIG in s then Some(s[USER_CONFIG]) else None
  }

  /** Everything after the loop over the team configs. */
  function Finish(p: Progress, teams: seq<Config>, owner: OwnerRef, f: Faults): Progress {
    var q := HandleUser(p, teams, f);
    if q.ok then WriteMerged(q, MergedSpec(teams, UserIn(p.store)), owner, f) else q
  }

  predicate Listed(s: Store, order: seq<string>) {
    forall n | n in order :: n in s
  }

  lemma SortedListed(s: Store, order: seq<string>)
    requires Listed(s, order)
    ensures Listed(s, SortNames(order))
  {
    forall n | n in SortNames(order) ensures n in s {
      assert n in multiset(SortNames(order));
    }
  }

  function Teams(s: Store, order: seq<string>): seq<Config>
    requires Listed(s, order)
  {
    SortedListed(s, order);
    Fetch(s, SortNames(order))
  }

  function MergeOutcome(p: Progress, order: seq<string>, owner: OwnerRef, f: Faults): Progress
    requires Listed(p.store, order)
  {
    if f.list then p.(ok := false)
    else
      SortedListed(p.store, order);
      var teams := Teams(p.store, order);
      var q := AddBackups(p, SortNames(order), f);
      if q.ok then Finish(q, teams, owner, f) else q
  }

  class Hub {
    var configs: Store
    var log: seq<Write>

    constructor (configs: Store)
      ensures this.configs == configs && log == []
    {
      this.configs, log := configs, [];
    }

    method PatchBackupLabel(name: string, f: Faults) returns (ok: bool)
      requires name in configs
      modifies this
      ensures var p := AddBackup(Progress(old(configs), old(log), true), name, f);
              configs == p.store && log == p.log && ok == p.ok
    {
      if BACKUP_LABEL in configs[name].labels {
        return true;
      }
      if name in f.patch {
        return false;
      }
      configs := configs[name := WithBackup(configs[name])];
      log := log + [PatchLabels(name)];
      return true;
    }

    method UpdateUserStatus(dropped: nat, f: Faults)
      requires USER_CONFIG in configs
      modifies this
      ensures var p := Report(Progress(old(configs), old(log), true), dropped, f);
              configs == p.store && log == p.log
    {
      var applied := Applied(true, 0);
      if dropped > 0 {
        applied := Applied(false, dropped);
      }
      if !f.status {
        configs := configs[USER_CONFIG := configs[USER_CONFIG].(applied := Some(applied))];
        log := log + [StatusUpdate(USER_CONFIG)];
      }
    }

    /** The loop over the sorted team configs: collect their rules, label them. */
    method CollectTeams(names: seq<string>, teams: seq<Config>, f: Faults) returns (rules: seq<Rule>, ok: bool)
      requires Listed(configs, names) && teams == Fetch(configs, names)
      modifies this
      ensures var p := AddBackups(Progress(old(configs), old(log), true), names, f);
              configs == p.store && log == p.log && ok == p.ok
      ensures ok ==> rules == Flatten(teams)
    {
      ghost var start := Progress(configs, log, true);
      rules := [];
      for i := 0 to |names|
        invariant rules == Flatten(teams[..i])
        invariant AddBackups(start, names[..i], f) == Progress(configs, log, true)
      {
        assert names[..i + 1][..i] == names[..i] && teams[..i + 1][..i] == teams[..i];
        rules := rules + teams[i].spec.rules;
        ok := PatchBackupLabel(names[i], f);
        if !ok {
          AddBackupsStops(start, names, i + 1, f);
          return;
        }
      }
      assert names[..|names|] == names && teams[..|teams|] == teams;
      ok := true;
    }

    /** Create merged-collector-config, or update it if its spec changed. */
    method WriteMergedConfig(spec: Spec, owner: OwnerRef, f: Faults) returns (ok: bool)
      modifies this
      ensures var p := WriteMerged(Progress(old(configs), old(log), true), spec, owner, f);
              configs == p.store && log == p.log && ok == p.ok
    {
      if f.getMerged {
        return false;
      }
      if MERGED_CONFIG !in configs {
        if f.ownerRef || f.write {
          return false;
        }
        configs := configs[MERGED_CONFIG := MergedConfig(spec, owner)];
        log := log + [Create(MERGED_CONFIG)];
        return true;
      }
      if configs[MERGED_CONFIG].spec != spec {
        if f.write {
          return false;
        }
        configs := configs[MERGED_CONFIG := configs[MERGED_CONFIG].(spec := spec)];
        log := log + [Update(MERGED_CONFIG)];
      }
      return true;
    }

    /** The part after the team configs: the user's rules, then the write. */
    method FinishMerge(teamRules: seq<Rule>, teams: seq<Config>, owner: OwnerRef, f: Faults) returns (ok: bool)
      requires teamRules == Flatten(teams)
      modifies this
      ensures var p := Finish(Progress(old(configs), old(log), true), teams, owner, f);
              configs == p.store && log == p.log && ok == p.ok
    {
      if f.getUser {
        return false;
      }
      var rules := teamRules;
      var collectNamespaces: Option<string> := None;
      if USER_CONFIG in configs {
        var user := configs[USER_CONFIG];
        var kept, dropped := KeepUserRules(user.spec.rules, teams);
        rules := rules + kept;
        collectNamespaces := user.spec.collectNamespaces;
        ok := PatchBackupLabel(USER_CONFIG, f);
        if !ok {
          return false;
        }
        UpdateUserStatus(dropped, f);
      }
      ok := WriteMergedConfig(Spec(collectNamespaces, rules), owner, f);
    }

    method CreateOrUpdateMerged(order: seq<string>, owner: OwnerRef, f: Faults) returns (ok: bool)
      requires Listed(configs, order)
      modifies this
      ensures var p := MergeOutcome(Progress(old(configs), old(log), true), order, owner, f);
              configs == p.store && log == p.log && ok == p.ok
    {
      if f.list {
        return false;
      }
      SortedListed(configs, order);
      var names := SortNames(order);
      var teams := Fetch(configs, names);
      var rules;
      rules, ok := CollectTeams(names, teams, f);
      if ok {
        ok := FinishMerge(rules, teams, owner, f);
      }
    }
  }

  /** The loop over the user's rules: integration teams win. */
  method KeepUserRules(rules: seq<Rule>, teams: seq<Config>) returns (kept: seq<Rule>, dropped: nat)
    ensures kept == Kept(rules, teams)
    ensures |kept| + dropped == |rules|
  {
    kept, dropped := [], 0;
    for i := 0 to |rules|
      invariant kept == Pick(rules[..i], Surviving(teams))
      invariant |kept| + dropped == i
    {
      PickStep(rules, i, Surviving(teams));
      var suppressed := false;
      if rules[i].action == ACTION_EXCLUDE {
        suppressed := ExcludeOverlapsIntegrationIncludes(rules[i], teams);
      }
      if suppressed {
        dropped := dropped + 1;
        continue;
      }
      kept := kept + [rules[i]];
    }
    PickWhole(rules, Surviving(teams));
  }

  lemma {:induction false} AddBackupsStops(p: Progress, names: seq<string>, i: nat, f: Faults)
    requires i <= |names| && forall n | n in names :: n in p.store
    requires !AddBackups(p, names[..i], f).ok
    ensures AddBackups(p, names, f) == AddBackups(p, names[..i], f)
    decreases |names| - i
  {
    if i < |names| {
      assert names[..i + 1][..i] == names[..i];
      AddBackupsStops(p, names, i + 1, f);
    } else {
      assert names[..i] == names;
    }
  }

  // ---------------------------------------------------------------------------------------
  // What a merge leaves
  // ---------------------------------------------------------------------------------------

  /** `s'` is `s` with backup labels added to some configs. */
  predicate OnlyLabelled(s: Store, s': Store) {
    s'.Keys == s.Keys && forall n | n in s :: s'[n] == s[n] || s'[n] == WithBackup(s[n])
  }

  /** Labelling touches nothing but labels, and only adds the backup label. */
  lemma {:induction false} LabellingOnly(p: Progress, names: seq<string>, f: Faults)
    requires forall n | n in names :: n in p.store
    ensures var q := AddBackups(p, names, f);
            && OnlyLabelled(p.store, q.store)
            && (q.ok ==> p.ok && forall n | n in names :: BACKUP_LABEL in q.store[n].labels)
  {
    if names != [] {
      var before := names[..|names| - 1];
      LabellingOnly(p, before, f);
      assert names == before + [names[|names| - 1]];
      LabelOne(p.store, AddBackups(p, before, f), names[|names| - 1], f);
    }
  }

  lemma LabelOne(s: Store, p: Progress, name: string, f: Faults)
    requires OnlyLabelled(s, p.store) && name in s
    ensures var q := AddBackup(p, name, f);
            && OnlyLabelled(s, q.store)
            && (forall n | n in s && BACKUP_LABEL in p.store[n].labels :: q.store[n] == p.store[n])
            && (q.ok && p.ok ==> BACKUP_LABEL in q.store[name].labels)
  {
  }

  lemma HandlingKeepsSpecs(p: Progress, teams: seq<Config>, f: Faults)
    requires p.ok
    ensures var q := HandleUser(p, teams, f);
            && q.store.Keys == p.store.Keys
            && (forall n | n in p.store :: q.store[n].spec == p.store[n].spec)
            && (forall n | n in p.store && n != USER_CONFIG :: q.store[n] == p.store[n])
  {
  }

  lemma LabelsDiffer()
    ensures BACKUP_LABEL != INTEGRATION_LABEL && USER_CONFIG != MERGED_CONFIG
  {
    assert |BACKUP_LABEL| != |INTEGRATION_LABEL|;
    assert |USER_CONFIG| != |MERGED_CONFIG|;
  }

  /** The user's rules, as the merge finds them. */
  function UserRules(s: Store): seq<Rule> {
    if USER_CONFIG in s then s[USER_CONFIG].spec.rules else []
  }

  /** Only merged-collector-config's spec can change, and only in a merge that succeeds. */
  ghost predicate OtherSpecsKept(s: Store, out: Progress) {
    && (forall n | n in s && (n != MERGED_CONFIG || !out.ok) :: n in out.store && out.store[n].spec == s[n].spec)
    && (forall n | n in out.store && n !in s :: n == MERGED_CONFIG && out.ok)
  }

  lemma FinishWrites(p: Progress, teams: seq<Config>, owner: OwnerRef, f: Faults)
    requires p.ok
    ensures var out := Finish(p, teams, owner, f);
            && OtherSpecsKept(p.store, out)
            && (out.ok ==> MERGED_CONFIG in out.store
                           && out.store[MERGED_CONFIG].spec == MergedSpec(teams, UserIn(p.store)))
  {
    HandlingKeepsSpecs(p, teams, f);
    var q := HandleUser(p, teams, f);
    if q.ok {
      WritingKeepsSpecs(q, MergedSpec(teams, UserIn(p.store)), owner, f);
    }
  }

  /**
    A merge that succeeds writes all team rules in name order, then the user's surviving rules;
    one that fails leaves every spec alone. No other config's spec is ever touched.
   */
  lemma MergeWrites(p: Progress, order: seq<string>, owner: OwnerRef, f: Faults)
    requires p.ok && Listed(p.store, order)
    ensures OtherSpecsKept(p.store, MergeOutcome(p, order, owner, f))
    ensures var out, teams := MergeOutcome(p, order, owner, f), Teams(p.store, order);
            out.ok ==>
              && MERGED_CONFIG in out.store
              && out.store[MERGED_CONFIG].spec == MergedSpec(teams, UserIn(p.store))
              && out.store[MERGED_CONFIG].spec.rules == Flatten(teams) + Kept(UserRules(p.store), teams)
  {
    var teams := Teams(p.store, order);
    assert Flatten(teams) + [] == Flatten(teams);
    SortedListed(p.store, order);
    var q := AddBackups(p, SortNames(order), f);
    LabellingOnly(p, SortNames(order), f);
    if q.ok {
      FinishWrites(q, teams, owner, f);
      assert MergedSpec(teams, UserIn(q.store)) == MergedSpec(teams, UserIn(p.store));
    }
  }

  lemma WritingKeepsSpecs(p: Progress, spec: Spec, owner: OwnerRef, f: Faults)
    requires p.ok
    ensures var out := WriteMerged(p, spec, owner, f);
            && (forall n | n in p.store && (n != MERGED_CONFIG || !out.ok) ::
                  n in out.store && out.store[n] == p.store[n])
            && (forall n | n in out.store && n !in p.store :: n == MERGED_CONFIG && out.ok)
            && (out.ok ==> MERGED_CONFIG in out.store && out.store[MERGED_CONFIG].spec == spec)
  {
  }

  /**
    Merge safety: whatever resource type an integration include matches when the merge runs, no
    exclude in the user's part of the merged spec matches it. That is all of the user's config
    unless it carries the integration label itself, and so is merged as a team's.
   */
  lemma MergeIsSafe(p: Progress, order: seq<string>, owner: OwnerRef, f: Faults,
                    n: string, team: Rule, r: Rule, g: string, k: string)
    requires p.ok && Listed(p.store, order) && MergeOutcome(p, order, owner, f).ok
    requires n in order && team in p.store[n].spec.rules && IsInclude(team)
    requires Concrete(g) && Concrete(k) && Matches(team.selector, g, k)
    ensures var out, own := MergeOutcome(p, order, owner, f).store, |Flatten(Teams(p.store, order))|;
            && MERGED_CONFIG in out && own <= |out[MERGED_CONFIG].spec.rules|
            && (r in out[MERGED_CONFIG].spec.rules[own..] && IsExclude(r) ==> !Matches(r.selector, g, k))
  {
    var teams := Teams(p.store, order);
    MergeWrites(p, order, owner, f);
    var rules := MergeOutcome(p, order, owner, f).store[MERGED_CONFIG].spec.rules;
    assert rules[|Flatten(teams)|..] == Kept(UserRules(p.store), teams);
    var i := TeamIndex(p.store, order, n);
    if r in Kept(UserRules(p.store), teams) && IsExclude(r) {
      KeptExcludesAreHarmless(UserRules(p.store), teams, r, team, i, g, k);
    }
  }

  /**
    The whole merged spec: none of its excludes overlaps an integration include exactly when no
    listed config has an exclude that does. Listed configs are not filtered.
   */
  lemma WholeSpecIsSafeIff(p: Progress, order: seq<string>, owner: OwnerRef, f: Faults)
    requires p.ok && Listed(p.store, order) && MergeOutcome(p, order, owner, f).ok
    ensures var out, teams := MergeOutcome(p, order, owner, f).store, Teams(p.store, order);
            && MERGED_CONFIG in out
            && ((forall r | r in out[MERGED_CONFIG].spec.rules && IsExclude(r) :: !Suppresses(r, teams)) <==>
                (forall n, r | n in order && r in p.store[n].spec.rules && IsExclude(r) :: !Suppresses(r, teams)))
  {
    var teams := Teams(p.store, order);
    MergeWrites(p, order, owner, f);
    KeptMembers(UserRules(p.store), teams);
    forall r ensures r in Flatten(teams) <==> exists n :: n in order && r in p.store[n].spec.rules {
      InSomeTeam(p.store, order, r);
    }
  }

  lemma InSomeTeam(s: Store, order: seq<string>, r: Rule)
    requires Listed(s, order)
    ensures r in Flatten(Teams(s, order)) <==> exists n :: n in order && r in s[n].spec.rules
  {
    var teams, names := Teams(s, order), SortNames(order);
    SortedListed(s, order);
    SortedMembers(order);
    FlattenMembers(teams);
    if i :| 0 <= i < |teams| && r in teams[i].spec.rules {
      assert names[i] in order && teams[i] == s[names[i]];
    }
    if n :| n in order && r in s[n].spec.rules {
      var i := TeamIndex(s, order, n);
    }
  }

  /** A user's config that carries the integration label keeps its excludes, whatever they overlap. */
  lemma LabelledUserIsNotFiltered(s: Store, order: seq<string>, owner: OwnerRef, f: Faults, r: Rule)
    requires ListingOf(s, order) && USER_CONFIG in s && Labelled(s[USER_CONFIG]) && r in UserRules(s)
    requires MergeOutcome(Progress(s, [], true), order, owner, f).ok
    ensures var out := MergeOutcome(Progress(s, [], true), order, owner, f).store;
            MERGED_CONFIG in out && r in out[MERGED_CONFIG].spec.rules
  {
    MergeWrites(Progress(s, [], true), order, owner, f);
    InSomeTeam(s, order, r);
  }

  const DEPLOYMENTS := Selector(["apps"], ["Deployment"])
  const COLLECT := Rule(ACTION_INCLUDE, DEPLOYMENTS, [], "", None, None, None)
  const SUPPRESS := COLLECT.(action := ACTION_EXCLUDE)

  /** A team collects deployments, and a user's config that is labelled too excludes them. */
  function SuppressingStore(): Store {
    var labels := map[INTEGRATION_LABEL := INTEGRATION_VALUE];
    map["a-team" := Config("a-team", labels, map[], [], Spec(None, [COLLECT]), None),
        USER_CONFIG := Config(USER_CONFIG, labels, map[], [], Spec(None, [SUPPRESS]), None)]
  }

  lemma SuppressesDeployments(s: Store, order: seq<string>)
    requires Listed(s, order) && "a-team" in order && s["a-team"].spec.rules == [COLLECT]
    ensures Suppresses(SUPPRESS, Teams(s, order)) && IsExclude(SUPPRESS)
  {
    var i := TeamIndex(s, order, "a-team");
    var r := Teams(s, order)[i].spec.rules[0];
    assert Meets(["apps"][0], ["apps"][0]) && Meets(["Deployment"][0], ["Deployment"][0]);
    assert MeetsAny(["apps"][0], ["apps"]) && MeetsAny(["Deployment"][0], ["Deployment"]);
    assert Overlap(SUPPRESS.selector, r.selector) && IsInclude(r);
  }

  /** Its merge has the exclude in the merged spec. */
  lemma LabelledUserSuppresses(owner: OwnerRef, order: seq<string>)
    requires ListingOf(SuppressingStore(), order)
    ensures var out := MergeOutcome(Progress(SuppressingStore(), [], true), order, owner, NO_FAULTS);
            && out.ok && MERGED_CONFIG in out.store && IsExclude(SUPPRESS)
            && SUPPRESS in out.store[MERGED_CONFIG].spec.rules && Suppresses(SUPPRESS, Teams(SuppressingStore(), order))
  {
    var s := SuppressingStore();
    assert |USER_CONFIG| != |"a-team"|;
    assert "a-team" in s && Labelled(s["a-team"]) && s["a-team"].spec.rules == [COLLECT];
    assert USER_CONFIG in s && Labelled(s[USER_CONFIG]) && UserRules(s) == [SUPPRESS];
    SuppressesDeployments(s, order);
    assert MergeOutcome(Progress(s, [], true), order, owner, NO_FAULTS).ok by {
      CleanMerge(s, order, owner);
    }
    LabelledUserIsNotFiltered(s, order, owner, NO_FAULTS, SUPPRESS);
  }

  lemma TeamIndex(s: Store, order: seq<string>, n: string) returns (i: nat)
    requires Listed(s, order) && n in order
    ensures i < |Teams(s, order)| && Teams(s, order)[i] == s[n]
  {
    SortedListed(s, order);
    assert n in multiset(order) && multiset(SortNames(order)) == multiset(order);
    assert n in SortNames(order);
    i :| 0 <= i < |SortNames(order)| && SortNames(order)[i] == n;
  }

  /** No label patch that is needed fails. */
  predicate PatchesPass(s: Store, names: seq<string>, f: Faults)
    requires forall n | n in names :: n in s
  {
    forall n | n in names :: BACKUP_LABEL in s[n].labels || n !in f.patch
  }

  lemma {:induction false} LabellingOkIff(p: Progress, names: seq<string>, f: Faults)
    requires p.ok && forall n | n in names :: n in p.store
    ensures AddBackups(p, names, f).ok <==> PatchesPass(p.store, names, f)
    ensures forall n | n in p.store && n !in names :: AddBackups(p, names, f).store[n] == p.store[n]
  {
    if names != [] {
      var before, last := names[..|names| - 1], names[|names| - 1];
      LabellingOkIff(p, before, f);
      LabellingOnly(p, before, f);
      assert names == before + [last];
      assert PatchesPass(p.store, names, f) <==>
             PatchesPass(p.store, before, f) && (BACKUP_LABEL in p.store[last].labels || last !in f.patch);
    }
  }

  /** The guards before the user's status is written: nothing of the final write is among them. */
  predicate StatusWritten(s: Store, order: seq<string>, f: Faults)
    requires Listed(s, order) && USER_CONFIG in s
  {
    !f.list && !f.getUser && !f.status && PatchesPass(s, order + [USER_CONFIG], f)
  }

  function Verdict(s: Store, teams: seq<Config>): Applied {
    KeptMembers(UserRules(s), teams);
    var dropped := |UserRules(s)| - |Kept(UserRules(s), teams)|;
    Applied(dropped == 0, dropped)
  }

  lemma UserHandledIff(p: Progress, teams: seq<Config>, owner: OwnerRef, f: Faults)
    requires p.ok && USER_CONFIG in p.store
    ensures var out := Finish(p, teams, owner, f).store;
            USER_CONFIG in out && out[USER_CONFIG].applied ==
              if !f.getUser && !f.status && (BACKUP_LABEL in p.store[USER_CONFIG].labels || USER_CONFIG !in f.patch)
              then Some(Verdict(p.store, teams)) else p.store[USER_CONFIG].applied
  {
    LabelsDiffer();
    KeptMembers(UserRules(p.store), teams);
    var q := HandleUser(p, teams, f);
    if q.ok {
      WritingKeepsSpecs(q, MergedSpec(teams, UserIn(p.store)), owner, f);
    }
  }

  /**
    The Applied condition after a merge, for any faults: what the merge made of the user's rules if
    the status update is reached and succeeds, else what it was. The final write comes later and
    has no part in it.
   */
  lemma AppliedAfterMerge(p: Progress, order: seq<string>, owner: OwnerRef, f: Faults)
    requires p.ok && Listed(p.store, order) && USER_CONFIG in p.store
    ensures var out := MergeOutcome(p, order, owner, f).store;
            USER_CONFIG in out && out[USER_CONFIG].applied ==
              if StatusWritten(p.store, order, f) then Some(Verdict(p.store, Teams(p.store, order)))
              else p.store[USER_CONFIG].applied
  {
    var teams, names := Teams(p.store, order), SortNames(order);
    SortedListed(p.store, order);
    LabellingOkIff(p, names, f);
    LabellingOnly(p, names, f);
    PatchesPassSplit(p.store, order, f);
    var q, out := AddBackups(p, names, f), MergeOutcome(p, order, owner, f);
    if f.list {
      assert out.store == p.store && !StatusWritten(p.store, order, f);
    } else if !q.ok {
      assert out == q && !StatusWritten(p.store, order, f);
    } else {
      assert out == Finish(q, teams, owner, f);
      AppliedAfterLabelling(p, order, owner, f);
    }
  }

  lemma AppliedAfterLabelling(p: Progress, order: seq<string>, owner: OwnerRef, f: Faults)
    requires p.ok && Listed(p.store, order) && Listed(p.store, SortNames(order)) && USER_CONFIG in p.store && !f.list
    requires AddBackups(p, SortNames(order), f).ok
    ensures var out := Finish(AddBackups(p, SortNames(order), f), Teams(p.store, order), owner, f).store;
            USER_CONFIG in out && out[USER_CONFIG].applied ==
              if StatusWritten(p.store, order, f) then Some(Verdict(p.store, Teams(p.store, order)))
              else p.store[USER_CONFIG].applied
  {
    var q := AddBackups(p, SortNames(order), f);
    LabellingOkIff(p, SortNames(order), f);
    LabellingOnly(p, SortNames(order), f);
    PatchesPassSplit(p.store, order, f);
    UserPatchAfter(p, order, f);
    UserHandledIff(q, Teams(p.store, order), owner, f);
    SameVerdict(p.store, q.store, Teams(p.store, order));
  }

  lemma SameVerdict(s: Store, s': Store, teams: seq<Config>)
    requires UserRules(s) == UserRules(s')
    ensures Verdict(s, teams) == Verdict(s', teams)
  {
  }

  lemma PatchesPassSplit(s: Store, order: seq<string>, f: Faults)
    requires Listed(s, order) && USER_CONFIG in s
    ensures Listed(s, SortNames(order))
    ensures PatchesPass(s, order + [USER_CONFIG], f) <==>
            PatchesPass(s, SortNames(order), f) && (BACKUP_LABEL in s[USER_CONFIG].labels || USER_CONFIG !in f.patch)
  {
    SortedListed(s, order);
    SortedMembers(order);
    assert forall n :: n in order + [USER_CONFIG] <==> n in SortNames(order) || n == USER_CONFIG;
  }

  /** The patch of the user's config is needed, and fails, after the others just when it would before them. */
  lemma UserPatchAfter(p: Progress, order: seq<string>, f: Faults)
    requires p.ok && Listed(p.store, order) && Listed(p.store, SortNames(order)) && USER_CONFIG in p.store
    requires AddBackups(p, SortNames(order), f).ok
    ensures var q := AddBackups(p, SortNames(order), f).store;
            BACKUP_LABEL in q[USER_CONFIG].labels || USER_CONFIG !in f.patch <==>
            BACKUP_LABEL in p.store[USER_CONFIG].labels || USER_CONFIG !in f.patch
  {
    LabellingOkIff(p, SortNames(order), f);
    LabellingOnly(p, SortNames(order), f);
  }

  /** When it is written, it is True exactly when no rule of the user was dropped, and it counts those dropped. */
  lemma AppliedIsHonest(p: Progress, order: seq<string>, owner: OwnerRef, f: Faults)
    requires p.ok && Listed(p.store, order) && USER_CONFIG in p.store && StatusWritten(p.store, order, f)
    ensures var out, teams := MergeOutcome(p, order, owner, f).store, Teams(p.store, order);
            && USER_CONFIG in out && out[USER_CONFIG].applied.Some?
            && var a := out[USER_CONFIG].applied.value;
               && a.skipped == |UserRules(p.store)| - |Kept(UserRules(p.store), teams)|
               && (a.status <==> forall r :: r in UserRules(p.store) ==> Survives(r, teams))
  {
    AppliedAfterMerge(p, order, owner, f);
    KeptMembers(UserRules(p.store), Teams(p.store, order));
  }

  /** The final write goes through, or is not needed. */
  predicate WritePasses(s: Store, spec: Spec, f: Faults) {
    && !f.getMerged
    && (|| (MERGED_CONFIG in s && s[MERGED_CONFIG].spec == spec)
        || (!f.write && (MERGED_CONFIG in s || !f.ownerRef)))
  }

  /**
    Once the condition is written, the merge succeeds exactly when the final write passes; and what
    the condition calls merged is stored exactly when it passes or was stored before.
   */
  lemma AppliedMeansMergedIff(p: Progress, order: seq<string>, owner: OwnerRef, f: Faults)
    requires p.ok && Listed(p.store, order) && USER_CONFIG in p.store && StatusWritten(p.store, order, f)
    ensures var out, spec := MergeOutcome(p, order, owner, f), MergedSpec(Teams(p.store, order), UserIn(p.store));
            && (out.ok <==> WritePasses(p.store, spec, f))
            && ((MERGED_CONFIG in out.store && out.store[MERGED_CONFIG].spec == spec) <==>
                  WritePasses(p.store, spec, f) || (MERGED_CONFIG in p.store && p.store[MERGED_CONFIG].spec == spec))
  {
    var teams, names := Teams(p.store, order), SortNames(order);
    SortedListed(p.store, order);
    SortedMembers(order);
    LabellingOkIff(p, names, f);
    LabellingOnly(p, names, f);
    var q := AddBackups(p, names, f);
    assert forall n | n in order :: n in order + [USER_CONFIG];
    assert USER_CONFIG in order + [USER_CONFIG];
    assert q.ok;
    assert MergedSpec(teams, UserIn(q.store)) == MergedSpec(teams, UserIn(p.store));
    FinishWritesIff(q, teams, owner, f);
  }

  lemma FinishWritesIff(p: Progress, teams: seq<Config>, owner: OwnerRef, f: Faults)
    requires p.ok && USER_CONFIG in p.store && !f.getUser
    requires BACKUP_LABEL in p.store[USER_CONFIG].labels || USER_CONFIG !in f.patch
    ensures var out, spec := Finish(p, teams, owner, f), MergedSpec(teams, UserIn(p.store));
            && (out.ok <==> WritePasses(p.store, spec, f))
            && ((MERGED_CONFIG in out.store && out.store[MERGED_CONFIG].spec == spec) <==>
                  WritePasses(p.store, spec, f) || (MERGED_CONFIG in p.store && p.store[MERGED_CONFIG].spec == spec))
  {
    LabelsDiffer();
    HandlingKeepsSpecs(p, teams, f);
  }

  /** Applied is True though nothing was merged: the final write failed. */
  lemma AppliedWithoutMerge(user: Config, owner: OwnerRef)
    requires user.name == USER_CONFIG && user.spec.rules == []
    ensures var out := MergeOutcome(Progress(map[USER_CONFIG := user], [], true), [], owner, NO_FAULTS.(write := true));
            && !out.ok && MERGED_CONFIG !in out.store
            && USER_CONFIG in out.store && out.store[USER_CONFIG].applied == Some(Applied(true, 0))
  {
    var s, f := map[USER_CONFIG := user], NO_FAULTS.(write := true);
    LabelsDiffer();
    KeptMembers([], Teams(s, []));
    AppliedAfterMerge(Progress(s, [], true), [], owner, f);
    AppliedMeansMergedIff(Progress(s, [], true), [], owner, f);
    MergeWrites(Progress(s, [], true), [], owner, f);
  }

  // ---------------------------------------------------------------------------------------
  // List order, and merging twice
  // ---------------------------------------------------------------------------------------

  lemma {:induction false} CountOf(names: seq<string>, n: string)
    requires forall i, j | 0 <= i < j < |names| :: names[i] != names[j]
    ensures multiset(names)[n] == if n in names then 1 else 0
  {
    if names != [] {
      CountOf(names[1..], n);
      assert names == [names[0]] + names[1..];
      assert names[0] !in names[1..];
    }
  }

  lemma ListingsAgree(s: Store, s': Store, a: seq<string>, b: seq<string>)
    requires ListingOf(s, a) && ListingOf(s', b)
    requires forall n :: (n in s && Labelled(s[n])) <==> (n in s' && Labelled(s'[n]))
    ensures SortNames(a) == SortNames(b)
  {
    forall n ensures multiset(a)[n] == multiset(b)[n] {
      CountOf(a, n);
      CountOf(b, n);
      assert n in a <==> n in b;
    }
    SortForgetsOrder(a, b);
  }

  /** The order in which the API server lists the configs changes nothing. */
  lemma MergeForgetsListOrder(p: Progress, a: seq<string>, b: seq<string>, owner: OwnerRef, f: Faults)
    requires ListingOf(p.store, a) && ListingOf(p.store, b)
    ensures MergeOutcome(p, a, owner, f) == MergeOutcome(p, b, owner, f)
  {
    ListingsAgree(p.store, p.store, a, b);
  }

  predicate MergedIsListed(s: Store) {
    MERGED_CONFIG in s && Labelled(s[MERGED_CONFIG])
  }

  predicate SameSpecs(a: seq<Config>, b: seq<Config>) {
    |a| == |b| && forall i | 0 <= i < |a| :: a[i].spec.rules == b[i].spec.rules
  }

  lemma {:induction false} FlattenBySpecs(a: seq<Config>, b: seq<Config>)
    requires SameSpecs(a, b)
    ensures Flatten(a) == Flatten(b)
  {
    if a != [] {
      FlattenBySpecs(a[..|a| - 1], b[..|b| - 1]);
    }
  }

  lemma KeptBySpecs(rules: seq<Rule>, a: seq<Config>, b: seq<Config>)
    requires SameSpecs(a, b)
    ensures Kept(rules, a) == Kept(rules, b)
  {
    forall r | r in rules ensures Surviving(a)(r) == Surviving(b)(r) {
      assert Suppresses(r, a) <==> Suppresses(r, b);
    }
    PickSame(rules, Surviving(a), Surviving(b));
  }

  lemma {:induction false} FlattenEmpty(teams: seq<Config>)
    ensures Flatten(teams) == [] <==> forall j :: 0 <= j < |teams| ==> teams[j].spec.rules == []
  {
    if teams != [] {
      var n := |teams| - 1;
      FlattenEmpty(teams[..n]);
      assert forall j :: 0 <= j < n ==> teams[..n][j] == teams[j];
    }
  }

  lemma {:induction false} FlattenAt(teams: seq<Config>, i: nat)
    requires i < |teams|
    ensures |Flatten(teams)| >= |teams[i].spec.rules|
    ensures |Flatten(teams)| == |teams[i].spec.rules| ==>
              Flatten(teams) == teams[i].spec.rules
              && forall j :: 0 <= j < |teams| && j != i ==> teams[j].spec.rules == []
    ensures (forall j :: 0 <= j < |teams| && j != i ==> teams[j].spec.rules == []) ==>
              Flatten(teams) == teams[i].spec.rules
  {
    var n := |teams| - 1;
    assert forall j :: 0 <= j < n ==> teams[..n][j] == teams[j];
    if i == n {
      FlattenEmpty(teams[..n]);
    } else {
      FlattenAt(teams[..n], i);
    }
  }

  /** A merged config that counts as a team config stays as it is only if it already held everything. */
  lemma Regrowth(teams1: seq<Config>, teams2: seq<Config>, i: nat, rules: seq<Rule>)
    requires i < |teams1| == |teams2|
    requires forall j :: 0 <= j < |teams1| && j != i ==> teams1[j].spec.rules == teams2[j].spec.rules
    requires teams2[i].spec.rules == Flatten(teams1) + Kept(rules, teams1)
    requires teams2[i].spec.rules == Flatten(teams2) + Kept(rules, teams2)
    ensures teams2[i].spec.rules == teams1[i].spec.rules
  {
    FlattenAt(teams2, i);
    FlattenAt(teams1, i);
    KeptMembers(rules, teams1);
    KeptMembers(rules, teams2);
    assert Kept(rules, teams2) == [];
    if Kept(rules, teams1) != [] {
      var r := Kept(rules, teams1)[0];
      assert r in Kept(rules, teams1);
      assert r !in Kept(rules, teams2);
      var x := Suppressor(r, teams2, i);
      if x in Kept(rules, teams1) {
        IncludesAreKept(rules, teams2, x);
      }
    }
  }

  lemma Suppressor(r: Rule, teams: seq<Config>, i: nat) returns (x: Rule)
    requires i < |teams| && Suppresses(r, teams)
    requires forall j :: 0 <= j < |teams| && j != i ==> teams[j].spec.rules == []
    ensures x in teams[i].spec.rules && IsInclude(x) && Overlap(r.selector, x.selector)
  {
    var k :| 0 <= k < |teams| && exists j | 0 <= j < |teams[k].spec.rules| ::
      IsInclude(teams[k].spec.rules[j]) && Overlap(r.selector, teams[k].spec.rules[j].selector);
    var j :| 0 <= j < |teams[k].spec.rules| &&
      IsInclude(teams[k].spec.rules[j]) && Overlap(r.selector, teams[k].spec.rules[j].selector);
    x := teams[i].spec.rules[j];
  }

  /** The user's config is labelled and its status up to date. */
  predicate UserHandled(s: Store, teams: seq<Config>) {
    USER_CONFIG in s ==>
      var dropped := |UserRules(s)| - |Kept(UserRules(s), teams)|;
      BACKUP_LABEL in s[USER_CONFIG].labels && dropped >= 0
      && s[USER_CONFIG].applied == Some(Applied(dropped == 0, dropped))
  }

  /** Nothing but merged-collector-config is left to write. */
  ghost predicate Prepared(s: Store, order: seq<string>)
    requires Listed(s, order)
  {
    (forall n | n in order :: BACKUP_LABEL in s[n].labels) && UserHandled(s, Teams(s, order))
  }

  lemma {:induction false} NothingToLabel(p: Progress, names: seq<string>, f: Faults)
    requires forall n | n in names :: n in p.store && BACKUP_LABEL in p.store[n].labels
    ensures AddBackups(p, names, f) == p
  {
    if names != [] {
      assert names == names[..|names| - 1] + [names[|names| - 1]];
      NothingToLabel(p, names[..|names| - 1], f);
    }
  }

  /** A merge always sends the user's status, even when nothing changed. */
  function StatusLog(s: Store): seq<Write> {
    if USER_CONFIG in s then [StatusUpdate(USER_CONFIG)] else []
  }

  lemma PreparedMerge(s: Store, order: seq<string>, owner: OwnerRef)
    requires Listed(s, order) && Prepared(s, order)
    ensures MergeOutcome(Progress(s, [], true), order, owner, NO_FAULTS) ==
            WriteMerged(Progress(s, StatusLog(s), true), MergedSpec(Teams(s, order), UserIn(s)), owner, NO_FAULTS)
  {
    var p := Progress(s, [], true);
    SortedListed(s, order);
    forall n | n in SortNames(order) ensures n in order {
      assert n in multiset(SortNames(order)) && multiset(order) == multiset(SortNames(order));
      assert n in multiset(order);
    }
    NothingToLabel(p, SortNames(order), NO_FAULTS);
    HandlePrepared(p, Teams(s, order));
  }

  lemma HandlePrepared(p: Progress, teams: seq<Config>)
    requires p.ok && p.log == []
    requires UserHandled(p.store, teams)
    ensures HandleUser(p, teams, NO_FAULTS) == Progress(p.store, StatusLog(p.store), true)
  {
  }

  /** Only backup labels were added, and possibly an unlabelled merged config. */
  ghost predicate SameListing(s: Store, s': Store) {
    && s.Keys <= s'.Keys
    && (forall n | n in s' && n !in s :: n == MERGED_CONFIG && !Labelled(s'[n]))
    && (forall n | n in s :: Labelled(s'[n]) == Labelled(s[n]))
    && (forall n | n in s && BACKUP_LABEL in s[n].labels :: BACKUP_LABEL in s'[n].labels)
  }

  lemma HandleClean(p: Progress, teams: seq<Config>)
    requires p.ok
    ensures var q := HandleUser(p, teams, NO_FAULTS);
            q.ok && q.store.Keys == p.store.Keys && SameListing(p.store, q.store) && UserHandled(q.store, teams)
  {
    LabelsDiffer();
    KeptMembers(UserRules(p.store), teams);
  }

  lemma WriteClean(p: Progress, spec: Spec, owner: OwnerRef, teams: seq<Config>)
    requires p.ok && UserHandled(p.store, teams)
    ensures var out := WriteMerged(p, spec, owner, NO_FAULTS);
            out.ok && MERGED_CONFIG in out.store && SameListing(p.store, out.store) && UserHandled(out.store, teams)
  {
    LabelsDiffer();
    assert |INTEGRATION_VALUE| > 0;
  }

  lemma LabelClean(s: Store, names: seq<string>)
    requires forall n | n in names :: n in s
    ensures var q := AddBackups(Progress(s, [], true), names, NO_FAULTS);
            q.ok && q.store.Keys == s.Keys && SameListing(s, q.store) && UserRules(q.store) == UserRules(s)
            && forall n | n in names :: BACKUP_LABEL in q.store[n].labels
  {
    LabellingOnly(Progress(s, [], true), names, NO_FAULTS);
    NoFaultNoStop(Progress(s, [], true), names, NO_FAULTS);
    LabelsDiffer();
  }

  lemma {:induction false} NoFaultNoStop(p: Progress, names: seq<string>, f: Faults)
    requires p.ok && forall n | n in names :: n in p.store && n !in f.patch
    ensures AddBackups(p, names, f).ok
  {
    if names != [] {
      NoFaultNoStop(p, names[..|names| - 1], f);
    }
  }

  lemma {:induction false} UnlistedUntouched(p: Progress, names: seq<string>, f: Faults, n: string)
    requires forall m | m in names :: m in p.store
    requires n in p.store && n !in names
    ensures AddBackups(p, names, f).store[n] == p.store[n]
  {
    if names != [] {
      UnlistedUntouched(p, names[..|names| - 1], f, n);
    }
  }

  /** Which refused calls stop the merge after the team configs. */
  lemma FinishOkIff(p: Progress, teams: seq<Config>, owner: OwnerRef, f: Faults)
    requires p.ok && !f.getUser && !f.getMerged && !f.ownerRef
    ensures Finish(p, teams, owner, f).ok <==>
            && !(USER_CONFIG in p.store && BACKUP_LABEL !in p.store[USER_CONFIG].labels && USER_CONFIG in f.patch)
            && (!f.write || (MERGED_CONFIG in p.store
                             && p.store[MERGED_CONFIG].spec == MergedSpec(teams, UserIn(p.store))))
  {
    LabelsDiffer();
    HandlingKeepsSpecs(p, teams, f);
  }

  lemma SortedMembers(order: seq<string>)
    ensures forall n :: n in SortNames(order) <==> n in order
  {
    forall n ensures n in SortNames(order) <==> n in order {
      assert n in multiset(SortNames(order)) <==> n in multiset(order);
    }
  }

  /** A merge without faults succeeds and leaves everything prepared for the next. */
  lemma CleanMerge(s: Store, order: seq<string>, owner: OwnerRef)
    requires ListingOf(s, order)
    ensures var out := MergeOutcome(Progress(s, [], true), order, owner, NO_FAULTS);
            && out.ok && MERGED_CONFIG in out.store && SameListing(s, out.store)
            && UserHandled(out.store, Teams(s, order))
            && (forall n | n in order :: BACKUP_LABEL in out.store[n].labels)
  {
    SortedListed(s, order);
    SortedMembers(order);
    LabelClean(s, SortNames(order));
    var teams := Teams(s, order);
    var q := AddBackups(Progress(s, [], true), SortNames(order), NO_FAULTS);
    HandleClean(q, teams);
    var r := HandleUser(q, teams, NO_FAULTS);
    WriteClean(r, MergedSpec(teams, UserIn(q.store)), owner, teams);
    assert MergeOutcome(Progress(s, [], true), order, owner, NO_FAULTS) ==
           WriteMerged(r, MergedSpec(teams, UserIn(q.store)), owner, NO_FAULTS);
  }

  lemma {:induction false} NoRepeats(names: seq<string>)
    requires forall n :: multiset(names)[n] <= 1
    ensures forall i, j :: 0 <= i < j < |names| ==> names[i] != names[j]
  {
    if names != [] {
      DropHead(names);
      assert names == [names[0]] + names[1..];
      NoRepeats(names[1..]);
      assert names[0] !in multiset(names[1..]);
    }
  }

  lemma SortedListing(s: Store, order: seq<string>)
    requires ListingOf(s, order)
    ensures forall i, j :: 0 <= i < j < |SortNames(order)| ==> SortNames(order)[i] != SortNames(order)[j]
    ensures forall n :: n in SortNames(order) <==> n in s && Labelled(s[n])
  {
    forall n ensures multiset(order)[n] == if n in order then 1 else 0 {
      CountOf(order, n);
    }
    NoRepeats(SortNames(order));
    forall n ensures n in SortNames(order) <==> n in order {
      assert n in multiset(SortNames(order)) <==> n in multiset(order);
    }
  }

  /** A merged config that changed while listed is written again. */
  lemma ListedMergedRegrows(s: Store, s': Store, order1: seq<string>, order2: seq<string>)
    requires ListingOf(s, order1) && Listed(s', order2) && SortNames(order1) == SortNames(order2)
    requires MergedIsListed(s) && MERGED_CONFIG in s' && UserRules(s) == UserRules(s')
    requires forall n | n in s && n != MERGED_CONFIG :: n in s' && s'[n].spec == s[n].spec
    requires s'[MERGED_CONFIG].spec.rules == Flatten(Teams(s, order1)) + Kept(UserRules(s), Teams(s, order1))
    requires s'[MERGED_CONFIG].spec.rules != s[MERGED_CONFIG].spec.rules
    ensures s'[MERGED_CONFIG].spec.rules != Flatten(Teams(s', order2)) + Kept(UserRules(s'), Teams(s', order2))
  {
    SortedListing(s, order1);
    var names, teams1, teams2 := SortNames(order1), Teams(s, order1), Teams(s', order2);
    assert MERGED_CONFIG in names;
    var i :| 0 <= i < |names| && names[i] == MERGED_CONFIG;
    SortedListed(s, order1);
    SortedListed(s', order2);
    assert teams1[i] == s[MERGED_CONFIG] && teams2[i] == s'[MERGED_CONFIG];
    forall j | 0 <= j < |names| && j != i ensures teams1[j].spec.rules == teams2[j].spec.rules {
      assert names[j] != MERGED_CONFIG && names[j] in names;
      assert teams1[j] == s[names[j]] && teams2[j] == s'[names[j]];
    }
    if s'[MERGED_CONFIG].spec.rules == Flatten(teams2) + Kept(UserRules(s), teams2) {
      Regrowth(teams1, teams2, i, UserRules(s));
    }
  }

  lemma SameRulesSameTeams(s: Store, s': Store, order1: seq<string>, order2: seq<string>, rules: seq<Rule>)
    requires ListingOf(s, order1) && Listed(s', order2) && SortNames(order1) == SortNames(order2)
    requires forall n | n in s && Labelled(s[n]) :: n in s' && s'[n].spec.rules == s[n].spec.rules
    ensures Flatten(Teams(s, order1)) == Flatten(Teams(s', order2))
    ensures Kept(rules, Teams(s, order1)) == Kept(rules, Teams(s', order2))
  {
    SortedListing(s, order1);
    SortedListed(s, order1);
    SortedListed(s', order2);
    var names, teams1, teams2 := SortNames(order1), Teams(s, order1), Teams(s', order2);
    forall j | 0 <= j < |names| ensures teams1[j].spec.rules == teams2[j].spec.rules {
      assert names[j] in names;
    }
    FlattenBySpecs(teams1, teams2);
    KeptBySpecs(rules, teams1, teams2);
  }

  function CleanOutcome(s: Store, order: seq<string>, owner: OwnerRef): Progress
    requires Listed(s, order)
  {
    MergeOutcome(Progress(s, [], true), order, owner, NO_FAULTS)
  }

  /** No team config but the merged one has rules, and no rule of the user survives. */
  predicate NothingToAdd(s: Store, order: seq<string>)
    requires Listed(s, order)
  {
    && (forall n | n in order && n != MERGED_CONFIG :: s[n].spec.rules == [])
    && (forall r | r in UserRules(s) :: IsExclude(r) && Suppresses(r, Teams(s, order)))
  }

  /** A listed merged config is rewritten unchanged just when there is nothing to add to it. */
  lemma UnchangedIff(s: Store, order: seq<string>)
    requires ListingOf(s, order) && MergedIsListed(s)
    ensures Flatten(Teams(s, order)) + Kept(UserRules(s), Teams(s, order)) == s[MERGED_CONFIG].spec.rules <==>
            NothingToAdd(s, order)
  {
    var names, teams := SortNames(order), Teams(s, order);
    SortedListing(s, order);
    SortedListed(s, order);
    SortedMembers(order);
    assert MERGED_CONFIG in names;
    var i :| 0 <= i < |names| && names[i] == MERGED_CONFIG;
    FlattenAt(teams, i);
    KeptMembers(UserRules(s), teams);
    OthersEmptyIff(s, order, i);
    assert Kept(UserRules(s), teams) == [] <==> forall r | r in UserRules(s) :: !Survives(r, teams) by {
      if Kept(UserRules(s), teams) != [] {
        assert Kept(UserRules(s), teams)[0] in Kept(UserRules(s), teams);
      }
    }
  }

  lemma OthersEmptyIff(s: Store, order: seq<string>, i: nat)
    requires ListingOf(s, order) && Listed(s, order) && i < |SortNames(order)| && SortNames(order)[i] == MERGED_CONFIG
    ensures |Teams(s, order)| == |SortNames(order)|
    ensures (forall j :: 0 <= j < |Teams(s, order)| && j != i ==> Teams(s, order)[j].spec.rules == []) <==>
            (forall n | n in order && n != MERGED_CONFIG :: s[n].spec.rules == [])
  {
    var names, teams := SortNames(order), Teams(s, order);
    SortedListed(s, order);
    SortedMembers(order);
    if forall j :: 0 <= j < |teams| && j != i ==> teams[j].spec.rules == [] {
      forall n | n in order && n != MERGED_CONFIG ensures s[n].spec.rules == [] {
        assert n in names;
        var j :| 0 <= j < |names| && names[j] == n;
        assert teams[j] == s[n];
      }
    }
    if forall n | n in order && n != MERGED_CONFIG :: s[n].spec.rules == [] {
      SortedListing(s, order);
      forall j | 0 <= j < |teams| && j != i ensures teams[j].spec.rules == [] {
        assert names[j] in names && names[j] != MERGED_CONFIG;
      }
    }
  }

  /**
    Merging again, with nothing changed in between: apart from the status call the second merge
    writes nothing, unless merged-collector-config itself carries the integration label and there
    was something to add to it - then it grows once more.
   */
  lemma SecondMergeIff(s: Store, order1: seq<string>, order2: seq<string>, owner: OwnerRef)
    requires ListingOf(s, order1) && ListingOf(CleanOutcome(s, order1, owner).store, order2)
    ensures var first := CleanOutcome(s, order1, owner);
            var second := CleanOutcome(first.store, order2, owner);
            && first.ok && second.ok && MERGED_CONFIG in first.store
            && (second.store == first.store && second.log == StatusLog(s) <==>
                  (MergedIsListed(s) ==> NothingToAdd(s, order1)))
  {
    var first := CleanOutcome(s, order1, owner);
    CleanMerge(s, order1, owner);
    CleanMerge(first.store, order2, owner);
    MergeWrites(Progress(s, [], true), order1, owner, NO_FAULTS);
    ListingsAgree(s, first.store, order1, order2);
    LabelsDiffer();
    if MergedIsListed(s) {
      UnchangedIff(s, order1);
    }
    if MergedIsListed(s) && first.store[MERGED_CONFIG].spec.rules != s[MERGED_CONFIG].spec.rules {
      MergeWrites(Progress(first.store, [], true), order2, owner, NO_FAULTS);
      ListedMergedRegrows(s, first.store, order1, order2);
    } else {
      QuietSecondMerge(s, first.store, order1, order2, owner);
    }
  }

  /** Between two merges with nothing to regrow, everything the second computes is already there. */
  ghost predicate Quiet(s: Store, s': Store, order1: seq<string>, order2: seq<string>)
    requires Listed(s, order1)
  {
    && ListingOf(s, order1) && ListingOf(s', order2) && SortNames(order1) == SortNames(order2)
    && SameListing(s, s') && MERGED_CONFIG in s' && UserHandled(s', Teams(s, order1))
    && (forall n | n in s && n != MERGED_CONFIG :: s'[n].spec == s[n].spec)
    && (forall n | n in order1 :: BACKUP_LABEL in s'[n].labels)
    && s'[MERGED_CONFIG].spec == MergedSpec(Teams(s, order1), UserIn(s))
    && (MergedIsListed(s) ==> s'[MERGED_CONFIG].spec.rules == s[MERGED_CONFIG].spec.rules)
  }

  lemma QuietTeams(s: Store, s': Store, order1: seq<string>, order2: seq<string>)
    requires Listed(s, order1) && Quiet(s, s', order1, order2)
    ensures UserRules(s') == UserRules(s)
    ensures Flatten(Teams(s, order1)) == Flatten(Teams(s', order2))
    ensures Kept(UserRules(s), Teams(s, order1)) == Kept(UserRules(s'), Teams(s', order2))
  {
    LabelsDiffer();
    forall n | n in s && Labelled(s[n]) ensures n in s' && s'[n].spec.rules == s[n].spec.rules {
    }
    SameRulesSameTeams(s, s', order1, order2, UserRules(s));
  }

  lemma HandledAlike(s: Store, a: seq<Config>, b: seq<Config>)
    requires UserHandled(s, a) && Kept(UserRules(s), a) == Kept(UserRules(s), b)
    ensures UserHandled(s, b)
  {
  }

  lemma QuietIsPrepared(s: Store, s': Store, order1: seq<string>, order2: seq<string>)
    requires Listed(s, order1) && Quiet(s, s', order1, order2)
    ensures Prepared(s', order2)
  {
    QuietTeams(s, s', order1, order2);
    HandledAlike(s', Teams(s, order1), Teams(s', order2));
    forall n | n in order2 ensures BACKUP_LABEL in s'[n].labels {
      SortedMembers(order1);
      SortedMembers(order2);
      assert n in order1;
    }
  }

  lemma QuietSpec(s: Store, s': Store, order1: seq<string>, order2: seq<string>)
    requires Listed(s, order1) && Quiet(s, s', order1, order2)
    ensures MergedSpec(Teams(s', order2), UserIn(s')) == s'[MERGED_CONFIG].spec
  {
    LabelsDiffer();
    QuietTeams(s, s', order1, order2);
  }

  lemma QuietSecondMerge(s: Store, s': Store, order1: seq<string>, order2: seq<string>, owner: OwnerRef)
    requires Listed(s, order1) && Quiet(s, s', order1, order2)
    ensures var second := CleanOutcome(s', order2, owner);
            second.store == s' && second.log == StatusLog(s)
  {
    QuietIsPrepared(s, s', order1, order2);
    QuietSpec(s, s', order1, order2);
    PreparedMerge(s', order2, owner);
    LabelsDiffer();
    assert StatusLog(s') == StatusLog(s);
  }

  /** The merged config is the only labelled one, and the user has one include. */
  ghost predicate Growing(s: Store, rule: Rule) {
    ListingOf(s, [MERGED_CONFIG]) && UserRules(s) == [rule] && IsInclude(rule)
  }

  ghost predicate Grown(s: Store, rule: Rule, own: seq<Rule>, n: nat) {
    Growing(s, rule) && s[MERGED_CONFIG].spec.rules == own + Copies(rule, n)
  }

  function MergeOnce(s: Store, owner: OwnerRef): Store {
    if Listed(s, [MERGED_CONFIG]) then CleanOutcome(s, [MERGED_CONFIG], owner).store else s
  }

  function Merging(owner: OwnerRef): Store -> Store {
    s => MergeOnce(s, owner)
  }

  /** n merges, one after the other. */
  function Repeated(merge: Store -> Store, s: Store, n: nat): Store {
    if n == 0 then s else merge(Repeated(merge, s, n - 1))
  }

  function Copies(rule: Rule, n: nat): (copies: seq<Rule>)
    ensures |copies| == n && forall i | 0 <= i < n :: copies[i] == rule
  {
    if n == 0 then [] else Copies(rule, n - 1) + [rule]
  }

  lemma {:induction false} GrowsWhenRepeated(merge: Store -> Store, s: Store, rule: Rule, n: nat)
    requires Growing(s, rule)
    requires forall t, own, k: nat :: Grown(t, rule, own, k) ==> Grown(merge(t), rule, own, k + 1)
    ensures Grown(Repeated(merge, s, n), rule, s[MERGED_CONFIG].spec.rules, n)
  {
    if n > 0 {
      GrowsWhenRepeated(merge, s, rule, n - 1);
    }
  }

  /** Every merge appends the user's rule to a labelled merged config once more, without end. */
  lemma ListedMergedConfigGrows(s: Store, rule: Rule, owner: OwnerRef, n: nat)
    requires Growing(s, rule)
    ensures Grown(Repeated(Merging(owner), s, n), rule, s[MERGED_CONFIG].spec.rules, n)
  {
    forall t, own, k: nat | Grown(t, rule, own, k) ensures Grown(Merging(owner)(t), rule, own, k + 1) {
      GrowsOn(t, rule, owner, own, k);
    }
    GrowsWhenRepeated(Merging(owner), s, rule, n);
  }

  lemma GrowsOn(s: Store, rule: Rule, owner: OwnerRef, own: seq<Rule>, n: nat)
    requires Grown(s, rule, own, n)
    ensures Grown(MergeOnce(s, owner), rule, own, n + 1)
  {
    GrowsOnce(s, rule, owner);
    assert own + Copies(rule, n) + [rule] == own + (Copies(rule, n) + [rule]);
  }

  lemma GrowsOnce(s: Store, rule: Rule, owner: OwnerRef)
    requires Growing(s, rule)
    ensures var t := MergeOnce(s, owner);
            Growing(t, rule) && t[MERGED_CONFIG].spec.rules == s[MERGED_CONFIG].spec.rules + [rule]
  {
    assert MERGED_CONFIG in [MERGED_CONFIG] && Listed(s, [MERGED_CONFIG]);
    var out := CleanOutcome(s, [MERGED_CONFIG], owner);
    assert out.ok && SameListing(s, out.store) by { CleanMerge(s, [MERGED_CONFIG], owner); }
    assert OtherSpecsKept(s, out) && out.store[MERGED_CONFIG].spec.rules == s[MERGED_CONFIG].spec.rules + [rule] by {
      MergeWrites(Progress(s, [], true), [MERGED_CONFIG], owner, NO_FAULTS);
      OnlyTeam(s, rule);
    }
    StillGrowing(s, out, rule);
  }

  lemma StillGrowing(s: Store, out: Progress, rule: Rule)
    requires Growing(s, rule) && out.ok && SameListing(s, out.store) && OtherSpecsKept(s, out)
    ensures Growing(out.store, rule)
  {
    LabelsDiffer();
    assert MERGED_CONFIG in [MERGED_CONFIG];
    assert USER_CONFIG in s && out.store[USER_CONFIG].spec == s[USER_CONFIG].spec;
    assert forall n :: n in out.store && Labelled(out.store[n]) <==> n in s && Labelled(s[n]);
  }

  lemma OnlyTeam(s: Store, rule: Rule)
    requires Growing(s, rule) && Listed(s, [MERGED_CONFIG])
    ensures Flatten(Teams(s, [MERGED_CONFIG])) == s[MERGED_CONFIG].spec.rules
    ensures Kept(UserRules(s), Teams(s, [MERGED_CONFIG])) == [rule]
  {
    var teams := Teams(s, [MERGED_CONFIG]);
    SortedListed(s, [MERGED_CONFIG]);
    assert SortNames([MERGED_CONFIG]) == [MERGED_CONFIG] && teams == [s[MERGED_CONFIG]];
    assert teams[..0] == [] && Flatten(teams) == [] + s[MERGED_CONFIG].spec.rules;
    IncludesAreKept([rule], teams, rule);
    PickMembers([rule], Surviving(teams));
  }

  /** Such a store exists: a labelled merged config without rules and the user's config. */
  lemma GrowthStarts(rule: Rule, owner: OwnerRef, n: nat)
    requires IsInclude(rule)
    ensures var s := map[MERGED_CONFIG := Config(MERGED_CONFIG, map[INTEGRATION_LABEL := INTEGRATION_VALUE], map[], [],
                                                 Spec(None, []), None),
                         USER_CONFIG := Config(USER_CONFIG, map[], map[], [], Spec(None, [rule]), None)];
            && Growing(s, rule) && MERGED_CONFIG in Repeated(Merging(owner), s, n)
            && Repeated(Merging(owner), s, n)[MERGED_CONFIG].spec.rules == Copies(rule, n)
  {
    var s := map[MERGED_CONFIG := Config(MERGED_CONFIG, map[INTEGRATION_LABEL := INTEGRATION_VALUE], map[], [],
                                         Spec(None, []), None),
                 USER_CONFIG := Config(USER_CONFIG, map[], map[], [], Spec(None, [rule]), None)];
    LabelsDiffer();
    assert |INTEGRATION_VALUE| > 0 && |USER_CONFIG| != |MERGED_CONFIG|;
    assert Growing(s, rule);
    ListedMergedConfigGrows(s, rule, owner, n);
  }
}
