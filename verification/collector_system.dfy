/**
  CollectorConfigs over whole runs: admission requests from anyone, in any order, and merges by
  the operator, whose own writes go through the same webhook.
 */
module CollectorSystem {
  import opened CollectorConfigs
  import opened Admission
  import M = Merge
  import opened Values

  datatype Event = CreateRequest(c: Config, ctx: Context)
                 | UpdateRequest(c: Config, ctx: Context)
                 | DeleteRequest(name: string, ctx: Context)
                 | MergeRun(order: seq<string>, owner: OwnerRef, faults: M.Faults, ctx: Context)

  /** The configs whose label patch the webhook turns down. */
  function RejectedPatches(s: M.Store, fieldOk: Field -> bool, ctx: Context): set<string> {
    set n | n in s && !UpdateAdmits(s[n], M.WithBackup(s[n]), fieldOk, ctx)
  }

  function NewMerged(s: M.Store, order: seq<string>, owner: OwnerRef): Config
    requires M.Listed(s, order)
  {
    var spec := M.MergedSpec(M.Teams(s, order), M.UserIn(s));
    if MERGED_CONFIG in s then s[MERGED_CONFIG].(spec := spec) else M.MergedConfig(spec, owner)
  }

  predicate MergedRejected(s: M.Store, order: seq<string>, owner: OwnerRef, fieldOk: Field -> bool, ctx: Context)
    requires M.Listed(s, order)
  {
    var c := NewMerged(s, order, owner);
    if MERGED_CONFIG in s then !UpdateAdmits(s[MERGED_CONFIG], c, fieldOk, ctx) else !CreateAdmits(c, fieldOk, ctx)
  }

  /** API faults and webhook refusals together. */
  function EffectiveFaults(s: M.Store, order: seq<string>, owner: OwnerRef, f: M.Faults,
                           fieldOk: Field -> bool, ctx: Context): M.Faults
    requires M.Listed(s, order)
  {
    f.(patch := f.patch + RejectedPatches(s, fieldOk, ctx),
       write := f.write || MergedRejected(s, order, owner, fieldOk, ctx))
  }

  function Merged(s: M.Store, order: seq<string>, owner: OwnerRef, f: M.Faults,
                  fieldOk: Field -> bool, ctx: Context): M.Progress
    requires M.Listed(s, order)
  {
    M.MergeOutcome(M.Progress(s, [], true), order, owner, EffectiveFaults(s, order, owner, f, fieldOk, ctx))
  }

  function Next(s: M.Store, e: Event, fieldOk: Field -> bool): M.Store {
    match e
    case CreateRequest(c, ctx) =>
      if c.name !in s && CreateAdmits(c, fieldOk, ctx) then s[c.name := c.(applied := None)] else s
    case UpdateRequest(c, ctx) =>
      if c.name in s && UpdateAdmits(s[c.name], c, fieldOk, ctx)
      then s[c.name := c.(applied := s[c.name].applied)] else s
    case DeleteRequest(name, ctx) =>
      if name in s && DeleteAdmits(s[name], ctx) then s - {name} else s
    case MergeRun(order, owner, f, ctx) =>
      if M.Listed(s, order) then Merged(s, order, owner, f, fieldOk, ctx).store else s
  }

  function Run(s: M.Store, events: seq<Event>, fieldOk: Field -> bool): M.Store {
    if events == [] then s
    else Next(Run(s, events[..|events| - 1], fieldOk), events[|events| - 1], fieldOk)
  }

  // ---------------------------------------------------------------------------------------
  // No stored exclude, in the merged config or elsewhere, matches a protected type
  // ---------------------------------------------------------------------------------------

  predicate AllValid(s: M.Store, fieldOk: Field -> bool) {
    forall n | n in s :: SpecValid(s[n].spec, fieldOk)
  }

  lemma NewMergedIsValid(s: M.Store, order: seq<string>, owner: OwnerRef, fieldOk: Field -> bool)
    requires AllValid(s, fieldOk) && M.Listed(s, order)
    ensures SpecValid(NewMerged(s, order, owner).spec, fieldOk)
  {
    var teams, rules := M.Teams(s, order), NewMerged(s, order, owner).spec.rules;
    M.FlattenMembers(teams);
    M.KeptMembers(M.UserRules(s), teams);
    M.SortedListed(s, order);
    assert rules == M.Flatten(teams) + M.Kept(M.UserRules(s), teams);
    forall i | 0 <= i < |rules| ensures RuleValid(rules[i], fieldOk) {
      if rules[i] in M.Flatten(teams) {
        var j :| 0 <= j < |teams| && rules[i] in teams[j].spec.rules;
      } else {
        assert rules[i] in M.Kept(M.UserRules(s), teams);
      }
    }
  }

  lemma MergingKeepsValidity(s: M.Store, order: seq<string>, owner: OwnerRef, f: M.Faults, fieldOk: Field -> bool)
    requires AllValid(s, fieldOk) && M.Listed(s, order)
    ensures AllValid(M.MergeOutcome(M.Progress(s, [], true), order, owner, f).store, fieldOk)
  {
    M.MergeWrites(M.Progress(s, [], true), order, owner, f);
    NewMergedIsValid(s, order, owner, fieldOk);
  }

  lemma {:induction false} RunsKeepValidity(s: M.Store, events: seq<Event>, fieldOk: Field -> bool)
    requires AllValid(s, fieldOk)
    ensures AllValid(Run(s, events, fieldOk), fieldOk)
  {
    if events != [] {
      var before, e := Run(s, events[..|events| - 1], fieldOk), events[|events| - 1];
      RunsKeepValidity(s, events[..|events| - 1], fieldOk);
      if e.MergeRun? && M.Listed(before, e.order) {
        MergingKeepsValidity(before, e.order, e.owner,
                             EffectiveFaults(before, e.order, e.owner, e.faults, fieldOk, e.ctx), fieldOk);
      }
    }
  }

  /**
    Over every run - any requests, any listing failures, any merges, any faults - no exclude rule
    of any stored config, the merged one included, matches a protected resource type.
   */
  lemma EveryRunIsHarmless(events: seq<Event>, fieldOk: Field -> bool, n: string, r: Rule, g: string, k: string)
    requires var s := Run(map[], events, fieldOk); n in s && r in s[n].spec.rules && IsExclude(r)
    requires Concrete(g) && Concrete(k) && Matches(r.selector, g, k)
    ensures !IsProtected(g, k)
  {
    RunsKeepValidity(map[], events, fieldOk);
    ValidExcludesAreHarmless(Run(map[], events, fieldOk)[n].spec, fieldOk, r, g, k);
  }

  // ---------------------------------------------------------------------------------------
  // Operator-owned configs
  // ---------------------------------------------------------------------------------------

  /** A request by somebody who may not touch operator-owned configs. */
  predicate Outsider(e: Event) {
    match e
    case CreateRequest(c, ctx) => !MayTouchOwned(ctx.user, ctx.namespace, CreateOp)
    case UpdateRequest(c, ctx) => !MayTouchOwned(ctx.user, ctx.namespace, UpdateOp)
    case DeleteRequest(name, ctx) => !MayTouchOwned(ctx.user, ctx.namespace, DeleteOp)
    case MergeRun(_, _, _, _) => false
  }

  /** The operator-owned configs of a store. */
  function Owned(s: M.Store): M.Store {
    map n | n in s && IsOperatorOwned(s[n]) :: s[n]
  }

  /** However many requests outsiders make, the operator-owned configs stay exactly as they were. */
  lemma {:induction false} OutsidersCannotTouchOwned(s: M.Store, events: seq<Event>, fieldOk: Field -> bool)
    requires forall e :: e in events ==> Outsider(e)
    ensures Owned(Run(s, events, fieldOk)) == Owned(s)
  {
    if events != [] {
      var rest, e := events[..|events| - 1], events[|events| - 1];
      assert forall x :: x in rest ==> x in events;
      OutsidersCannotTouchOwned(s, rest, fieldOk);
      OneOutsider(Run(s, rest, fieldOk), e, fieldOk);
    }
  }

  lemma OneOutsider(s: M.Store, e: Event, fieldOk: Field -> bool)
    requires Outsider(e)
    ensures Owned(Next(s, e, fieldOk)) == Owned(s)
  {
    match e
    case CreateRequest(c, ctx) =>
      assert IsOperatorOwned(c.(applied := None)) == IsOperatorOwned(c);
    case UpdateRequest(c, ctx) =>
      if c.name in s {
        assert IsOperatorOwned(c.(applied := s[c.name].applied)) == IsOperatorOwned(c);
      }
    case DeleteRequest(name, ctx) =>
  }

  // ---------------------------------------------------------------------------------------
  // When the operator's merge gets past its own webhook
  // ---------------------------------------------------------------------------------------

  predicate TeamsConflict(teams: seq<Config>) {
    exists i | 0 <= i < |teams| :: Conflicts(teams[i], teams)
  }

  /** The user's config still needs its backup label, and conflicts with an integration include. */
  predicate UserPatchRejected(s: M.Store, teams: seq<Config>) {
    && USER_CONFIG in s && BACKUP_LABEL !in s[USER_CONFIG].labels && !Labelled(s[USER_CONFIG])
    && |M.Kept(M.UserRules(s), teams)| < |M.UserRules(s)|
  }

  lemma LabellingKeepsMeaning(c: Config)
    ensures Labelled(M.WithBackup(c)) == Labelled(c) && M.WithBackup(c).spec == c.spec
    ensures IsOperatorOwned(M.WithBackup(c)) == IsOperatorOwned(c)
  {
    M.LabelsDiffer();
  }

  lemma PatchRejectedIff(s: M.Store, order: seq<string>, fieldOk: Field -> bool, ctx: Context, n: string)
    requires AllValid(s, fieldOk) && M.Listed(s, order) && n in s
    requires IsLocalAccount(ctx.user, ctx.namespace) && ctx.hasClient && ctx.list == Items(M.Fetch(s, order))
    ensures n in RejectedPatches(s, fieldOk, ctx) <==>
            !Labelled(s[n]) && |M.Kept(s[n].spec.rules, M.Teams(s, order))| < |s[n].spec.rules|
  {
    LabellingKeepsMeaning(s[n]);
    ConflictIsADrop(s, order, s[n]);
    assert Conflicts(M.WithBackup(s[n]), M.Fetch(s, order)) == Conflicts(s[n], M.Fetch(s, order));
    M.KeptMembers(s[n].spec.rules, M.Teams(s, order));
  }

  lemma TeamsConflictIff(s: M.Store, order: seq<string>)
    requires M.Listed(s, order)
    ensures TeamsConflict(M.Teams(s, order)) <==>
            exists n, r :: n in order && r in s[n].spec.rules && IsExclude(r) && Suppresses(r, M.Teams(s, order))
  {
    var teams := M.Teams(s, order);
    M.SortedListed(s, order);
    M.SortedMembers(order);
    if TeamsConflict(teams) {
      var i :| 0 <= i < |teams| && Conflicts(teams[i], teams);
      var j :| 0 <= j < |teams[i].spec.rules| && IsExclude(teams[i].spec.rules[j])
               && Suppresses(teams[i].spec.rules[j], teams);
      assert M.SortNames(order)[i] in order && teams[i].spec.rules[j] in s[M.SortNames(order)[i]].spec.rules;
    }
    if n, r :| n in order && r in s[n].spec.rules && IsExclude(r) && Suppresses(r, teams) {
      var i := M.TeamIndex(s, order, n);
      var j :| 0 <= j < |s[n].spec.rules| && s[n].spec.rules[j] == r;
      assert Conflicts(teams[i], teams);
    }
  }

  lemma MergedRejectedIff(s: M.Store, order: seq<string>, owner: OwnerRef, fieldOk: Field -> bool, ctx: Context)
    requires AllValid(s, fieldOk) && M.Listed(s, order)
    requires IsLocalAccount(ctx.user, ctx.namespace) && ctx.hasClient && ctx.list == Items(M.Fetch(s, order))
    ensures MergedRejected(s, order, owner, fieldOk, ctx) <==> !M.MergedIsListed(s) && TeamsConflict(M.Teams(s, order))
  {
    var c := NewMerged(s, order, owner);
    assert |INTEGRATION_VALUE| > 0;
    assert Labelled(c) == M.MergedIsListed(s);
    NewMergedIsValid(s, order, owner, fieldOk);
    if !Labelled(c) {
      MergedWriteAdmittedIff(s, order, c);
      TeamsConflictIff(s, order);
    }
  }

  /**
    Without API faults, a merge gets past the webhook exactly when the user's config does not
    still need a label patch that its conflicting exclude makes inadmissible, and either there
    is nothing to write, or the merged config is itself labelled, or no integration exclude
    conflicts with an integration include.
   */
  lemma MergeGoesThroughIff(s: M.Store, order: seq<string>, owner: OwnerRef, fieldOk: Field -> bool, ctx: Context)
    requires AllValid(s, fieldOk) && M.ListingOf(s, order)
    requires IsLocalAccount(ctx.user, ctx.namespace) && ctx.hasClient && ctx.list == Items(M.Fetch(s, order))
    ensures var teams := M.Teams(s, order);
            Merged(s, order, owner, M.NO_FAULTS, fieldOk, ctx).ok <==>
            && !UserPatchRejected(s, teams)
            && (|| (MERGED_CONFIG in s && s[MERGED_CONFIG].spec == M.MergedSpec(teams, M.UserIn(s)))
                || M.MergedIsListed(s) || !TeamsConflict(teams))
  {
    var teams, p := M.Teams(s, order), M.Progress(s, [], true);
    var f := EffectiveFaults(s, order, owner, M.NO_FAULTS, fieldOk, ctx);
    M.SortedListed(s, order);
    M.SortedMembers(order);
    forall n | n in M.SortNames(order) ensures n !in f.patch {
      PatchRejectedIff(s, order, fieldOk, ctx, n);
    }
    M.NoFaultNoStop(p, M.SortNames(order), f);
    M.LabellingOnly(p, M.SortNames(order), f);
    var q := M.AddBackups(p, M.SortNames(order), f);
    M.FinishOkIff(q, teams, owner, f);
    MergedRejectedIff(s, order, owner, fieldOk, ctx);
    assert M.MergedSpec(teams, M.UserIn(q.store)) == M.MergedSpec(teams, M.UserIn(s));
    if USER_CONFIG in s {
      PatchRejectedIff(s, order, fieldOk, ctx, USER_CONFIG);
      if USER_CONFIG !in order {
        M.UnlistedUntouched(p, M.SortNames(order), f, USER_CONFIG);
      }
    }
  }

  /**
    When integration configs conflict among themselves, every merge that has something to write is
    refused - and the user's config still says how its rules were merged.
   */
  lemma AppliedThoughRejected(s: M.Store, order: seq<string>, owner: OwnerRef, fieldOk: Field -> bool, ctx: Context)
    requires AllValid(s, fieldOk) && M.ListingOf(s, order) && USER_CONFIG in s
    requires IsLocalAccount(ctx.user, ctx.namespace) && ctx.hasClient && ctx.list == Items(M.Fetch(s, order))
    requires TeamsConflict(M.Teams(s, order)) && !M.MergedIsListed(s) && !UserPatchRejected(s, M.Teams(s, order))
    requires MERGED_CONFIG in s ==> s[MERGED_CONFIG].spec != M.MergedSpec(M.Teams(s, order), M.UserIn(s))
    ensures var out := Merged(s, order, owner, M.NO_FAULTS, fieldOk, ctx);
            && !out.ok && USER_CONFIG in out.store
            && out.store[USER_CONFIG].applied == Some(M.Verdict(s, M.Teams(s, order)))
  {
    MergeGoesThroughIff(s, order, owner, fieldOk, ctx);
    var f := EffectiveFaults(s, order, owner, M.NO_FAULTS, fieldOk, ctx);
    forall n | n in order + [USER_CONFIG] ensures BACKUP_LABEL in s[n].labels || n !in f.patch {
      PatchRejectedIff(s, order, fieldOk, ctx, n);
    }
    assert M.StatusWritten(s, order, f);
    M.AppliedAfterMerge(M.Progress(s, [], true), order, owner, f);
  }
}
