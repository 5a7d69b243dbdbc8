/**
  Seeding of the built-in integration CollectorConfigs: one pass over the embedded manifests,
  and the poll loop that retries it until one pass succeeds.
 */
module Seeder {
  import opened CollectorConfigs
  import opened Selections
  import opened Values

  const OPERATOR_NAME := "search-v2-operator"
  const PAUSE_ANNOTATION := "search-pause"

  datatype Search = Search(name: string, namespace: string, uid: string, annotations: map<string, string>)

  /** A CollectorConfig's namespace and name. */
  datatype Key = Key(namespace: string, name: string)
  type Store = map<Key, Config>

  /** An embedded file: unreadable, unparsable, or a manifest. */
  datatype File = Unreadable | Unparsable | Manifest(desired: Config)
  datatype Entry = Entry(fileName: string, isDir: bool, file: File)

  datatype Error = ReadDirFailed | ReadFailed | ParseFailed | GetFailed | CreateFailed | UpdateFailed | AlreadyOwned

  /** Which API calls fail while one file is applied. */
  datatype Faults = Faults(get: bool, create: bool, update: bool)

  // ---------------------------------------------------------------------------------------
  // Labels and owners
  // ---------------------------------------------------------------------------------------

  predicate LabelsMatch(found: map<string, string>, desired: map<string, string>) {
    if found == map[] then desired == map[]
    else (forall k | k in desired :: Lookup(found, k) == desired[k])
         && Lookup(found, INTEGRATION_LABEL) == INTEGRATION_VALUE
  }

  method HasDesiredLabels(found: Config, desired: Config) returns (has: bool)
    ensures has <==> LabelsMatch(found.labels, desired.labels)
  {
    if found.labels == map[] {
      return |desired.labels| == 0;
    }
    var rest := desired.labels.Keys;
    while rest != {}
      invariant rest <= desired.labels.Keys
      invariant forall k | k in desired.labels && k !in rest :: Lookup(found.labels, k) == desired.labels[k]
      decreases |rest|
    {
      var k :| k in rest;
      if Lookup(found.labels, k) != desired.labels[k] {
        return false;
      }
      rest := rest - {k};
    }
    return Lookup(found.labels, INTEGRATION_LABEL) == INTEGRATION_VALUE;
  }

  predicate OwnedBy(owners: seq<OwnerRef>, uid: string) {
    uid == "" || exists i | 0 <= i < |owners| :: owners[i].uid == uid
  }

  /** Any reference to the owner counts, controller or not. */
  method HasControllerOwnerRef(c: Config, owner: Search) returns (has: bool)
    ensures has <==> OwnedBy(c.owners, owner.uid)
  {
    if owner.uid == "" {
      return true;
    }
    for i := 0 to |c.owners|
      invariant forall x | 0 <= x < i :: c.owners[x].uid != owner.uid
    {
      if c.owners[i].uid == owner.uid {
        return true;
      }
    }
    return false;
  }

  function FirstController(owners: seq<OwnerRef>): Option<OwnerRef> {
    if owners == [] then None
    else if owners[0].controller then Some(owners[0])
    else FirstController(owners[1..])
  }

  function Upsert(owners: seq<OwnerRef>, r: OwnerRef): seq<OwnerRef> {
    if owners == [] then [r]
    else if owners[0].referent == r.referent then [r] + owners[1..]
    else [owners[0]] + Upsert(owners[1..], r)
  }

  /** SetControllerReference: fails when something else controls the object already. */
  function WithController(owners: seq<OwnerRef>, owner: Search): Option<seq<OwnerRef>> {
    var r := OwnerRef(owner.name, owner.uid, true);
    if FirstController(owners).Some? && FirstController(owners).value.referent != r.referent then None
    else Some(Upsert(owners, r))
  }

  lemma {:induction false} UpsertOwns(owners: seq<OwnerRef>, r: OwnerRef)
    ensures OwnedBy(Upsert(owners, r), r.uid)
  {
    if owners == [] || owners[0].referent == r.referent {
      assert Upsert(owners, r)[0] == r;
    } else {
      UpsertOwns(owners[1..], r);
      var u := Upsert(owners[1..], r);
      if r.uid != "" {
        var i :| 0 <= i < |u| && u[i].uid == r.uid;
        assert Upsert(owners, r)[i + 1] == u[i];
      }
    }
  }

  // ---------------------------------------------------------------------------------------
  // One manifest
  // ---------------------------------------------------------------------------------------

  predicate Overridden(c: Config) {
    MANUAL_OVERRIDE in c.annotations
  }

  /** The stored config needs no write. */
  predicate Settled(c: Config, desired: Config, uid: string) {
    Overridden(c) || (LabelsMatch(c.labels, desired.labels) && OwnedBy(c.owners, uid) && c.spec == desired.spec)
  }

  datatype Outcome = Outcome(stored: Option<Config>, error: Option<Error>, wrote: bool)

  function Created(desired: Config, owner: Search, scheme: bool): Config {
    Config(desired.name, desired.labels[INTEGRATION_LABEL := INTEGRATION_VALUE], map[],
           if scheme && owner.uid != "" then [OwnerRef(owner.name, owner.uid, true)] else [], desired.spec, None)
  }

  /** The in-place changes to a config that is overwritten; None when its owner cannot be set. */
  function Overwritten(found: Config, desired: Config, owner: Search, scheme: bool): Option<Config> {
    var c := found.(spec := desired.spec,
                    labels := (found.labels + desired.labels)[INTEGRATION_LABEL := INTEGRATION_VALUE]);
    if scheme && !OwnedBy(found.owners, owner.uid) then
      var owners := WithController(found.owners, owner);
      if owners.Some? then Some(c.(owners := owners.value)) else None
    else Some(c)
  }

  function ApplyManifest(found: Option<Config>, desired: Config, owner: Search, scheme: bool, f: Faults): Outcome {
    if f.get then Outcome(found, Some(GetFailed), false)
    else if found.None? then
      if f.create then Outcome(None, Some(CreateFailed), false)
      else Outcome(Some(Created(desired, owner, scheme)), None, true)
    else if Settled(found.value, desired, owner.uid) then Outcome(found, None, false)
    else
      var c := Overwritten(found.value, desired, owner, scheme);
      if c.None? then Outcome(found, Some(AlreadyOwned), false)
      else if f.update then Outcome(found, Some(UpdateFailed), false)
      else Outcome(c, None, true)
  }

  /** A later pass will leave alone what this one writes. */
  predicate Settles(found: Option<Config>, desired: Config, owner: Search, scheme: bool) {
    && (INTEGRATION_LABEL in desired.labels ==> desired.labels[INTEGRATION_LABEL] == INTEGRATION_VALUE)
    && (scheme || OwnedBy(if found.Some? then found.value.owners else [], owner.uid))
  }

  /**
    What a written config has: the shipped spec and labels. It is settled exactly when the
    manifest does not ship another value of the integration label and the owner could be recorded.
   */
  lemma WriteSettlesIff(found: Option<Config>, desired: Config, owner: Search, scheme: bool, f: Faults)
    requires ApplyManifest(found, desired, owner, scheme, f).wrote
    ensures var o := ApplyManifest(found, desired, owner, scheme, f);
            && o.stored.Some? && o.error.None? && o.stored.value.spec == desired.spec
            && (forall k | k in desired.labels && k != INTEGRATION_LABEL ::
                  k in o.stored.value.labels && o.stored.value.labels[k] == desired.labels[k])
            && Labelled(o.stored.value)
            && (Settled(o.stored.value, desired, owner.uid) <==> Settles(found, desired, owner, scheme))
  {
    var c := ApplyManifest(found, desired, owner, scheme, f).stored.value;
    assert INTEGRATION_LABEL in c.labels;
    assert c.labels != map[];
    assert !Overridden(c);
    var r := OwnerRef(owner.name, owner.uid, true);
    if found.None? {
      if scheme && owner.uid != "" { assert c.owners[0] == r; }
    } else {
      UpsertOwns(found.value.owners, r);
    }
    if Settled(c, desired, owner.uid) && INTEGRATION_LABEL in desired.labels {
      assert Lookup(c.labels, INTEGRATION_LABEL) == desired.labels[INTEGRATION_LABEL];
    }
  }

  /**
    Which shipped labels a config carries after a successful apply. A label shipped with the
    empty value is not told from an absent one, so on its own it is never restored.
   */
  lemma LabelPresentIff(found: Option<Config>, desired: Config, owner: Search, scheme: bool, f: Faults, k: string)
    requires ApplyManifest(found, desired, owner, scheme, f).error.None? && k in desired.labels
    requires found.Some? ==> !Overridden(found.value)
    ensures var o := ApplyManifest(found, desired, owner, scheme, f);
            && o.stored.Some?
            && (k in o.stored.value.labels <==>
                  found.None? || !Settled(found.value, desired, owner.uid) || k in found.value.labels)
            && (desired.labels[k] != "" ==> k in o.stored.value.labels)
  {
    var o := ApplyManifest(found, desired, owner, scheme, f);
    if !o.wrote {
      assert found.value.labels != map[];
      assert Lookup(found.value.labels, k) == desired.labels[k];
    }
  }

  /** A live config that lost only its backup label is left without it. */
  lemma LostBackupLabelStaysLost(spec: Spec, owner: Search)
    ensures var shipped := Config("cnv-integration", map[INTEGRATION_LABEL := INTEGRATION_VALUE, BACKUP_LABEL := ""],
                                  map[], [], spec, None);
            var live := Created(shipped, owner, true).(labels := map[INTEGRATION_LABEL := INTEGRATION_VALUE]);
            var o := ApplyManifest(Some(live), shipped, owner, true, Faults(false, false, false));
            o.error.None? && !o.wrote && o.stored == Some(live) && BACKUP_LABEL !in live.labels
  {
    var shipped := Config("cnv-integration", map[INTEGRATION_LABEL := INTEGRATION_VALUE, BACKUP_LABEL := ""],
                          map[], [], spec, None);
    var live := Created(shipped, owner, true).(labels := map[INTEGRATION_LABEL := INTEGRATION_VALUE]);
    assert |BACKUP_LABEL| != |INTEGRATION_LABEL|;
    assert INTEGRATION_LABEL in live.labels;
    if owner.uid != "" { assert live.owners[0].uid == owner.uid; }
  }

  /** The integration label itself is missed only for an unlabelled config whose manifest ships no labels. */
  lemma IntegrationLabelIff(found: Option<Config>, desired: Config, owner: Search, scheme: bool, f: Faults)
    requires ApplyManifest(found, desired, owner, scheme, f).error.None?
    requires found.Some? ==> !Overridden(found.value)
    ensures var o := ApplyManifest(found, desired, owner, scheme, f);
            o.stored.Some? && (Labelled(o.stored.value) <==>
              !(&& found.Some? && found.value.labels == map[] && desired.labels == map[]
                && OwnedBy(found.value.owners, owner.uid) && found.value.spec == desired.spec))
  {
    assert |INTEGRATION_VALUE| > 0;
    var o := ApplyManifest(found, desired, owner, scheme, f);
    if o.wrote {
      WriteSettlesIff(found, desired, owner, scheme, f);
    }
  }

  // ---------------------------------------------------------------------------------------
  // One pass
  // ---------------------------------------------------------------------------------------

  predicate Named(e: Entry) {
    !e.isDir && e.file.Manifest? && e.file.desired.name != ""
  }

  function KeyOf(e: Entry, owner: Search): Key
    requires Named(e)
  {
    Key(owner.namespace, e.file.desired.name)
  }

  function StoredAt(s: Store, k: Key): Option<Config> {
    if k in s then Some(s[k]) else None
  }

  function Put(s: Store, k: Key, c: Option<Config>): Store {
    if c.Some? then s[k := c.value] else s
  }

  datatype Pass = Pass(store: Store, firstError: Option<Error>, writes: seq<Key>)

  /** What applying one entry does to the store; directories and nameless manifests are skipped. */
  function ApplyEntry(s: Store, e: Entry, owner: Search, scheme: bool, f: Faults): Pass {
    if e.isDir then Pass(s, None, [])
    else match e.file
      case Unreadable => Pass(s, Some(ReadFailed), [])
      case Unparsable => Pass(s, Some(ParseFailed), [])
      case Manifest(desired) =>
        if desired.name == "" then Pass(s, None, [])
        else
          var k := Key(owner.namespace, desired.name);
          var o := ApplyManifest(StoredAt(s, k), desired, owner, scheme, f);
          Pass(Put(s, k, o.stored), o.error, if o.wrote then [k] else [])
  }

  function ApplyEntries(s: Store, entries: seq<Entry>, owner: Search, scheme: bool, faults: seq<Faults>): Pass
    requires |faults| == |entries|
  {
    if entries == [] then Pass(s, None, [])
    else
      var n := |entries| - 1;
      var p := ApplyEntries(s, entries[..n], owner, scheme, faults[..n]);
      var q := ApplyEntry(p.store, entries[n], owner, scheme, faults[n]);
      Pass(q.store, if p.firstError.Some? then p.firstError else q.firstError, p.writes + q.writes)
  }

  /** The API server's CollectorConfigs, and every write that reached them. */
  class Cluster {
    var configs: Store
    var writes: seq<Key>

    constructor (configs: Store)
      ensures this.configs == configs && writes == []
    {
      this.configs, writes := configs, [];
    }

    method ApplyOneIntegrationCollectorConfig(e: Entry, owner: Search, scheme: bool, f: Faults)
      returns (err: Option<Error>)
      requires !e.isDir
      modifies this
      ensures var p := ApplyEntry(old(configs), e, owner, scheme, f);
              configs == p.store && err == p.firstError && writes == old(writes) + p.writes
    {
      if e.file.Unreadable? { return Some(ReadFailed); }
      if e.file.Unparsable? { return Some(ParseFailed); }
      var desired := e.file.desired;
      if desired.name == "" { return None; }
      var k := Key(owner.namespace, desired.name);
      if f.get { return Some(GetFailed); }
      if k !in configs {
        var c := Config(desired.name, desired.labels, map[], [], desired.spec, None);
        c := c.(labels := c.labels[INTEGRATION_LABEL := INTEGRATION_VALUE]);
        if scheme && owner.uid != "" {
          c := c.(owners := [OwnerRef(owner.name, owner.uid, true)]);
        }
        if f.create { return Some(CreateFailed); }
        configs, writes := configs[k := c], writes + [k];
        return None;
      }
      var found := configs[k];
      if MANUAL_OVERRIDE in found.annotations { return None; }
      var hasAllLabels := HasDesiredLabels(found, desired);
      var hasOwnerRef := HasControllerOwnerRef(found, owner);
      if hasAllLabels && hasOwnerRef && found.spec == desired.spec { return None; }
      found := found.(spec := desired.spec);
      found := found.(labels := found.labels + desired.labels);
      found := found.(labels := found.labels[INTEGRATION_LABEL := INTEGRATION_VALUE]);
      if scheme && owner.uid != "" && !hasOwnerRef {
        var owners := WithController(found.owners, owner);
        if owners.None? { return Some(AlreadyOwned); }
        found := found.(owners := owners.value);
      }
      if f.update { return Some(UpdateFailed); }
      configs, writes := configs[k := found], writes + [k];
      return None;
    }

    /** A failing file never stops the others; the first error is returned. */
    method ApplyIntegrationCollectorConfigs(entries: Option<seq<Entry>>, owner: Search, scheme: bool,
                                            faults: seq<Faults>)
      returns (firstErr: Option<Error>)
      requires entries.Some? ==> |faults| == |entries.value|
      modifies this
      ensures entries.None? ==> unchanged(this) && firstErr == Some(ReadDirFailed)
      ensures entries.Some? ==>
                var p := ApplyEntries(old(configs), entries.value, owner, scheme, faults);
                configs == p.store && firstErr == p.firstError && writes == old(writes) + p.writes
    {
      if entries.None? { return Some(ReadDirFailed); }
      firstErr := None;
      var es := entries.value;
      for i := 0 to |es|
        invariant var p := ApplyEntries(old(configs), es[..i], owner, scheme, faults[..i]);
                  configs == p.store && firstErr == p.firstError && writes == old(writes) + p.writes
      {
        assert es[..i + 1][..i] == es[..i] && faults[..i + 1][..i] == faults[..i];
        if es[i].isDir {
          continue;
        }
        var err := ApplyOneIntegrationCollectorConfig(es[i], owner, scheme, faults[i]);
        if err.Some? && firstErr.None? {
          firstErr := err;
        }
      }
      assert es[..|es|] == es && faults[..|es|] == faults;
    }
  }

  predicate DistinctNames(entries: seq<Entry>) {
    forall i, j | 0 <= i < j < |entries| && Named(entries[i]) && Named(entries[j]) ::
      entries[i].file.desired.name != entries[j].file.desired.name
  }

  predicate Ships(e: Entry, owner: Search, k: Key) {
    Named(e) && KeyOf(e, owner) == k
  }

  lemma EntryElsewhere(s: Store, e: Entry, owner: Search, scheme: bool, f: Faults, k: Key)
    requires !Ships(e, owner, k)
    ensures var p := ApplyEntry(s, e, owner, scheme, f); StoredAt(p.store, k) == StoredAt(s, k) && k !in p.writes
  {
  }

  lemma EntryHere(s: Store, e: Entry, owner: Search, scheme: bool, f: Faults)
    requires Named(e)
    ensures var p, k := ApplyEntry(s, e, owner, scheme, f), KeyOf(e, owner);
            var o := ApplyManifest(StoredAt(s, k), e.file.desired, owner, scheme, f);
            StoredAt(p.store, k) == o.stored && (k in p.writes <==> o.wrote) && p.firstError == o.error
  {
  }

  /** A pass writes only names it ships. */
  lemma {:induction false} OtherKeysUntouched(s: Store, entries: seq<Entry>, owner: Search, scheme: bool,
                                              faults: seq<Faults>, k: Key)
    requires |faults| == |entries|
    requires forall i | 0 <= i < |entries| :: !Ships(entries[i], owner, k)
    ensures var p := ApplyEntries(s, entries, owner, scheme, faults);
            StoredAt(p.store, k) == StoredAt(s, k) && k !in p.writes
  {
    if entries != [] {
      var n := |entries| - 1;
      OtherKeysUntouched(s, entries[..n], owner, scheme, faults[..n], k);
      var before := ApplyEntries(s, entries[..n], owner, scheme, faults[..n]).store;
      EntryElsewhere(before, entries[n], owner, scheme, faults[n], k);
    }
  }

  lemma ShippedOnce(entries: seq<Entry>, owner: Search, i: nat)
    requires DistinctNames(entries) && i < |entries| && Named(entries[i])
    ensures forall j | 0 <= j < |entries| && j != i :: !Ships(entries[j], owner, KeyOf(entries[i], owner))
  {
  }

  /** With distinct names every manifest fares as if it were applied alone. */
  lemma {:induction false} FilesAreIndependent(s: Store, entries: seq<Entry>, owner: Search, scheme: bool,
                                               faults: seq<Faults>, i: nat)
    requires |faults| == |entries| && DistinctNames(entries) && i < |entries| && Named(entries[i])
    ensures var p, k := ApplyEntries(s, entries, owner, scheme, faults), KeyOf(entries[i], owner);
            var o := ApplyManifest(StoredAt(s, k), entries[i].file.desired, owner, scheme, faults[i]);
            StoredAt(p.store, k) == o.stored && (k in p.writes <==> o.wrote) && (p.firstError.None? ==> o.error.None?)
  {
    var n, k := |entries| - 1, KeyOf(entries[i], owner);
    var before := ApplyEntries(s, entries[..n], owner, scheme, faults[..n]);
    ShippedOnce(entries, owner, i);
    if i == n {
      OtherKeysUntouched(s, entries[..n], owner, scheme, faults[..n], k);
      EntryHere(before.store, entries[n], owner, scheme, faults[n]);
    } else {
      FilesAreIndependent(s, entries[..n], owner, scheme, faults[..n], i);
      EntryElsewhere(before.store, entries[n], owner, scheme, faults[n], k);
    }
  }

  /** The returned error is that of the first file that failed. */
  lemma {:induction false} FirstErrorIsReturned(s: Store, entries: seq<Entry>, owner: Search, scheme: bool,
                                                faults: seq<Faults>, i: nat)
    requires |faults| == |entries| && i < |entries|
    requires ApplyEntries(s, entries[..i], owner, scheme, faults[..i]).firstError.None?
    requires var q := ApplyEntry(ApplyEntries(s, entries[..i], owner, scheme, faults[..i]).store,
                                 entries[i], owner, scheme, faults[i]); q.firstError.Some?
    ensures ApplyEntries(s, entries, owner, scheme, faults).firstError ==
            ApplyEntry(ApplyEntries(s, entries[..i], owner, scheme, faults[..i]).store,
                       entries[i], owner, scheme, faults[i]).firstError
    decreases |entries|
  {
    var n := |entries| - 1;
    if i < n {
      assert entries[..n][..i] == entries[..i] && faults[..n][..i] == faults[..i];
      FirstErrorIsReturned(s, entries[..n], owner, scheme, faults[..n], i);
    }
  }

  lemma WritesAreShipped(s: Store, entries: seq<Entry>, owner: Search, scheme: bool, faults: seq<Faults>, k: Key)
    returns (i: nat)
    requires |faults| == |entries| && k in ApplyEntries(s, entries, owner, scheme, faults).writes
    ensures i < |entries| && Ships(entries[i], owner, k)
  {
    if forall i | 0 <= i < |entries| :: !Ships(entries[i], owner, k) {
      OtherKeysUntouched(s, entries, owner, scheme, faults, k);
    }
    i :| 0 <= i < |entries| && Ships(entries[i], owner, k);
  }

  /** Each manifest ships the integration label with its value, or does not ship it. */
  predicate WellLabelled(entries: seq<Entry>) {
    forall i | 0 <= i < |entries| && Named(entries[i]) ::
      INTEGRATION_LABEL in entries[i].file.desired.labels ==>
        entries[i].file.desired.labels[INTEGRATION_LABEL] == INTEGRATION_VALUE
  }

  /** A pass that reports no error leaves every shipped config overridden or as shipped. */
  lemma SuccessfulPassSettles(s: Store, entries: seq<Entry>, owner: Search, faults: seq<Faults>, i: nat)
    requires |faults| == |entries| && DistinctNames(entries) && WellLabelled(entries)
    requires ApplyEntries(s, entries, owner, true, faults).firstError.None?
    requires i < |entries| && Named(entries[i])
    ensures var p, k := ApplyEntries(s, entries, owner, true, faults), KeyOf(entries[i], owner);
            k in p.store && Settled(p.store[k], entries[i].file.desired, owner.uid)
  {
    var k := KeyOf(entries[i], owner);
    FilesAreIndependent(s, entries, owner, true, faults, i);
    if ApplyManifest(StoredAt(s, k), entries[i].file.desired, owner, true, faults[i]).wrote {
      WriteSettlesIff(StoredAt(s, k), entries[i].file.desired, owner, true, faults[i]);
    }
  }

  /** An immediate second pass writes nothing, whatever fails in it. */
  lemma SecondPassWritesNothing(s: Store, entries: seq<Entry>, owner: Search, faults: seq<Faults>, again: seq<Faults>)
    requires |again| == |faults| == |entries| && DistinctNames(entries) && WellLabelled(entries)
    requires ApplyEntries(s, entries, owner, true, faults).firstError.None?
    ensures ApplyEntries(ApplyEntries(s, entries, owner, true, faults).store, entries, owner, true, again).writes == []
  {
    var p := ApplyEntries(s, entries, owner, true, faults);
    var q := ApplyEntries(p.store, entries, owner, true, again);
    if q.writes != [] {
      var i := WritesAreShipped(p.store, entries, owner, true, again, q.writes[0]);
      SuccessfulPassSettles(s, entries, owner, faults, i);
      FilesAreIndependent(p.store, entries, owner, true, again, i);
    }
  }

  // ---------------------------------------------------------------------------------------
  // The poll loop
  // ---------------------------------------------------------------------------------------

  function IsOperatorSearch(): Search -> bool {
    (s: Search) => s.name == OPERATOR_NAME
  }

  /** The Search to seed for: the one of that name, if there is exactly one. */
  function TheSearch(searches: seq<Search>): Option<Search> {
    var found := Pick(searches, IsOperatorSearch());
    if |found| == 1 then Some(found[0]) else None
  }

  /** `strings.EqualFold(v, "true")`. */
  predicate IsTrue(v: string) {
    |v| == 4 && v[0] in "tT" && v[1] in "rR" && v[2] in "uU" && v[3] in "eE"
  }

  predicate IsPaused(annotations: map<string, string>) {
    Lookup(annotations, PAUSE_ANNOTATION) != "" && IsTrue(Lookup(annotations, PAUSE_ANNOTATION))
  }

  method ResolveSearch(namespace: string, searches: Option<seq<Search>>) returns (s: Option<Search>, paused: bool)
    ensures namespace != "" ==> s == Some(Search("", namespace, "", map[])) && !paused
    ensures namespace == "" ==>
              && s == (if searches.Some? then TheSearch(searches.value) else None)
              && paused == (s.Some? && IsPaused(s.value.annotations))
  {
    if namespace != "" {
      return Some(Search("", namespace, "", map[])), false;
    }
    if searches.None? {
      return None, false;
    }
    var list, found := searches.value, None;
    for i := 0 to |list|
      invariant Pick(list[..i], IsOperatorSearch()) == if found.Some? then [found.value] else []
    {
      PickStep(list, i, IsOperatorSearch());
      if list[i].name == OPERATOR_NAME {
        if found.Some? {
          PickPrefix(list, i + 1, IsOperatorSearch());
          return None, false;
        }
        found := Some(list[i]);
      }
    }
    PickWhole(list, IsOperatorSearch());
    if found.None? {
      return None, false;
    }
    return found, IsPaused(found.value.annotations);
  }

  /**
    One poll: the configs as it finds them (others write between polls), what listing the
    Searches gives, and the faults of the pass, if it gets that far.
   */
  datatype Poll = Poll(world: Store, searches: Option<seq<Search>>, faults: seq<Faults>)

  predicate ValidPoll(p: Poll, entries: Option<seq<Entry>>) {
    entries.Some? ==> |p.faults| == |entries.value|
  }

  /** The Search a poll applies the manifests for, if it does. */
  function Target(p: Poll, namespace: string): Option<Search> {
    if namespace != "" then Some(Search("", namespace, "", map[]))
    else
      var s := if p.searches.Some? then TheSearch(p.searches.value) else None;
      if s.Some? && IsPaused(s.value.annotations) then None else s
  }

  function PassOf(p: Poll, namespace: string, entries: Option<seq<Entry>>, scheme: bool): Pass
    requires ValidPoll(p, entries)
  {
    if Target(p, namespace).None? then Pass(p.world, None, [])
    else if entries.None? then Pass(p.world, Some(ReadDirFailed), [])
    else ApplyEntries(p.world, entries.value, Target(p, namespace).value, scheme, p.faults)
  }

  predicate Succeeds(p: Poll, namespace: string, entries: Option<seq<Entry>>, scheme: bool)
    requires ValidPoll(p, entries)
  {
    Target(p, namespace).Some? && PassOf(p, namespace, entries, scheme).firstError.None?
  }

  /** The listed Searches have exactly one of the operator's name, and it is not paused. */
  predicate OneUnpausedSearch(searches: seq<Search>) {
    exists i | 0 <= i < |searches| ::
      && searches[i].name == OPERATOR_NAME && !IsPaused(searches[i].annotations)
      && forall j | 0 <= j < |searches| && j != i :: searches[j].name != OPERATOR_NAME
  }

  lemma {:induction false} NoneNamed(searches: seq<Search>)
    ensures Pick(searches, IsOperatorSearch()) == [] <==>
            forall j | 0 <= j < |searches| :: searches[j].name != OPERATOR_NAME
  {
    if searches != [] {
      NoneNamed(searches[..|searches| - 1]);
      assert forall j | 0 <= j < |searches| - 1 :: searches[..|searches| - 1][j] == searches[j];
    }
  }

  lemma {:induction false} OneNamedIff(searches: seq<Search>)
    ensures var found := Pick(searches, IsOperatorSearch());
            (|found| == 1 && !IsPaused(found[0].annotations)) <==> OneUnpausedSearch(searches)
  {
    if searches != [] {
      var n := |searches| - 1;
      var rest, s := searches[..n], searches[n];
      assert forall j | 0 <= j < n :: rest[j] == searches[j];
      NoneNamed(rest);
      OneNamedIff(rest);
      if s.name == OPERATOR_NAME {
        assert OneUnpausedSearch(searches) <==>
               !IsPaused(s.annotations) && forall j | 0 <= j < n :: rest[j].name != OPERATOR_NAME;
      } else {
        assert OneUnpausedSearch(searches) <==> OneUnpausedSearch(rest);
      }
    }
  }

  /** A poll goes on to a pass just when the list shows exactly one unpaused Search of that name. */
  lemma TargetIff(p: Poll)
    ensures Target(p, "").Some? <==> p.searches.Some? && OneUnpausedSearch(p.searches.value)
  {
    if p.searches.Some? {
      OneNamedIff(p.searches.value);
    }
  }

  /** A poll that changes anything found exactly one Search of the operator's name, and not paused. */
  lemma WritingPollHasOneSearch(p: Poll, entries: Option<seq<Entry>>, scheme: bool)
    requires ValidPoll(p, entries)
    requires PassOf(p, "", entries, scheme).store != p.world || PassOf(p, "", entries, scheme).writes != []
    ensures p.searches.Some? && OneUnpausedSearch(p.searches.value)
  {
    TargetIff(p);
  }

  /** What one poll leaves and writes, and whether it is the last. */
  datatype Polling = Polling(store: Store, writes: seq<Key>, done: bool)

  function Resulting(namespace: string, entries: Option<seq<Entry>>, scheme: bool): Poll -> Polling {
    (p: Poll) =>
      if !ValidPoll(p, entries) then Polling(p.world, [], false)
      else
        var pass := PassOf(p, namespace, entries, scheme);
        Polling(pass.store, pass.writes, Succeeds(p, namespace, entries, scheme))
  }

  /** What a loop over the polls does: the stores each one left, the writes, and whether it is through. */
  datatype Trace = Trace(after: seq<Store>, writes: seq<Key>, done: bool)

  function Polled(polls: seq<Poll>, poll: Poll -> Polling): Trace {
    if polls == [] then Trace([], [], false)
    else
      var n := |polls| - 1;
      var t, r := Polled(polls[..n], poll), poll(polls[n]);
      if t.done then t else Trace(t.after + [r.store], t.writes + r.writes, r.done)
  }

  /** The writes of the polls, in order. */
  function WritesOf(polls: seq<Poll>, poll: Poll -> Polling): seq<Key> {
    if polls == [] then [] else WritesOf(polls[..|polls| - 1], poll) + poll(polls[|polls| - 1]).writes
  }

  /** The function polled: resolve the Search, then apply the manifests unless it is paused. */
  method PollOnce(c: Cluster, namespace: string, entries: Option<seq<Entry>>, scheme: bool, p: Poll)
    returns (done: bool)
    requires ValidPoll(p, entries)
    modifies c
    ensures var r := Resulting(namespace, entries, scheme)(p);
            c.configs == r.store && c.writes == old(c.writes) + r.writes && done == r.done
  {
    c.configs := p.world;
    var s, paused := ResolveSearch(namespace, p.searches);
    if s.None? || paused {
      return false;
    }
    var err := c.ApplyIntegrationCollectorConfigs(entries, s.value, scheme, p.faults);
    return err.None?;
  }

  lemma Associate(a: seq<Key>, b: seq<Key>, c: seq<Key>)
    ensures (a + b) + c == a + (b + c)
  {
  }

  /** Start: polls until one pass succeeds or the context is cancelled, and then never again. */
  method Start(c: Cluster, namespace: string, entries: Option<seq<Entry>>, scheme: bool, polls: seq<Poll>)
    returns (done: bool, after: seq<Store>)
    requires forall p | p in polls :: ValidPoll(p, entries)
    modifies c
    ensures var t := Polled(polls, Resulting(namespace, entries, scheme));
            after == t.after && done == t.done && c.writes == old(c.writes) + t.writes
  {
    ghost var poll := Resulting(namespace, entries, scheme);
    after := [];
    for n := 0 to |polls|
      invariant var t := Polled(polls[..n], poll);
                after == t.after && !t.done && c.writes == old(c.writes) + t.writes
    {
      assert polls[n] in polls && polls[..n + 1][..n] == polls[..n];
      Associate(old(c.writes), Polled(polls[..n], poll).writes, poll(polls[n]).writes);
      done := PollOnce(c, namespace, entries, scheme, polls[n]);
      after := after + [c.configs];
      if done {
        ThroughStaysThrough(polls, n + 1, poll);
        return;
      }
    }
    assert polls[..|polls|] == polls;
    return false, after;
  }

  lemma {:induction false} ThroughStaysThrough(polls: seq<Poll>, n: nat, poll: Poll -> Polling)
    requires n <= |polls| && Polled(polls[..n], poll).done
    ensures Polled(polls, poll) == Polled(polls[..n], poll)
    decreases |polls| - n
  {
    if n == |polls| {
      assert polls[..n] == polls;
    } else {
      assert polls[..n + 1][..n] == polls[..n];
      ThroughStaysThrough(polls, n + 1, poll);
    }
  }

  /**
    The loop ends early only when it is through; poll i left what it leaves by itself, and is the
    last one exactly when it is through.
   */
  lemma {:induction false} PolledAt(polls: seq<Poll>, poll: Poll -> Polling)
    ensures var t := Polled(polls, poll);
            && |t.after| <= |polls| && (t.done ==> t.after != []) && (!t.done ==> |t.after| == |polls|)
            && forall i | 0 <= i < |t.after| ::
                 t.after[i] == poll(polls[i]).store && (poll(polls[i]).done <==> t.done && i == |t.after| - 1)
  {
    if polls != [] {
      PolledAt(polls[..|polls| - 1], poll);
    }
  }

  /** The loop writes what the polls it made write, in order, and nothing after. */
  lemma {:induction false} PolledWrites(polls: seq<Poll>, poll: Poll -> Polling)
    ensures |Polled(polls, poll).after| <= |polls|
    ensures Polled(polls, poll).writes == WritesOf(polls[..|Polled(polls, poll).after|], poll)
  {
    PolledAt(polls, poll);
    if polls != [] {
      var n := |polls| - 1;
      var before := Polled(polls[..n], poll);
      PolledAt(polls[..n], poll);
      PolledWrites(polls[..n], poll);
      if before.done {
        assert polls[..n][..|before.after|] == polls[..|before.after|];
      } else {
        assert polls[..n][..n] == polls[..n] && polls[..n + 1] == polls;
      }
    }
  }

  /**
    Over any polls: poll i left what its pass leaves, and changed or wrote something only if it
    found one unpaused Search; it is the last poll exactly when its pass succeeds.
   */
  lemma PollsAreSafe(polls: seq<Poll>, i: nat, namespace: string, entries: Option<seq<Entry>>, scheme: bool)
    requires forall p | p in polls :: ValidPoll(p, entries)
    requires i < |Polled(polls, Resulting(namespace, entries, scheme)).after|
    ensures |Polled(polls, Resulting(namespace, entries, scheme)).after| <= |polls|
    ensures var t := Polled(polls, Resulting(namespace, entries, scheme));
            && t.after[i] == PassOf(polls[i], namespace, entries, scheme).store
            && (Succeeds(polls[i], namespace, entries, scheme) <==> t.done && i == |t.after| - 1)
    ensures namespace == "" && (polls[i].searches.None? || !OneUnpausedSearch(polls[i].searches.value)) ==>
              var r := Resulting(namespace, entries, scheme)(polls[i]);
              r.store == polls[i].world && r.writes == [] && !r.done
  {
    PolledAt(polls, Resulting(namespace, entries, scheme));
    assert ValidPoll(polls[i], entries);
    TargetIff(polls[i]);
  }

  /**
    What a poll may change: only a config of a shipped name in the Search's namespace, and never
    one annotated with manual-override; nothing is removed.
   */
  lemma PollChangesOnlyShipped(p: Poll, namespace: string, entries: Option<seq<Entry>>, scheme: bool, k: Key)
    requires ValidPoll(p, entries)
    requires StoredAt(PassOf(p, namespace, entries, scheme).store, k) != StoredAt(p.world, k)
    ensures entries.Some? && Target(p, namespace).Some?
    ensures exists i | 0 <= i < |entries.value| :: Ships(entries.value[i], Target(p, namespace).value, k)
    ensures k in p.world ==> !Overridden(p.world[k])
    ensures k in PassOf(p, namespace, entries, scheme).store
  {
    var es, owner := entries.value, Target(p, namespace).value;
    if forall i | 0 <= i < |es| :: !Ships(es[i], owner, k) {
      OtherKeysUntouched(p.world, es, owner, scheme, p.faults, k);
    }
    OverriddenStays(p.world, es, owner, scheme, p.faults, k);
    NothingRemoved(p.world, es, owner, scheme, p.faults, k);
  }

  lemma {:induction false} OverriddenStays(s: Store, entries: seq<Entry>, owner: Search, scheme: bool,
                                           faults: seq<Faults>, k: Key)
    requires |faults| == |entries|
    ensures k in s && Overridden(s[k]) ==>
              StoredAt(ApplyEntries(s, entries, owner, scheme, faults).store, k) == StoredAt(s, k)
  {
    if entries != [] {
      var n := |entries| - 1;
      OverriddenStays(s, entries[..n], owner, scheme, faults[..n], k);
      var before := ApplyEntries(s, entries[..n], owner, scheme, faults[..n]).store;
      if Ships(entries[n], owner, k) {
        EntryHere(before, entries[n], owner, scheme, faults[n]);
      } else {
        EntryElsewhere(before, entries[n], owner, scheme, faults[n], k);
      }
    }
  }

  lemma {:induction false} NothingRemoved(s: Store, entries: seq<Entry>, owner: Search, scheme: bool,
                                          faults: seq<Faults>, k: Key)
    requires |faults| == |entries|
    ensures k in s ==> k in ApplyEntries(s, entries, owner, scheme, faults).store
  {
    if entries != [] {
      var n := |entries| - 1;
      NothingRemoved(s, entries[..n], owner, scheme, faults[..n], k);
      var before := ApplyEntries(s, entries[..n], owner, scheme, faults[..n]).store;
      if Ships(entries[n], owner, k) {
        EntryHere(before, entries[n], owner, scheme, faults[n]);
      } else {
        EntryElsewhere(before, entries[n], owner, scheme, faults[n], k);
      }
    }
  }
}
