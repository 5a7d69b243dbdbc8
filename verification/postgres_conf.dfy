/**
  The search-postgres ConfigMap: migration of hand-made edits to `custom-postgresql.conf`,
  the merge back into `postgresql.conf`, and the rollout hash read from the merged object.
 */
module PostgresConf {
  import opened Selections
  import opened Text
  import opened Values

  const CONF := "postgresql.conf"
  const CUSTOM := "custom-postgresql.conf"
  const DEFAULT_CUSTOM := "# Customizations appended to postgresql.conf.\n"
  const HEADER := "# Customizations appended to postgresql.conf"

  type Data = map<string, string>

  // ---------------------------------------------------------------------------------------
  // UpdatePostgresConfigmap
  // ---------------------------------------------------------------------------------------

  function OutsideOf(default: string): string -> bool {
    line => !Contains(default, line)
  }

  /** The lines that do not occur in the default, in order. */
  function Unlisted(lines: seq<string>, default: string): seq<string> {
    Pick(lines, OutsideOf(default))
  }

  function Migrated(current: string, default: string): string {
    Join([HEADER] + Unlisted(Split(current, '\n'), default), '\n')
  }

  function Merged(default: string, custom: string): string {
    if Contains(default, custom) then default else default + ['\n'] + custom
  }

  function Updated(existing: Data, desired: Data): Data {
    var current, custom, default := Lookup(existing, CONF), Lookup(existing, CUSTOM), Lookup(desired, CONF);
    if custom == "" && current != default then
      desired[CUSTOM := Migrated(current, default)]
    else
      var d := if Contains(default, custom) then desired else desired[CONF := Merged(default, custom)];
      if custom != "" then d[CUSTOM := custom] else d
  }

  lemma {:induction false} JoinSnoc(parts: seq<string>, x: string, sep: char)
    requires |parts| >= 1
    ensures Join(parts + [x], sep) == Join(parts, sep) + [sep] + x
  {
    if |parts| > 1 {
      JoinSnoc(parts[1..], x, sep);
      assert (parts + [x])[1..] == parts[1..] + [x];
    } else {
      assert (parts + [x])[1..] == [x];
    }
  }

  class ConfigMap {
    var data: Data
    var backup: bool  // carries the backup label

    constructor (data: Data, backup: bool)
      ensures this.data == data && this.backup == backup
    {
      this.data, this.backup := data, backup;
    }
  }

  method UpdatePostgresConfigmap(existing: ConfigMap, new_: ConfigMap)
    modifies new_`data
    ensures new_.data == Updated(old(existing.data), old(new_.data))
  {
    var currentPostgresConfig := Lookup(existing.data, CONF);
    var customPostgresConfig := Lookup(existing.data, CUSTOM);
    var defaultPostgresConfig := Lookup(new_.data, CONF);
    if customPostgresConfig == "" && currentPostgresConfig != defaultPostgresConfig {
      var newCustomPostgresConfig := HEADER;
      var lines := Split(currentPostgresConfig, '\n');
      for i := 0 to |lines|
        invariant new_.data == old(new_.data)
        invariant newCustomPostgresConfig == Join([HEADER] + Unlisted(lines[..i], defaultPostgresConfig), '\n')
      {
        PickStep(lines, i, OutsideOf(defaultPostgresConfig));
        if !Contains(defaultPostgresConfig, lines[i]) {
          var kept := Unlisted(lines[..i], defaultPostgresConfig);
          JoinSnoc([HEADER] + kept, lines[i], '\n');
          assert [HEADER] + (kept + [lines[i]]) == [HEADER] + kept + [lines[i]];
          newCustomPostgresConfig := newCustomPostgresConfig + "\n" + lines[i];
        }
      }
      PickWhole(lines, OutsideOf(defaultPostgresConfig));
      new_.data := new_.data[CUSTOM := newCustomPostgresConfig];
    } else {
      if !Contains(defaultPostgresConfig, customPostgresConfig) {
        new_.data := new_.data[CONF := defaultPostgresConfig + "\n" + customPostgresConfig];
      }
      if customPostgresConfig != "" {
        new_.data := new_.data[CUSTOM := customPostgresConfig];
      }
    }
  }

  // ---------------------------------------------------------------------------------------
  // One reconcile of the ConfigMap
  // ---------------------------------------------------------------------------------------

  /** A ConfigMap as the API server stores it. */
  datatype Stored = Stored(data: Data, backup: bool)

  /** `get`: the read fails with an error that is not NotFound. `write`: the create or update fails. */
  datatype Faults = Faults(get: bool, write: bool)

  /** What `PostgresConfigmap` builds: the default configuration beside fixed scripts. */
  function Desired(default: string, scripts: Data): Data {
    scripts[CONF := default][CUSTOM := DEFAULT_CUSTOM]
  }

  datatype Outcome = Outcome(stored: Option<Stored>, data: Data, ok: bool, wrote: bool)

  /** `data` is the desired object's, as it stands afterwards. */
  function Reconciled(stored: Option<Stored>, desired: Data, f: Faults): Outcome {
    if !f.get && stored.None? then
      if f.write then Outcome(stored, desired, false, false)
      else Outcome(Some(Stored(desired, true)), desired, true, true)
    else
      var found := if f.get then Stored(map[], false) else stored.value;
      var data := Updated(found.data, desired);
      if found.data == data && found.backup then Outcome(stored, data, true, false)
      else if f.write || stored.None? then Outcome(stored, data, false, false)
      else Outcome(Some(Stored(data, true)), data, true, true)
  }

  function ConfOf(s: Stored): string {
    Lookup(s.data, CONF)
  }

  function CustomOf(s: Stored): string {
    Lookup(s.data, CUSTOM)
  }

  lemma UpdatedParts(existing: Data, default: string, scripts: Data)
    ensures var d := Updated(existing, Desired(default, scripts));
            var current, custom := Lookup(existing, CONF), Lookup(existing, CUSTOM);
            && CONF in d && CUSTOM in d && d[CUSTOM] != ""
            && (custom == "" && current != default ==> d[CONF] == default && d[CUSTOM] == Migrated(current, default))
            && (custom == "" && current == default ==> d[CONF] == default && d[CUSTOM] == DEFAULT_CUSTOM)
            && (custom != "" ==> d[CONF] == Merged(default, custom) && d[CUSTOM] == custom)
            && d == Desired(default, scripts)[CONF := d[CONF]][CUSTOM := d[CUSTOM]]
  {
    assert |CONF| != |CUSTOM|;
    assert OccursAt(default, "", 0);
    assert HEADER <= Migrated(Lookup(existing, CONF), default);
  }

  /** What one reconcile leaves, whatever it found: the default, or the default and the custom part once. */
  lemma ConfHasOneOfTwoShapes(stored: Option<Stored>, default: string, scripts: Data, f: Faults)
    ensures var o := Reconciled(stored, Desired(default, scripts), f);
            o.ok ==> && o.stored.Some?
                     && ConfOf(o.stored.value) in {default, default + ['\n'] + CustomOf(o.stored.value)}
                     && CustomOf(o.stored.value) != ""
  {
    assert |CONF| != |CUSTOM|;
    if f.get || stored.Some? {
      UpdatedParts(if f.get then map[] else stored.value.data, default, scripts);
    }
  }

  // ---------------------------------------------------------------------------------------
  // Convergence
  // ---------------------------------------------------------------------------------------

  /** How many more writes reconciling with these defaults can make. */
  function Rank(stored: Option<Stored>, desired: Data): nat {
    if stored.None? || CustomOf(stored.value) == "" then 2
    else if Updated(stored.value.data, desired) == stored.value.data && stored.value.backup then 0
    else 1
  }

  lemma WritingLowersRank(stored: Option<Stored>, default: string, scripts: Data, f: Faults)
    requires !f.get
    ensures var d := Desired(default, scripts);
            var o := Reconciled(stored, d, f);
            && (o.wrote ==> Rank(o.stored, d) < Rank(stored, d))
            && (!o.wrote ==> o.stored == stored)
            && (o.ok && !o.wrote ==> Rank(stored, d) == 0)
            && (Rank(stored, d) == 0 ==> o.ok && !o.wrote)
  {
    var d := Desired(default, scripts);
    assert |CONF| != |CUSTOM|;
    if stored.Some? {
      UpdatedParts(stored.value.data, default, scripts);
      UpdatedParts(Updated(stored.value.data, d), default, scripts);
    }
  }

  datatype Tally = Tally(stored: Option<Stored>, writes: nat)

  /** Reconciling again and again with the same defaults. */
  function Repeat(stored: Option<Stored>, desired: Data, faults: seq<Faults>): Tally
    decreases |faults|
  {
    if faults == [] then Tally(stored, 0)
    else
      var o := Reconciled(stored, desired, faults[0]);
      var rest := Repeat(o.stored, desired, faults[1..]);
      Tally(rest.stored, rest.writes + if o.wrote then 1 else 0)
  }

  /** A read that failed for another reason than NotFound, followed by a write that did not. */
  predicate IsBlind(f: Faults) {
    f.get && !f.write
  }

  function BlindCount(faults: seq<Faults>): nat {
    if faults == [] then 0 else (if IsBlind(faults[0]) then 1 else 0) + BlindCount(faults[1..])
  }

  /** A reconcile that cannot read leaves at most one more write to make, its own apart. */
  lemma BlindWrites(stored: Option<Stored>, default: string, scripts: Data, f: Faults)
    requires f.get
    ensures var d := Desired(default, scripts);
            var o := Reconciled(stored, d, f);
            && (o.wrote <==> !f.write && stored.Some?)
            && (o.wrote ==> Rank(o.stored, d) <= 1)
            && (!o.wrote ==> o.stored == stored)
  {
    var d := Desired(default, scripts);
    assert |CONF| != |CUSTOM|;
    UpdatedParts(map[], default, scripts);
    UpdatedParts(Updated(map[], d), default, scripts);
  }

  /**
    From any stored ConfigMap, or none, repeated reconciles write at most twice, and at most twice
    more for each write that followed a read it could not make. Over any number of them.
   */
  lemma {:induction false} AtMostTwoWrites(stored: Option<Stored>, default: string, scripts: Data, faults: seq<Faults>)
    ensures var d := Desired(default, scripts);
            Repeat(stored, d, faults).writes <= Rank(stored, d) + 2 * BlindCount(faults) <= 2 + 2 * BlindCount(faults)
    decreases |faults|
  {
    if faults != [] {
      var o := Reconciled(stored, Desired(default, scripts), faults[0]);
      if faults[0].get {
        BlindWrites(stored, default, scripts, faults[0]);
      } else {
        WritingLowersRank(stored, default, scripts, faults[0]);
      }
      AtMostTwoWrites(o.stored, default, scripts, faults[1..]);
    }
  }

  /** A settled ConfigMap is left alone exactly as long as no reconcile writes blindly. */
  lemma {:induction false} SettledStaysIff(stored: Option<Stored>, default: string, scripts: Data, faults: seq<Faults>)
    requires Rank(stored, Desired(default, scripts)) == 0
    ensures Repeat(stored, Desired(default, scripts), faults).writes == 0 <==> forall f :: f in faults ==> !IsBlind(f)
    decreases |faults|
  {
    if faults != [] {
      var d := Desired(default, scripts);
      var o := Reconciled(stored, d, faults[0]);
      assert forall f :: f in faults <==> f == faults[0] || f in faults[1..];
      if faults[0].get {
        BlindWrites(stored, default, scripts, faults[0]);
      } else {
        WritingLowersRank(stored, default, scripts, faults[0]);
      }
      assert o.wrote <==> IsBlind(faults[0]);
      if o.wrote {
        assert faults[0] in faults;
      } else {
        SettledStaysIff(o.stored, default, scripts, faults[1..]);
      }
    }
  }

  /** Two reconciles that meet no error leave nothing for any later one to write, short of a blind write. */
  lemma TwoCleanReconcilesSettle(stored: Option<Stored>, default: string, scripts: Data, later: seq<Faults>)
    ensures var d := Desired(default, scripts);
            var first := Reconciled(stored, d, Faults(false, false));
            var second := Reconciled(first.stored, d, Faults(false, false));
            && first.ok && second.ok
            && (Repeat(second.stored, d, later).writes == 0 <==> forall f :: f in later ==> !IsBlind(f))
            && ConfOf(second.stored.value) == Merged(default, CustomOf(second.stored.value))
            && CustomOf(second.stored.value) == CustomOf(first.stored.value)
  {
    var d, clean := Desired(default, scripts), Faults(false, false);
    var first := Reconciled(stored, d, clean);
    var second := Reconciled(first.stored, d, clean);
    WritingLowersRank(stored, default, scripts, clean);
    WritingLowersRank(first.stored, default, scripts, clean);
    ConfHasOneOfTwoShapes(stored, default, scripts, clean);
    UpdatedParts(first.stored.value.data, default, scripts);
    WritingLowersRank(second.stored, default, scripts, clean);
    SettledStaysIff(second.stored, default, scripts, later);
  }

  // ---------------------------------------------------------------------------------------
  // Changing defaults: what becomes of the user's settings
  // ---------------------------------------------------------------------------------------

  /** One reconcile of a run: the default configuration may differ from the last (a new TLS profile). */
  datatype Visit = Visit(default: string, scripts: Data, faults: Faults)

  function Visited(stored: Option<Stored>, v: Visit): Outcome {
    Reconciled(stored, Desired(v.default, v.scripts), v.faults)
  }

  function RunAll(stored: Option<Stored>, visits: seq<Visit>): Option<Stored> {
    if visits == [] then stored
    else Visited(RunAll(stored, visits[..|visits| - 1]), visits[|visits| - 1]).stored
  }

  predicate Blind(v: Visit) {
    IsBlind(v.faults)
  }

  /** What one visit does to a custom part already there. */
  lemma CustomAfterVisit(stored: Option<Stored>, v: Visit)
    requires stored.Some? && CustomOf(stored.value) != "" && v.default != ""
    ensures Visited(stored, v).stored.Some?
    ensures CustomOf(Visited(stored, v).stored.value) == if Blind(v) then HEADER else CustomOf(stored.value)
  {
    assert |CONF| != |CUSTOM|;
    if v.faults.get {
      UpdatedParts(map[], v.default, v.scripts);
      assert Split("", '\n') == [""] && OccursAt(v.default, "", 0);
      assert Unlisted([""][..0], v.default) == [];
      assert [HEADER] + Unlisted([""], v.default) == [HEADER];
    } else {
      UpdatedParts(stored.value.data, v.default, v.scripts);
    }
  }

  /**
    The user's custom part survives any run of reconciles, whatever the defaults become and
    whichever writes fail, unless some reconcile wrote after a read it could not make. (The
    default is never empty: PostgresConfigmap starts from a fixed text.)
   */
  lemma {:induction false} CustomSurvivesIff(stored: Option<Stored>, visits: seq<Visit>)
    requires stored.Some? && CustomOf(stored.value) != ""
    requires forall v :: v in visits ==> v.default != ""
    ensures var end := RunAll(stored, visits);
            end.Some? && CustomOf(end.value) ==
                         if exists v :: v in visits && Blind(v) then HEADER else CustomOf(stored.value)
  {
    if visits != [] {
      var before, v := visits[..|visits| - 1], visits[|visits| - 1];
      assert forall x :: x in visits <==> x in before || x == v;
      CustomSurvivesIff(stored, before);
      CustomAfterVisit(RunAll(stored, before), v);
    }
  }

  /** One reconcile whose read times out replaces the user's settings by the bare header. */
  lemma TransientReadErrorLosesSettings(scripts: Data)
    ensures var custom := "max_connections = 200";
            var stored := Some(Stored(Desired("ssl = 'on'", scripts)[CUSTOM := custom], true));
            var o := Reconciled(stored, Desired("ssl = 'on'", scripts), Faults(true, false));
            o.ok && o.stored.Some? && CustomOf(o.stored.value) == HEADER != custom
  {
    var custom := "max_connections = 200";
    var stored := Some(Stored(Desired("ssl = 'on'", scripts)[CUSTOM := custom], true));
    var v := Visit("ssl = 'on'", scripts, Faults(true, false));
    assert |HEADER| != |custom| && |CONF| != |CUSTOM|;
    CustomAfterVisit(stored, v);
    UpdatedParts(map[], v.default, scripts);
  }

  /** The settled configuration depends on the newest defaults and the custom part, and on nothing older. */
  lemma SettledConfHasNoHistory(a: Option<Stored>, b: Option<Stored>, before: seq<Visit>, before': seq<Visit>,
                                last: Visit)
    requires a.Some? && b.Some? && CustomOf(a.value) == CustomOf(b.value) != ""
    requires forall v :: v in before + before' + [last] ==> v.default != "" && !Blind(v)
    requires var x, y := Visited(RunAll(a, before), last), Visited(RunAll(b, before'), last); x.ok && y.ok
    ensures var x, y := Visited(RunAll(a, before), last), Visited(RunAll(b, before'), last);
            && x.stored.Some? && x.stored == y.stored
            && ConfOf(x.stored.value) == Merged(last.default, CustomOf(a.value))
            && CustomOf(x.stored.value) == CustomOf(a.value)
  {
    assert last in before + before' + [last];
    forall v | v in before || v in before' ensures v.default != "" && !Blind(v) {
      assert v in before + before' + [last];
    }
    CustomSurvivesIff(a, before);
    CustomSurvivesIff(b, before');
    OkVisit(RunAll(a, before), last);
    OkVisit(RunAll(b, before'), last);
  }

  lemma OkVisit(stored: Option<Stored>, v: Visit)
    requires stored.Some? && CustomOf(stored.value) != "" && !Blind(v) && Visited(stored, v).ok
    ensures Visited(stored, v).stored ==
            Some(Stored(Desired(v.default, v.scripts)[CONF := Merged(v.default, CustomOf(stored.value))]
                        [CUSTOM := CustomOf(stored.value)], true))
  {
    UpdatedParts(map[], v.default, v.scripts);
    UpdatedParts(stored.value.data, v.default, v.scripts);
  }

  // ---------------------------------------------------------------------------------------
  // Migration: what becomes of each line
  // ---------------------------------------------------------------------------------------

  lemma UnlistedMembers(lines: seq<string>, default: string)
    ensures forall l :: l in Unlisted(lines, default) <==> l in lines && !Contains(default, l)
  {
    PickMembers(lines, OutsideOf(default));
  }

  /** The migrated text is the header followed by the unlisted lines, in their order. */
  lemma MigratedLines(current: string, default: string)
    ensures Split(Migrated(current, default), '\n') == [HEADER] + Unlisted(Split(current, '\n'), default)
  {
    var lines := Split(current, '\n');
    SplitPiecesAreClean(current, '\n');
    UnlistedMembers(lines, default);
    var kept := Unlisted(lines, default);
    forall i | 0 <= i < |kept| ensures '\n' !in kept[i] {
      assert kept[i] in kept;
    }
    assert '\n' !in HEADER;
    SplitOfJoin([HEADER] + Unlisted(lines, default), '\n');
  }

  /** Nothing of the text is left out just when no line of it occurs in the default. */
  lemma WholeTextMigratesIff(current: string, default: string)
    ensures Migrated(current, default) == HEADER + ['\n'] + current <==>
            forall l :: l in Split(current, '\n') ==> !Contains(default, l)
  {
    var lines := Split(current, '\n');
    var kept := Unlisted(lines, default);
    assert '\n' !in HEADER;
    Headed(HEADER, current);
    PickMembers(lines, OutsideOf(default));
    assert kept == lines <==> forall l :: l in lines ==> !Contains(default, l);
    if Migrated(current, default) == HEADER + ['\n'] + current {
      MigratedLines(current, default);
      assert ([HEADER] + kept)[1..] == ([HEADER] + lines)[1..];
    }
  }

  lemma Headed(header: string, text: string)
    requires '\n' !in header
    ensures Join([header] + Split(text, '\n'), '\n') == header + ['\n'] + text
    ensures Split(header + ['\n'] + text, '\n') == [header] + Split(text, '\n')
  {
    JoinOfSplit(text, '\n');
    assert ([header] + Split(text, '\n'))[1..] == Split(text, '\n');
    SplitOfConcat(header, text, '\n');
    SplitOfClean(header, '\n');
  }

  /** Migration and one merge: every line the user had is still somewhere in the configuration. */
  lemma NoLineIsLost(current: string, default: string, i: nat)
    requires i < |Split(current, '\n')|
    ensures Contains(Merged(default, Migrated(current, default)), Split(current, '\n')[i])
  {
    var line, custom := Split(current, '\n')[i], Migrated(current, default);
    MigratedLines(current, default);
    UnlistedMembers(Split(current, '\n'), default);
    var merged := Merged(default, custom);
    ContainsAround("", default, ['\n'] + custom);
    assert "" + default + (['\n'] + custom) == default + ['\n'] + custom;
    ContainsAround(default + ['\n'], custom, "");
    assert default + ['\n'] + custom + "" == default + ['\n'] + custom;
    if Contains(default, line) {
      if merged != default { ContainsTransitive(merged, default, line); }
    } else {
      var lines := Split(custom, '\n');
      var j :| 0 <= j < |lines| && lines[j] == line;
      PieceOccurs(custom, '\n', j);
      ContainsTransitive(merged, custom, line);
    }
  }

  /**
    It stays a line of its own exactly when the default has that line or nowhere mentions its
    text: a line that is only part of a default line is dropped.
   */
  lemma LineSurvivesIff(current: string, default: string, line: string)
    requires line in Split(current, '\n')
    ensures var custom := Migrated(current, default);
            line in Split(Merged(default, custom), '\n') <==>
            || line in Split(default, '\n') || !Contains(default, line)
            || (line == HEADER && !Contains(default, custom))
  {
    var custom := Migrated(current, default);
    MigratedLines(current, default);
    UnlistedMembers(Split(current, '\n'), default);
    if Contains(default, custom) {
      if !Contains(default, line) {
        var lines := Split(custom, '\n');
        var j :| 0 <= j < |lines| && lines[j] == line;
        PieceOccurs(custom, '\n', j);
        ContainsTransitive(default, custom, line);
      }
    } else {
      SplitOfConcat(default, custom, '\n');
    }
  }

  /** A setting whose text is part of a default line is gone after the migration. */
  lemma MigrationDropsPartialLine()
    ensures "ssl" !in Split(Merged("ssl = 'on'", Migrated("ssl", "ssl = 'on'")), '\n')
  {
    var default := "ssl = 'on'";
    assert '\n' !in "ssl" && '\n' !in default;
    SplitOfClean("ssl", '\n');
    SplitOfClean(default, '\n');
    assert OccursAt(default, "ssl", 0);
    assert |HEADER| != |"ssl"| && |default| != |"ssl"|;
    LineSurvivesIff("ssl", default, "ssl");
  }

  /** The migration of a ConfigMap with no custom part is the text the line lemmas speak of. */
  lemma MigrationThenMerge(stored: Stored, default: string, scripts: Data)
    requires CustomOf(stored) == "" && ConfOf(stored) != default
    ensures var d, clean := Desired(default, scripts), Faults(false, false);
            var first := Reconciled(Some(stored), d, clean);
            && first.stored.Some?
            && CustomOf(first.stored.value) == Migrated(ConfOf(stored), default)
            && var second := Reconciled(first.stored, d, clean);
               second.stored.Some? && ConfOf(second.stored.value) == Merged(default, Migrated(ConfOf(stored), default))
  {
    UpdatedParts(stored.data, default, scripts);
    TwoCleanReconcilesSettle(Some(stored), default, scripts, []);
  }

  // ---------------------------------------------------------------------------------------
  // The rollout hash
  // ---------------------------------------------------------------------------------------

  /** The postgres Deployment: the hash annotation of its pod template, and the rest of its spec. */
  datatype Deployment = Deployment(confHash: string, rest: string)

  datatype DeploymentFaults = DeploymentFaults(get: bool, create: bool, update: bool)

  predicate DeploymentOk(found: Option<Deployment>, f: DeploymentFaults) {
    !f.get && (found.None? ==> !f.create)
  }

  function DeploymentAfter(found: Option<Deployment>, desired: Deployment, f: DeploymentFaults): Option<Deployment> {
    if DeploymentOk(found, f) && (found.None? || !f.update) then Some(desired) else found
  }

  /** Reported as success, the Deployment is as desired unless an update that was needed failed. */
  lemma DeploymentOkMeansDesiredIff(found: Option<Deployment>, desired: Deployment, f: DeploymentFaults)
    requires DeploymentOk(found, f)
    ensures DeploymentAfter(found, desired, f) == Some(desired) <==> found.None? || found == Some(desired) || !f.update
  {
  }

  /** The pods are not rolled out, and nobody is told. */
  lemma FailedUpdateIsReportedAsSuccess(rest: string)
    ensures var found, f := Some(Deployment("old", rest)), DeploymentFaults(false, false, true);
            DeploymentOk(found, f) && DeploymentAfter(found, Deployment("new", rest), f) == found
  {
    assert "old"[0] != "new"[0];
  }

  class Operator {
    var stored: Option<Stored>
    var deployment: Option<Deployment>
    const hash: string -> string  // sha256, truncated

    constructor (stored: Option<Stored>, deployment: Option<Deployment>, hash: string -> string)
      ensures this.stored == stored && this.deployment == deployment && this.hash == hash
    {
      this.stored, this.deployment, this.hash := stored, deployment, hash;
    }

    /** `cm` always asks for the backup label, as PostgresConfigmap builds it. */
    method CreateOrUpdateConfigMap(cm: ConfigMap, f: Faults) returns (ok: bool)
      requires cm.backup
      modifies this`stored, cm`data
      ensures var o := Reconciled(old(stored), old(cm.data), f);
              stored == o.stored && cm.data == o.data && ok == o.ok
    {
      var found := new ConfigMap(map[], false);
      if !f.get && stored.None? {
        if f.write { return false; }
        stored := Some(Stored(cm.data, cm.backup));
        return true;
      }
      if !f.get {
        found := new ConfigMap(stored.value.data, stored.value.backup);
      }
      UpdatePostgresConfigmap(found, cm);
      if found.data != cm.data || (cm.backup && !found.backup) {
        if f.write || stored.None? { return false; }
        stored := Some(Stored(cm.data, cm.backup));
      }
      return true;
    }

    /** An update that fails is logged and reported as success. */
    method CreateOrUpdateDeployment(desired: Deployment, f: DeploymentFaults) returns (ok: bool)
      modifies this`deployment
      ensures ok == DeploymentOk(old(deployment), f)
      ensures deployment == DeploymentAfter(old(deployment), desired, f)
    {
      if f.get { return false; }
      if deployment.None? {
        if f.create { return false; }
        deployment := Some(desired);
        return true;
      }
      if deployment.value != desired && !f.update {
        deployment := Some(desired);
      }
      return true;
    }

    ghost predicate Coherent()
      reads this
    {
      stored.Some? && deployment.Some? && deployment.value.confHash == hash(ConfOf(stored.value))
    }

    /**
      The postgres part of a reconcile. The hash is read from the object the merge mutated, so
      on every path that ends well - create, update or nothing to write - the annotation is the
      hash of what is stored, unless a needed Deployment update failed unreported.
     */
    method ReconcilePostgres(default: string, scripts: Data, rest: string, f: Faults, df: DeploymentFaults)
      returns (ok: bool)
      modifies this
      ensures var o := Reconciled(old(stored), Desired(default, scripts), f);
              stored == o.stored && (!o.ok ==> !ok && deployment == old(deployment))
      ensures ok ==> stored.Some? &&
                     deployment == if old(deployment).None? || !df.update
                                   then Some(Deployment(hash(ConfOf(stored.value)), rest)) else old(deployment)
      ensures ok ==> (Coherent() <==> || old(deployment).None? || !df.update
                                      || old(deployment).value.confHash == hash(ConfOf(stored.value)))
    {
      var cm := new ConfigMap(Desired(default, scripts), true);
      ok := CreateOrUpdateConfigMap(cm, f);
      if !ok { return; }
      StoredIsDesired(old(stored), default, scripts, f);
      ok := CreateOrUpdateDeployment(Deployment(hash(Lookup(cm.data, CONF)), rest), df);
    }
  }

  /** After a reconcile without error, the object the hash is read from holds what is stored. */
  lemma StoredIsDesired(stored: Option<Stored>, default: string, scripts: Data, f: Faults)
    ensures var o := Reconciled(stored, Desired(default, scripts), f);
            o.ok ==> o.stored.Some? && ConfOf(o.stored.value) == Lookup(o.data, CONF)
  {
    UpdatedParts(map[], default, scripts);
  }
}
