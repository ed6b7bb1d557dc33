/** What the translation of a backup section depends on, said from the section and its environment alone:
    when it succeeds, which fault it reports, which image it takes, what becomes of a bucket's name, and what
    admission says about PITR (internal/provider/backup_mirror.go, internal/provider/provider.go,
    internal/provider/validate.go). */
module TranslationRules {

  import opened Prelude
  import opened BackupTranslation

  // ------------------------------------------------------------------------ images

  /** The image a component type falls back to: its default, or the first of its versions that has one. */
  ghost predicate IsDefaultImage(image: string, c: Catalog, kind: string) {
    if kind in c.defaultImages && c.defaultImages[kind] != "" then image == c.defaultImages[kind]
    else if kind in c.componentTypes && exists m :: Leads(m, c.componentTypes[kind])
    then Leads(image, c.componentTypes[kind])
    else image == ""
  }

  /** The first image among the versions. */
  ghost predicate Leads(image: string, versions: seq<Version>) {
    exists i :: 0 <= i < |versions| && ImageLeads(versions, i) && versions[i].image == image
  }

  lemma {:induction false} DefaultImageExactly(c: Catalog, kind: string)
    ensures IsDefaultImage(DefaultImage(c, kind), c, kind)
  {
  }

  predicate HasVersion(b: Bundle, component: string, version: string) {
    version != "" && component in b.components && b.components[component] == version
  }

  /** A bundle with this engine version whose backup version has an image. */
  ghost predicate Supplies(c: Catalog, b: Bundle, engineVersion: string, image: string) {
    && HasVersion(b, "engine", engineVersion) && image != ""
    && exists version :: HasVersion(b, "backup", version) && ("backup", version) in c.versionImages
                         && c.versionImages[("backup", version)] == image
  }

  lemma {:induction false} BundledImageExactly(c: Catalog, bundles: seq<Bundle>, engineVersion: string)
    requires engineVersion != ""
    ensures var image := BundledBackupImage(c, bundles, engineVersion);
            || (image == DefaultImage(c, "backup")
                && forall i, m :: 0 <= i < |bundles| ==> !Supplies(c, bundles[i], engineVersion, m))
            || exists i :: FirstSupplier(c, bundles, engineVersion, i, image)
  {
    if bundles != [] {
      var b, rest := bundles[0], bundles[1..];
      BundledImageExactly(c, rest, engineVersion);
      var image := BundledBackupImage(c, bundles, engineVersion);
      if m :| Supplies(c, b, engineVersion, m) {
        var version :| HasVersion(b, "backup", version) && ("backup", version) in c.versionImages
                       && c.versionImages[("backup", version)] == m;
        assert image == m;
        assert FirstSupplier(c, bundles, engineVersion, 0, image);
      } else {
        assert image == BundledBackupImage(c, rest, engineVersion) by {
          if image != BundledBackupImage(c, rest, engineVersion) {
            assert HasVersion(b, "backup", b.components["backup"]);
            assert Supplies(c, b, engineVersion, image);
          }
        }
        if i: nat :| FirstSupplier(c, rest, engineVersion, i, image) {
          assert FirstSupplier(c, bundles, engineVersion, i + 1, image);
        }
      }
    }
  }

  ghost predicate FirstSupplier(c: Catalog, bundles: seq<Bundle>, engineVersion: string, i: nat, image: string) {
    && i < |bundles| && Supplies(c, bundles[i], engineVersion, image)
    && forall j, m :: 0 <= j < i ==> !Supplies(c, bundles[j], engineVersion, m)
  }

  /** The first bundle of this name. */
  ghost predicate FirstNamed(bundles: seq<Bundle>, name: string, i: nat) {
    i < |bundles| && bundles[i].name == name && forall j :: 0 <= j < i ==> bundles[j].name != name
  }

  lemma {:induction false} ResolvesFirstNamed(bundles: seq<Bundle>, name: string)
    ensures ResolveBundle(bundles, name).Some? ==>
              exists i: nat :: FirstNamed(bundles, name, i) && ResolveBundle(bundles, name) == Some(bundles[i])
    ensures ResolveBundle(bundles, name).None? ==> forall i :: 0 <= i < |bundles| ==> bundles[i].name != name
  {
    if bundles != [] {
      var rest := bundles[1..];
      ResolvesFirstNamed(rest, name);
      if bundles[0].name == name {
        assert FirstNamed(bundles, name, 0);
      } else if ResolveBundle(rest, name).Some? {
        var i: nat :| FirstNamed(rest, name, i) && ResolveBundle(rest, name) == Some(rest[i]);
        assert FirstNamed(bundles, name, i + 1);
      }
    }
  }

  /** Where a bundle's backup image comes from: its own backup version; without one the default of backups;
      without that the first bundle that supplies one for the same engine version. */
  ghost predicate IsBackupImage(image: string, c: Catalog, bundle: Bundle) {
    if exists version :: HasVersion(bundle, "backup", version) then
      var version := bundle.components["backup"];
      image == if ("backup", version) in c.versionImages then c.versionImages[("backup", version)] else ""
    else if !IsDefaultImage("", c, "backup") then IsDefaultImage(image, c, "backup")
    else if exists version :: HasVersion(bundle, "engine", version) then
      var engine := bundle.components["engine"];
      || (image == "" && forall i, m :: 0 <= i < |c.bundles| ==> !Supplies(c, c.bundles[i], engine, m))
      || (exists i :: FirstSupplier(c, c.bundles, engine, i, image))
    else image == ""
  }

  lemma {:induction false} BackupImageExactly(c: Catalog, bundle: Bundle)
    ensures IsBackupImage(BackupImage(c, bundle), c, bundle)
  {
    DefaultImageExactly(c, "backup");
    if "backup" in bundle.components && bundle.components["backup"] != "" {
      assert HasVersion(bundle, "backup", bundle.components["backup"]);
    } else if "engine" in bundle.components && bundle.components["engine"] != "" {
      assert HasVersion(bundle, "engine", bundle.components["engine"]);
      BundledImageExactly(c, c.bundles, bundle.components["engine"]);
    }
  }

  /** The selected bundle exists and has a backup image. */
  ghost predicate HasImage(env: Env) {
    && env.bundle != ""
    && exists i: nat, image ::
         && FirstNamed(env.catalog.bundles, env.bundle, i) && image != ""
         && IsBackupImage(image, env.catalog, env.catalog.bundles[i])
  }

  predicate UnknownBundle(env: Env) {
    env.bundle != "" && forall i :: 0 <= i < |env.catalog.bundles| ==> env.catalog.bundles[i].name != env.bundle
  }

  /** A bundle has one backup image. */
  lemma {:induction false} ImageIsFunctional(image: string, c: Catalog, bundle: Bundle)
    requires IsBackupImage(image, c, bundle)
    ensures image == BackupImage(c, bundle)
  {
    BackupImageExactly(c, bundle);
    DefaultImageExactly(c, "backup");
    var other := BackupImage(c, bundle);
    if exists version :: HasVersion(bundle, "backup", version) {
    } else if !IsDefaultImage("", c, "backup") {
      DefaultIsFunctional(image, other, c, "backup");
    } else if exists version :: HasVersion(bundle, "engine", version) {
      var engine := bundle.components["engine"];
      if i: nat :| FirstSupplier(c, c.bundles, engine, i, image) {
        if j: nat :| FirstSupplier(c, c.bundles, engine, j, other) {
          assert i == j;
          var v :| HasVersion(c.bundles[i], "backup", v);
        }
      }
    }
  }

  lemma {:induction false} DefaultIsFunctional(a: string, b: string, c: Catalog, kind: string)
    requires IsDefaultImage(a, c, kind) && IsDefaultImage(b, c, kind)
    ensures a == b
  {
  }

  lemma {:induction false} ImageFaultExactly(env: Env)
    ensures ImageFault(env).None? <==> HasImage(env)
    ensures ImageFault(env) == Some(BundleUnknown) <==> UnknownBundle(env)
    ensures ImageFault(env).Some? ==> ImageFault(env).value in {BundleUnknown, BackupImageUnavailable}
  {
    ResolvesFirstNamed(env.catalog.bundles, env.bundle);
    var r := ResolveBundle(env.catalog.bundles, env.bundle);
    if r.Some? { BackupImageExactly(env.catalog, r.value); }
    forall i: nat, image | && FirstNamed(env.catalog.bundles, env.bundle, i)
                           && IsBackupImage(image, env.catalog, env.catalog.bundles[i])
      ensures image == BackupImage(env.catalog, env.catalog.bundles[i])
    {
      ImageIsFunctional(image, env.catalog, env.catalog.bundles[i]);
    }
  }

  // ------------------------------------------------------------------- when translation succeeds

  /** A schedule that translates: disabled, without retention, or retained by a count that is set. */
  predicate SoundSchedule(s: Schedule) {
    s.enabled && s.retention.Some? ==> s.retention.value.kind == ByCount && s.retention.value.count.Some?
  }

  ghost predicate Flawless(s: Storage, env: Env) {
    SoundStorage(s, env) && forall k :: 0 <= k < |s.schedules| ==> SoundSchedule(s.schedules[k])
  }

  ghost predicate AtMostOnePitr(ss: seq<Storage>) {
    forall i, j :: 0 <= i < j < |ss| ==> !(PitrOn(ss[i]) && PitrOn(ss[j]))
  }

  /** The class accepts, there is an image and a storage, every storage is flawless, and at most one enables PITR. */
  ghost predicate Translatable(spec: BackupSpec, env: Env) {
    && env.classCheck == ClassAccepts && HasImage(env) && spec.storages != []
    && (forall i :: 0 <= i < |spec.storages| ==> Flawless(spec.storages[i], env)) && AtMostOnePitr(spec.storages)
  }

  lemma {:induction false} SchedulesSoundExactly(ss: seq<Schedule>)
    ensures FirstScheduleFault(ss).None? <==> forall k :: 0 <= k < |ss| ==> SoundSchedule(ss[k])
  {
    if ss != [] {
      SchedulesSoundExactly(ss[1..]);
      assert forall k :: 0 < k < |ss| ==> ss[k] == ss[1..][k - 1];
    }
  }

  lemma {:induction false} FlawlessExactly(s: Storage, env: Env)
    ensures StorageFault(s, env).None? <==> Flawless(s, env)
  {
    SchedulesSoundExactly(s.schedules);
  }

  lemma {:induction false} TwoEnabledAreCounted(ss: seq<Storage>)
    ensures |EnabledNames(ss)| <= 1 <==> AtMostOnePitr(ss)
  {
    if |EnabledNames(ss)| <= 1 {
      AtMostOneEnabled(ss);
    } else if AtMostOnePitr(ss) {
      OneEnabledIsCountedOnce(ss);
    }
  }

  lemma {:induction false} OneEnabledIsCountedOnce(ss: seq<Storage>)
    requires AtMostOnePitr(ss)
    ensures |EnabledNames(ss)| == if exists i :: 0 <= i < |ss| && PitrOn(ss[i]) then 1 else 0
  {
    if ss != [] {
      var rest := ss[..|ss| - 1];
      OneEnabledIsCountedOnce(rest);
      assert forall i :: 0 <= i < |rest| ==> rest[i] == ss[i];
    }
  }

  /** An enabled section translates exactly when nothing is wrong with it. */
  lemma {:induction false} TranslatesExactly(spec: BackupSpec, env: Env)
    ensures TranslationFault(spec, env).None? <==> Translatable(spec, env)
  {
    ImageFaultExactly(env);
    NoStorageFault(spec.storages, env);
    forall s ensures StorageFault(s, env).None? <==> Flawless(s, env) { FlawlessExactly(s, env); }
    TwoEnabledAreCounted(spec.storages);
  }

  // ---------------------------------------------------------------------- which fault is reported

  /** What makes a schedule report this fault. */
  predicate BlamesSchedule(f: Fault, s: Schedule) {
    && s.enabled && s.retention.Some?
    && match f
       case RetentionTypeUnsupported => s.retention.value.kind != ByCount
       case NilCountDereference => s.retention.value.kind == ByCount && s.retention.value.count.None?
       case _ => false
  }

  /** What makes a storage report this fault. */
  ghost predicate BlamesStorage(f: Fault, s: Storage, env: Env) {
    match f
    case StorageReferenceMissing => s.name == ""
    case StorageNotFound => s.name != "" && s.name !in env.resources
    case StorageTypeUnsupported => s.name != "" && s.name in env.resources && env.resources[s.name].OtherStorage?
    case StorageCredentialsError =>
      && s.name != "" && s.name in env.resources && env.resources[s.name].S3Storage?
      && !env.resources[s.name].credentialsReadable
    case InvalidPitrConfig =>
      && s.name != "" && s.name in env.resources && env.resources[s.name].S3Storage?
      && env.resources[s.name].credentialsReadable && PitrBad(s)
    case _ => SoundStorage(s, env) && exists k :: FirstBlamed(f, s.schedules, k)
  }

  ghost predicate FirstBlamed(f: Fault, ss: seq<Schedule>, k: nat) {
    k < |ss| && BlamesSchedule(f, ss[k]) && forall j :: 0 <= j < k ==> SoundSchedule(ss[j])
  }

  /** The storage is the first with a flaw, and has this one. */
  ghost predicate FirstFlawed(f: Fault, ss: seq<Storage>, env: Env, i: nat) {
    i < |ss| && BlamesStorage(f, ss[i], env) && forall j :: 0 <= j < i ==> Flawless(ss[j], env)
  }

  /** What makes a section report this fault. */
  ghost predicate Blames(f: Fault, spec: BackupSpec, env: Env) {
    if env.classCheck != ClassAccepts then
      match env.classCheck
      case ClassMissing => f == BackupClassLookupFailed
      case ClassRejects => f == InvalidBackupConfiguration
      case _ => f == LimitsExceeded
    else if !HasImage(env) then f == if UnknownBundle(env) then BundleUnknown else BackupImageUnavailable
    else
      match f
      case NoStoragesConfigured => spec.storages == []
      case PitrConfigurationInvalid =>
        (forall i :: 0 <= i < |spec.storages| ==> Flawless(spec.storages[i], env)) && !AtMostOnePitr(spec.storages)
      case _ => exists i :: FirstFlawed(f, spec.storages, env, i)
  }

  lemma {:induction false} ScheduleIsBlamed(ss: seq<Schedule>)
    requires FirstScheduleFault(ss).Some?
    ensures exists k :: FirstBlamed(FirstScheduleFault(ss).value, ss, k)
  {
    var f, rest := FirstScheduleFault(ss).value, ss[1..];
    if ScheduleFault(ss[0]).Some? {
      assert FirstBlamed(f, ss, 0);
    } else {
      ScheduleIsBlamed(rest);
      var k: nat :| FirstBlamed(f, rest, k);
      assert forall j :: 0 < j < |ss| ==> ss[j] == rest[j - 1];
      assert FirstBlamed(f, ss, k + 1);
    }
  }

  lemma {:induction false} StorageIsBlamed(s: Storage, env: Env)
    requires StorageFault(s, env).Some?
    ensures BlamesStorage(StorageFault(s, env).value, s, env)
    ensures StorageFault(s, env).value !in {NoStoragesConfigured, PitrConfigurationInvalid}
  {
    SchedulesNeverFaultPitr(s.schedules);
    if SoundStorage(s, env) { ScheduleIsBlamed(s.schedules); }
  }

  lemma {:induction false} FirstIsBlamed(ss: seq<Storage>, env: Env)
    requires FirstStorageFault(ss, env).Some?
    ensures exists i :: FirstFlawed(FirstStorageFault(ss, env).value, ss, env, i)
    ensures FirstStorageFault(ss, env).value !in {NoStoragesConfigured, PitrConfigurationInvalid}
  {
    var f, rest := FirstStorageFault(ss, env).value, ss[1..];
    if StorageFault(ss[0], env).Some? {
      StorageIsBlamed(ss[0], env);
      assert FirstFlawed(f, ss, env, 0);
    } else {
      FirstIsBlamed(rest, env);
      FlawlessExactly(ss[0], env);
      var i: nat :| FirstFlawed(f, rest, env, i);
      assert forall j :: 0 < j < |ss| ==> ss[j] == rest[j - 1];
      assert FirstFlawed(f, ss, env, i + 1);
    }
  }

  /** The reported fault is the first in the order class, image, storages, schedules. */
  lemma {:induction false} FaultIsBlamed(spec: BackupSpec, env: Env)
    requires TranslationFault(spec, env).Some?
    ensures Blames(TranslationFault(spec, env).value, spec, env)
  {
    ImageFaultExactly(env);
    if ClassFault(env.classCheck).None? && ImageFault(env).None? {
      if FirstStorageFault(spec.storages, env).Some? {
        FirstIsBlamed(spec.storages, env);
      } else {
        TwoEnabledAreCounted(spec.storages);
        NoStorageFault(spec.storages, env);
        forall s ensures StorageFault(s, env).None? <==> Flawless(s, env) { FlawlessExactly(s, env); }
      }
    }
  }

  // ------------------------------------------------------------------------ buckets

  ghost predicate Slashes(s: string) {
    forall i :: 0 <= i < |s| ==> s[i] == '/'
  }

  lemma {:induction false} TrimLeftDrops(s: string) returns (pre: string)
    ensures s == pre + TrimLeft(s) && Slashes(pre)
  {
    if s != [] && s[0] == '/' {
      var p := TrimLeftDrops(s[1..]);
      pre := ['/'] + p;
      assert s == [s[0]] + s[1..];
    } else {
      pre := [];
    }
  }

  lemma {:induction false} TrimRightDrops(s: string) returns (post: string)
    ensures s == TrimRight(s) + post && Slashes(post)
  {
    if s != [] && s[|s| - 1] == '/' {
      var p := TrimRightDrops(s[..|s| - 1]);
      post := p + ['/'];
      assert s == s[..|s| - 1] + [s[|s| - 1]];
    } else {
      post := [];
    }
  }

  /** Trimming drops slashes, all of them, from both ends, and nothing else. */
  lemma {:induction false} TrimExactly(bucket: string)
    ensures NoEdgeSlash(Trim(bucket))
    ensures exists pre, post :: bucket == pre + Trim(bucket) + post && Slashes(pre) && Slashes(post)
  {
    TrimCleansEdges(bucket);
    var pre := TrimLeftDrops(bucket);
    var post := TrimRightDrops(TrimLeft(bucket));
    assert bucket == pre + Trim(bucket) + post;
  }

  // ---------------------------------------------------------------------- admission of PITR

  lemma {:induction false} BadParametersExactly(ss: seq<Storage>)
    ensures forall e :: e in BadParameters(ss) <==> e.BadPitrParameters? && e.index < |ss| && PitrBad(ss[e.index])
  {
    if ss != [] {
      var rest := ss[..|ss| - 1];
      BadParametersExactly(rest);
      assert forall i :: 0 <= i < |rest| ==> rest[i] == ss[i];
    }
  }

  lemma {:induction false} EnabledNamesExactly(ss: seq<Storage>)
    ensures forall n :: n in EnabledNames(ss) <==> exists i :: 0 <= i < |ss| && PitrOn(ss[i]) && ss[i].name == n
  {
    if ss != [] {
      var k := |ss| - 1;
      var rest := ss[..k];
      EnabledNamesExactly(rest);
      assert forall i :: 0 <= i < k ==> rest[i] == ss[i];
      forall n
        ensures n in EnabledNames(ss) <==> exists i :: 0 <= i < |ss| && PitrOn(ss[i]) && ss[i].name == n
      {
        if i :| 0 <= i < |ss| && PitrOn(ss[i]) && ss[i].name == n {
          if i < k { assert rest[i].name == n; }
        }
        if n in EnabledNames(rest) {
          var i :| 0 <= i < |rest| && PitrOn(rest[i]) && rest[i].name == n;
          assert ss[i].name == n;
        }
      }
    }
  }

  /** Admission reports each storage with bad settings under its index, and, when two storages enable PITR,
      the names of all that do. */
  lemma {:induction false} PitrErrorsExactly(spec: BackupSpec)
    requires spec.enabled
    ensures var errs, ss := PitrErrors(Some(spec)), spec.storages;
            && (forall i: nat :: BadPitrParameters(i) in errs <==> i < |ss| && PitrBad(ss[i]))
            && ((exists names :: TooManyPitr(names) in errs) <==> !AtMostOnePitr(ss))
            && forall names :: TooManyPitr(names) in errs ==>
                                 forall n :: n in names <==>
                                               exists i :: 0 <= i < |ss| && PitrOn(ss[i]) && ss[i].name == n
  {
    BadParametersExactly(spec.storages);
    TwoEnabledAreCounted(spec.storages);
    EnabledNamesExactly(spec.storages);
  }
}
