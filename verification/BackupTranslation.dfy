/** Translating an Instance's backup section into the operator's
    (internal/provider/backup_mirror.go:132-324, image lookup in internal/provider/provider.go:80-128),
    and the admission rule for its PITR settings (internal/provider/validate.go:67-98). */
module BackupTranslation {

  import opened Prelude

  // ------------------------------------------------------------------------ inputs

  datatype PitrParams = NoParams | Undecodable | Decoded(timeBetweenUploads: Option<real>, timeoutSeconds: Option<real>)

  datatype Pitr = Pitr(enabled: bool, params: PitrParams)

  datatype RetentionKind = ByCount | ByOther(kind: string)

  datatype Retention = Retention(kind: RetentionKind, count: Option<int>)

  datatype Schedule = Schedule(name: string, cron: string, enabled: bool, retention: Option<Retention>)

  datatype Storage = Storage(name: string, pitr: Option<Pitr>, schedules: seq<Schedule>)

  datatype BackupSpec = BackupSpec(enabled: bool, storages: seq<Storage>)

  datatype S3 = S3(
    bucket: string, credentialsSecret: string, region: string, endpoint: string,
    verifyTLS: Option<bool>, forcePathStyle: Option<bool>)

  datatype StorageResource = S3Storage(s3: S3, credentialsReadable: bool) | OtherStorage

  datatype Version = Version(version: string, image: string)

  datatype Bundle = Bundle(name: string, components: map<string, string>)

  /** The provider's catalog, with the answers of the two SDK image lookups. */
  datatype Catalog = Catalog(
    componentTypes: map<string, seq<Version>>,
    bundles: seq<Bundle>,
    defaultImages: map<string, string>,
    versionImages: map<(string, string), string>)

  datatype ClassCheck = ClassAccepts | ClassMissing | ClassRejects | ClassLimitsExceeded

  /** What translation reads besides the section itself. */
  datatype Env = Env(
    classCheck: ClassCheck, catalog: Catalog, bundle: string, resources: map<string, StorageResource>,
    instanceUid: string)

  // ----------------------------------------------------------------------- outputs

  datatype OpStorage = OpStorage(
    bucket: string, credentialsSecret: string, region: string, endpoint: string, verifyTLS: Option<bool>,
    forcePathStyle: bool)

  datatype OpSchedule = OpSchedule(name: string, cron: string, storage: string, keep: Option<int>)

  datatype OpPitr = OpPitr(enabled: bool, storage: string, timeBetweenUploads: real, timeoutSeconds: real)

  datatype OpBackupSpec = OpBackupSpec(
    image: string, storages: map<string, OpStorage>, schedules: seq<OpSchedule>, pitr: OpPitr)

  datatype Fault =
    | BackupClassLookupFailed | InvalidBackupConfiguration | LimitsExceeded
    | BundleUnknown | BackupImageUnavailable
    | StorageReferenceMissing | StorageNotFound | StorageTypeUnsupported | StorageCredentialsError
    | InvalidPitrConfig | RetentionTypeUnsupported | NilCountDereference
    | NoStoragesConfigured | PitrConfigurationInvalid

  // ------------------------------------------------------------------------ images

  function Lookup(m: map<string, string>, k: string): string {
    if k in m then m[k] else ""
  }

  function ImageForVersion(c: Catalog, component: string, version: string): string {
    if (component, version) in c.versionImages then c.versionImages[(component, version)] else ""
  }

  /** The first non-empty image, "" without one. */
  function FirstImage(versions: seq<Version>): (image: string)
    ensures if forall i :: 0 <= i < |versions| ==> versions[i].image == "" then image == ""
            else exists i :: 0 <= i < |versions| && ImageLeads(versions, i) && versions[i].image == image
  {
    if versions == [] then ""
    else if versions[0].image != "" then
      assert ImageLeads(versions, 0);
      versions[0].image
    else
      var rest := versions[1..];
      var image := FirstImage(rest);
      assert forall i :: 0 < i < |versions| ==> versions[i] == rest[i - 1];
      assert forall i :: 0 <= i < |rest| && ImageLeads(rest, i) ==> ImageLeads(versions, i + 1);
      image
  }

  predicate ImageLeads(versions: seq<Version>, i: nat)
    requires i < |versions|
  {
    versions[i].image != "" && forall j :: 0 <= j < i ==> versions[j].image == ""
  }

  function DefaultImage(c: Catalog, componentType: string): string {
    if Lookup(c.defaultImages, componentType) != "" then Lookup(c.defaultImages, componentType)
    else if componentType in c.componentTypes then FirstImage(c.componentTypes[componentType])
    else ""
  }

  /** The backup image of the first bundle with this engine version that has one. */
  function BundledBackupImage(c: Catalog, bundles: seq<Bundle>, engineVersion: string): string {
    if bundles == [] then DefaultImage(c, "backup")
    else
      var b := bundles[0].components;
      if && Lookup(b, "engine") == engineVersion && Lookup(b, "backup") != ""
         && ImageForVersion(c, "backup", Lookup(b, "backup")) != ""
      then ImageForVersion(c, "backup", Lookup(b, "backup"))
      else BundledBackupImage(c, bundles[1..], engineVersion)
  }

  function BackupImageForEngineVersion(c: Catalog, engineVersion: string): string {
    if engineVersion == "" then "" else BundledBackupImage(c, c.bundles, engineVersion)
  }

  /** SDK: the named bundle. */
  function ResolveBundle(bundles: seq<Bundle>, name: string): Option<Bundle> {
    if bundles == [] then None
    else if bundles[0].name == name then Some(bundles[0])
    else ResolveBundle(bundles[1..], name)
  }

  /** The backup image of a bundle, "" when there is none. */
  function BackupImage(c: Catalog, bundle: Bundle): string {
    var version := Lookup(bundle.components, "backup");
    if version != "" then ImageForVersion(c, "backup", version)
    else if DefaultImage(c, "backup") != "" then DefaultImage(c, "backup")
    else BackupImageForEngineVersion(c, Lookup(bundle.components, "engine"))
  }

  // ------------------------------------------------------------------------ buckets

  function TrimLeft(s: string): string {
    if s != [] && s[0] == '/' then TrimLeft(s[1..]) else s
  }

  function TrimRight(s: string): string {
    if s != [] && s[|s| - 1] == '/' then TrimRight(s[..|s| - 1]) else s
  }

  function Trim(s: string): string {
    TrimRight(TrimLeft(s))
  }

  /** The uid is appended exactly to a non-empty bucket without a path; otherwise the trimmed bucket is used. */
  function ResolveBucket(bucket: string, uid: string): (r: string)
    ensures r == Trim(bucket) + "/" + uid <==> uid != "" && Trim(bucket) != "" && '/' !in Trim(bucket)
    ensures r == Trim(bucket) || r == Trim(bucket) + "/" + uid
  {
    var b := Trim(bucket);
    if b != "" && uid != "" && '/' !in b then b + "/" + uid else b
  }

  ghost predicate NoEdgeSlash(s: string) {
    s == "" || (s[0] != '/' && s[|s| - 1] != '/')
  }

  lemma {:induction false} TrimLeftTrims(s: string)
    ensures TrimLeft(s) == "" || TrimLeft(s)[0] != '/'
    ensures s != "" && s[0] != '/' ==> TrimLeft(s) == s
  {
    if s != [] && s[0] == '/' { TrimLeftTrims(s[1..]); }
  }

  lemma {:induction false} TrimRightTrims(s: string)
    ensures TrimRight(s) == "" || TrimRight(s)[|TrimRight(s)| - 1] != '/'
    ensures s != "" && s[0] != '/' ==> TrimRight(s) != "" && TrimRight(s)[0] == s[0]
  {
    if s != [] && s[|s| - 1] == '/' { TrimRightTrims(s[..|s| - 1]); }
  }

  lemma {:induction false} TrimCleansEdges(s: string)
    ensures NoEdgeSlash(Trim(s))
    ensures NoEdgeSlash(s) ==> Trim(s) == s
  {
    TrimLeftTrims(s);
    TrimRightTrims(TrimLeft(s));
  }

  /** A resolved bucket has no slash at its edges, and resolving it again changes nothing. */
  lemma {:induction false} BucketResolutionIsIdempotent(bucket: string, uid: string)
    requires NoEdgeSlash(uid)
    ensures NoEdgeSlash(ResolveBucket(bucket, uid))
    ensures ResolveBucket(ResolveBucket(bucket, uid), uid) == ResolveBucket(bucket, uid)
  {
    TrimCleansEdges(bucket);
    var r := ResolveBucket(bucket, uid);
    TrimCleansEdges(r);
    if r != Trim(bucket) {
      assert r[|Trim(bucket)|] == '/';
    }
  }

  // ------------------------------------------------------------------- per-storage rules

  datatype PitrConfig = PitrConfig(timeBetweenUploads: real, timeoutSeconds: real)

  /** A setting is left to its default, or is at least one second. */
  predicate AtLeastOne(setting: Option<real>) {
    setting.Some? ==> setting.value >= 1.0
  }

  /** Decoded settings with defaults filled in; refused exactly when undecodable or below one second. */
  function DecodePitr(params: PitrParams): (r: Option<PitrConfig>)
    ensures r.Some? <==>
              || params.NoParams?
              || (params.Decoded? && AtLeastOne(params.timeBetweenUploads) && AtLeastOne(params.timeoutSeconds))
    ensures r.Some? ==> r.value.timeBetweenUploads >= 1.0 && r.value.timeoutSeconds >= 1.0
    ensures r.Some? && params.Decoded? ==>
              && (params.timeBetweenUploads.Some? ==> params.timeBetweenUploads == Some(r.value.timeBetweenUploads))
              && (params.timeoutSeconds.Some? ==> params.timeoutSeconds == Some(r.value.timeoutSeconds))
    ensures r.Some? && (params.NoParams? || params.timeBetweenUploads.None?) ==> r.value.timeBetweenUploads == 60.0
    ensures r.Some? && (params.NoParams? || params.timeoutSeconds.None?) ==> r.value.timeoutSeconds == 3600.0
  {
    if params.Undecodable? then None
    else
      var uploads :=
        if params.Decoded? && params.timeBetweenUploads.Some? then params.timeBetweenUploads.value else 60.0;
      var timeout := if params.Decoded? && params.timeoutSeconds.Some? then params.timeoutSeconds.value else 3600.0;
      if uploads < 1.0 || timeout < 1.0 then None else Some(PitrConfig(uploads, timeout))
  }

  predicate PitrOn(s: Storage) {
    s.pitr.Some? && s.pitr.value.enabled
  }

  predicate PitrBad(s: Storage) {
    PitrOn(s) && DecodePitr(s.pitr.value.params).None?
  }

  function ScheduleFault(s: Schedule): Option<Fault> {
    if !s.enabled || s.retention.None? then None
    else if s.retention.value.kind != ByCount then Some(RetentionTypeUnsupported)
    else if s.retention.value.count.None? then Some(NilCountDereference)
    else None
  }

  function FirstScheduleFault(ss: seq<Schedule>): Option<Fault> {
    if ss == [] then None else if ScheduleFault(ss[0]).Some? then ScheduleFault(ss[0]) else FirstScheduleFault(ss[1..])
  }

  function StorageFault(s: Storage, env: Env): Option<Fault> {
    if s.name == "" then Some(StorageReferenceMissing)
    else if s.name !in env.resources then Some(StorageNotFound)
    else if env.resources[s.name].OtherStorage? then Some(StorageTypeUnsupported)
    else if !env.resources[s.name].credentialsReadable then Some(StorageCredentialsError)
    else if PitrBad(s) then Some(InvalidPitrConfig)
    else FirstScheduleFault(s.schedules)
  }

  function FirstStorageFault(ss: seq<Storage>, env: Env): Option<Fault> {
    if ss == [] then None
    else if StorageFault(ss[0], env).Some? then StorageFault(ss[0], env)
    else FirstStorageFault(ss[1..], env)
  }

  lemma {:induction false} NoStorageFault(ss: seq<Storage>, env: Env)
    ensures FirstStorageFault(ss, env).None? <==> forall i :: 0 <= i < |ss| ==> StorageFault(ss[i], env).None?
  {
    if ss != [] && StorageFault(ss[0], env).None? {
      NoStorageFault(ss[1..], env);
      assert forall i :: 0 < i < |ss| ==> ss[i] == ss[1..][i - 1];
    }
  }

  function EnabledNames(ss: seq<Storage>): seq<string> {
    if ss == [] then []
    else EnabledNames(ss[..|ss| - 1]) + (if PitrOn(ss[|ss| - 1]) then [ss[|ss| - 1].name] else [])
  }

  function ClassFault(check: ClassCheck): Option<Fault> {
    match check
    case ClassAccepts => None
    case ClassMissing => Some(BackupClassLookupFailed)
    case ClassRejects => Some(InvalidBackupConfiguration)
    case ClassLimitsExceeded => Some(LimitsExceeded)
  }

  function ImageFault(env: Env): Option<Fault> {
    if env.bundle == "" then Some(BackupImageUnavailable)
    else if ResolveBundle(env.catalog.bundles, env.bundle).None? then Some(BundleUnknown)
    else if BackupImage(env.catalog, ResolveBundle(env.catalog.bundles, env.bundle).value) == ""
    then Some(BackupImageUnavailable)
    else None
  }

  /** The fault of an enabled section: class, then image, then the first faulty storage in order, then
      the two rules over all storages. */
  function TranslationFault(spec: BackupSpec, env: Env): Option<Fault> {
    if ClassFault(env.classCheck).Some? then ClassFault(env.classCheck)
    else if ImageFault(env).Some? then ImageFault(env)
    else if FirstStorageFault(spec.storages, env).Some? then FirstStorageFault(spec.storages, env)
    else if spec.storages == [] then Some(NoStoragesConfigured)
    else if |EnabledNames(spec.storages)| > 1 then Some(PitrConfigurationInvalid)
    else None
  }

  // ------------------------------------------------------------------ the translated section

  function Translated(s3: S3, uid: string): OpStorage {
    OpStorage(ResolveBucket(s3.bucket, uid), s3.credentialsSecret, s3.region, s3.endpoint, s3.verifyTLS,
              s3.forcePathStyle == Some(true))
  }

  /** An operator storage with the settings of its BackupStorage. */
  predicate Carries(o: OpStorage, s3: S3, uid: string) {
    && o.bucket == ResolveBucket(s3.bucket, uid) && o.credentialsSecret == s3.credentialsSecret
    && o.region == s3.region && o.endpoint == s3.endpoint && o.verifyTLS == s3.verifyTLS
    && (o.forcePathStyle <==> s3.forcePathStyle == Some(true))
  }

  function OpScheduleOf(storage: string, s: Schedule): OpSchedule {
    OpSchedule(s.name, s.cron, storage, if s.retention.None? then None else s.retention.value.count)
  }

  function OpSchedulesOf(storage: string, ss: seq<Schedule>): seq<OpSchedule>
    requires FirstScheduleFault(ss).None?
  {
    if ss == [] then []
    else if ss[0].enabled then [OpScheduleOf(storage, ss[0])] + OpSchedulesOf(storage, ss[1..])
    else OpSchedulesOf(storage, ss[1..])
  }

  /** Enabled schedules of all storages, storage by storage, in order. */
  function AllSchedules(ss: seq<Storage>, env: Env): seq<OpSchedule>
    requires FirstStorageFault(ss, env).None?
  {
    if ss == [] then [] else OpSchedulesOf(ss[0].name, ss[0].schedules) + AllSchedules(ss[1..], env)
  }

  function Names(ss: seq<Storage>): set<string> {
    set i | 0 <= i < |ss| :: ss[i].name
  }

  function OpStorages(ss: seq<Storage>, env: Env): map<string, OpStorage> {
    map k | k in Names(ss) && k in env.resources && env.resources[k].S3Storage? ::
      Translated(env.resources[k].s3, env.instanceUid)
  }

  /** The settings of the last storage that enables PITR; the zero value without one. */
  function OpPitrOf(ss: seq<Storage>): OpPitr {
    if ss == [] then OpPitr(false, "", 0.0, 0.0)
    else
      var s := ss[|ss| - 1];
      if PitrOn(s) && DecodePitr(s.pitr.value.params).Some? then
        var cfg := DecodePitr(s.pitr.value.params).value;
        OpPitr(true, s.name, cfg.timeBetweenUploads, cfg.timeoutSeconds)
      else OpPitrOf(ss[..|ss| - 1])
  }

  function Translate(spec: BackupSpec, env: Env): OpBackupSpec
    requires TranslationFault(spec, env).None?
  {
    OpBackupSpec(BackupImage(env.catalog, ResolveBundle(env.catalog.bundles, env.bundle).value),
                 OpStorages(spec.storages, env), AllSchedules(spec.storages, env), OpPitrOf(spec.storages))
  }

  // ----------------------------------------------------------------- what translation guarantees

  lemma {:induction false} SchedulesPointAt(storage: string, ss: seq<Schedule>)
    requires FirstScheduleFault(ss).None?
    ensures forall k :: 0 <= k < |OpSchedulesOf(storage, ss)| ==> OpSchedulesOf(storage, ss)[k].storage == storage
  {
    if ss != [] { SchedulesPointAt(storage, ss[1..]); }
  }

  /** The enabled schedules of all storages with the storage each belongs to. */
  function EnabledSchedules(ss: seq<Storage>): seq<(string, Schedule)> {
    if ss == [] then [] else EnabledOf(ss[0].name, ss[0].schedules) + EnabledSchedules(ss[1..])
  }

  function EnabledOf(storage: string, ss: seq<Schedule>): seq<(string, Schedule)> {
    if ss == [] then []
    else if ss[0].enabled then [(storage, ss[0])] + EnabledOf(storage, ss[1..])
    else EnabledOf(storage, ss[1..])
  }

  /** The operator's schedule for an enabled one: all backups are kept unless a count is set. */
  ghost predicate SchedulesAs(o: OpSchedule, p: (string, Schedule)) {
    && o.storage == p.0 && o.name == p.1.name && o.cron == p.1.cron && p.1.enabled
    && (o.keep.Some? ==> p.1.retention == Some(Retention(ByCount, o.keep))) && (o.keep.None? ==> p.1.retention.None?)
  }

  lemma {:induction false} SchedulesOfMatch(storage: string, ss: seq<Schedule>)
    requires FirstScheduleFault(ss).None?
    ensures |OpSchedulesOf(storage, ss)| == |EnabledOf(storage, ss)|
    ensures forall k :: 0 <= k < |OpSchedulesOf(storage, ss)| ==>
              SchedulesAs(OpSchedulesOf(storage, ss)[k], EnabledOf(storage, ss)[k])
  {
    if ss != [] {
      SchedulesOfMatch(storage, ss[1..]);
      assert ScheduleFault(ss[0]).None?;
    }
  }

  /** The operator's schedules are the enabled ones, storage by storage, in order, none lost or added. */
  lemma {:induction false} SchedulesMatch(ss: seq<Storage>, env: Env)
    requires FirstStorageFault(ss, env).None?
    ensures |AllSchedules(ss, env)| == |EnabledSchedules(ss)|
    ensures forall k :: 0 <= k < |AllSchedules(ss, env)| ==>
              SchedulesAs(AllSchedules(ss, env)[k], EnabledSchedules(ss)[k])
  {
    if ss != [] {
      SchedulesOfMatch(ss[0].name, ss[0].schedules);
      SchedulesMatch(ss[1..], env);
    }
  }

  lemma {:induction false} AllSchedulesPointAtNames(ss: seq<Storage>, env: Env)
    requires FirstStorageFault(ss, env).None?
    ensures forall k :: 0 <= k < |AllSchedules(ss, env)| ==> AllSchedules(ss, env)[k].storage in Names(ss)
  {
    if ss != [] {
      SchedulesPointAt(ss[0].name, ss[0].schedules);
      AllSchedulesPointAtNames(ss[1..], env);
      assert ss[0].name in Names(ss);
      forall n | n in Names(ss[1..])
        ensures n in Names(ss)
      {
        var i :| 0 <= i < |ss[1..]| && ss[1..][i].name == n;
        assert ss[i + 1].name == n;
      }
    }
  }

  lemma {:induction false} PitrPointsAtName(ss: seq<Storage>)
    requires forall i :: 0 <= i < |ss| ==> !PitrBad(ss[i])
    ensures OpPitrOf(ss).enabled <==> exists i :: 0 <= i < |ss| && PitrOn(ss[i])
    ensures OpPitrOf(ss).enabled ==> exists i :: 0 <= i < |ss| && PitrFrom(OpPitrOf(ss), ss[i])
    ensures !OpPitrOf(ss).enabled ==> OpPitrOf(ss) == OpPitr(false, "", 0.0, 0.0)
  {
    if ss != [] && !PitrOn(ss[|ss| - 1]) {
      PitrPointsAtName(ss[..|ss| - 1]);
      assert forall i :: 0 <= i < |ss| - 1 ==> ss[i] == ss[..|ss| - 1][i];
    } else if ss != [] {
      assert PitrFrom(OpPitrOf(ss), ss[|ss| - 1]);
    }
  }

  /** The PITR block names this storage, which enables PITR, and carries its decoded settings. */
  predicate PitrFrom(out: OpPitr, s: Storage) {
    && PitrOn(s) && out.storage == s.name
    && DecodePitr(s.pitr.value.params) == Some(PitrConfig(out.timeBetweenUploads, out.timeoutSeconds))
  }

  /** `out` has exactly the named storages with their settings, the enabled schedules in order, each on one
      of the storages, the PITR block of the storage that enables it, and an image. */
  ghost predicate FollowsSection(out: OpBackupSpec, spec: BackupSpec, env: Env) {
    && out.storages.Keys == Names(spec.storages) && "" !in out.storages
    && (forall k :: k in out.storages ==> k in env.resources && env.resources[k].S3Storage?
                                          && Carries(out.storages[k], env.resources[k].s3, env.instanceUid))
    && |out.schedules| == |EnabledSchedules(spec.storages)|
    && (forall k :: 0 <= k < |out.schedules| ==>
          out.schedules[k].storage in out.storages && SchedulesAs(out.schedules[k], EnabledSchedules(spec.storages)[k]))
    && PitrFollows(out.pitr, spec.storages)
    && out.image != ""
  }

  ghost predicate PitrFollows(pitr: OpPitr, ss: seq<Storage>) {
    && (pitr.enabled <==> exists i :: 0 <= i < |ss| && PitrOn(ss[i]))
    && (pitr.enabled ==> pitr.storage in Names(ss) && pitr.timeBetweenUploads >= 1.0 && pitr.timeoutSeconds >= 1.0)
    && (forall i :: 0 <= i < |ss| && PitrOn(ss[i]) ==> PitrFrom(pitr, ss[i]))
    && (!pitr.enabled ==> pitr == OpPitr(false, "", 0.0, 0.0))
  }

  lemma {:induction false} TranslationIsFaithful(spec: BackupSpec, env: Env)
    requires TranslationFault(spec, env).None?
    ensures FollowsSection(Translate(spec, env), spec, env)
  {
    NamedStoragesExist(spec.storages, env);
    AllSchedulesPointAtNames(spec.storages, env);
    SchedulesMatch(spec.storages, env);
    PitrIsFaithful(spec, env);
  }

  lemma {:induction false} NamedStoragesExist(ss: seq<Storage>, env: Env)
    requires FirstStorageFault(ss, env).None?
    ensures forall k :: k in Names(ss) ==> k != "" && k in env.resources && env.resources[k].S3Storage?
    ensures forall i :: 0 <= i < |ss| ==> !PitrBad(ss[i]) && ss[i].name in Names(ss)
  {
    NoStorageFault(ss, env);
    forall i | 0 <= i < |ss|
      ensures !PitrBad(ss[i]) && ss[i].name != "" && ss[i].name in env.resources && env.resources[ss[i].name].S3Storage?
    {
      assert StorageFault(ss[i], env).None?;
    }
  }

  /** The PITR block is that of the one storage that enables PITR. */
  lemma {:induction false} PitrIsFaithful(spec: BackupSpec, env: Env)
    requires TranslationFault(spec, env).None?
    ensures PitrFollows(OpPitrOf(spec.storages), spec.storages)
  {
    NamedStoragesExist(spec.storages, env);
    PitrPointsAtName(spec.storages);
    AtMostOneEnabled(spec.storages);
  }

  lemma {:induction false} EnabledIsCounted(ss: seq<Storage>, i: nat)
    requires i < |ss| && PitrOn(ss[i])
    ensures |EnabledNames(ss)| >= 1
  {
    if i < |ss| - 1 { EnabledIsCounted(ss[..|ss| - 1], i); }
  }

  /** With at most one enabled name, two storages that enable PITR are the same one. */
  lemma {:induction false} AtMostOneEnabled(ss: seq<Storage>)
    requires |EnabledNames(ss)| <= 1
    ensures forall i, j :: 0 <= i < |ss| && 0 <= j < |ss| && PitrOn(ss[i]) && PitrOn(ss[j]) ==> i == j
  {
    if ss != [] {
      var rest := ss[..|ss| - 1];
      AtMostOneEnabled(rest);
      assert forall i :: 0 <= i < |rest| ==> rest[i] == ss[i];
      if PitrOn(ss[|ss| - 1]) {
        forall i | 0 <= i < |rest| ensures !PitrOn(rest[i]) { if PitrOn(rest[i]) { EnabledIsCounted(rest, i); } }
      }
    }
  }

  // ---------------------------------------------------------------------- translation as it runs

  /** The part of the cluster object that translation sets. */
  class ClusterObject {
    var backup: Option<OpBackupSpec>

    constructor ()
      ensures backup.None?
    {
      backup := None;
    }
  }

  lemma {:induction false} DropEnabled(storage: string, ss: seq<Schedule>, out: seq<OpSchedule>)
    requires ss != [] && ScheduleFault(ss[0]).None? && FirstScheduleFault(ss).None?
    ensures out + OpSchedulesOf(storage, ss) == if !ss[0].enabled then out + OpSchedulesOf(storage, ss[1..])
            else out + [OpScheduleOf(storage, ss[0])] + OpSchedulesOf(storage, ss[1..])
  {
  }

  /** The inner loop: appends a storage's enabled schedules, or stops at the first faulty one. */
  method AppendSchedules(list: seq<OpSchedule>, storage: string, ss: seq<Schedule>)
    returns (out: seq<OpSchedule>, fault: Option<Fault>)
    ensures fault == FirstScheduleFault(ss)
    ensures fault.None? ==> out == list + OpSchedulesOf(storage, ss)
  {
    out := list;
    for i := 0 to |ss|
      invariant FirstScheduleFault(ss) == FirstScheduleFault(ss[i..])
      invariant FirstScheduleFault(ss).None? ==>
                out + OpSchedulesOf(storage, ss[i..]) == list + OpSchedulesOf(storage, ss)
    {
      var s := ss[i];
      ghost var rest := ss[i..];
      assert rest[0] == s && rest[1..] == ss[i + 1..];
      if FirstScheduleFault(ss).None? { DropEnabled(storage, rest, out); }
      if !s.enabled {
        continue;
      }
      var keep: Option<int> := None;
      if s.retention.Some? {
        if s.retention.value.kind != ByCount {
          return out, Some(RetentionTypeUnsupported);
        }
        if s.retention.value.count.None? {
          return out, Some(NilCountDereference);
        }
        keep := s.retention.value.count;
      }
      out := out + [OpSchedule(s.name, s.cron, storage, keep)];
    }
    assert ss[|ss|..] == [];
    fault := None;
  }

  /** The outer loop's state after some storages. */
  ghost predicate Accumulated(
    storages: map<string, OpStorage>, schedules: seq<OpSchedule>, pitr: OpPitr, enabled: nat, ss: seq<Storage>,
    env: Env)
  {
    && FirstStorageFault(ss, env).None?
    && storages == OpStorages(ss, env) && schedules == AllSchedules(ss, env) && pitr == OpPitrOf(ss)
    && enabled == |EnabledNames(ss)|
  }

  lemma {:induction false} AccumulateStep(ss: seq<Storage>, s: Storage, env: Env)
    requires FirstStorageFault(ss, env).None?
    ensures FirstStorageFault(ss + [s], env) == StorageFault(s, env)
    ensures StorageFault(s, env).None? ==>
              AllSchedules(ss + [s], env) == AllSchedules(ss, env) + OpSchedulesOf(s.name, s.schedules)
  {
    if ss == [] {
      assert ss + [s] == [s];
      assert [s][1..] == [];
    } else {
      assert (ss + [s])[1..] == ss[1..] + [s];
      AccumulateStep(ss[1..], s, env);
    }
  }

  lemma {:induction false} AddStorage(ss: seq<Storage>, s: Storage, env: Env)
    requires s.name in env.resources && env.resources[s.name].S3Storage?
    ensures OpStorages(ss + [s], env) ==
              OpStorages(ss, env)[s.name := Translated(env.resources[s.name].s3, env.instanceUid)]
  {
    var all := ss + [s];
    forall k
      ensures k in Names(all) <==> k in Names(ss) || k == s.name
    {
      if k in Names(ss) {
        var i :| 0 <= i < |ss| && ss[i].name == k;
        assert all[i].name == k;
      }
      if k == s.name { assert all[|ss|].name == k; }
    }
  }

  lemma {:induction false} FaultStays(ss: seq<Storage>, k: nat, env: Env)
    requires k <= |ss| && FirstStorageFault(ss[..k], env).Some?
    ensures FirstStorageFault(ss, env) == FirstStorageFault(ss[..k], env)
  {
    if StorageFault(ss[0], env).None? {
      assert ss[..k][1..] == ss[1..][..k - 1];
      FaultStays(ss[1..], k - 1, env);
    }
  }

  /** One storage of the loop. */
  method TranslateStorage(
    s: Storage, env: Env, storages: map<string, OpStorage>, schedules: seq<OpSchedule>, pitr: OpPitr, enabled: nat,
    ghost ss: seq<Storage>)
    returns (storages': map<string, OpStorage>, schedules': seq<OpSchedule>, pitr': OpPitr, enabled': nat,
             fault: Option<Fault>)
    requires Accumulated(storages, schedules, pitr, enabled, ss, env)
    ensures fault == StorageFault(s, env)
    ensures fault.None? ==> Accumulated(storages', schedules', pitr', enabled', ss + [s], env)
  {
    storages', schedules', pitr', enabled' := storages, schedules, pitr, enabled;
    AccumulateStep(ss, s, env);
    if s.name == "" {
      return storages', schedules', pitr', enabled', Some(StorageReferenceMissing);
    }
    if s.name !in env.resources {
      return storages', schedules', pitr', enabled', Some(StorageNotFound);
    }
    var bs := env.resources[s.name];
    if bs.OtherStorage? {
      return storages', schedules', pitr', enabled', Some(StorageTypeUnsupported);
    }
    if !bs.credentialsReadable {
      return storages', schedules', pitr', enabled', Some(StorageCredentialsError);
    }
    AddStorage(ss, s, env);
    assert (ss + [s])[..|ss|] == ss;
    storages' := storages'[s.name := Translated(bs.s3, env.instanceUid)];
    if s.pitr.Some? && s.pitr.value.enabled {
      enabled' := enabled' + 1;
      var cfg := DecodePitr(s.pitr.value.params);
      if cfg.None? {
        return storages', schedules', pitr', enabled', Some(InvalidPitrConfig);
      }
      pitr' := OpPitr(true, s.name, cfg.value.timeBetweenUploads, cfg.value.timeoutSeconds);
    }
    schedules', fault := AppendSchedules(schedules', s.name, s.schedules);
  }

  /** applyBackupSettings: no section or a disabled one clears the spec; a fault leaves it untouched. */
  method ApplyBackupSettings(pxc: ClusterObject, section: Option<BackupSpec>, env: Env) returns (fault: Option<Fault>)
    modifies pxc
    ensures section.None? || !section.value.enabled ==> fault.None? && pxc.backup.None?
    ensures section.Some? && section.value.enabled ==>
              && fault == TranslationFault(section.value, env)
              && (fault.None? ==> pxc.backup == Some(Translate(section.value, env)))
              && (fault.Some? ==> pxc.backup == old(pxc.backup))
  {
    if section.None? || !section.value.enabled {
      pxc.backup := None;
      return None;
    }
    var ss := section.value.storages;
    fault := ClassFault(env.classCheck);
    if fault.Some? { return; }
    fault := ImageFault(env);
    if fault.Some? { return; }
    var image := BackupImage(env.catalog, ResolveBundle(env.catalog.bundles, env.bundle).value);
    var storages: map<string, OpStorage>, schedules: seq<OpSchedule>, pitr, enabled :=
      map[], [], OpPitr(false, "", 0.0, 0.0), 0;
    for i := 0 to |ss|
      invariant Accumulated(storages, schedules, pitr, enabled, ss[..i], env)
      invariant pxc.backup == old(pxc.backup)
    {
      storages, schedules, pitr, enabled, fault :=
        TranslateStorage(ss[i], env, storages, schedules, pitr, enabled, ss[..i]);
      assert ss[..i + 1] == ss[..i] + [ss[i]];
      if fault.Some? {
        AccumulateStep(ss[..i], ss[i], env);
        FaultStays(ss, i + 1, env);
        return;
      }
    }
    assert ss[..|ss|] == ss;
    if |ss| == 0 {
      return Some(NoStoragesConfigured);
    }
    if enabled > 1 {
      return Some(PitrConfigurationInvalid);
    }
    pxc.backup := Some(OpBackupSpec(image, storages, schedules, pitr));
    fault := None;
  }

  // --------------------------------------------------------------------------- admission

  datatype PitrError = BadPitrParameters(index: nat) | TooManyPitr(names: seq<string>)

  function BadParameters(ss: seq<Storage>): seq<PitrError> {
    if ss == [] then []
    else BadParameters(ss[..|ss| - 1]) + (if PitrBad(ss[|ss| - 1]) then [BadPitrParameters(|ss| - 1)] else [])
  }

  /** The admission errors of a backup section's PITR settings. */
  function PitrErrors(section: Option<BackupSpec>): seq<PitrError> {
    if section.None? || !section.value.enabled then []
    else
      var ss := section.value.storages;
      BadParameters(ss) + (if |EnabledNames(ss)| > 1 then [TooManyPitr(EnabledNames(ss))] else [])
  }

  method ValidatePitr(section: Option<BackupSpec>) returns (errs: seq<PitrError>)
    ensures errs == PitrErrors(section)
  {
    errs := [];
    if section.None? || !section.value.enabled {
      return;
    }
    var ss := section.value.storages;
    var enabled: seq<string> := [];
    for i := 0 to |ss|
      invariant errs == BadParameters(ss[..i]) && enabled == EnabledNames(ss[..i])
    {
      var s := ss[i];
      assert ss[..i + 1][..i] == ss[..i];
      if s.pitr.None? || !s.pitr.value.enabled {
        continue;
      }
      enabled := enabled + [s.name];
      if DecodePitr(s.pitr.value.params).None? {
        errs := errs + [BadPitrParameters(i)];
      }
    }
    assert ss[..|ss|] == ss;
    if |enabled| > 1 {
      errs := errs + [TooManyPitr(enabled)];
    }
  }

  lemma {:induction false} NoBadParameters(ss: seq<Storage>)
    ensures BadParameters(ss) == [] <==> forall i :: 0 <= i < |ss| ==> !PitrBad(ss[i])
  {
    if ss != [] {
      NoBadParameters(ss[..|ss| - 1]);
      assert forall i :: 0 <= i < |ss| - 1 ==> ss[..|ss| - 1][i] == ss[i];
    }
  }

  lemma {:induction false} StorageFaultHasSource(ss: seq<Storage>, env: Env)
    requires FirstStorageFault(ss, env).Some?
    ensures exists i :: 0 <= i < |ss| && StorageFault(ss[i], env) == FirstStorageFault(ss, env)
  {
    if StorageFault(ss[0], env).None? {
      StorageFaultHasSource(ss[1..], env);
      var i :| 0 <= i < |ss[1..]| && StorageFault(ss[1..][i], env) == FirstStorageFault(ss, env);
      assert ss[i + 1] == ss[1..][i];
    }
  }

  lemma {:induction false} SchedulesNeverFaultPitr(ss: seq<Schedule>)
    ensures FirstScheduleFault(ss).Some? ==>
              FirstScheduleFault(ss).value in {RetentionTypeUnsupported, NilCountDereference}
  {
    if ss != [] { SchedulesNeverFaultPitr(ss[1..]); }
  }

  lemma {:induction false} StorageFaultOverPitr(ss: seq<Storage>, env: Env)
    ensures FirstStorageFault(ss, env) == Some(InvalidPitrConfig) ==> BadParameters(ss) != []
    ensures FirstStorageFault(ss, env) != Some(PitrConfigurationInvalid)
    ensures FirstStorageFault(ss, env).None? ==> BadParameters(ss) == []
  {
    NoBadParameters(ss);
    NoStorageFault(ss, env);
    if FirstStorageFault(ss, env).Some? {
      StorageFaultHasSource(ss, env);
      var i :| 0 <= i < |ss| && StorageFault(ss[i], env) == FirstStorageFault(ss, env);
      SchedulesNeverFaultPitr(ss[i].schedules);
    } else {
      forall i | 0 <= i < |ss|
        ensures !PitrBad(ss[i])
      {
        assert StorageFault(ss[i], env).None?;
      }
    }
  }

  /** Admission and translation agree on PITR: a section admission accepts never fails translation over
      PITR, and a section that translates is one admission accepts. */
  lemma {:induction false} AdmissionAgreesOnPitr(spec: BackupSpec, env: Env)
    requires spec.enabled
    ensures PitrErrors(Some(spec)) == [] ==>
              && TranslationFault(spec, env) != Some(InvalidPitrConfig)
              && TranslationFault(spec, env) != Some(PitrConfigurationInvalid)
    ensures TranslationFault(spec, env).None? ==> PitrErrors(Some(spec)) == []
  {
    StorageFaultOverPitr(spec.storages, env);
  }

  // -------------------------------------------------------------- a count retention without a count

  /** Retention by count, but no count. */
  predicate NilCount(s: Schedule) {
    s.enabled && s.retention.Some? && s.retention.value.kind == ByCount && s.retention.value.count.None?
  }

  ghost predicate FirstNilSchedule(ss: seq<Schedule>, k: nat) {
    k < |ss| && NilCount(ss[k]) && forall j :: 0 <= j < k ==> ScheduleFault(ss[j]).None?
  }

  /** Nothing is wrong with the storage apart from its schedules. */
  predicate SoundStorage(s: Storage, env: Env) {
    && s.name != "" && s.name in env.resources && env.resources[s.name].S3Storage?
    && env.resources[s.name].credentialsReadable && !PitrBad(s)
  }

  ghost predicate FirstNilStorage(ss: seq<Storage>, env: Env, i: nat) {
    && i < |ss| && (forall j :: 0 <= j < i ==> StorageFault(ss[j], env).None?)
    && SoundStorage(ss[i], env) && exists k :: FirstNilSchedule(ss[i].schedules, k)
  }

  lemma {:induction false} NilScheduleExactly(ss: seq<Schedule>)
    ensures FirstScheduleFault(ss) == Some(NilCountDereference) <==> exists k :: FirstNilSchedule(ss, k)
  {
    if ss != [] {
      var rest := ss[1..];
      assert forall i :: 0 < i < |ss| ==> ss[i] == rest[i - 1];
      if ScheduleFault(ss[0]).None? {
        NilScheduleExactly(rest);
        if k: nat :| FirstNilSchedule(rest, k) { assert FirstNilSchedule(ss, k + 1); }
        if k: nat :| FirstNilSchedule(ss, k) { assert k > 0 && FirstNilSchedule(rest, k - 1); }
      } else if NilCount(ss[0]) {
        assert FirstNilSchedule(ss, 0);
      }
    }
  }

  lemma {:induction false} NilStorageExactly(ss: seq<Storage>, env: Env)
    ensures FirstStorageFault(ss, env) == Some(NilCountDereference) <==> exists i :: FirstNilStorage(ss, env, i)
  {
    if ss != [] {
      var rest := ss[1..];
      assert forall i :: 0 < i < |ss| ==> ss[i] == rest[i - 1];
      NilScheduleExactly(ss[0].schedules);
      if StorageFault(ss[0], env).None? {
        NilStorageExactly(rest, env);
        if i: nat :| FirstNilStorage(rest, env, i) { assert FirstNilStorage(ss, env, i + 1); }
        if i: nat :| FirstNilStorage(ss, env, i) { assert i > 0 && FirstNilStorage(rest, env, i - 1); }
      } else if StorageFault(ss[0], env) == Some(NilCountDereference) {
        assert FirstNilStorage(ss, env, 0);
      }
    }
  }

  /** Translation dereferences a missing count exactly when class and image are fine and, after storages
      without fault, a storage that is fine apart from its schedules has, after schedules without fault, an
      enabled one that is retained by a count it does not set. */
  lemma {:induction false} NilCountExactly(spec: BackupSpec, env: Env)
    ensures TranslationFault(spec, env) == Some(NilCountDereference) <==>
              && ClassFault(env.classCheck).None? && ImageFault(env).None?
              && exists i :: FirstNilStorage(spec.storages, env, i)
  {
    NilStorageExactly(spec.storages, env);
  }
}
