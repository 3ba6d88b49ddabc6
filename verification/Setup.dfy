/** `setup.go`: migrating a speaker by commands on its file system, any of which may fail. A command
    that changes a file may take effect, take effect but be reported as failed (the connection broke),
    or do nothing; file writes are all or nothing. */
module Setup {
  import opened Common
  import opened ProxyCodec

  datatype PrivateCfg = PrivateCfg(
    margeServerUrl: string, statsServerUrl: string, swUpdateUrl: string,
    usePandoraProductionServer: bool, isZeroconfEnabled: bool, saveMargeCustomerReport: bool,
    bmxRegistryUrl: string)

  /** A remote file: a config document, or text that does not parse as one. */
  datatype Content = Config(cfg: PrivateCfg) | Text(text: string)

  datatype RemoteState = RemoteState(config: Option<Content>, original: Option<Content>, markers: set<string>)

  datatype Effect = Done | DoneButReportedFailed | NotDone

  // ---------- config planning ----------

  type Options = Option<map<string, string>>

  predicate KeepsOriginal(options: Options, proxyUrl: string, key: string) {
    if options.Some? then key in options.value && options.value[key] == "original" else proxyUrl != ""
  }

  /** The URL a field gets: the server's own, or the current one wrapped for the proxy. */
  function PlannedUrl(own: string, current: Option<string>, proxyUrl: string, options: Options, key: string): string {
    if current.Some? && KeepsOriginal(options, proxyUrl, key) then Wrap(proxyUrl, current.value) else own
  }

  function ProxyFor(targetUrl: string, proxy: string): string {
    if proxy == "" then targetUrl else proxy
  }

  /** The config a migration writes, given the parsed current one when it could be read. */
  function Planned(targetUrl: string, proxy: string, options: Options, current: Option<PrivateCfg>): PrivateCfg {
    var proxyUrl := ProxyFor(targetUrl, proxy);
    var field := (f: PrivateCfg -> string) => if current.Some? then Some(f(current.value)) else None;
    PrivateCfg(
      PlannedUrl(targetUrl + "/marge", field((c: PrivateCfg) => c.margeServerUrl), proxyUrl, options, "marge"),
      PlannedUrl(targetUrl, field((c: PrivateCfg) => c.statsServerUrl), proxyUrl, options, "stats"),
      PlannedUrl(targetUrl + "/updates/soundtouch", field((c: PrivateCfg) => c.swUpdateUrl), proxyUrl, options, "sw_update"),
      true, true, false,
      PlannedUrl(targetUrl + "/bmx/registry/v1/services", field((c: PrivateCfg) => c.bmxRegistryUrl), proxyUrl, options, "bmx"))
  }

  /** The field-by-field planning that `MigrateSpeaker` and `GetMigrationSummary` each contain. */
  method PlanConfig(targetUrl: string, proxy: string, options: Options, current: Option<PrivateCfg>)
    returns (cfg: PrivateCfg)
    ensures cfg == Planned(targetUrl, proxy, options, current)
  {
    cfg := PrivateCfg(targetUrl + "/marge", targetUrl, targetUrl + "/updates/soundtouch", true, true, false,
                      targetUrl + "/bmx/registry/v1/services");
    if current.None? {
      return;
    }
    var c := current.value;
    var proxyUrl := proxy;
    if proxyUrl == "" {
      proxyUrl := targetUrl;
    }
    if options.Some? {
      if "marge" in options.value && options.value["marge"] == "original" {
        cfg := cfg.(margeServerUrl := Wrap(proxyUrl, c.margeServerUrl));
      }
      if "stats" in options.value && options.value["stats"] == "original" {
        cfg := cfg.(statsServerUrl := Wrap(proxyUrl, c.statsServerUrl));
      }
      if "sw_update" in options.value && options.value["sw_update"] == "original" {
        cfg := cfg.(swUpdateUrl := Wrap(proxyUrl, c.swUpdateUrl));
      }
      if "bmx" in options.value && options.value["bmx"] == "original" {
        cfg := cfg.(bmxRegistryUrl := Wrap(proxyUrl, c.bmxRegistryUrl));
      }
    } else if proxyUrl != "" {
      cfg := cfg.(margeServerUrl := Wrap(proxyUrl, c.margeServerUrl), statsServerUrl := Wrap(proxyUrl, c.statsServerUrl),
                  swUpdateUrl := Wrap(proxyUrl, c.swUpdateUrl), bmxRegistryUrl := Wrap(proxyUrl, c.bmxRegistryUrl));
    }
  }

  // ---------- repeated migrations ----------

  const ALL_ORIGINAL: Options := None

  datatype Field = Marge | Stats | SwUpdate | Bmx

  function UrlOf(cfg: PrivateCfg, field: Field): string {
    match field
    case Marge => cfg.margeServerUrl
    case Stats => cfg.statsServerUrl
    case SwUpdate => cfg.swUpdateUrl
    case Bmx => cfg.bmxRegistryUrl
  }

  /** The option that speaks about a field, and the server's own URL for it. */
  function KeyFor(field: Field): string {
    match field
    case Marge => "marge"
    case Stats => "stats"
    case SwUpdate => "sw_update"
    case Bmx => "bmx"
  }

  function OwnUrl(targetUrl: string, field: Field): string {
    match field
    case Marge => targetUrl + "/marge"
    case Stats => targetUrl
    case SwUpdate => targetUrl + "/updates/soundtouch"
    case Bmx => targetUrl + "/bmx/registry/v1/services"
  }

  /** Each planned URL either leads through the proxy to the URL the speaker has, when its option says
      so, or is the server's own. */
  lemma {:induction false} PlannedMeans(targetUrl: string, proxy: string, options: Options, cfg: PrivateCfg, field: Field)
    requires IsProxyBase(ProxyFor(targetUrl, proxy)) && IsHttpUrl(UrlOf(cfg, field))
    ensures var url := UrlOf(Planned(targetUrl, proxy, options, Some(cfg)), field);
      if options.None? || (KeyFor(field) in options.value && options.value[KeyFor(field)] == "original")
      then Hop(url) == Some(UrlOf(cfg, field))
      else url == OwnUrl(targetUrl, field)
    ensures UrlOf(Planned(targetUrl, proxy, options, None), field) == OwnUrl(targetUrl, field)
  {
    HopUnwrapsIff(ProxyFor(targetUrl, proxy), UrlOf(cfg, field), false);
  }

  // ---------- remote services ----------

  const LOCATIONS: seq<string> := ["/etc/remote_services", "/mnt/nv/remote_services", "/tmp/remote_services"]

  function Attempt(touches: seq<Effect>, k: nat): Effect {
    if k < |touches| then touches[k] else NotDone
  }

  /** The markers after trying the locations from the k-th on, two attempts each, until one is reported
      done; and whether one was. */
  function Ensured(markers: set<string>, k: nat, touches: seq<Effect>): (set<string>, bool)
    requires k <= |LOCATIONS|
    decreases |LOCATIONS| - k
  {
    if k == |LOCATIONS| then (markers, false)
    else
      var withRw, plain := Attempt(touches, 2 * k), Attempt(touches, 2 * k + 1);
      var after1 := if withRw != NotDone then markers + {LOCATIONS[k]} else markers;
      var after2 := if plain != NotDone then after1 + {LOCATIONS[k]} else after1;
      if withRw == Done then (after1, true)
      else if plain == Done then (after2, true)
      else Ensured(after2, k + 1, touches)
  }

  lemma {:induction false} EnsuredIffDone(markers: set<string>, k: nat, touches: seq<Effect>)
    requires k <= |LOCATIONS|
    ensures Ensured(markers, k, touches).1 <==> exists j :: 2 * k <= j < 2 * |LOCATIONS| && Attempt(touches, j) == Done
    decreases |LOCATIONS| - k
  {
    if k < |LOCATIONS| {
      var withRw, plain := Attempt(touches, 2 * k), Attempt(touches, 2 * k + 1);
      var after1 := if withRw != NotDone then markers + {LOCATIONS[k]} else markers;
      var after2 := if plain != NotDone then after1 + {LOCATIONS[k]} else after1;
      EnsuredIffDone(after2, k + 1, touches);
    }
  }

  /** Only markers are added, and there is one when the outcome is a success. */
  ghost predicate MarksOnly(before: set<string>, outcome: (set<string>, bool)) {
    && before <= outcome.0 && (forall m :: m in outcome.0 && m !in before ==> m in LOCATIONS)
    && (outcome.1 ==> exists l :: l in LOCATIONS && l in outcome.0)
  }

  lemma MarksCompose(before: set<string>, between: set<string>, outcome: (set<string>, bool))
    requires MarksOnly(before, (between, false)) && MarksOnly(between, outcome)
    ensures MarksOnly(before, outcome)
  {
  }

  lemma {:induction false} EnsuredMarks(markers: set<string>, k: nat, touches: seq<Effect>)
    requires k <= |LOCATIONS|
    ensures MarksOnly(markers, Ensured(markers, k, touches))
    decreases |LOCATIONS| - k
  {
    if k < |LOCATIONS| {
      var withRw, plain := Attempt(touches, 2 * k), Attempt(touches, 2 * k + 1);
      var after1 := if withRw != NotDone then markers + {LOCATIONS[k]} else markers;
      var after2 := if plain != NotDone then after1 + {LOCATIONS[k]} else after1;
      assert LOCATIONS[k] in LOCATIONS;
      assert MarksOnly(markers, (after1, withRw == Done)) && MarksOnly(markers, (after2, plain == Done));
      assert MarksOnly(markers, (after2, false));
      if withRw != Done && plain != Done {
        EnsuredMarks(after2, k + 1, touches);
        MarksCompose(markers, after2, Ensured(after2, k + 1, touches));
        assert Ensured(markers, k, touches) == Ensured(after2, k + 1, touches);
      }
    }
  }

  /** Enabling remote services succeeds exactly when some attempt is reported done; then one of the
      markers exists; and no other file is created. */
  lemma {:induction false} EnsuredMeans(markers: set<string>, touches: seq<Effect>)
    ensures MarksOnly(markers, Ensured(markers, 0, touches))
    ensures Ensured(markers, 0, touches).1 <==> (exists j :: 0 <= j < 2 * |LOCATIONS| && Attempt(touches, j) == Done)
  {
    EnsuredMarks(markers, 0, touches);
    EnsuredIffDone(markers, 0, touches);
  }

  /** The j-th of the six attempts is made and has an effect: none before it, from the first on, was
      reported done. */
  ghost predicate TakesEffect(touches: seq<Effect>, first: nat, j: nat) {
    first <= j < 6 && Attempt(touches, j) != NotDone && forall i :: first <= i < j ==> Attempt(touches, i) != Done
  }

  lemma {:induction false} MarkedFrom(markers: set<string>, k: nat, touches: seq<Effect>, l: string)
    requires k <= 3
    ensures l in Ensured(markers, k, touches).0 <==>
              l in markers || exists j :: TakesEffect(touches, 2 * k, j) && LOCATIONS[j / 2] == l
    decreases 3 - k
  {
    if k < 3 {
      var withRw, plain := Attempt(touches, 2 * k), Attempt(touches, 2 * k + 1);
      var after1 := if withRw != NotDone then markers + {LOCATIONS[k]} else markers;
      var after2 := if plain != NotDone then after1 + {LOCATIONS[k]} else after1;
      MarkedFrom(after2, k + 1, touches, l);
      assert TakesEffect(touches, 2 * k, 2 * k) <==> withRw != NotDone;
      assert TakesEffect(touches, 2 * k, 2 * k + 1) <==> withRw != Done && plain != NotDone;
      forall j | 2 * k + 2 <= j
        ensures TakesEffect(touches, 2 * k, j) <==>
                  TakesEffect(touches, 2 * (k + 1), j) && withRw != Done && plain != Done
      {
        AttemptsFrom(touches, k, j);
      }
      assert (2 * k) / 2 == k && (2 * k + 1) / 2 == k;
    }
  }

  lemma AttemptsFrom(touches: seq<Effect>, k: nat, j: nat)
    requires 2 * k + 2 <= j
    ensures TakesEffect(touches, 2 * k, j) <==>
              TakesEffect(touches, 2 * (k + 1), j) && Attempt(touches, 2 * k) != Done && Attempt(touches, 2 * k + 1) != Done
  {
  }

  /** Which markers there are afterwards: those from before and those of the attempts that took effect, two
      for each location in this order. */
  lemma {:induction false} EnsuredMarkers(markers: set<string>, touches: seq<Effect>, l: string)
    ensures l in Ensured(markers, 0, touches).0 <==>
              l in markers || exists j :: (
                TakesEffect(touches, 0, j)
                && ["/etc/remote_services", "/mnt/nv/remote_services", "/tmp/remote_services"][j / 2] == l)
  {
    MarkedFrom(markers, 0, touches, l);
    var locations := ["/etc/remote_services", "/mnt/nv/remote_services", "/tmp/remote_services"];
    assert forall j :: 0 <= j < 6 ==> locations[j / 2] == LOCATIONS[j / 2];
  }

  /** What a summary reports about remote services. */
  datatype ServicesReport = ServicesReport(found: seq<string>, enabled: bool, persistent: bool)

  /** Whether the k-th existence test reaches the speaker. */
  predicate Answers(tests: seq<bool>, k: nat) {
    k < |tests| && tests[k]
  }

  /** The loop of `GetMigrationSummary` over the locations: a marker counts when its test reaches the
      speaker and finds it. */
  method CheckRemoteServices(markers: set<string>, tests: seq<bool>) returns (r: ServicesReport)
    ensures forall l :: l in r.found <==>
              exists k :: 0 <= k < |LOCATIONS| && LOCATIONS[k] == l && l in markers && Answers(tests, k)
    ensures r.enabled <==> r.found != []
    ensures r.persistent <==> exists l :: l in r.found && l != "/tmp/remote_services"
  {
    r := ServicesReport([], false, false);
    for i := 0 to |LOCATIONS|
      invariant forall l :: l in r.found <==>
                  exists k :: 0 <= k < i && LOCATIONS[k] == l && l in markers && Answers(tests, k)
      invariant r.enabled <==> r.found != []
      invariant r.persistent <==> exists l :: l in r.found && l != "/tmp/remote_services"
    {
      var loc := LOCATIONS[i];
      ghost var before := r.found;
      if loc in markers && Answers(tests, i) {
        r := ServicesReport(r.found + [loc], true, r.persistent || loc != "/tmp/remote_services");
        assert forall l :: l in r.found <==> l in before || l == loc;
      }
    }
  }

  // ---------- the effect of a call ----------

  /** What happens to the commands of one call that touch the config or its backup. */
  datatype Faults = Faults(
    probeWorks: bool,      // the existence test of the backup reaches the speaker
    copy: Effect,          // cp config to the backup
    rereads: bool,         // cat of the config for the fallback
    backupUpload: Effect)  // upload of what was read to the backup

  function Copied(s: RemoteState, e: Effect): RemoteState {
    if e != NotDone && s.config.Some? then s.(original := s.config) else s
  }

  predicate Readable(s: RemoteState) {
    s.config.Some? && s.config.value != Text("")
  }

  /** The state after the fallback: the config is read and uploaded as the backup. */
  function Uploaded(s: RemoteState, f: Faults): RemoteState {
    if f.rereads && Readable(s) && f.backupUpload != NotDone then s.(original := s.config) else s
  }

  predicate CopyReported(s: RemoteState, f: Faults) {
    f.copy == Done && s.config.Some?
  }

  /** A backup is only skipped when the test says that there is one; a test that cannot reach the
      speaker looks like a missing file. */
  function BackedUp(s: RemoteState, f: Faults): RemoteState {
    if s.original.Some? && f.probeWorks then s
    else if CopyReported(s, f) then Copied(s, f.copy)
    else Uploaded(Copied(s, f.copy), f)
  }

  /** A call, with the outcome of each of its commands. */
  datatype Call =
    | Migrate(targetUrl: string, proxyUrl: string, options: Options,
              touches: seq<Effect>, readsConfig: bool, faults: Faults, upload: Effect, reboots: bool)
    | Backup(faults: Faults)
    | Ensure(touches: seq<Effect>)

  function ParsedConfig(s: RemoteState, readsConfig: bool): Option<PrivateCfg> {
    if readsConfig && s.config.Some? && s.config.value.Config? then Some(s.config.value.cfg) else None
  }

  /** The config after a call: a migration writes the one it planned from what it read. */
  function ConfigAfter(s: RemoteState, c: Call): Option<Content> {
    if c.Migrate? && c.upload != NotDone
    then Some(Config(Planned(c.targetUrl, c.proxyUrl, c.options, ParsedConfig(s, c.readsConfig))))
    else s.config
  }

  function Effected(s: RemoteState, c: Call): RemoteState {
    match c
    case Migrate(_, _, _, touches, _, faults, _, _) =>
      BackedUp(s.(markers := Ensured(s.markers, 0, touches).0), faults).(config := ConfigAfter(s, c))
    case Backup(faults) => BackedUp(s, faults)
    case Ensure(touches) => s.(markers := Ensured(s.markers, 0, touches).0)
  }

  /** Whether the call returns without an error. */
  predicate Succeeds(s: RemoteState, c: Call) {
    match c
    case Migrate(_, _, _, _, _, _, upload, reboots) => upload == Done && reboots
    case Backup(f) =>
      !(s.original.Some? && f.probeWorks)
      && (CopyReported(s, f) || (f.rereads && Readable(s) && f.backupUpload == Done))
    case Ensure(touches) => Ensured(s.markers, 0, touches).1
  }

  function RunCalls(s: RemoteState, calls: seq<Call>): RemoteState {
    if calls == [] then s else Effected(RunCalls(s, calls[..|calls| - 1]), calls[|calls| - 1])
  }

  // ---------- what one call writes and reports ----------

  /** Pandora production server and Zeroconf on, customer reports off. */
  predicate SwitchesSet(cfg: PrivateCfg) {
    cfg.usePandoraProductionServer && cfg.isZeroconfEnabled && !cfg.saveMargeCustomerReport
  }

  /** The switches are always set so; without a config it can read, the server names its own URLs. */
  lemma {:induction false} PlannedFields(targetUrl: string, proxy: string, options: Options, current: Option<PrivateCfg>)
    ensures var cfg := Planned(targetUrl, proxy, options, current);
      && SwitchesSet(cfg)
      && (current.None? ==>
            cfg.margeServerUrl == targetUrl + "/marge" && cfg.statsServerUrl == targetUrl
            && cfg.swUpdateUrl == targetUrl + "/updates/soundtouch"
            && cfg.bmxRegistryUrl == targetUrl + "/bmx/registry/v1/services")
  {
  }

  /** Without options everything the speaker has is wrapped for the proxy, or for the target when no
      proxy is named. */
  lemma {:induction false} PlannedByDefault(targetUrl: string, proxy: string, c: PrivateCfg)
    requires targetUrl != ""
    ensures var p, cfg := if proxy == "" then targetUrl else proxy, Planned(targetUrl, proxy, None, Some(c));
      && cfg.margeServerUrl == p + "/proxy/" + c.margeServerUrl && cfg.statsServerUrl == p + "/proxy/" + c.statsServerUrl
      && cfg.swUpdateUrl == p + "/proxy/" + c.swUpdateUrl && cfg.bmxRegistryUrl == p + "/proxy/" + c.bmxRegistryUrl
  {
  }

  predicate Original(options: map<string, string>, key: string) {
    key in options && options[key] == "original"
  }

  /** With options a URL is wrapped exactly when its own option says so. */
  lemma {:induction false} PlannedByOptions(targetUrl: string, proxy: string, options: map<string, string>, c: PrivateCfg)
    ensures var p, cfg := if proxy == "" then targetUrl else proxy, Planned(targetUrl, proxy, Some(options), Some(c));
      && cfg.margeServerUrl == (if Original(options, "marge") then p + "/proxy/" + c.margeServerUrl else targetUrl + "/marge")
      && cfg.statsServerUrl == (if Original(options, "stats") then p + "/proxy/" + c.statsServerUrl else targetUrl)
      && cfg.swUpdateUrl == (if Original(options, "sw_update") then p + "/proxy/" + c.swUpdateUrl
                             else targetUrl + "/updates/soundtouch")
      && cfg.bmxRegistryUrl == (if Original(options, "bmx") then p + "/proxy/" + c.bmxRegistryUrl
                                else targetUrl + "/bmx/registry/v1/services")
  {
  }

  /** A migration whose upload takes effect writes the plan for the config it could read and parse. */
  lemma {:induction false} MigrationWrites(s: RemoteState, c: Call)
    requires c.Migrate? && c.upload != NotDone
    ensures c.readsConfig ==> forall cfg :: s.config == Some(Config(cfg)) ==>
              Effected(s, c).config == Some(Config(Planned(c.targetUrl, c.proxyUrl, c.options, Some(cfg))))
    ensures !c.readsConfig || s.config.None? || s.config.value.Text? ==>
              Effected(s, c).config == Some(Config(Planned(c.targetUrl, c.proxyUrl, c.options, None)))
  {
    EffectedConfig(s, c);
  }

  /** Calls that write no config leave it alone. */
  lemma {:induction false} OthersWriteNothing(s: RemoteState, c: Call)
    requires !c.Migrate? || c.upload == NotDone
    ensures Effected(s, c).config == s.config
    ensures c.Ensure? ==> Effected(s, c).original == s.original
    ensures c.Backup? ==> Effected(s, c).markers == s.markers
  {
    EffectedConfig(s, c);
  }

  /** Once a migration has written its config, the speaker's switches are the server's for good. */
  lemma {:induction false} SwitchesStaySet(s: RemoteState, calls: seq<Call>, k: nat)
    requires k < |calls| && calls[k].Migrate? && calls[k].upload != NotDone
    ensures var config := RunCalls(s, calls).config;
      config.Some? && config.value.Config? && SwitchesSet(config.value.cfg)
  {
    var n := |calls| - 1;
    var before, c := RunCalls(s, calls[..n]), calls[n];
    EffectedConfig(before, c);
    if c.Migrate? && c.upload != NotDone {
      PlannedFields(c.targetUrl, c.proxyUrl, c.options, ParsedConfig(before, c.readsConfig));
    } else {
      SwitchesStaySet(s, calls[..n], k);
    }
  }

  /** What a backup call reports. It fails, and changes nothing, when the test finds a backup; otherwise it
      succeeds exactly when one of the two ways of copying is reported done, and then the backup is the
      speaker's config. An empty config is never uploaded. */
  lemma {:induction false} BackupReports(s: RemoteState, f: Faults)
    ensures s.original.Some? && f.probeWorks ==> !Succeeds(s, Backup(f)) && Effected(s, Backup(f)) == s
    ensures !(s.original.Some? && f.probeWorks) ==>
      (Succeeds(s, Backup(f)) <==>
         s.config.Some? && (f.copy == Done || (f.rereads && s.config != Some(Text("")) && f.backupUpload == Done)))
    ensures Succeeds(s, Backup(f)) ==> s.config.Some? && Effected(s, Backup(f)).original == s.config
    ensures s.config == Some(Text("")) && f.copy == NotDone ==> Effected(s, Backup(f)).original == s.original
  {
    BackedUpMeans(s, f);
  }

  /** A migration reports success exactly when its upload and the reboot do, whatever becomes of the
      markers and the backup; a backup is made from the config before the upload. */
  lemma {:induction false} MigrationReports(s: RemoteState, c: Call)
    requires c.Migrate?
    ensures Succeeds(s, c) <==> c.upload == Done && c.reboots
    ensures Effected(s, c).original == Effected(s, Backup(c.faults)).original
    ensures Effected(s, c).markers == Effected(s, Ensure(c.touches)).markers
  {
    BackedUpMeans(s, c.faults);
    BackedUpMeans(s.(markers := Ensured(s.markers, 0, c.touches).0), c.faults);
  }

  // ---------- the backup over any sequence of calls ----------

  /** One of the two ways of copying the config to the backup has an effect. */
  predicate BackupTaken(s: RemoteState, f: Faults) {
    (f.copy != NotDone && s.config.Some?) || (f.rereads && Readable(s) && f.backupUpload != NotDone)
  }

  /** The guards that save an existing backup from a call: the existence test finds it, or nothing can
      be copied over it, or what is copied is what it holds. */
  predicate KeepsBackup(s: RemoteState, c: Call) {
    c.Ensure? || c.faults.probeWorks || !BackupTaken(s, c.faults) || s.config == s.original
  }

  /** A call leaves an existing backup as it is exactly under that condition; a call that creates one
      stores the config that was on the speaker just before. */
  lemma {:induction false} BackupKeptIff(s: RemoteState, c: Call)
    ensures s.original.Some? ==> (Effected(s, c).original == s.original <==> KeepsBackup(s, c))
    ensures s.original.None? && Effected(s, c).original.Some? ==> Effected(s, c).original == s.config
  {
  }

  lemma BackedUpMeans(s: RemoteState, f: Faults)
    ensures BackedUp(s, f) == if BackupTaken(s, f) && !(s.original.Some? && f.probeWorks) then s.(original := s.config) else s
  {
  }

  /** The backup before the j-th call. */
  function BackupAt(s: RemoteState, calls: seq<Call>, j: nat): Option<Content>
    requires j <= |calls|
  {
    RunCalls(s, calls[..j]).original
  }

  predicate KeepsAt(s: RemoteState, calls: seq<Call>, j: nat)
    requires j < |calls|
  {
    KeepsBackup(RunCalls(s, calls[..j]), calls[j])
  }

  /** From the i-th call on the backup is what it is before that call. */
  ghost predicate BackupStays(s: RemoteState, calls: seq<Call>, i: nat)
    requires i <= |calls|
  {
    forall j :: i <= j <= |calls| ==> BackupAt(s, calls, j) == BackupAt(s, calls, i)
  }

  /** Every call from the i-th on meets the condition in the state it runs in. */
  ghost predicate AllKeep(s: RemoteState, calls: seq<Call>, i: nat) {
    forall j :: i <= j < |calls| ==> KeepsAt(s, calls, j)
  }

  lemma RunStep(s: RemoteState, calls: seq<Call>, j: nat)
    requires j < |calls|
    ensures RunCalls(s, calls[..j + 1]) == Effected(RunCalls(s, calls[..j]), calls[j])
  {
    assert calls[..j + 1][..j] == calls[..j];
  }

  lemma KeptStep(s: RemoteState, calls: seq<Call>, j: nat)
    requires j < |calls| && BackupAt(s, calls, j).Some?
    ensures BackupAt(s, calls, j + 1) == BackupAt(s, calls, j) <==> KeepsAt(s, calls, j)
  {
    RunStep(s, calls, j);
    BackupKeptIff(RunCalls(s, calls[..j]), calls[j]);
  }

  lemma {:induction false} KeptUpTo(s: RemoteState, calls: seq<Call>, i: nat, j: nat)
    requires i <= j <= |calls| && BackupAt(s, calls, i).Some? && AllKeep(s, calls, i)
    ensures BackupAt(s, calls, j) == BackupAt(s, calls, i)
  {
    if j > i {
      KeptUpTo(s, calls, i, j - 1);
      KeptStep(s, calls, j - 1);
      assert KeepsAt(s, calls, j - 1);
    }
  }

  /** Over every sequence of calls with any command failures: an existing backup never changes again
      exactly when every later call meets the condition. */
  lemma {:induction false} BackupIsForever(s: RemoteState, calls: seq<Call>, i: nat)
    requires i <= |calls| && BackupAt(s, calls, i).Some?
    ensures BackupStays(s, calls, i) <==> AllKeep(s, calls, i)
  {
    if AllKeep(s, calls, i) {
      forall j | i <= j <= |calls| ensures BackupAt(s, calls, j) == BackupAt(s, calls, i) {
        KeptUpTo(s, calls, i, j);
      }
    }
    if BackupStays(s, calls, i) {
      forall j | i <= j < |calls| ensures KeepsAt(s, calls, j) {
        KeptStep(s, calls, j);
        assert BackupAt(s, calls, j) == BackupAt(s, calls, j + 1) == BackupAt(s, calls, i);
      }
    }
  }

  predicate ProbesWork(calls: seq<Call>) {
    forall i :: 0 <= i < |calls| && !calls[i].Ensure? ==> calls[i].faults.probeWorks
  }

  /** With existence tests that reach the speaker, a backup never changes once it exists, and holds for
      good the config that was on the speaker just before the call that created it. */
  lemma {:induction false} TruthfulTestsKeepBackup(s: RemoteState, calls: seq<Call>, i: nat)
    requires ProbesWork(calls) && i < |calls| && RunCalls(s, calls[..i + 1]).original.Some?
    ensures BackupStays(s, calls, i + 1)
    ensures RunCalls(s, calls[..i + 1]).original ==
              if RunCalls(s, calls[..i]).original.Some? then RunCalls(s, calls[..i]).original
              else RunCalls(s, calls[..i]).config
  {
    BackupIsForever(s, calls, i + 1);
    RunStep(s, calls, i);
    BackupKeptIff(RunCalls(s, calls[..i]), calls[i]);
  }

  /** The content is a config that some migration of the run wrote. */
  ghost predicate WrittenByMigration(s: RemoteState, calls: seq<Call>, content: Option<Content>) {
    exists k :: 0 <= k < |calls| && Wrote(s, calls, k, content)
  }

  ghost predicate Wrote(s: RemoteState, calls: seq<Call>, k: nat, content: Option<Content>)
    requires k < |calls|
  {
    calls[k].Migrate? && calls[k].upload != NotDone && content == ConfigAfter(RunCalls(s, calls[..k]), calls[k])
  }

  /** Nothing but what migrations wrote is left: neither as the config nor as a backup, if there is one. */
  ghost predicate FactoryConfigLost(s: RemoteState, calls: seq<Call>) {
    var after := RunCalls(s, calls);
    WrittenByMigration(s, calls, after.config)
    && (after.original.Some? ==> WrittenByMigration(s, calls, after.original))
  }

  lemma StillWritten(s: RemoteState, calls: seq<Call>, c: Call, content: Option<Content>)
    requires WrittenByMigration(s, calls, content)
    ensures WrittenByMigration(s, calls + [c], content)
  {
    var k :| 0 <= k < |calls| && Wrote(s, calls, k, content);
    assert (calls + [c])[..k] == calls[..k] && (calls + [c])[k] == calls[k];
    assert Wrote(s, calls + [c], k, content);
  }

  lemma UploadWrites(s: RemoteState, calls: seq<Call>, c: Call)
    requires c.Migrate? && c.upload != NotDone
    ensures WrittenByMigration(s, calls + [c], Effected(RunCalls(s, calls), c).config)
  {
    assert (calls + [c])[..|calls|] == calls;
    assert Wrote(s, calls + [c], |calls|, Effected(RunCalls(s, calls), c).config);
  }

  lemma {:induction false} LostStaysLost(s: RemoteState, calls: seq<Call>, c: Call)
    requires FactoryConfigLost(s, calls)
    ensures FactoryConfigLost(s, calls + [c])
  {
    var before := RunCalls(s, calls);
    assert (calls + [c])[..|calls|] == calls;
    StillWritten(s, calls, c, before.config);
    if before.original.Some? {
      StillWritten(s, calls, c, before.original);
    }
    if c.Migrate? && c.upload != NotDone {
      UploadWrites(s, calls, c);
    }
    OriginalAfter(before, c);
  }

  /** A call never makes anything but the current config the backup. */
  lemma OriginalAfter(s: RemoteState, c: Call)
    ensures Effected(s, c).original == s.original || Effected(s, c).original == s.config
    ensures Effected(s, c).config == s.config || (c.Migrate? && c.upload != NotDone)
  {
  }

  lemma {:induction false} LostFrom(s: RemoteState, calls: seq<Call>, j: nat)
    requires 1 <= j <= |calls| && FactoryConfigLost(s, calls[..1])
    ensures FactoryConfigLost(s, calls[..j])
  {
    if j > 1 {
      var before, c := calls[..j - 1], calls[j - 1];
      assert calls[..j] == before + [c];
      LostFrom(s, calls, j - 1);
      LostStaysLost(s, before, c);
    }
  }

  /** Starting without a backup, the first migration or backup call decides. If it takes a backup, that
      is the config from before the run, and stays exactly while later calls meet the condition. If it
      takes none but writes its own config, then at no later time, whatever works or fails, is the
      config or any backup anything but a config that a migration of this run wrote. If it does
      neither, config and backup are as before. */
  lemma {:induction false} FirstCallDecides(s: RemoteState, calls: seq<Call>)
    requires calls != [] && s.original.None? && !calls[0].Ensure?
    ensures BackupTaken(s, calls[0].faults) ==>
              RunCalls(s, calls[..1]).original == s.config && (BackupStays(s, calls, 1) <==> AllKeep(s, calls, 1))
    ensures !BackupTaken(s, calls[0].faults) && calls[0].Migrate? && calls[0].upload != NotDone ==>
              forall j :: 1 <= j <= |calls| ==> FactoryConfigLost(s, calls[..j])
    ensures !BackupTaken(s, calls[0].faults) && !(calls[0].Migrate? && calls[0].upload != NotDone) ==>
              RunCalls(s, calls[..1]).config == s.config && RunCalls(s, calls[..1]).original.None?
  {
    var c := calls[0];
    assert calls[..0] == [] && calls[..1] == [] + [c];
    RunStep(s, calls, 0);
    if BackupTaken(s, c.faults) {
      BackedUpMeans(s, c.faults);
      BackedUpMeans(s.(markers := Effected(s, c).markers), c.faults);
      BackupIsForever(s, calls, 1);
    } else if c.Migrate? && c.upload != NotDone {
      UploadWrites(s, [], c);
      forall j | 1 <= j <= |calls| ensures FactoryConfigLost(s, calls[..j]) {
        LostFrom(s, calls, j);
      }
    }
  }

  // ---------- where the URLs lead after any sequence of calls ----------

  /** A URL to follow for some hops. */
  datatype Trail = Trail(origin: string, hops: nat)

  /** The URL the migration finds in the config it reads and keeps, wrapped, if it does. */
  function KeptUrl(s: RemoteState, c: Call, field: Field): Option<string>
    requires c.Migrate?
  {
    var current := ParsedConfig(s, c.readsConfig);
    if current.Some? && KeepsOriginal(c.options, ProxyFor(c.targetUrl, c.proxyUrl), KeyFor(field))
    then Some(UrlOf(current.value, field)) else None
  }

  /** The URL that a field's current one was wrapped around, and how often: a migration that takes effect
      wraps the field it keeps once more, and starts again with its own URL otherwise. */
  function TrailOf(s: RemoteState, calls: seq<Call>, field: Field): Trail {
    if calls == [] then
      Trail(if s.config.Some? && s.config.value.Config? then UrlOf(s.config.value.cfg, field) else "", 0)
    else
      var n := |calls| - 1;
      NextTrail(RunCalls(s, calls[..n]), calls[n], field, TrailOf(s, calls[..n], field))
  }

  function NextTrail(before: RemoteState, c: Call, field: Field, trail: Trail): Trail {
    if !c.Migrate? || c.upload == NotDone then trail
    else if KeptUrl(before, c, field).Some? then Trail(trail.origin, trail.hops + 1)
    else Trail(OwnUrl(c.targetUrl, field), 0)
  }

  /** Every migration names an http target and a proxy base, or a target that is a proxy base itself. */
  predicate NamesBases(calls: seq<Call>) {
    forall i :: 0 <= i < |calls| ==> NamesBase(calls[i])
  }

  predicate NamesBase(c: Call) {
    c.Migrate? ==> IsHttpUrl(c.targetUrl) && IsProxyBase(ProxyFor(c.targetUrl, c.proxyUrl))
  }

  predicate HasHttpUrl(config: Option<Content>, field: Field) {
    config.Some? && config.value.Config? ==> IsHttpUrl(UrlOf(config.value.cfg, field))
  }

  predicate UrlLeads(url: string, trail: Trail) {
    IsHttpUrl(url) && LeadsBack(url, trail.hops, trail.origin)
  }

  /** The config's URL for the field leads along the trail. */
  predicate Leads(config: Option<Content>, field: Field, trail: Trail) {
    config.Some? && config.value.Config? ==> UrlLeads(UrlOf(config.value.cfg, field), trail)
  }

  lemma OwnUrlIsHttp(targetUrl: string, field: Field)
    requires IsHttpUrl(targetUrl)
    ensures IsHttpUrl(OwnUrl(targetUrl, field))
  {
    Parts(targetUrl);
    var tail := OwnUrl(targetUrl, field)[|targetUrl|..];
    assert OwnUrl(targetUrl, field) == targetUrl + tail;
    assert targetUrl + tail == SchemeOf(targetUrl) + "//" + (AfterScheme(targetUrl) + tail);
    OfParts(SchemeOf(targetUrl), AfterScheme(targetUrl) + tail);
  }

  lemma OwnUrlLeads(targetUrl: string, field: Field)
    requires IsHttpUrl(targetUrl)
    ensures UrlLeads(OwnUrl(targetUrl, field), Trail(OwnUrl(targetUrl, field), 0))
  {
    OwnUrlIsHttp(targetUrl, field);
  }

  lemma WrappedLeads(p: string, url: string, trail: Trail)
    requires IsProxyBase(p) && UrlLeads(url, trail)
    ensures UrlLeads(Wrap(p, url), Trail(trail.origin, trail.hops + 1))
  {
    WrappedIsUrl(p, url);
    HopUnwrapsIff(p, url, false);
    FollowOn(Wrap(p, url), url, trail.hops + 1);
  }

  lemma EffectedConfig(before: RemoteState, c: Call)
    ensures Effected(before, c).config == ConfigAfter(before, c)
  {
  }

  lemma PlannedField(before: RemoteState, c: Call, field: Field)
    requires c.Migrate? && ProxyFor(c.targetUrl, c.proxyUrl) != ""
    ensures UrlOf(Planned(c.targetUrl, c.proxyUrl, c.options, ParsedConfig(before, c.readsConfig)), field)
         == if KeptUrl(before, c, field).Some? then Wrap(ProxyFor(c.targetUrl, c.proxyUrl), KeptUrl(before, c, field).value)
            else OwnUrl(c.targetUrl, field)
  {
  }

  lemma MigrationLeads(before: RemoteState, c: Call, field: Field, trail: Trail)
    requires c.Migrate? && c.upload != NotDone && NamesBase(c)
    requires KeptUrl(before, c, field).Some? ==> UrlLeads(KeptUrl(before, c, field).value, trail)
    ensures UrlLeads(UrlOf(Planned(c.targetUrl, c.proxyUrl, c.options, ParsedConfig(before, c.readsConfig)), field),
                     NextTrail(before, c, field, trail))
  {
    PlannedField(before, c, field);
    if KeptUrl(before, c, field).Some? {
      WrappedLeads(ProxyFor(c.targetUrl, c.proxyUrl), KeptUrl(before, c, field).value, trail);
    } else {
      OwnUrlLeads(c.targetUrl, field);
    }
  }

  lemma CallLeads(before: RemoteState, c: Call, field: Field, trail: Trail)
    requires NamesBase(c) && Leads(before.config, field, trail)
    ensures Leads(ConfigAfter(before, c), field, NextTrail(before, c, field, trail))
  {
    if c.Migrate? && c.upload != NotDone {
      MigrationLeads(before, c, field, trail);
    }
  }

  /** However often a speaker is called, whatever options and proxies the migrations name and whatever
      fails: each URL of its config leads back, through exactly the migrations that kept it, to the URL
      it had before the run or to the one the last migration that did not keep it set. */
  lemma {:induction false} MigrationsLeadBack(s: RemoteState, calls: seq<Call>, field: Field)
    requires HasHttpUrl(s.config, field) && NamesBases(calls)
    ensures Leads(RunCalls(s, calls).config, field, TrailOf(s, calls, field))
  {
    if calls != [] {
      var n := |calls| - 1;
      MigrationsLeadBack(s, calls[..n], field);
      CallLeads(RunCalls(s, calls[..n]), calls[n], field, TrailOf(s, calls[..n], field));
      EffectedConfig(RunCalls(s, calls[..n]), calls[n]);
    }
  }

  /** The origin is the URL from before the run or a migration's own, and no hop is without a migration. */
  lemma {:induction false} TrailMeans(s: RemoteState, calls: seq<Call>, field: Field)
    ensures var trail := TrailOf(s, calls, field);
      && (trail.origin == TrailOf(s, [], field).origin
          || exists k :: 0 <= k < |calls| && calls[k].Migrate? && calls[k].upload != NotDone && trail.origin == OwnUrl(calls[k].targetUrl, field))
      && trail.hops <= |calls|
  {
    if calls != [] {
      TrailMeans(s, calls[..|calls| - 1], field);
    }
  }

  // ---------- the calls, command by command ----------

  class Speaker {
    var config: Option<Content>
    var original: Option<Content>
    var markers: set<string>

    constructor (config: Option<Content>)
      ensures State() == RemoteState(config, None, {})
    {
      this.config, original, markers := config, None, {};
    }

    function State(): RemoteState
      reads this
    {
      RemoteState(config, original, markers)
    }

    /** `cat` of the config file. */
    method Read(works: bool) returns (r: Option<Content>)
      ensures r == if works then config else None
    {
      r := if works then config else None;
    }

    /** `cp` of the config to the backup. */
    method Copy(e: Effect) returns (ok: bool)
      modifies this`original
      ensures original == if e != NotDone && config.Some? then config else old(original)
      ensures ok <==> e == Done && config.Some?
    {
      if e != NotDone && config.Some? {
        original := config;
      }
      ok := e == Done && config.Some?;
    }

    method UploadBackup(content: Content, e: Effect) returns (ok: bool)
      modifies this`original
      ensures original == (if e != NotDone then Some(content) else old(original)) && (ok <==> e == Done)
    {
      if e != NotDone {
        original := Some(content);
      }
      ok := e == Done;
    }

    method UploadConfig(content: Content, e: Effect) returns (ok: bool)
      modifies this`config
      ensures config == (if e != NotDone then Some(content) else old(config)) && (ok <==> e == Done)
    {
      if e != NotDone {
        config := Some(content);
      }
      ok := e == Done;
    }

    method Touch(location: string, e: Effect) returns (ok: bool)
      modifies this`markers
      ensures markers == (if e != NotDone then old(markers) + {location} else old(markers)) && (ok <==> e == Done)
    {
      if e != NotDone {
        markers := markers + {location};
      }
      ok := e == Done;
    }

    method EnsureRemoteServices(touches: seq<Effect>) returns (ok: bool)
      modifies this`markers
      ensures (markers, ok) == Ensured(old(markers), 0, touches)
    {
      for k := 0 to |LOCATIONS|
        invariant Ensured(old(markers), 0, touches) == Ensured(markers, k, touches)
      {
        var done := Touch(LOCATIONS[k], Attempt(touches, 2 * k));
        if done {
          return true;
        }
        done := Touch(LOCATIONS[k], Attempt(touches, 2 * k + 1));
        if done {
          return true;
        }
      }
      return false;
    }

    /** Step 0 of a migration: a backup, if the test does not find one; failures are only logged. */
    method BackupIfMissing(faults: Faults)
      modifies this`original
      ensures State() == BackedUp(old(State()), faults)
    {
      if !(original.Some? && faults.probeWorks) {
        var copied := Copy(faults.copy);
        if !copied {
          var again := Read(faults.rereads);
          if again.Some? && again.value != Text("") {
            var uploaded := UploadBackup(again.value, faults.backupUpload);
          }
        }
      }
    }

    method MigrateSpeaker(targetUrl: string, proxyUrl: string, options: Options, touches: seq<Effect>,
                          readsConfig: bool, faults: Faults, upload: Effect, reboots: bool) returns (ok: bool)
      modifies this
      ensures var c := Migrate(targetUrl, proxyUrl, options, touches, readsConfig, faults, upload, reboots);
        State() == Effected(old(State()), c) && ok == Succeeds(old(State()), c)
    {
      var ensured := EnsureRemoteServices(touches);  // a failure is only logged
      var read := Read(readsConfig);
      var current: Option<PrivateCfg> := None;
      if read.Some? && read.value.Config? {
        current := Some(read.value.cfg);
      }
      var cfg := PlanConfig(targetUrl, proxyUrl, options, current);
      BackupIfMissing(faults);
      var written := UploadConfig(Config(cfg), upload);
      ok := written && reboots;
    }

    method BackupConfig(faults: Faults) returns (ok: bool)
      modifies this
      ensures State() == Effected(old(State()), Backup(faults)) && ok == Succeeds(old(State()), Backup(faults))
    {
      if original.Some? && faults.probeWorks {
        return false;
      }
      var copied := Copy(faults.copy);
      if copied {
        return true;
      }
      var read := Read(faults.rereads);
      if read.None? || read.value == Text("") {
        return false;
      }
      ok := UploadBackup(read.value, faults.backupUpload);
    }
  }
}
