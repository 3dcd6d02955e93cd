/** The runtime configuration and its normalisers.  `parse` stands for `time.ParseDuration`,
    a Go library call: the duration in nanoseconds, or `None` when the text is not one. */
module Config {
  import opened Text

  type DurationParser = string -> Option<int>

  /** The one fact about the parser that is used: the default interval is a positive duration. */
  predicate Sane(parse: DurationParser) {
    parse("24h").Some? && parse("24h").value > 0
  }

  datatype Timeouts = Timeouts(
    plannerRequest: string, executorIdle: string, executorTurn: string, subagent: string,
    shellCommand: string, install: string, humanWait: string)

  datatype Flags = Flags(
    installingPrograms: bool, installingDependencies: bool, outsideRepoChanges: bool, deletingFiles: bool,
    runningTests: bool, emulatorTesting: bool, networkCalls: bool, gitCommits: bool, gitPushes: bool,
    updaterInstalls: bool, workerParallelism: bool, executorSteering: bool, plannerDirection: bool)

  datatype Permissions = Permissions(profile: string, ask: Flags)

  /** `skippedVersions` keeps Go's difference between a nil and an empty slice. */
  datatype Updates = Updates(
    channel: string, autoCheck: bool, autoDownload: bool, autoInstall: bool, askBeforeUpdate: bool,
    includePrereleases: bool, checkInterval: string, lastCheckAt: string, lastSeenVersion: string,
    lastInstalledVersion: string, skippedVersions: Option<seq<string>>)

  datatype NTFY = NTFY(serverURL: string, topic: string, authToken: string)

  datatype Config = Config(
    version: int, logLevel: string, verbosity: string, plannerModel: string, workerConcurrencyLimit: int,
    driftWatcherEnabled: bool, repoContractConfirmed: Option<bool>,
    timeouts: Timeouts, permissions: Permissions, updates: Updates, ntfy: NTFY)

  // ----- timeouts -----

  function NormalizeTimeoutValue(value: string): string {
    var trimmed := ToLower(TrimSpace(value));
    if trimmed in {"", "default"} then ""
    else if trimmed in {"0", "null", "none", "no-limit", "no limit", "unlimited"} then "unlimited"
    else trimmed
  }

  predicate ValidTimeoutValue(value: string, parse: DurationParser) {
    var normalized := NormalizeTimeoutValue(value);
    normalized in {"", "unlimited"} || (parse(normalized).Some? && parse(normalized).value > 0)
  }

  const DEFAULT_TIMEOUTS := Timeouts("2m", "unlimited", "unlimited", "unlimited", "30m", "2h", "unlimited")

  /** One field of `NormalizeTimeouts`: the default replaces a blank before normalising. */
  function NormalizeTimeout(value: string, default_: string): string {
    NormalizeTimeoutValue(if Blank(value) then default_ else value)
  }

  function NormalizeTimeouts(t: Timeouts): Timeouts {
    var d := DEFAULT_TIMEOUTS;
    Timeouts(
      NormalizeTimeout(t.plannerRequest, d.plannerRequest),
      NormalizeTimeout(t.executorIdle, d.executorIdle),
      NormalizeTimeout(t.executorTurn, d.executorTurn),
      NormalizeTimeout(t.subagent, d.subagent),
      NormalizeTimeout(t.shellCommand, d.shellCommand),
      NormalizeTimeout(t.install, d.install),
      NormalizeTimeout(t.humanWait, d.humanWait))
  }

  // ----- permissions -----

  function NormalizePermissionProfile(value: string): Option<string> {
    ProfileNamed(ToLower(TrimSpace(value)))
  }

  function ProfileNamed(name: string): Option<string> {
    if name in {"", "balanced"} then Some("balanced")
    else if name == "guided" then Some("guided")
    else if name == "autonomous" then Some("autonomous")
    else if name in {"full_send", "full-send", "full send", "lab", "lab_mode", "lab-mode", "lab mode"}
      then Some("full_send")
    else None
  }

  /** The flags of a profile that has already been normalised. */
  function PresetFlags(profile: string): Flags {
    if profile == "guided" then
      Flags(true, true, true, true, true, true, true, true, true, true, true, true, true)
    else if profile == "autonomous" then
      Flags(false, false, true, true, false, false, false, false, true, true, false, false, true)
    else if profile == "full_send" then
      Flags(false, false, true, false, false, false, false, false, false, false, false, false, false)
    else
      Flags(true, false, true, true, false, true, false, true, true, true, true, true, true)
  }

  function PermissionPreset(profile: string): Option<Permissions> {
    match NormalizePermissionProfile(profile)
    case None => None
    case Some(name) => Some(Permissions(name, PresetFlags(name)))
  }

  predicate AllFalse(f: Flags) {
    f == Flags(false, false, false, false, false, false, false, false, false, false, false, false, false)
  }

  function ProfileOrDefault(profile: string): string {
    match NormalizePermissionProfile(profile)
    case None => "balanced"
    case Some(name) => name
  }

  function NormalizePermissions(p: Permissions): Permissions {
    var name := ProfileOrDefault(p.profile);
    if AllFalse(p.ask) then Permissions(name, PresetFlags(name)) else Permissions(name, p.ask)
  }

  // ----- updates -----

  function NormalizeChannel(channel: string): string {
    var name := ToLower(TrimSpace(channel));
    if name == "prerelease" then "prerelease" else if name == "dev" then "dev" else "stable"
  }

  function NormalizeCheckInterval(interval: string, parse: DurationParser): string {
    if Blank(interval) || !ValidTimeoutValue(interval, parse) then "24h" else interval
  }

  /** The prerelease and dev channels force prereleases on; no channel turns them off. */
  function NormalizeUpdates(u: Updates, parse: DurationParser): Updates {
    var channel := NormalizeChannel(u.channel);
    u.(channel := channel,
       includePrereleases := u.includePrereleases || channel != "stable",
       checkInterval := NormalizeCheckInterval(u.checkInterval, parse))
  }

  // ----- the whole configuration -----

  function Filled(value: string, default_: string): string {
    if Blank(value) then default_ else value
  }

  function WithDefaults(cfg: Config, parse: DurationParser): Config {
    Config(
      if cfg.version == 0 then 1 else cfg.version,
      Filled(cfg.logLevel, "info"),
      Filled(cfg.verbosity, "normal"),
      Filled(cfg.plannerModel, "gpt-5-latest"),
      if cfg.workerConcurrencyLimit <= 0 then 2 else cfg.workerConcurrencyLimit,
      cfg.driftWatcherEnabled,
      cfg.repoContractConfirmed,
      NormalizeTimeouts(cfg.timeouts),
      NormalizePermissions(cfg.permissions),
      NormalizeUpdates(cfg.updates, parse),
      cfg.ntfy)
  }

  // ----- fixed points -----

  /** The word `default` up to case and spacing. */
  predicate SpelledDefault(value: string) {
    ToLower(TrimSpace(value)) == "default"
  }

  predicate IsDefaultTimeout(d: string) {
    d in {"2m", "30m", "2h", "unlimited"}
  }

  lemma SpecialTimeoutsAreNormal()
    ensures NormalizeTimeoutValue("") == "" && NormalizeTimeoutValue("unlimited") == "unlimited"
  {
    assert ToLower("") == "" && ToLower("unlimited") == "unlimited";
  }

  lemma TimeoutValueIsIdempotent(value: string)
    ensures NormalizeTimeoutValue(NormalizeTimeoutValue(value)) == NormalizeTimeoutValue(value)
    ensures Blank(NormalizeTimeoutValue(value)) <==> NormalizeTimeoutValue(value) == ""
  {
    SpecialTimeoutsAreNormal();
    LowerTrimIsIdempotent(value);
    LowerKeepsTrimmed(TrimSpace(value));
  }

  lemma DefaultTimeoutIsNormal(d: string)
    requires IsDefaultTimeout(d)
    ensures NormalizeTimeoutValue(d) == d && !Blank(d)
  {
    assert Trimmed(d) && ToLower(d) == d;
  }

  /** One field: a pass leaves the empty string exactly for a value spelled "default", and a
      second pass then puts the real default there. */
  lemma TimeoutFieldPasses(value: string, d: string)
    requires IsDefaultTimeout(d)
    ensures var once := NormalizeTimeout(value, d);
      && (once == "" <==> SpelledDefault(value))
      && NormalizeTimeout(once, d) == (if SpelledDefault(value) then d else once)
      && !SpelledDefault(once)
  {
    TimeoutValueIsIdempotent(value);
    DefaultTimeoutIsNormal(d);
    if Blank(value) {
      assert NormalizeTimeout(value, d) == d;
    } else if !SpelledDefault(value) {
      assert ToLower(TrimSpace(value)) != "";
      LowerTrimIsIdempotent(value);
    }
  }

  predicate AnySpelledDefault(t: Timeouts) {
    || SpelledDefault(t.plannerRequest) || SpelledDefault(t.executorIdle) || SpelledDefault(t.executorTurn)
    || SpelledDefault(t.subagent) || SpelledDefault(t.shellCommand) || SpelledDefault(t.install)
    || SpelledDefault(t.humanWait)
  }

  lemma TimeoutsPasses(t: Timeouts)
    ensures var once := NormalizeTimeouts(t);
      && (NormalizeTimeouts(once) == once <==> !AnySpelledDefault(t))
      && !AnySpelledDefault(once)
  {
    var d := DEFAULT_TIMEOUTS;
    TimeoutFieldPasses(t.plannerRequest, d.plannerRequest);
    TimeoutFieldPasses(t.executorIdle, d.executorIdle);
    TimeoutFieldPasses(t.executorTurn, d.executorTurn);
    TimeoutFieldPasses(t.subagent, d.subagent);
    TimeoutFieldPasses(t.shellCommand, d.shellCommand);
    TimeoutFieldPasses(t.install, d.install);
    TimeoutFieldPasses(t.humanWait, d.humanWait);
  }

  /** Two passes over the timeouts always reach a fixed point. */
  lemma TwoTimeoutPassesSettle(t: Timeouts)
    ensures var twice := NormalizeTimeouts(NormalizeTimeouts(t)); NormalizeTimeouts(twice) == twice
  {
    TimeoutsPasses(t);
    TimeoutsPasses(NormalizeTimeouts(t));
  }

  lemma LowerOfLower(name: string)
    requires name != "" && forall i :: 0 <= i < |name| ==> 'a' <= name[i] <= 'z' || name[i] == '_'
    ensures ToLower(TrimSpace(name)) == name
  {
  }

  lemma ProfileNamesAreNormal()
    ensures forall name | name in {"guided", "balanced", "autonomous", "full_send"} :: ToLower(TrimSpace(name)) == name
  {
    LowerOfLower("guided");
    LowerOfLower("balanced");
    LowerOfLower("autonomous");
    LowerOfLower("full_send");
  }

  lemma ProfileIsIdempotent(profile: string)
    ensures ProfileOrDefault(ProfileOrDefault(profile)) == ProfileOrDefault(profile)
  {
    ProfileNamesAreNormal();
    assert ProfileOrDefault(profile) in {"guided", "balanced", "autonomous", "full_send"};
  }

  lemma PermissionsIdempotent(p: Permissions)
    ensures NormalizePermissions(NormalizePermissions(p)) == NormalizePermissions(p)
    ensures !AllFalse(NormalizePermissions(p).ask)
  {
    ProfileIsIdempotent(p.profile);
    assert PresetFlags(ProfileOrDefault(p.profile)).outsideRepoChanges;
  }

  lemma ChannelIsIdempotent(channel: string)
    ensures NormalizeChannel(NormalizeChannel(channel)) == NormalizeChannel(channel)
  {
    assert NormalizeChannel("prerelease") == "prerelease" && NormalizeChannel("dev") == "dev";
    assert NormalizeChannel("stable") == "stable";
  }

  lemma UpdatesIdempotent(u: Updates, parse: DurationParser)
    requires Sane(parse)
    ensures NormalizeUpdates(NormalizeUpdates(u, parse), parse) == NormalizeUpdates(u, parse)
  {
    DefaultIntervalIsValid(parse);
    ChannelIsIdempotent(u.channel);
  }

  lemma DefaultIntervalIsValid(parse: DurationParser)
    requires Sane(parse)
    ensures ValidTimeoutValue("24h", parse) && !Blank("24h")
  {
    assert NormalizeTimeoutValue("24h") == "24h";
  }

  lemma FilledIsIdempotent(value: string, d: string)
    requires !Blank(d)
    ensures Filled(Filled(value, d), d) == Filled(value, d)
  {
  }

  lemma SettledParts(cfg: Config, parse: DurationParser)
    requires cfg.version != 0 && cfg.workerConcurrencyLimit > 0
    ensures Filled(cfg.logLevel, "info") == cfg.logLevel && Filled(cfg.verbosity, "normal") == cfg.verbosity
      && Filled(cfg.plannerModel, "gpt-5-latest") == cfg.plannerModel
      && NormalizePermissions(cfg.permissions) == cfg.permissions && NormalizeUpdates(cfg.updates, parse) == cfg.updates
      ==> WithDefaults(cfg, parse) == cfg.(timeouts := NormalizeTimeouts(cfg.timeouts))
  {
  }

  lemma TextsSettle(cfg: Config)
    ensures Filled(Filled(cfg.logLevel, "info"), "info") == Filled(cfg.logLevel, "info")
    ensures Filled(Filled(cfg.verbosity, "normal"), "normal") == Filled(cfg.verbosity, "normal")
    ensures Filled(Filled(cfg.plannerModel, "gpt-5-latest"), "gpt-5-latest") == Filled(cfg.plannerModel, "gpt-5-latest")
  {
    assert !Blank("info") && !Blank("normal") && !Blank("gpt-5-latest");
    FilledIsIdempotent(cfg.logLevel, "info");
    FilledIsIdempotent(cfg.verbosity, "normal");
    FilledIsIdempotent(cfg.plannerModel, "gpt-5-latest");
  }

  /** Everything but the timeouts is settled by one application. */
  lemma OneApplicationSettlesTheRest(cfg: Config, parse: DurationParser)
    requires Sane(parse)
    ensures var once := WithDefaults(cfg, parse);
      WithDefaults(once, parse) == once.(timeouts := NormalizeTimeouts(once.timeouts))
  {
    PermissionsIdempotent(cfg.permissions);
    UpdatesIdempotent(cfg.updates, parse);
    TextsSettle(cfg);
    SettledParts(WithDefaults(cfg, parse), parse);
  }

  /** `WithDefaults` is its own fixed point after one application exactly when no timeout is
      spelled "default", and after two applications always. */
  lemma WithDefaultsSettles(cfg: Config, parse: DurationParser)
    requires Sane(parse)
    ensures var once := WithDefaults(cfg, parse); var twice := WithDefaults(once, parse);
      && (twice == once <==> !AnySpelledDefault(cfg.timeouts))
      && WithDefaults(twice, parse) == twice
  {
    var once := WithDefaults(cfg, parse);
    OneApplicationSettlesTheRest(cfg, parse);
    OneApplicationSettlesTheRest(once, parse);
    TimeoutsPasses(cfg.timeouts);
    TwoTimeoutPassesSettle(cfg.timeouts);
  }
}
