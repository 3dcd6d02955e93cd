/** What a configuration looks like after its defaults are filled in, and after a patch: field by
    field and word by word, with nothing said through the functions that compute it. */
module PatchReads {
  import opened Text
  import opened Config
  import opened RuntimeConfig

  function Word(value: string): string {
    ToLower(TrimSpace(value))
  }

  const UNSET := {"", "default"}
  const NO_LIMIT := {"0", "null", "none", "no-limit", "no limit", "unlimited"}

  // ----- timeouts -----

  /** A timeout on which the defaults have settled. */
  predicate SettledTimeout(value: string, default_: string, stored: string) {
    && (Word(value) in UNSET ==> stored == default_)
    && (Word(value) in NO_LIMIT ==> stored == "unlimited")
    && (Word(value) !in UNSET + NO_LIMIT ==> stored == Word(value))
  }

  /** A timeout that is set is stored as its word, or as "unlimited" if it is cleared or says so; one
      that is not keeps what the defaults make of it. */
  predicate TimeoutReads(patch: Option<string>, current: string, default_: string, stored: string) {
    match patch
    case Some(value) => stored == if Word(value) in UNSET + NO_LIMIT then "unlimited" else Word(value)
    case None => SettledTimeout(current, default_, stored)
  }

  predicate TimeoutIsGood(patch: Option<string>, parse: DurationParser) {
    match patch
    case Some(value) =>
      Word(value) in UNSET + NO_LIMIT || (parse(Word(value)).Some? && parse(Word(value)).value > 0)
    case None => true
  }

  lemma WordOfWord(value: string)
    ensures Word(Word(value)) == Word(value)
  {
    LowerTrimIsIdempotent(value);
  }

  lemma KnownWords(word: string)
    requires word in {"", "unlimited", "2m", "30m", "2h"}
    ensures Word(word) == word && (Blank(word) <==> word == "")
  {
    assert Trimmed(word);
    assert ToLower(word) == word;
  }

  lemma BlankWord(value: string)
    ensures Blank(value) <==> Word(value) == ""
  {
  }

  /** One pass of the normaliser over one field. */
  lemma PassReads(value: string, default_: string)
    requires IsDefaultTimeout(default_)
    ensures var stored := NormalizeTimeout(value, default_);
      && (Word(value) == "" ==> stored == default_)
      && (Word(value) == "default" ==> stored == "")
      && (Word(value) in NO_LIMIT ==> stored == "unlimited")
      && (Word(value) !in UNSET + NO_LIMIT ==> stored == Word(value))
  {
    KnownWords(default_);
  }

  /** Two passes settle a field. */
  lemma TwoPassesRead(value: string, default_: string)
    requires IsDefaultTimeout(default_)
    ensures SettledTimeout(value, default_, NormalizeTimeout(NormalizeTimeout(value, default_), default_))
  {
    PassReads(value, default_);
    var once := NormalizeTimeout(value, default_);
    PassReads(once, default_);
    if Word(value) in UNSET {
      KnownWords(default_);
      KnownWords("");
    } else if Word(value) in NO_LIMIT {
      KnownWords("unlimited");
    } else {
      WordOfWord(value);
    }
  }

  lemma SettledAgain(value: string, default_: string, stored: string)
    requires IsDefaultTimeout(default_) && SettledTimeout(value, default_, stored)
    ensures NormalizeTimeout(stored, default_) == stored
  {
    PassReads(stored, default_);
    if Word(value) in UNSET {
      KnownWords(default_);
    } else if Word(value) in NO_LIMIT {
      KnownWords("unlimited");
    } else {
      WordOfWord(value);
    }
  }

  /** A patched timeout after the three passes of a patch. */
  lemma PatchedTimeoutReads(patch: Option<string>, current: string, default_: string)
    requires IsDefaultTimeout(default_)
    ensures
      var before := NormalizeTimeout(current, default_);
      TimeoutReads(patch, current, default_,
                   NormalizeTimeout(NormalizeTimeout(OverlayTimeout(patch, before), default_), default_))
  {
    match patch
    case Some(value) =>
      var set_ := if Word(value) in UNSET + NO_LIMIT then "unlimited" else Word(value);
      assert OverlayTimeout(patch, NormalizeTimeout(current, default_)) == set_;
      WordOfWord(value);
      KnownWords("unlimited");
      PassReads(set_, default_);
    case None =>
      TwoPassesRead(current, default_);
      SettledAgain(current, default_, NormalizeTimeout(NormalizeTimeout(current, default_), default_));
  }

  /** The seven timeouts after a patch, each with its own default. */
  predicate TimeoutsRead(p: TimeoutPatch, t: Timeouts, stored: Timeouts) {
    && TimeoutReads(p.plannerRequest, t.plannerRequest, "2m", stored.plannerRequest)
    && TimeoutReads(p.executorIdle, t.executorIdle, "unlimited", stored.executorIdle)
    && TimeoutReads(p.executorTurn, t.executorTurn, "unlimited", stored.executorTurn)
    && TimeoutReads(p.subagent, t.subagent, "unlimited", stored.subagent)
    && TimeoutReads(p.shellCommand, t.shellCommand, "30m", stored.shellCommand)
    && TimeoutReads(p.install, t.install, "2h", stored.install)
    && TimeoutReads(p.humanWait, t.humanWait, "unlimited", stored.humanWait)
  }

  lemma PatchedTimeoutsRead(p: TimeoutPatch, t: Timeouts)
    ensures TimeoutsRead(p, t, NormalizeTimeouts(NormalizeTimeouts(OverlayTimeouts(p, NormalizeTimeouts(t)))))
  {
    PatchedTimeoutReads(p.plannerRequest, t.plannerRequest, "2m");
    PatchedTimeoutReads(p.executorIdle, t.executorIdle, "unlimited");
    PatchedTimeoutReads(p.executorTurn, t.executorTurn, "unlimited");
    PatchedTimeoutReads(p.subagent, t.subagent, "unlimited");
    PatchedTimeoutReads(p.shellCommand, t.shellCommand, "30m");
    PatchedTimeoutReads(p.install, t.install, "2h");
    PatchedTimeoutReads(p.humanWait, t.humanWait, "unlimited");
  }

  // ----- permissions -----

  const FULL_SEND := {"full_send", "full-send", "full send", "lab", "lab_mode", "lab-mode", "lab mode"}

  /** The profile a name stands for. */
  predicate ProfileReads(value: string, profile: Option<string>) {
    var word := Word(value);
    && (word in {"", "balanced"} ==> profile == Some("balanced"))
    && (word in {"guided", "autonomous"} ==> profile == Some(word))
    && (word in FULL_SEND ==> profile == Some("full_send"))
    && (word !in {"", "balanced", "guided", "autonomous"} + FULL_SEND ==> profile == None)
  }

  lemma ProfilesRead(value: string)
    ensures ProfileReads(value, NormalizePermissionProfile(value))
    ensures ProfileOrDefault(value)
         == if ProfileReads(value, None) then "balanced" else NormalizePermissionProfile(value).value
  {
  }

  /** What each profile asks about. */
  lemma PresetsRead()
    ensures PresetFlags("guided")
         == Flags(installingPrograms := true, installingDependencies := true, outsideRepoChanges := true,
                  deletingFiles := true, runningTests := true, emulatorTesting := true, networkCalls := true,
                  gitCommits := true, gitPushes := true, updaterInstalls := true, workerParallelism := true,
                  executorSteering := true, plannerDirection := true)
    ensures PresetFlags("balanced")
         == PresetFlags("guided").(installingDependencies := false, runningTests := false, networkCalls := false)
    ensures PresetFlags("full_send")
         == Flags(outsideRepoChanges := true, installingPrograms := false, installingDependencies := false,
                  deletingFiles := false, runningTests := false, emulatorTesting := false, networkCalls := false,
                  gitCommits := false, gitPushes := false, updaterInstalls := false, workerParallelism := false,
                  executorSteering := false, plannerDirection := false)
    ensures PresetFlags("autonomous")
         == PresetFlags("full_send").(deletingFiles := true, gitPushes := true, updaterInstalls := true,
                                      plannerDirection := true)
  {
  }

  predicate FlagReads(patch: Option<bool>, current: bool, stored: bool) {
    stored == match patch case Some(value) => value case None => current
  }

  /** The thirteen flags with a patch over them. */
  predicate WorkFlagsRead(p: FlagsPatch, current: Flags, stored: Flags) {
    && FlagReads(p.installingPrograms, current.installingPrograms, stored.installingPrograms)
    && FlagReads(p.installingDependencies, current.installingDependencies, stored.installingDependencies)
    && FlagReads(p.outsideRepoChanges, current.outsideRepoChanges, stored.outsideRepoChanges)
    && FlagReads(p.deletingFiles, current.deletingFiles, stored.deletingFiles)
    && FlagReads(p.runningTests, current.runningTests, stored.runningTests)
  }

  predicate ReachFlagsRead(p: FlagsPatch, current: Flags, stored: Flags) {
    && FlagReads(p.emulatorTesting, current.emulatorTesting, stored.emulatorTesting)
    && FlagReads(p.networkCalls, current.networkCalls, stored.networkCalls)
    && FlagReads(p.gitCommits, current.gitCommits, stored.gitCommits)
    && FlagReads(p.gitPushes, current.gitPushes, stored.gitPushes)
  }

  predicate ControlFlagsRead(p: FlagsPatch, current: Flags, stored: Flags) {
    && FlagReads(p.updaterInstalls, current.updaterInstalls, stored.updaterInstalls)
    && FlagReads(p.workerParallelism, current.workerParallelism, stored.workerParallelism)
    && FlagReads(p.executorSteering, current.executorSteering, stored.executorSteering)
    && FlagReads(p.plannerDirection, current.plannerDirection, stored.plannerDirection)
  }

  predicate FlagsRead(p: FlagsPatch, current: Flags, stored: Flags) {
    WorkFlagsRead(p, current, stored) && ReachFlagsRead(p, current, stored) && ControlFlagsRead(p, current, stored)
  }

  /** No flag is on. */
  predicate AsksNothing(f: Flags) {
    !(f.installingPrograms || f.installingDependencies || f.outsideRepoChanges || f.deletingFiles || f.runningTests
      || f.emulatorTesting || f.networkCalls || f.gitCommits || f.gitPushes || f.updaterInstalls
      || f.workerParallelism || f.executorSteering || f.plannerDirection)
  }

  /** Permissions with the defaults filled in: a known profile, and its preset if nothing is asked. */
  predicate PermissionsRead(current: Permissions, stored: Permissions) {
    && (if ProfileReads(current.profile, None) then stored.profile == "balanced"
        else ProfileReads(current.profile, Some(stored.profile)))
    && stored.ask == if AsksNothing(current.ask) then PresetFlags(stored.profile) else current.ask
  }

  lemma NormalPermissionsRead(current: Permissions)
    ensures PermissionsRead(current, NormalizePermissions(current))
    ensures NormalizePermissions(current).profile in {"guided", "balanced", "autonomous", "full_send"}
  {
    ProfilesRead(current.profile);
  }

  /** A patch starts from the preset of the profile it names, or from what is there with the defaults
      filled in; it sets the flags it has, and if that leaves none on, the preset takes their place. */
  predicate PermissionsPatched(
    profile: Option<string>, p: FlagsPatch, current: Permissions, from: Permissions, wanted: Flags, stored: Permissions)
  {
    && (match profile
        case Some(name) => ProfileReads(name, Some(from.profile)) && from.ask == PresetFlags(from.profile)
        case None => PermissionsRead(current, from))
    && FlagsRead(p, from.ask, wanted)
    && stored == Permissions(from.profile, if AsksNothing(wanted) then PresetFlags(from.profile) else wanted)
  }

  lemma OverlaidWorkFlags(p: FlagsPatch, current: Flags)
    ensures WorkFlagsRead(p, current, OverlayFlags(p, current))
  {
  }

  lemma OverlaidReachFlags(p: FlagsPatch, current: Flags)
    ensures ReachFlagsRead(p, current, OverlayFlags(p, current))
  {
  }

  lemma OverlaidControlFlags(p: FlagsPatch, current: Flags)
    ensures ControlFlagsRead(p, current, OverlayFlags(p, current))
  {
  }

  lemma OverlaidFlagsRead(p: FlagsPatch, current: Flags)
    ensures FlagsRead(p, current, OverlayFlags(p, current))
  {
    OverlaidWorkFlags(p, current);
    OverlaidReachFlags(p, current);
    OverlaidControlFlags(p, current);
  }

  lemma NoFlagsOverlay(current: Flags)
    ensures OverlayFlags(NO_FLAGS, current) == current
  {
  }

  lemma PresetIsNormal(profile: string)
    requires profile in {"guided", "balanced", "autonomous", "full_send"}
    ensures var preset := Permissions(profile, PresetFlags(profile)); NormalizePermissions(preset) == preset
  {
    ProfileNamesAreNormal();
  }

  lemma NormalProfileStays(profile: string, ask: Flags)
    requires profile in {"guided", "balanced", "autonomous", "full_send"}
    ensures NormalizePermissions(Permissions(profile, ask))
         == Permissions(profile, if AsksNothing(ask) then PresetFlags(profile) else ask)
  {
    ProfileNamesAreNormal();
  }

  lemma PatchedPermissionsRead(p: Patch, current: Permissions) returns (from: Permissions, wanted: Flags)
    requires p.permissionProfile.Some? ==> PermissionPreset(p.permissionProfile.value).Some?
    ensures PermissionsPatched(p.permissionProfile, p.permissions, current, from, wanted,
                               PatchedPermissions(p, current))
  {
    var chosen := match p.permissionProfile
      case Some(name) => PermissionPreset(name).value
      case None => current;
    from := NormalizePermissions(chosen);
    wanted := OverlayFlags(p.permissions, from.ask);
    match p.permissionProfile {
      case Some(name) =>
        ProfilesRead(name);
        PresetIsNormal(chosen.profile);
      case None =>
        NormalPermissionsRead(current);
    }
    OverlaidFlagsRead(p.permissions, from.ask);
    NoFlagsOverlay(from.ask);
    NormalProfileStays(from.profile, wanted);
  }

  // ----- updates -----

  predicate ChannelReads(given: string, stored: string) {
    stored == if Word(given) in {"prerelease", "dev"} then Word(given) else "stable"
  }

  /** A check interval is kept as it is spelled if it is a positive duration or lifts the limit. */
  predicate IntervalReads(given: string, parse: DurationParser, stored: string) {
    var good := && Word(given) != ""
                && (|| Word(given) in {"default"} + NO_LIMIT
                    || (parse(Word(given)).Some? && parse(Word(given)).value > 0));
    stored == if good then given else "24h"
  }

  predicate IsSet(patch: Option<bool>, current: bool) {
    patch == Some(true) || (patch == None && current)
  }

  /** A channel other than stable, before the patch or after it, asks for prereleases; the patch can
      take back only what the one before asked for. */
  predicate ChannelsRead(p: UpdatePatch, u: Updates, stored: Updates) {
    && ChannelReads(if p.channel.Some? then p.channel.value else u.channel, stored.channel)
    && stored.includePrereleases
       == (|| IsSet(p.includePrereleases, u.includePrereleases || !ChannelReads(u.channel, "stable"))
           || stored.channel != "stable")
  }

  /** The update settings after a patch: what it has, else what is there. */
  predicate UpdatesRead(p: UpdatePatch, u: Updates, parse: DurationParser, stored: Updates) {
    && ChannelsRead(p, u, stored)
    && stored.autoCheck == IsSet(p.autoCheck, u.autoCheck)
    && stored.autoDownload == IsSet(p.autoDownload, u.autoDownload)
    && stored.autoInstall == IsSet(p.autoInstall, u.autoInstall)
    && stored.askBeforeUpdate == IsSet(p.askBeforeUpdate, u.askBeforeUpdate)
    && IntervalReads(if p.checkInterval.Some? then p.checkInterval.value else u.checkInterval, parse,
                     stored.checkInterval)
    && stored.lastCheckAt == u.lastCheckAt
    && stored.lastSeenVersion == u.lastSeenVersion
    && stored.lastInstalledVersion == u.lastInstalledVersion
    && (match p.skippedVersions
        case Some(versions) => stored.skippedVersions == if versions == [] then None else Some(versions)
        case None => stored.skippedVersions == u.skippedVersions)
  }

  /** What a value is normalised to, and which values are good. */
  lemma ValueReads(value: string, parse: DurationParser)
    ensures NormalizeTimeoutValue(value)
         == if Word(value) in UNSET then "" else if Word(value) in NO_LIMIT then "unlimited" else Word(value)
    ensures ValidTimeoutValue(value, parse)
      <==> Word(value) in UNSET + NO_LIMIT || (parse(Word(value)).Some? && parse(Word(value)).value > 0)
  {
  }

  lemma NormalIntervalReads(given: string, parse: DurationParser)
    ensures IntervalReads(given, parse, NormalizeCheckInterval(given, parse))
  {
    ValueReads(given, parse);
    BlankWord(given);
  }

  lemma IntervalIsIdempotent(given: string, parse: DurationParser)
    requires Sane(parse)
    ensures var once := NormalizeCheckInterval(given, parse); NormalizeCheckInterval(once, parse) == once
  {
    DefaultIntervalIsValid(parse);
  }

  lemma NormalChannelReads(given: string)
    ensures ChannelReads(given, NormalizeChannel(given))
    ensures NormalizeChannel(TrimSpace(given)) == NormalizeChannel(given)
  {
    ChannelIsIdempotent(given);
  }

  lemma PatchedChannelsRead(p: UpdatePatch, u: Updates, parse: DurationParser, before: Updates, stored: Updates)
    requires before == NormalizeUpdates(u, parse) && stored == NormalizeUpdates(OverlayUpdates(p, before), parse)
    ensures ChannelsRead(p, u, stored)
  {
    NormalChannelReads(u.channel);
    ChannelIsIdempotent(u.channel);
    if p.channel.Some? {
      NormalChannelReads(p.channel.value);
    }
  }

  lemma PatchedIntervalReads(p: UpdatePatch, u: Updates, parse: DurationParser, before: Updates, stored: Updates)
    requires Sane(parse)
    requires before == NormalizeUpdates(u, parse) && stored == NormalizeUpdates(OverlayUpdates(p, before), parse)
    ensures IntervalReads(if p.checkInterval.Some? then p.checkInterval.value else u.checkInterval, parse,
                          stored.checkInterval)
  {
    NormalIntervalReads(u.checkInterval, parse);
    IntervalIsIdempotent(u.checkInterval, parse);
    if p.checkInterval.Some? {
      NormalIntervalReads(p.checkInterval.value, parse);
    }
  }

  lemma PatchedUpdatesRead(p: UpdatePatch, u: Updates, parse: DurationParser)
    requires Sane(parse)
    ensures UpdatesRead(p, u, parse,
      NormalizeUpdates(NormalizeUpdates(OverlayUpdates(p, NormalizeUpdates(u, parse)), parse), parse))
  {
    var before := NormalizeUpdates(u, parse);
    var overlaid := OverlayUpdates(p, before);
    var stored := NormalizeUpdates(overlaid, parse);
    UpdatesIdempotent(overlaid, parse);
    PatchedChannelsRead(p, u, parse, before, stored);
    PatchedIntervalReads(p, u, parse, before, stored);
  }

  // ----- the whole patch -----

  predicate VerbosityReads(given: string, stored: Option<string>) {
    var word := Word(given);
    && (word in {"", "normal"} ==> stored == Some("normal"))
    && (word in {"quiet", "verbose", "trace"} ==> stored == Some(word))
    && (word !in {"", "normal", "quiet", "verbose", "trace"} ==> stored == None)
  }

  /** A text setting with its default. */
  predicate TextReads(given: string, default_: string, stored: string) {
    stored == if Word(given) == "" then default_ else given
  }

  predicate NTFYReads(patch: Option<string>, current: string, stored: string) {
    stored == match patch case Some(value) => TrimSpace(value) case None => current
  }

  predicate SetsATimeout(p: TimeoutPatch) {
    || p.plannerRequest.Some? || p.executorIdle.Some? || p.executorTurn.Some? || p.subagent.Some?
    || p.shellCommand.Some? || p.install.Some? || p.humanWait.Some?
  }

  predicate SetsAFlag(p: FlagsPatch) {
    || p.installingPrograms.Some? || p.installingDependencies.Some? || p.outsideRepoChanges.Some?
    || p.deletingFiles.Some? || p.runningTests.Some? || p.emulatorTesting.Some? || p.networkCalls.Some?
    || p.gitCommits.Some? || p.gitPushes.Some? || p.updaterInstalls.Some? || p.workerParallelism.Some?
    || p.executorSteering.Some? || p.plannerDirection.Some?
  }

  predicate SetsAnUpdate(p: UpdatePatch) {
    || p.channel.Some? || p.autoCheck.Some? || p.autoDownload.Some? || p.autoInstall.Some?
    || p.askBeforeUpdate.Some? || p.includePrereleases.Some? || p.checkInterval.Some? || p.skippedVersions.Some?
  }

  /** A patch is one if it sets anything. */
  lemma ChangesRead(p: Patch)
    ensures SetsATimeout(p.timeouts) <==> p.timeouts != NO_TIMEOUTS
    ensures SetsAFlag(p.permissions) <==> p.permissions != NO_FLAGS
    ensures SetsAnUpdate(p.updates) <==> p.updates != NO_UPDATES
    ensures HasChanges(p)
      <==> || p.verbosity.Some? || p.permissionProfile.Some? || SetsATimeout(p.timeouts) || SetsAFlag(p.permissions)
           || SetsAnUpdate(p.updates)
           || p.ntfy.serverURL.Some? || p.ntfy.topic.Some? || p.ntfy.authToken.Some?
  {
  }

  /** Exactly these patches are accepted. */
  lemma AcceptableReads(p: Patch, parse: DurationParser)
    ensures Acceptable(p, parse)
      <==> && (p.verbosity.Some? ==> !VerbosityReads(p.verbosity.value, None))
           && TimeoutIsGood(p.timeouts.plannerRequest, parse) && TimeoutIsGood(p.timeouts.executorIdle, parse)
           && TimeoutIsGood(p.timeouts.executorTurn, parse) && TimeoutIsGood(p.timeouts.subagent, parse)
           && TimeoutIsGood(p.timeouts.shellCommand, parse) && TimeoutIsGood(p.timeouts.install, parse)
           && TimeoutIsGood(p.timeouts.humanWait, parse)
           && (p.permissionProfile.Some? ==> !ProfileReads(p.permissionProfile.value, None))
  {
    AcceptedTimeoutReads(p.timeouts.plannerRequest, parse);
    AcceptedTimeoutReads(p.timeouts.executorIdle, parse);
    AcceptedTimeoutReads(p.timeouts.executorTurn, parse);
    AcceptedTimeoutReads(p.timeouts.subagent, parse);
    AcceptedTimeoutReads(p.timeouts.shellCommand, parse);
    AcceptedTimeoutReads(p.timeouts.install, parse);
    AcceptedTimeoutReads(p.timeouts.humanWait, parse);
    if p.permissionProfile.Some? {
      ProfilesRead(p.permissionProfile.value);
    }
  }

  lemma AcceptedTimeoutReads(patch: Option<string>, parse: DurationParser)
    ensures AcceptsTimeout(patch, parse) <==> TimeoutIsGood(patch, parse)
  {
    match patch
    case Some(value) =>
      var set_ := if Word(value) in UNSET + NO_LIMIT then "unlimited" else Word(value);
      ValueReads(value, parse);
      assert PatchedTimeout(value) == set_;
      KnownWords("unlimited");
      WordOfWord(value);
      ValueReads(set_, parse);
    case None =>
  }

  /** The settings no patch reaches, with their defaults. */
  predicate OtherSettingsRead(cfg: Config, stored: Config) {
    && stored.version == (if cfg.version == 0 then 1 else cfg.version)
    && TextReads(cfg.logLevel, "info", stored.logLevel)
    && TextReads(cfg.plannerModel, "gpt-5-latest", stored.plannerModel)
    && stored.workerConcurrencyLimit == (if cfg.workerConcurrencyLimit > 0 then cfg.workerConcurrencyLimit else 2)
    && stored.driftWatcherEnabled == cfg.driftWatcherEnabled
    && stored.repoContractConfirmed == cfg.repoContractConfirmed
  }

  lemma VerbosityIsRead(given: string)
    ensures VerbosityReads(given, NormalizeVerbosity(given))
    ensures NormalizeVerbosity(given).Some? ==> !Blank(NormalizeVerbosity(given).value)
  {
    assert Trimmed("normal");
  }

  predicate VerbosityPatched(patch: Option<string>, current: string, stored: string) {
    match patch
    case Some(given) => VerbosityReads(given, Some(stored))
    case None => TextReads(current, "normal", stored)
  }

  predicate NTFYPatched(p: NTFYPatch, current: NTFY, stored: NTFY) {
    && NTFYReads(p.serverURL, current.serverURL, stored.serverURL)
    && NTFYReads(p.topic, current.topic, stored.topic)
    && NTFYReads(p.authToken, current.authToken, stored.authToken)
  }

  lemma PatchedVerbosityReads(patch: Option<string>, current: string)
    requires patch.Some? ==> NormalizeVerbosity(patch.value).Some?
    ensures VerbosityPatched(patch, current,
      Filled(if patch.Some? then NormalizeVerbosity(patch.value).value else current, "normal"))
  {
    if patch.Some? {
      VerbosityIsRead(patch.value);
    }
  }

  lemma OtherSettingsAreRead(cfg: Config, stored: Config)
    requires UnpatchedFields(cfg, stored)
    ensures OtherSettingsRead(cfg, stored)
  {
    BlankWord(cfg.logLevel);
    BlankWord(cfg.plannerModel);
  }

  /** Field by field, what an accepted patch leaves: every setting it has with the value it gives,
      and every other one as it was, with the defaults filled in. */
  lemma PatchStores(cfg: Config, p: Patch, parse: DurationParser, stored: Config)
    returns (from: Permissions, wanted: Flags)
    requires Sane(parse) && Acceptable(p, parse) && HasChanges(p) && stored == Patched(cfg, p, parse)
    ensures OtherSettingsRead(cfg, stored)
    ensures VerbosityPatched(p.verbosity, cfg.verbosity, stored.verbosity)
    ensures TimeoutsRead(p.timeouts, cfg.timeouts, stored.timeouts)
    ensures PermissionsPatched(p.permissionProfile, p.permissions, cfg.permissions, from, wanted, stored.permissions)
    ensures UpdatesRead(p.updates, cfg.updates, parse, stored.updates)
    ensures NTFYPatched(p.ntfy, cfg.ntfy, stored.ntfy)
  {
    PatchedByField(cfg, p, parse);
    OtherSettingsAreRead(cfg, stored);
    PatchedVerbosityReads(p.verbosity, cfg.verbosity);
    from, wanted := PatchedPermissionsRead(p, cfg.permissions);
    PatchedTimeoutsRead(p.timeouts, cfg.timeouts);
    PatchedUpdatesRead(p.updates, cfg.updates, parse);
  }

  // ----- the defaults -----

  /** One pass over a timeout: the word `default` leaves it empty. */
  predicate TimeoutOnce(value: string, default_: string, stored: string) {
    if Word(value) == "default" then stored == "" else SettledTimeout(value, default_, stored)
  }

  predicate TimeoutsOnce(t: Timeouts, stored: Timeouts) {
    && TimeoutOnce(t.plannerRequest, "2m", stored.plannerRequest)
    && TimeoutOnce(t.executorIdle, "unlimited", stored.executorIdle)
    && TimeoutOnce(t.executorTurn, "unlimited", stored.executorTurn)
    && TimeoutOnce(t.subagent, "unlimited", stored.subagent)
    && TimeoutOnce(t.shellCommand, "30m", stored.shellCommand)
    && TimeoutOnce(t.install, "2h", stored.install)
    && TimeoutOnce(t.humanWait, "unlimited", stored.humanWait)
  }

  lemma TimeoutOnceReads(value: string, default_: string)
    requires IsDefaultTimeout(default_)
    ensures TimeoutOnce(value, default_, NormalizeTimeout(value, default_))
  {
    PassReads(value, default_);
  }

  lemma TimeoutsOnceRead(t: Timeouts)
    ensures TimeoutsOnce(t, NormalizeTimeouts(t))
  {
    TimeoutOnceReads(t.plannerRequest, "2m");
    TimeoutOnceReads(t.executorIdle, "unlimited");
    TimeoutOnceReads(t.executorTurn, "unlimited");
    TimeoutOnceReads(t.subagent, "unlimited");
    TimeoutOnceReads(t.shellCommand, "30m");
    TimeoutOnceReads(t.install, "2h");
    TimeoutOnceReads(t.humanWait, "unlimited");
  }

  lemma NormalUpdatesRead(u: Updates, parse: DurationParser)
    ensures ChannelsRead(NO_UPDATES, u, NormalizeUpdates(u, parse))
    ensures IntervalReads(u.checkInterval, parse, NormalizeUpdates(u, parse).checkInterval)
  {
    NormalChannelReads(u.channel);
    NormalIntervalReads(u.checkInterval, parse);
  }

  /** Field by field, what filling in the defaults leaves. */
  lemma DefaultsRead(cfg: Config, parse: DurationParser)
    ensures var stored := WithDefaults(cfg, parse);
      && OtherSettingsRead(cfg, stored)
      && TextReads(cfg.verbosity, "normal", stored.verbosity)
      && TimeoutsOnce(cfg.timeouts, stored.timeouts)
      && PermissionsRead(cfg.permissions, stored.permissions)
      && ChannelsRead(NO_UPDATES, cfg.updates, stored.updates)
      && IntervalReads(cfg.updates.checkInterval, parse, stored.updates.checkInterval)
      && stored.updates == cfg.updates.(channel := stored.updates.channel,
                                        includePrereleases := stored.updates.includePrereleases,
                                        checkInterval := stored.updates.checkInterval)
      && stored.ntfy == cfg.ntfy
  {
    TimeoutsOnceRead(cfg.timeouts);
    NormalPermissionsRead(cfg.permissions);
    NormalUpdatesRead(cfg.updates, parse);
  }

  // ----- the file -----

  /** A file that is not there is no error; one that cannot be read, or has no version, is. */
  lemma LoadReads(content: FileContent, parse: DurationParser)
    ensures var r := Load(content, parse);
      && (r == NotExist <==> content == Missing)
      && (r == LoadFailed <==> content == Broken || (content.Json? && content.cfg.version == 0))
      && (r.Loaded? ==> content.Json? && r.cfg == WithDefaults(content.cfg, parse))
  {
  }
}
