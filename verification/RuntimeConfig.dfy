/** The runtime configuration manager: patches, persistence and reload.  A config file holds
    what JSON keeps of a configuration; everything but an empty slice survives. */
module RuntimeConfig {
  import opened Text
  import opened Config

  // ----- patches -----

  datatype TimeoutPatch = TimeoutPatch(
    plannerRequest: Option<string>, executorIdle: Option<string>, executorTurn: Option<string>,
    subagent: Option<string>,
    shellCommand: Option<string>, install: Option<string>, humanWait: Option<string>)

  datatype FlagsPatch = FlagsPatch(
    installingPrograms: Option<bool>, installingDependencies: Option<bool>, outsideRepoChanges: Option<bool>,
    deletingFiles: Option<bool>, runningTests: Option<bool>, emulatorTesting: Option<bool>, networkCalls: Option<bool>,
    gitCommits: Option<bool>, gitPushes: Option<bool>, updaterInstalls: Option<bool>, workerParallelism: Option<bool>,
    executorSteering: Option<bool>, plannerDirection: Option<bool>)

  datatype UpdatePatch = UpdatePatch(
    channel: Option<string>, autoCheck: Option<bool>, autoDownload: Option<bool>, autoInstall: Option<bool>,
    askBeforeUpdate: Option<bool>, includePrereleases: Option<bool>, checkInterval: Option<string>,
    skippedVersions: Option<seq<string>>)

  datatype NTFYPatch = NTFYPatch(serverURL: Option<string>, topic: Option<string>, authToken: Option<string>)

  datatype Patch = Patch(
    verbosity: Option<string>, timeouts: TimeoutPatch, permissionProfile: Option<string>, permissions: FlagsPatch,
    updates: UpdatePatch, ntfy: NTFYPatch)

  const NO_TIMEOUTS := TimeoutPatch(None, None, None, None, None, None, None)
  const NO_FLAGS := FlagsPatch(None, None, None, None, None, None, None, None, None, None, None, None, None)
  const NO_UPDATES := UpdatePatch(None, None, None, None, None, None, None, None)
  const NO_NTFY := NTFYPatch(None, None, None)

  predicate HasChanges(p: Patch) {
    p != Patch(None, NO_TIMEOUTS, None, NO_FLAGS, NO_UPDATES, NO_NTFY)
  }

  function Or<T>(patch: Option<T>, current: T): T {
    if patch.Some? then patch.value else current
  }

  // ----- applying a patch -----

  function NormalizeVerbosity(value: string): Option<string> {
    var name := ToLower(TrimSpace(value));
    if name in {"", "normal"} then Some("normal")
    else if name in {"quiet", "verbose", "trace"} then Some(name)
    else None
  }

  /** A patched timeout; clearing one (blank or "default") means unlimited. */
  function PatchedTimeout(value: string): string {
    var normalized := NormalizeTimeoutValue(value);
    if normalized == "" then "unlimited" else normalized
  }

  predicate AcceptsTimeout(patch: Option<string>, parse: DurationParser) {
    patch.Some? ==> ValidTimeoutValue(PatchedTimeout(patch.value), parse)
  }

  predicate AcceptsTimeouts(p: TimeoutPatch, parse: DurationParser) {
    && AcceptsTimeout(p.plannerRequest, parse) && AcceptsTimeout(p.executorIdle, parse)
    && AcceptsTimeout(p.executorTurn, parse) && AcceptsTimeout(p.subagent, parse)
    && AcceptsTimeout(p.shellCommand, parse) && AcceptsTimeout(p.install, parse)
    && AcceptsTimeout(p.humanWait, parse)
  }

  function OverlayTimeout(patch: Option<string>, current: string): string {
    if patch.Some? then PatchedTimeout(patch.value) else current
  }

  function OverlayTimeouts(p: TimeoutPatch, t: Timeouts): Timeouts {
    Timeouts(
      OverlayTimeout(p.plannerRequest, t.plannerRequest),
      OverlayTimeout(p.executorIdle, t.executorIdle),
      OverlayTimeout(p.executorTurn, t.executorTurn),
      OverlayTimeout(p.subagent, t.subagent),
      OverlayTimeout(p.shellCommand, t.shellCommand),
      OverlayTimeout(p.install, t.install),
      OverlayTimeout(p.humanWait, t.humanWait))
  }

  function OverlayFlags(p: FlagsPatch, f: Flags): Flags {
    Flags(
      Or(p.installingPrograms, f.installingPrograms), Or(p.installingDependencies, f.installingDependencies),
      Or(p.outsideRepoChanges, f.outsideRepoChanges), Or(p.deletingFiles, f.deletingFiles),
      Or(p.runningTests, f.runningTests), Or(p.emulatorTesting, f.emulatorTesting),
      Or(p.networkCalls, f.networkCalls), Or(p.gitCommits, f.gitCommits), Or(p.gitPushes, f.gitPushes),
      Or(p.updaterInstalls, f.updaterInstalls), Or(p.workerParallelism, f.workerParallelism),
      Or(p.executorSteering, f.executorSteering), Or(p.plannerDirection, f.plannerDirection))
  }

  function OverlayPermissions(profile: Option<string>, p: FlagsPatch, current: Permissions): Permissions
    requires profile.Some? ==> PermissionPreset(profile.value).Some?
  {
    var chosen := if profile.Some? then PermissionPreset(profile.value).value else current;
    if p == NO_FLAGS then chosen
    else
      var normal := NormalizePermissions(chosen);
      normal.(ask := OverlayFlags(p, normal.ask))
  }

  function OverlayUpdates(p: UpdatePatch, u: Updates): Updates {
    u.(channel := if p.channel.Some? then TrimSpace(p.channel.value) else u.channel,
       autoCheck := Or(p.autoCheck, u.autoCheck),
       autoDownload := Or(p.autoDownload, u.autoDownload),
       autoInstall := Or(p.autoInstall, u.autoInstall),
       askBeforeUpdate := Or(p.askBeforeUpdate, u.askBeforeUpdate),
       includePrereleases := Or(p.includePrereleases, u.includePrereleases),
       checkInterval := Or(p.checkInterval, u.checkInterval),
       skippedVersions := if p.skippedVersions.Some? then CopiedSlice(p.skippedVersions.value) else u.skippedVersions)
  }

  /** `append([]string(nil), xs...)`: copying an empty slice gives nil. */
  function CopiedSlice(xs: seq<string>): Option<seq<string>> {
    if xs == [] then None else Some(xs)
  }

  function OverlayNTFY(p: NTFYPatch, n: NTFY): NTFY {
    NTFY(
      if p.serverURL.Some? then TrimSpace(p.serverURL.value) else n.serverURL,
      if p.topic.Some? then TrimSpace(p.topic.value) else n.topic,
      if p.authToken.Some? then TrimSpace(p.authToken.value) else n.authToken)
  }

  predicate Acceptable(p: Patch, parse: DurationParser) {
    && (p.verbosity.Some? ==> NormalizeVerbosity(p.verbosity.value).Some?)
    && AcceptsTimeouts(p.timeouts, parse)
    && (p.permissionProfile.Some? ==> PermissionPreset(p.permissionProfile.value).Some?)
  }

  /** The configuration after a patch, before the final `WithDefaults`. */
  function Overlay(cfg: Config, p: Patch, parse: DurationParser): Config
    requires Acceptable(p, parse)
  {
    cfg.(verbosity := if p.verbosity.Some? then NormalizeVerbosity(p.verbosity.value).value else cfg.verbosity,
         timeouts := NormalizeTimeouts(OverlayTimeouts(p.timeouts, NormalizeTimeouts(cfg.timeouts))),
         permissions := OverlayPermissions(p.permissionProfile, p.permissions, cfg.permissions),
         updates := NormalizeUpdates(OverlayUpdates(p.updates, NormalizeUpdates(cfg.updates, parse)), parse),
         ntfy := OverlayNTFY(p.ntfy, cfg.ntfy))
  }

  function Patched(cfg: Config, p: Patch, parse: DurationParser): Config
    requires Acceptable(p, parse)
  {
    if HasChanges(p) then WithDefaults(Overlay(cfg, p, parse), parse) else cfg
  }

  // ----- the file -----

  datatype FileContent = Missing | Broken | Json(cfg: Config)

  /** What a JSON round trip keeps: an empty slice is omitted and comes back as nil. */
  function ThroughJson(cfg: Config): Config {
    if cfg.updates.skippedVersions == Some([]) then cfg.(updates := cfg.updates.(skippedVersions := None)) else cfg
  }

  datatype LoadResult = Loaded(cfg: Config) | NotExist | LoadFailed

  function Load(content: FileContent, parse: DurationParser): LoadResult {
    match content
    case Missing => NotExist
    case Broken => LoadFailed
    case Json(cfg) => if cfg.version == 0 then LoadFailed else Loaded(WithDefaults(cfg, parse))
  }

  function Saved(cfg: Config, parse: DurationParser): FileContent {
    Json(ThroughJson(WithDefaults(cfg, parse)))
  }

  class ConfigFile {
    var content: FileContent
  }

  // ----- the manager -----

  datatype Refusal = BadVerbosity | BadTimeout | BadProfile | SaveFailed | ReloadFailed

  datatype Answer = Accepted(cfg: Config, changed: bool) | Refused(why: Refusal)

  class Manager {
    const path: string
    const parse: DurationParser
    const file: ConfigFile
    var cfg: Config

    constructor (path: string, parse: DurationParser, file: ConfigFile, initial: Config)
      ensures cfg == WithDefaults(initial, parse)
      ensures this.path == TrimSpace(path) && this.parse == parse && this.file == file
    {
      this.path := TrimSpace(path);
      this.parse := parse;
      this.file := file;
      cfg := WithDefaults(initial, parse);
    }

    /** Writes the file, unless there is no path; a failing write may leave anything behind. */
    method Persist(what: Config, succeeds: bool, wreck: FileContent) returns (ok: bool)
      modifies file
      ensures ok == (Blank(path) || succeeds)
      ensures file.content == if Blank(path) then old(file.content) else if succeeds then Saved(what, parse) else wreck
    {
      if TrimSpace(path) == "" {
        return true;
      }
      file.content := if succeeds then Saved(what, parse) else wreck;
      return succeeds;
    }

    /** All or nothing on invalid input; otherwise memory has the patched configuration and the
        file what was saved of it.  A failed save is reported but not undone in memory. */
    method ApplyPatch(p: Patch, saveSucceeds: bool, wreck: FileContent) returns (r: Answer)
      modifies this, file
      ensures !HasChanges(p) ==> cfg == old(cfg) && file.content == old(file.content) && r == Accepted(cfg, false)
      ensures HasChanges(p) && !Acceptable(p, parse) ==>
        && cfg == old(cfg) && file.content == old(file.content)
        && r == Refused(if p.verbosity.Some? && NormalizeVerbosity(p.verbosity.value) == None then BadVerbosity
                        else if !AcceptsTimeouts(p.timeouts, parse) then BadTimeout
                        else BadProfile)
      ensures HasChanges(p) && Acceptable(p, parse) ==>
        && cfg == Patched(old(cfg), p, parse)
        && (Blank(path) ==> file.content == old(file.content))
        && (!Blank(path) ==> file.content == if saveSucceeds then Saved(cfg, parse) else wreck)
        && r == (if Blank(path) || saveSucceeds then Accepted(cfg, WithDefaults(old(cfg), parse) != cfg)
                 else Refused(SaveFailed))
    {
      if !HasChanges(p) {
        return Accepted(cfg, false);
      }
      var before := WithDefaults(cfg, parse);
      var problem, next := PatchCopy(cfg, p);
      if problem.Some? {
        return Refused(problem.value);
      }
      next := WithDefaults(next, parse);
      var changed := before != next;
      cfg := next;
      var ok := Persist(next, saveSucceeds, wreck);
      return if ok then Accepted(next, changed) else Refused(SaveFailed);
    }

    /** The part of `ApplyPatch` that works on a copy: field by field, up to the first bad value. */
    method PatchCopy(current: Config, p: Patch) returns (problem: Option<Refusal>, next: Config)
      ensures problem == None <==> Acceptable(p, parse)
      ensures problem.Some? ==>
        problem.value == if p.verbosity.Some? && NormalizeVerbosity(p.verbosity.value) == None then BadVerbosity
                         else if !AcceptsTimeouts(p.timeouts, parse) then BadTimeout
                         else BadProfile
      ensures problem == None ==> next == Overlay(current, p, parse)
    {
      next := current;
      if p.verbosity.Some? {
        var normalized := NormalizeVerbosity(p.verbosity.value);
        if normalized == None {
          return Some(BadVerbosity), next;
        }
        next := next.(verbosity := normalized.value);
      }
      if !AcceptsTimeouts(p.timeouts, parse) {
        return Some(BadTimeout), next;
      }
      next := next.(timeouts := NormalizeTimeouts(OverlayTimeouts(p.timeouts, NormalizeTimeouts(next.timeouts))));
      if p.permissionProfile.Some? {
        var preset := PermissionPreset(p.permissionProfile.value);
        if preset == None {
          return Some(BadProfile), next;
        }
        next := next.(permissions := preset.value);
      }
      if p.permissions != NO_FLAGS {
        var normal := NormalizePermissions(next.permissions);
        next := next.(permissions := normal.(ask := OverlayFlags(p.permissions, normal.ask)));
      }
      next := next.(updates :=
        NormalizeUpdates(OverlayUpdates(p.updates, NormalizeUpdates(next.updates, parse)), parse));
      next := next.(ntfy := OverlayNTFY(p.ntfy, next.ntfy));
      problem := None;
    }

    method SetVerbosity(value: string, saveSucceeds: bool, wreck: FileContent) returns (r: Answer)
      modifies this, file
      ensures NormalizeVerbosity(value) == None ==>
        cfg == old(cfg) && file.content == old(file.content) && r == Refused(BadVerbosity)
      ensures NormalizeVerbosity(value).Some? ==>
        && cfg == WithDefaults(old(cfg).(verbosity := NormalizeVerbosity(value).value), parse)
        && (r.Accepted? <==> Blank(path) || saveSucceeds)
        && (r.Accepted? ==> r == Accepted(cfg, old(cfg).verbosity != NormalizeVerbosity(value).value))
        && (Blank(path) ==> file.content == old(file.content))
        && (!Blank(path) ==> file.content == if saveSucceeds then Saved(cfg, parse) else wreck)
    {
      var normalized := NormalizeVerbosity(value);
      if normalized == None {
        return Refused(BadVerbosity);
      }
      var changed := cfg.verbosity != normalized.value;
      cfg := WithDefaults(cfg.(verbosity := normalized.value), parse);
      var ok := Persist(cfg, saveSucceeds, wreck);
      return if ok then Accepted(cfg, changed) else Refused(SaveFailed);
    }

    /** A reload replaces memory by what the file holds; without a file nothing happens. */
    method ReloadFromDisk() returns (r: Answer)
      modifies this
      ensures Blank(path) || Load(file.content, parse).NotExist? ==> cfg == old(cfg) && r == Accepted(cfg, false)
      ensures !Blank(path) && Load(file.content, parse).LoadFailed? ==> cfg == old(cfg) && r == Refused(ReloadFailed)
      ensures !Blank(path) && Load(file.content, parse).Loaded? ==>
        cfg == Load(file.content, parse).cfg && r == Accepted(cfg, cfg != old(cfg))
    {
      if TrimSpace(path) == "" {
        return Accepted(cfg, false);
      }
      match Load(file.content, parse)
      case NotExist => return Accepted(cfg, false);
      case LoadFailed => return Refused(ReloadFailed);
      case Loaded(loaded) =>
        var changed := cfg != loaded;
        cfg := loaded;
        return Accepted(cfg, changed);
    }
  }

  // ----- a patched configuration is settled -----

  lemma TimeoutsOfPatchedSettle(t: Timeouts, p: TimeoutPatch)
    ensures var overlaid := NormalizeTimeouts(OverlayTimeouts(p, NormalizeTimeouts(t)));
      NormalizeTimeouts(NormalizeTimeouts(overlaid)) == NormalizeTimeouts(overlaid)
  {
    TwoTimeoutPassesSettle(OverlayTimeouts(p, NormalizeTimeouts(t)));
  }

  /** Every configuration a patch stores is a fixed point of `WithDefaults`. */
  lemma PatchedIsSettled(cfg: Config, p: Patch, parse: DurationParser)
    requires Sane(parse) && Acceptable(p, parse) && HasChanges(p)
    ensures WithDefaults(Patched(cfg, p, parse), parse) == Patched(cfg, p, parse)
  {
    OneApplicationSettlesTheRest(Overlay(cfg, p, parse), parse);
    TimeoutsOfPatchedSettle(cfg.timeouts, p.timeouts);
  }

  lemma SettledThroughJson(cfg: Config, parse: DurationParser)
    ensures WithDefaults(cfg, parse) == cfg ==> WithDefaults(ThroughJson(cfg), parse) == ThroughJson(cfg)
  {
    if WithDefaults(cfg, parse) == cfg {
      var u := cfg.updates;
      assert NormalizeUpdates(u, parse) == u;
      assert NormalizeUpdates(u.(skippedVersions := None), parse) == u.(skippedVersions := None);
    }
  }

  /** A reload straight after a successful save of a patch reports a change exactly when the
      empty, non-nil list of skipped versions was there before and the patch did not replace
      it; memory and file agree in any case, and a second reload is silent. */
  lemma ReloadAfterSave(cfg: Config, p: Patch, parse: DurationParser)
    requires Sane(parse) && Acceptable(p, parse) && HasChanges(p)
    ensures var stored := Patched(cfg, p, parse); var back := Load(Saved(stored, parse), parse);
      && back == Loaded(ThroughJson(stored))
      && (back.cfg != stored <==> p.updates.skippedVersions == None && cfg.updates.skippedVersions == Some([]))
      && Load(Saved(back.cfg, parse), parse) == back
  {
    var stored := Patched(cfg, p, parse);
    PatchedIsSettled(cfg, p, parse);
    SettledThroughJson(stored, parse);
  }

  // ----- repeating a patch -----

  lemma TimeoutOverlayRepeats(patch: Option<string>, value: string, d: string)
    requires IsDefaultTimeout(d)
    ensures var once := NormalizeTimeout(NormalizeTimeout(OverlayTimeout(patch, NormalizeTimeout(value, d)), d), d);
      NormalizeTimeout(NormalizeTimeout(OverlayTimeout(patch, NormalizeTimeout(once, d)), d), d) == once
  {
    TimeoutFieldPasses(value, d);
    var overlaid := OverlayTimeout(patch, NormalizeTimeout(value, d));
    TimeoutFieldPasses(overlaid, d);
    TimeoutFieldPasses(NormalizeTimeout(overlaid, d), d);
  }

  lemma TimeoutsRepeat(p: TimeoutPatch, t: Timeouts)
    ensures var once := NormalizeTimeouts(NormalizeTimeouts(OverlayTimeouts(p, NormalizeTimeouts(t))));
      NormalizeTimeouts(NormalizeTimeouts(OverlayTimeouts(p, NormalizeTimeouts(once)))) == once
  {
    var d := DEFAULT_TIMEOUTS;
    TimeoutOverlayRepeats(p.plannerRequest, t.plannerRequest, d.plannerRequest);
    TimeoutOverlayRepeats(p.executorIdle, t.executorIdle, d.executorIdle);
    TimeoutOverlayRepeats(p.executorTurn, t.executorTurn, d.executorTurn);
    TimeoutOverlayRepeats(p.subagent, t.subagent, d.subagent);
    TimeoutOverlayRepeats(p.shellCommand, t.shellCommand, d.shellCommand);
    TimeoutOverlayRepeats(p.install, t.install, d.install);
    TimeoutOverlayRepeats(p.humanWait, t.humanWait, d.humanWait);
  }

  lemma UpdatesRepeat(p: UpdatePatch, u: Updates, parse: DurationParser)
    requires Sane(parse)
    ensures var once := NormalizeUpdates(NormalizeUpdates(OverlayUpdates(p, NormalizeUpdates(u, parse)), parse), parse);
      NormalizeUpdates(NormalizeUpdates(OverlayUpdates(p, NormalizeUpdates(once, parse)), parse), parse) == once
  {
    var first := NormalizeUpdates(OverlayUpdates(p, NormalizeUpdates(u, parse)), parse);
    UpdatesIdempotent(OverlayUpdates(p, NormalizeUpdates(u, parse)), parse);
    UpdatesIdempotent(u, parse);
    UpdatesIdempotent(OverlayUpdates(p, first), parse);
  }

  /** The permissions a patch leaves, as `Patched` computes them. */
  function PatchedPermissions(p: Patch, current: Permissions): Permissions
    requires p.permissionProfile.Some? ==> PermissionPreset(p.permissionProfile.value).Some?
  {
    NormalizePermissions(OverlayPermissions(p.permissionProfile, p.permissions, current))
  }

  /** A patch of single flags switches every flag off, so the profile's preset replaces them,
      and the preset in turn has flags the patch switches off, but not all. */
  predicate ResetsToPreset(p: Patch, current: Permissions) {
    && p.permissionProfile == None
    && p.permissions != NO_FLAGS
    && AllFalse(OverlayFlags(p.permissions, NormalizePermissions(current).ask))
    && var preset := PresetFlags(ProfileOrDefault(current.profile));
       !AllFalse(OverlayFlags(p.permissions, preset)) && OverlayFlags(p.permissions, preset) != preset
  }

  /** The flags after a patch of single flags to a normal profile. */
  function PatchedFlags(p: FlagsPatch, profile: string, f: Flags): Flags {
    if AllFalse(OverlayFlags(p, f)) then PresetFlags(profile) else OverlayFlags(p, f)
  }

  lemma FlagsRepeat(p: FlagsPatch, profile: string, f: Flags)
    ensures var preset := PresetFlags(profile);
      var once := PatchedFlags(p, profile, f); var twice := PatchedFlags(p, profile, once);
      && !AllFalse(once)
      && (twice != once
          <==> AllFalse(OverlayFlags(p, f)) && !AllFalse(OverlayFlags(p, preset)) && OverlayFlags(p, preset) != preset)
      && PatchedFlags(p, profile, twice) == twice
  {
    var preset := PresetFlags(profile);
    assert !AllFalse(preset) by { assert preset.outsideRepoChanges; }
    OverlayIsIdempotent(p, f);
    OverlayIsIdempotent(p, preset);
    FlagsRepeatAbstractly(p, profile, f, OverlayFlags(p, f), OverlayFlags(p, preset));
  }

  lemma OverlayTwiceOnWork(p: FlagsPatch, f: Flags)
    ensures var g := OverlayFlags(p, f); var h := OverlayFlags(p, g);
       h.installingPrograms == g.installingPrograms &&
       h.installingDependencies == g.installingDependencies &&
       h.outsideRepoChanges == g.outsideRepoChanges &&
       h.deletingFiles == g.deletingFiles &&
       h.runningTests == g.runningTests
  {
  }

  lemma OverlayTwiceOnReach(p: FlagsPatch, f: Flags)
    ensures var g := OverlayFlags(p, f); var h := OverlayFlags(p, g);
       h.emulatorTesting == g.emulatorTesting &&
       h.networkCalls == g.networkCalls &&
       h.gitCommits == g.gitCommits &&
       h.gitPushes == g.gitPushes
  {
  }

  lemma OverlayTwiceOnControl(p: FlagsPatch, f: Flags)
    ensures var g := OverlayFlags(p, f); var h := OverlayFlags(p, g);
       h.updaterInstalls == g.updaterInstalls &&
       h.workerParallelism == g.workerParallelism &&
       h.executorSteering == g.executorSteering &&
       h.plannerDirection == g.plannerDirection
  {
  }

  lemma OverlayIsIdempotent(p: FlagsPatch, f: Flags)
    ensures OverlayFlags(p, OverlayFlags(p, f)) == OverlayFlags(p, f)
  {
    OverlayTwiceOnWork(p, f);
    OverlayTwiceOnReach(p, f);
    OverlayTwiceOnControl(p, f);
  }

  /** `FlagsRepeat` with the overlaid flags as given values. */
  lemma FlagsRepeatAbstractly(p: FlagsPatch, profile: string, f: Flags, overlaid: Flags, overPreset: Flags)
    requires overlaid == OverlayFlags(p, f) && OverlayFlags(p, overlaid) == overlaid
    requires overPreset == OverlayFlags(p, PresetFlags(profile)) && OverlayFlags(p, overPreset) == overPreset
    requires !AllFalse(PresetFlags(profile))
    ensures var once := PatchedFlags(p, profile, f); var twice := PatchedFlags(p, profile, once);
      && !AllFalse(once)
      && (twice != once <==> AllFalse(overlaid) && !AllFalse(overPreset) && overPreset != PresetFlags(profile))
      && PatchedFlags(p, profile, twice) == twice
  {
    if AllFalse(overlaid) {
      assert PatchedFlags(p, profile, f) == PresetFlags(profile);
      if !AllFalse(overPreset) {
        assert PatchedFlags(p, profile, PresetFlags(profile)) == overPreset;
        assert PatchedFlags(p, profile, overPreset) == overPreset;
      }
    } else {
      assert PatchedFlags(p, profile, f) == overlaid;
    }
  }

  lemma FlagPatchOfPermissions(p: Patch, current: Permissions)
    requires p.permissionProfile == None && p.permissions != NO_FLAGS
    ensures PatchedPermissions(p, current)
         == Permissions(ProfileOrDefault(current.profile),
              PatchedFlags(p.permissions, ProfileOrDefault(current.profile), NormalizePermissions(current).ask))
  {
    ProfileIsIdempotent(current.profile);
  }

  lemma PermissionsRepeat(p: Patch, current: Permissions)
    requires p.permissionProfile.Some? ==> PermissionPreset(p.permissionProfile.value).Some?
    ensures var once := PatchedPermissions(p, current); var twice := PatchedPermissions(p, once);
      && (twice != once <==> ResetsToPreset(p, current))
      && PatchedPermissions(p, twice) == twice
  {
    if p.permissionProfile == None {
      PermissionsIdempotent(current);
      if p.permissions != NO_FLAGS {
        var once := PatchedPermissions(p, current);
        var twice := PatchedPermissions(p, once);
        ProfileIsIdempotent(current.profile);
        FlagsRepeat(p.permissions, ProfileOrDefault(current.profile), NormalizePermissions(current).ask);
        FlagPatchOfPermissions(p, current);
        FlagPatchOfPermissions(p, once);
        FlagPatchOfPermissions(p, twice);
        FlagsRepeat(p.permissions, ProfileOrDefault(current.profile), once.ask);
      }
    }
  }

  lemma VerbosityRepeats(patch: Option<string>, current: string)
    requires patch.Some? ==> NormalizeVerbosity(patch.value).Some?
    ensures var once := Filled(if patch.Some? then NormalizeVerbosity(patch.value).value else current, "normal");
      Filled(if patch.Some? then NormalizeVerbosity(patch.value).value else once, "normal") == once
  {
    assert !Blank("normal");
  }

  /** Field by field, what a patch makes of a configuration: the settings a patch cannot reach... */
  predicate UnpatchedFields(cfg: Config, r: Config) {
    && r.version == (if cfg.version == 0 then 1 else cfg.version)
    && r.logLevel == Filled(cfg.logLevel, "info")
    && r.plannerModel == Filled(cfg.plannerModel, "gpt-5-latest")
    && r.workerConcurrencyLimit == (if cfg.workerConcurrencyLimit <= 0 then 2 else cfg.workerConcurrencyLimit)
    && r.driftWatcherEnabled == cfg.driftWatcherEnabled
    && r.repoContractConfirmed == cfg.repoContractConfirmed
  }

  /** ... and the ones it can. */
  predicate PatchedFields(cfg: Config, p: Patch, parse: DurationParser, r: Config)
    requires Acceptable(p, parse)
  {
    && r.verbosity == Filled(if p.verbosity.Some? then NormalizeVerbosity(p.verbosity.value).value else cfg.verbosity,
                           "normal")
    && r.timeouts == NormalizeTimeouts(NormalizeTimeouts(OverlayTimeouts(p.timeouts, NormalizeTimeouts(cfg.timeouts))))
    && r.permissions == PatchedPermissions(p, cfg.permissions)
    && r.updates == NormalizeUpdates(
         NormalizeUpdates(OverlayUpdates(p.updates, NormalizeUpdates(cfg.updates, parse)), parse), parse)
    && r.ntfy == OverlayNTFY(p.ntfy, cfg.ntfy)
  }

  lemma PatchedByField(cfg: Config, p: Patch, parse: DurationParser)
    requires Acceptable(p, parse) && HasChanges(p)
    ensures UnpatchedFields(cfg, Patched(cfg, p, parse))
    ensures PatchedFields(cfg, p, parse, Patched(cfg, p, parse))
  {
  }

  lemma NTFYRepeats(p: NTFYPatch, n: NTFY)
    ensures OverlayNTFY(p, OverlayNTFY(p, n)) == OverlayNTFY(p, n)
  {
  }

  lemma UnpatchedFieldsRepeat(cfg: Config, once: Config, twice: Config)
    requires UnpatchedFields(cfg, once) && UnpatchedFields(once, twice)
    ensures twice.version == once.version && twice.logLevel == once.logLevel && twice.plannerModel == once.plannerModel
    ensures twice.workerConcurrencyLimit == once.workerConcurrencyLimit
    ensures twice.driftWatcherEnabled == once.driftWatcherEnabled
      && twice.repoContractConfirmed == once.repoContractConfirmed
  {
    assert !Blank("info") && !Blank("gpt-5-latest");
    FilledIsIdempotent(cfg.logLevel, "info");
    FilledIsIdempotent(cfg.plannerModel, "gpt-5-latest");
  }

  lemma PatchedFieldsRepeat(cfg: Config, p: Patch, parse: DurationParser, once: Config, twice: Config)
    requires Sane(parse) && Acceptable(p, parse)
    ensures PatchedFields(cfg, p, parse, once) && PatchedFields(once, p, parse, twice) ==>
      twice.verbosity == once.verbosity && twice.timeouts == once.timeouts
      && twice.updates == once.updates && twice.ntfy == once.ntfy
  {
    if PatchedFields(cfg, p, parse, once) && PatchedFields(once, p, parse, twice) {
      VerbosityRepeats(p.verbosity, cfg.verbosity);
      TimeoutsRepeat(p.timeouts, cfg.timeouts);
      UpdatesRepeat(p.updates, cfg.updates, parse);
      NTFYRepeats(p.ntfy, cfg.ntfy);
    }
  }

  /** Only the permissions can change when a patch is applied again. */
  lemma SecondPatchTouchesPermissions(cfg: Config, p: Patch, parse: DurationParser)
    requires Sane(parse) && Acceptable(p, parse) && HasChanges(p)
    ensures var once := Patched(cfg, p, parse);
      Patched(once, p, parse) == once.(permissions := PatchedPermissions(p, once.permissions))
  {
    var once := Patched(cfg, p, parse);
    PatchedByField(cfg, p, parse);
    PatchedByField(once, p, parse);
    UnpatchedFieldsRepeat(cfg, once, Patched(once, p, parse));
    PatchedFieldsRepeat(cfg, p, parse, once, Patched(once, p, parse));
  }

  /** Repeating a patch: the second application changes the configuration exactly when the
      first drove all thirteen flags off and the preset that replaced them still has flags the
      patch switches off (but not only those); a third never changes it. */
  lemma RepeatingAPatch(cfg: Config, p: Patch, parse: DurationParser)
    requires Sane(parse) && Acceptable(p, parse)
    ensures var once := Patched(cfg, p, parse); var twice := Patched(once, p, parse);
      && (twice != once <==> ResetsToPreset(p, cfg.permissions))
      && Patched(twice, p, parse) == twice
  {
    if HasChanges(p) {
      SecondPatchTouchesPermissions(cfg, p, parse);
      SecondPatchTouchesPermissions(Patched(cfg, p, parse), p, parse);
      PatchedByField(cfg, p, parse);
      PermissionsRepeat(p, cfg.permissions);
    }
  }
}
