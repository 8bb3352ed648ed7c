/**
 * `Installer::install`, the hook Composer runs after a package install or
 * update: resolve the version, skip when an installed CasperJS is at least
 * that version, otherwise download the archive and, only if that worked,
 * write the launcher. Everything outside the plugin is part of the
 * `Environment`: the uname string, Composer's metadata and download stages,
 * the version the installed binary reports and PHP's `version_compare`.
 */
module Installer {
  import opened Common
  import opened Text
  import opened Platform
  import opened Files
  import opened Versions
  import opened Archive
  import opened Launcher

  datatype Environment = Environment(
    uname: string,
    api: ComposerApi,
    localPackages: seq<Package>,
    root: RootPackage,
    vendorDir: string,
    binDir: string,
    /** `getCasperJsVersionFromBinary`: the first line `--version` prints, `None` when that throws. */
    binaryVersion: string -> Option<string>,
    /** `version_compare(a, b)`: -1, 0 or 1. */
    versionCompare: (string, string) -> int,
    /** Whether a download-manager stage completes for the package. */
    completes: (Stage, DistPackage) -> bool)

  /** Which way a run of `install` ends. */
  datatype InstallOutcome =
    | NoVersion(error: ConfigurationError)
    | AlreadyInstalled(installed: Option<string>)
    | DownloadFailed(version: string)
    | Installed(version: string)

  /** The directory the archive is unpacked into. */
  function TargetDir(env: Environment): string {
    env.vendorDir + CasperJsTargetDir
  }

  /** The installed version as `version_compare` receives it: PHP turns `false` into "". */
  function ComparedVersion(installed: Option<string>): string {
    installed.GetOr("")
  }

  /** The outcome of `install`, given what the binary lookup found before the run. */
  function PlannedOutcome(env: Environment, found: Option<string>): InstallOutcome {
    match ResolveVersion(env.localPackages, env.root)
    case Err(e) => NoVersion(e)
    case Ok(v) =>
      if found.Some? && env.versionCompare(v, ComparedVersion(env.binaryVersion(found.value))) != 1 then
        AlreadyInstalled(env.binaryVersion(found.value))
      else if DownloadSucceeds(env.api, CreateComposerInMemoryPackage(TargetDir(env), v), env.completes) then
        Installed(v)
      else
        DownloadFailed(v)
  }

  /**
   * `install`. The installed binary is looked for where the source looks for it
   * (`ProbeDirAsWritten`), which `AsWrittenNeverSkips` shows never finds an
   * unpacked archive; `CorrectedProbeSkipsCurrentInstall` gives the outcome with
   * the intended directory.
   * Only a run that ends `Installed` touches the filesystem, and then exactly
   * as the launcher writer does.
   */
  method Install(fs: FileSystem, env: Environment) returns (outcome: InstallOutcome)
    modifies fs
    ensures outcome == PlannedOutcome(env, old(GetCasperJsBinary(fs, env.uname, ProbeDirAsWritten(TargetDir(env)))))
    ensures outcome.Installed? ==>
      && fs.dirs == old(fs.dirs) + {env.binDir}
      && fs.files == WithLauncher(old(fs.files), fs.newFileMode, GetOS(env.uname), TargetDir(env), env.binDir)
    ensures !outcome.Installed? ==> fs.dirs == old(fs.dirs) && fs.files == old(fs.files)
  {
    var resolved := GetVersion(env.localPackages, env.root);
    if resolved.Err? {
      return NoVersion(resolved.error);
    }
    var version := resolved.value;
    var binDir := env.binDir;
    var targetDir := env.vendorDir + CasperJsTargetDir;
    var casperJsBinary := GetCasperJsBinary(fs, env.uname, ProbeDirAsWritten(targetDir));
    if casperJsBinary.Some? {
      var installedVersion := env.binaryVersion(casperJsBinary.value);
      if env.versionCompare(version, ComparedVersion(installedVersion)) != 1 {
        return AlreadyInstalled(installedVersion);
      }
    }
    var ok := Download(env.api, targetDir, version, env.completes);
    if ok {
      CreateCasperJsBinaryToBinFolder(fs, env.uname, targetDir, binDir);
      return Installed(version);
    }
    return DownloadFailed(version);
  }

  /** Without a resolvable version nothing else happens: the run ends with the configuration error. */
  lemma NoVersionStopsEverything(env: Environment, found: Option<string>)
    requires ResolveVersion(env.localPackages, env.root).Err?
    ensures PlannedOutcome(env, found) == NoVersion(ResolveVersion(env.localPackages, env.root).error)
  {
  }

  /** An installed binary whose version is not lower than the target stops the run before any download. */
  lemma NotLowerSkips(env: Environment, binary: string, v: string)
    requires ResolveVersion(env.localPackages, env.root) == Ok(v)
    requires env.versionCompare(v, ComparedVersion(env.binaryVersion(binary))) != 1
    ensures PlannedOutcome(env, Some(binary)) == AlreadyInstalled(env.binaryVersion(binary))
  {
  }

  /**
   * When the version query fails, the target is compared with ""; as long as
   * the target compares higher than that, the run continues as if nothing were installed.
   */
  lemma FailedQueryRedownloads(env: Environment, binary: string, v: string)
    requires ResolveVersion(env.localPackages, env.root) == Ok(v)
    requires env.binaryVersion(binary).None? && env.versionCompare(v, "") == 1
    ensures PlannedOutcome(env, Some(binary)) == PlannedOutcome(env, None)
  {
  }

  /** Past the version check, the launcher is written exactly when the download reports success. */
  lemma InstalledIffDownloaded(env: Environment, found: Option<string>, v: string)
    requires ResolveVersion(env.localPackages, env.root) == Ok(v)
    requires found.None? || env.versionCompare(v, ComparedVersion(env.binaryVersion(found.value))) == 1
    ensures PlannedOutcome(env, found).Installed? <==>
      DownloadSucceeds(env.api, CreateComposerInMemoryPackage(TargetDir(env), v), env.completes)
    ensures !PlannedOutcome(env, found).Installed? ==> PlannedOutcome(env, found) == DownloadFailed(v)
  {
  }

  /** Under Composer 2 an install needs all four stages to complete; a single failing stage is enough to stop it. */
  lemma ComposerV2NeedsEveryStage(env: Environment, found: Option<string>, s: Stage)
    requires env.api == ComposerV2
    requires PlannedOutcome(env, found).Installed?
    ensures env.completes(s, CreateComposerInMemoryPackage(TargetDir(env), PlannedOutcome(env, found).version))
  {
    assert s in V2Stages;
  }

  /**
   * The lookup as written never reports an installed CasperJS: once the archive
   * has been unpacked (its "bin/casperjs" script is a regular file), the run
   * always goes on to download again.
   */
  lemma AsWrittenNeverSkips(fs: FileSystem, env: Environment)
    requires fs.WellFormed()
    requires TargetDir(env) + "/bin/casperjs" in fs.files
    ensures !PlannedOutcome(env, GetCasperJsBinary(fs, env.uname, ProbeDirAsWritten(TargetDir(env)))).AlreadyInstalled?
  {
    ProbeAsWrittenMissesInstall(fs, env.uname, TargetDir(env));
  }

  /**
   * With the corrected lookup, the binary the launcher runs is the one whose
   * version decides: when it reports a version not lower than the target, the run is skipped.
   */
  lemma CorrectedProbeSkipsCurrentInstall(fs: FileSystem, env: Environment, v: string)
    requires SourcePath(GetOS(env.uname), TargetDir(env)) in fs.files
    requires ResolveVersion(env.localPackages, env.root) == Ok(v)
    requires env.versionCompare(v, ComparedVersion(env.binaryVersion(SourcePath(GetOS(env.uname), TargetDir(env))))) != 1
    ensures PlannedOutcome(env, GetCasperJsBinary(fs, env.uname, ProbeDir(TargetDir(env)))).AlreadyInstalled?
  {
    ProbeFindsLauncherSource(GetOS(env.uname), TargetDir(env));
  }

  /** The launcher an install writes runs the very binary the next run's lookup examines. */
  lemma LauncherRunsProbedBinary(env: Environment)
    ensures Contains(LauncherContent(GetOS(env.uname), TargetDir(env), env.binDir),
                     BinaryPath(GetOS(env.uname), ProbeDir(TargetDir(env))))
  {
    ProbeFindsLauncherSource(GetOS(env.uname), TargetDir(env));
    LauncherNamesItsBinaries(GetOS(env.uname), TargetDir(env), env.binDir);
  }
}
