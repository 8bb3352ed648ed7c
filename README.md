# casperjs-installer, modelled in Dafny

A model of the Composer plugin hook `CasperJsInstaller\Installer::install`.
After a dependency install it works out which CasperJS version to install and skips the run when an
installed CasperJS already reports that version or a newer one. Otherwise it downloads the GitHub
zipball of that version through Composer's download manager. If the download succeeds, it writes a
launcher script into the project's bin directory. The launcher is a batch file on Windows and a bash
script on Linux and macOS.

Modules (one per concern of `src/CasperJsInstaller/Installer.php`):

- `Common`: `Option` and `Result`.
- `Text`: PHP's `strtolower` (ASCII folding) and `strpos(...) !== false`. The second is the recursive
  `Contains`, which is proved equal to "there is an index where the needle occurs".
- `Platform`: `getOS`, with the uname string as a parameter.
- `Files`: the filesystem the launcher writer changes. It is a class with a directory set and a map
  from path to (contents, mode). Its methods model `is_dir`, `mkdir`, `file_put_contents`, `chmod`
  and `realpath`.
- `Versions`: `getVersion` (a loop over the local repository, specified by `LocalVersion`),
  `getRequiredVersion` (a loop over "require" and "require-dev" with an early return) and the
  `dev-master` normalisation.
- `Archive`: `getURL` and its inverse, the in-memory package, and the Composer 1 and Composer 2
  download paths.
- `Launcher`: the launcher paths and text, `createCasperJsBinaryToBinFolder` as a method over the
  filesystem, and `getCasperJsBinary`.
- `Installer`: `install`, proved against the specification function `PlannedOutcome`, plus lemmas
  about each way a run can end.

Some inputs come from outside the plugin. They are fields of `Installer.Environment`:

- the uname string;
- the Composer API version;
- the local packages and the root package's links;
- the vendor and bin directories;
- the version the installed binary reports (`None` when the query throws);
- `version_compare`, as an uninterpreted three-way comparison;
- whether each download-manager stage completes.

The model keeps these details of PHP's semantics:

- The local version is discarded by PHP's loose `$version == null`, which also holds for an empty
  string. So an empty pretty version in the local repository falls through to the root package.
- The skip condition is `version_compare(target, installed) !== 1`. A failed version query is
  compared as `""`, because PHP turns `false` into an empty string.
- The error is the `RuntimeException` message "Can not determine required version of …".

## Model

| member | source | states |
|---|---|---|
| Platform.GetOS | src/CasperJsInstaller/Installer.php:230-243 | macOS exactly when the lower-cased uname contains "darwin"; Windows exactly when it contains "win" but not "darwin" |
| Platform.DarwinShadowsWindows | src/CasperJsInstaller/Installer.php:234-237 | a uname containing "darwin" also contains "win" and is still classified macOS, so the check order is what makes macOS reachable |
| Platform.WindowsBeforeLinux | src/CasperJsInstaller/Installer.php:236-239 | a uname containing "win" and "linux" but not "darwin" is Windows |
| Platform.LinuxOnlyWithoutEarlierMatch | src/CasperJsInstaller/Installer.php:234-239 | Linux is reported exactly when "linux" occurs and "win" does not |
| Platform.GetOSIgnoresCase | src/CasperJsInstaller/Installer.php:232 | two uname strings that differ only in letter case get the same classification |
| Platform.DarwinUname | src/CasperJsInstaller/Installer.php:232-235 | every uname starting with "Darwin" is macOS |
| Platform.GetOSDependsOnLower | src/CasperJsInstaller/Installer.php:232 | classifying the already lower-cased uname gives the same answer: only the folded string matters |
| Text.Contains | src/CasperJsInstaller/Installer.php:234-238 | `strpos(s, t) !== false` holds exactly when `t` occurs in `s` at some index |
| Archive.GetURL | src/CasperJsInstaller/Installer.php:220-223 | the URL is the fixed GitHub zipball base followed by the version, with no check |
| Archive.URLRoundTrip | src/CasperJsInstaller/Installer.php:220-223 | every version, whatever its shape, is read back unchanged from its URL |
| Archive.URLFromVersion | src/CasperJsInstaller/Installer.php:220-223 | every URL under the base is the URL of the version read from it |
| Archive.GetURLInjective | src/CasperJsInstaller/Installer.php:220-223 | distinct versions get distinct URLs |
| Archive.CreateComposerInMemoryPackage | src/CasperJsInstaller/Installer.php:121-136 | the package is a "dist" zip for the version and target directory, and its URL encodes that version |
| Archive.DownloadUsingComposerVersion1 | src/CasperJsInstaller/Installer.php:314-329 | true exactly when the single download call completes |
| Archive.DownloadUsingComposerVersion2 | src/CasperJsInstaller/Installer.php:337-369 | the stages run are a non-empty prefix of download, prepare, install, cleanup; all but the last completed; the last failed unless the result is true; the result is true exactly when all four complete |
| Archive.Download | src/CasperJsInstaller/Installer.php:297-306 | the result is the one the selected Composer API path reports |
| Versions.LocalVersionIsLastMatch | src/CasperJsInstaller/Installer.php:149-156 | the local loop finds nothing exactly when no package has the installer's name; otherwise it finds the pretty version of the last such package |
| Versions.GetRequiredVersion | src/CasperJsInstaller/Installer.php:178-186 | succeeds exactly when "require" or "require-dev" has the name, prefers "require", and otherwise raises the configuration error |
| Versions.RequireBeforeRequireDev | src/CasperJsInstaller/Installer.php:180-183 | a constraint under "require" hides one under "require-dev" |
| Versions.Normalize | src/CasperJsInstaller/Installer.php:163-167 | the result is never "dev-master"; any other input is returned unchanged, and "dev-master" becomes "master" |
| Versions.GetVersion | src/CasperJsInstaller/Installer.php:147-168 | the loop, fallback and normalisation give `ResolveVersion`, which is never "dev-master" |
| Versions.LocalPackageWins | src/CasperJsInstaller/Installer.php:152-161 | a non-empty local version decides alone, whatever the root package declares |
| Versions.ResolveVersionFails | src/CasperJsInstaller/Installer.php:158-161 | resolution fails exactly when there is no non-empty local version and neither link map has the package |
| Launcher.WithLauncher | src/CasperJsInstaller/Installer.php:197-211 | only the launcher path changes; Unix-like systems get mode 0755; an unknown system gets no file |
| Launcher.CreateCasperJsBinaryToBinFolder | src/CasperJsInstaller/Installer.php:192-212 | the bin directory exists afterwards, and the files are exactly `WithLauncher` of the old ones |
| Launcher.LauncherText | src/CasperJsInstaller/Installer.php:198-209 | the byte-exact batch text on Windows and bash text elsewhere, with every path spelled out |
| Launcher.LauncherNamesItsBinaries | src/CasperJsInstaller/Installer.php:198-209 | the launcher text contains the PhantomJS path and the unpacked CasperJS path |
| Launcher.GetCasperJsBinary | src/CasperJsInstaller/Installer.php:251-263 | the directory plus "/casperjs" (and ".exe" on Windows) if something exists there, otherwise nothing |
| Launcher.ProbeAsWrittenMissesInstall | src/CasperJsInstaller/Installer.php:98 | in a filesystem where nothing lies below a file, the lookup as written finds nothing once "bin/casperjs" is unpacked |
| Launcher.ProbeAsWrittenExample | src/CasperJsInstaller/Installer.php:98 | on Linux with target "/v/casperjs" the lookup as written probes "/v/casperjs/bin/casperjs/casperjs", while the launcher runs "/v/casperjs/bin/casperjs" |
| Launcher.ProbeFindsLauncherSource | src/CasperJsInstaller/Installer.php:198-203 | the corrected lookup probes exactly the binary the launcher runs, on every system |
| Installer.Install | src/CasperJsInstaller/Installer.php:79-112 | with the lookup of line 98 (`ProbeDirAsWritten`), the run ends as `PlannedOutcome` says; only an `Installed` run changes the filesystem, and then exactly as the launcher writer does |
| Installer.NoVersionStopsEverything | src/CasperJsInstaller/Installer.php:88 | an unresolvable version ends the run with the configuration error |
| Installer.NotLowerSkips | src/CasperJsInstaller/Installer.php:99-104 | an installed binary whose version compares not lower than the target ends the run before any download |
| Installer.FailedQueryRedownloads | src/CasperJsInstaller/Installer.php:100-101 | a failed version query behaves as if no binary were installed, provided the target compares above "" |
| Installer.InstalledIffDownloaded | src/CasperJsInstaller/Installer.php:107-111 | when no binary is found or the target compares higher than the installed version, the launcher is written exactly when the download reports success; otherwise the run ends `DownloadFailed` |
| Installer.ComposerV2NeedsEveryStage | src/CasperJsInstaller/Installer.php:345-363 | under Composer 2, an install implies that every stage completed |
| Installer.AsWrittenNeverSkips | src/CasperJsInstaller/Installer.php:98 | with the lookup as written, a run over an unpacked archive never ends `AlreadyInstalled` |
| Installer.CorrectedProbeSkipsCurrentInstall | src/CasperJsInstaller/Installer.php:97-104 | with the corrected lookup, the run is skipped when the binary the launcher runs reports a version not lower than the target |
| Installer.LauncherRunsProbedBinary | src/CasperJsInstaller/Installer.php:98 | the launcher an install writes names the binary that the next run's corrected lookup examines |

## Findings

| source | as written | input that shows it | evidently intended | confidence | as-written member | corrected member |
|---|---|---|---|---|---|---|
| src/CasperJsInstaller/Installer.php:98 | `install` passes `$targetDir . '/bin/casperjs'` to `getCasperJsBinary`, which appends `/casperjs` again. The lookup therefore probes `.../bin/casperjs/casperjs`, below the unpacked `bin/casperjs` script, which is a regular file | Linux with target "/v/casperjs" after one successful install: the probe is "/v/casperjs/bin/casperjs/casperjs" and the binary is "/v/casperjs/bin/casperjs", so every run downloads again | pass `$targetDir . '/bin'`. Then the lookup names the binary that the launcher runs (line 198) | high (not executed) | Installer.AsWrittenNeverSkips | Installer.CorrectedProbeSkipsCurrentInstall |

`Installer.Install` looks where line 98 looks (`Launcher.ProbeDirAsWritten`), so `AsWrittenNeverSkips`
applies to it. `PlannedOutcome` takes the lookup result as a parameter. `CorrectedProbeSkipsCurrentInstall`
gives the outcome with the intended directory (`Launcher.ProbeDir`).

## Left out

- The call to `\PhantomInstaller\Installer::installPhantomJS` (line 82) is not modelled. It belongs to
  another package.
- The Composer object model is not modelled: `Composer`, `Config`, the repository manager, the
  download manager, the event loop and its promises. `VersionParser::normalize` is left out too,
  including the exception it raises for a malformed version outside the `try` blocks (line 127).
  Each download-manager call, together with the promise it may return, is one yes/no oracle.
- `RUNTIME_API_VERSION` detection (line 299) is an input: `ComposerApi`.
- Several pieces of process and host I/O are inputs: `php_uname`, `exec` with `escapeshellarg`, and
  reading the first output line (lines 271-285).
- `version_compare` is an uninterpreted three-way comparison (line 101).
- Launcher.GetCasperJsBinary: `realpath` is modelled as existence in the filesystem map. It does not
  canonicalise the path or resolve links.
- Launcher.CreateCasperJsBinaryToBinFolder: `mkdir`, `file_put_contents` and `chmod` always succeed.
  A missing parent directory or a permission error is not modelled.
- The files unpacked from the archive are not added to the modelled filesystem. The downloaded
  contents are not visible to the model.
- Text.Lower: `strtolower` folds ASCII letters only, as PHP 8.2 and later do. Locale-dependent folding in
  earlier PHP versions is not modelled, and strings are sequences of characters rather than bytes.
- Messages written through Composer's IO are not modelled: `write`, `warning`, `notice`, `error`.
- The getters, setters and the constructor (lines 36-74) are not modelled. They only store the
  Composer and IO objects.
