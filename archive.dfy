/**
 * Where the CasperJS archive comes from and how it is fetched
 * (`getURL`, `createComposerInMemoryPackage`, `download` and its two
 * variants). Composer's download manager is outside the model: each of its
 * stages is an oracle that says whether the stage, and the promise it may
 * return, completed without an exception.
 */
module Archive {
  import opened Common

  /** Every archive is a GitHub zipball of the n1k0/casperjs repository. */
  const BaseURL := "https://github.com/n1k0/casperjs/zipball/"
  const CasperJsName := "CasperJS"

  /** `getURL`: the version is appended to the base, as it is, without any check. */
  function GetURL(version: string): (url: string)
    ensures |url| == |BaseURL| + |version|
    ensures url[..|BaseURL|] == BaseURL && url[|BaseURL|..] == version
  {
    BaseURL + version
  }

  /** Reads the version back out of an archive URL; `None` for a URL not under the base. */
  function VersionFromURL(url: string): (v: Option<string>)
    ensures v.Some? <==> |url| >= |BaseURL| && url[..|BaseURL|] == BaseURL
  {
    if |url| >= |BaseURL| && url[..|BaseURL|] == BaseURL then Some(url[|BaseURL|..]) else None
  }

  /** Every version, well-formed or not, can be read back from its URL. */
  lemma URLRoundTrip(version: string)
    ensures VersionFromURL(GetURL(version)) == Some(version)
  {
  }

  /** Every URL under the base is the URL of exactly the version read from it. */
  lemma URLFromVersion(url: string)
    requires VersionFromURL(url).Some?
    ensures GetURL(VersionFromURL(url).value) == url
  {
    assert url == url[..|BaseURL|] + url[|BaseURL|..];
  }

  /** Distinct versions are fetched from distinct URLs. */
  lemma GetURLInjective(a: string, b: string)
    requires GetURL(a) == GetURL(b)
    ensures a == b
  {
    URLRoundTrip(a);
    URLRoundTrip(b);
  }

  /** The in-memory package handed to the download manager (its normalised version is not modelled). */
  datatype DistPackage = DistPackage(
    name: string,
    prettyVersion: string,
    targetDir: string,
    installationSource: string,
    distType: string,
    distUrl: string)

  /** `createComposerInMemoryPackage`: a zip distribution of the given version, unpacked into `targetDir`. */
  function CreateComposerInMemoryPackage(targetDir: string, version: string): (p: DistPackage)
    ensures p.prettyVersion == version && p.targetDir == targetDir
    ensures VersionFromURL(p.distUrl) == Some(version)
    ensures p.installationSource == "dist" && p.distType == "zip"
  {
    URLRoundTrip(version);
    DistPackage(CasperJsName, version, targetDir, "dist", "zip", GetURL(version))
  }

  /** The calls made on Composer 2's download manager (download, prepare, install, cleanup), in order. */
  datatype Stage = FetchStage | PrepareStage | InstallStage | CleanupStage

  const V2Stages: seq<Stage> := [FetchStage, PrepareStage, InstallStage, CleanupStage]

  /** The major version of the Composer API the plugin runs under. */
  datatype ComposerApi = ComposerV1 | ComposerV2

  /** Whether `download` reports success, given which stages complete for the package. */
  predicate DownloadSucceeds(api: ComposerApi, pkg: DistPackage, completes: (Stage, DistPackage) -> bool) {
    match api
    case ComposerV1 => completes(FetchStage, pkg)
    case ComposerV2 => forall s :: s in V2Stages ==> completes(s, pkg)
  }

  /** `downloadUsingComposerVersion1`: one call that fetches and unpacks. */
  method DownloadUsingComposerVersion1(targetDir: string, version: string, completes: (Stage, DistPackage) -> bool)
    returns (ok: bool)
    ensures ok <==> completes(FetchStage, CreateComposerInMemoryPackage(targetDir, version))
  {
    var pkg := CreateComposerInMemoryPackage(targetDir, version);
    ok := completes(FetchStage, pkg);
  }

  /**
   * `downloadUsingComposerVersion2`: the four stages run in order and the first
   * failure abandons the rest. `ran` lists the stages that were started.
   */
  method DownloadUsingComposerVersion2(targetDir: string, version: string, completes: (Stage, DistPackage) -> bool)
    returns (ok: bool, ran: seq<Stage>)
    ensures 1 <= |ran| <= |V2Stages| && ran == V2Stages[..|ran|]
    ensures forall i :: 0 <= i < |ran| - 1 ==>
      completes(ran[i], CreateComposerInMemoryPackage(targetDir, version))
    ensures !ok ==> !completes(ran[|ran| - 1], CreateComposerInMemoryPackage(targetDir, version))
    ensures ok <==> |ran| == |V2Stages| && completes(CleanupStage, CreateComposerInMemoryPackage(targetDir, version))
    ensures ok <==> forall s :: s in V2Stages ==> completes(s, CreateComposerInMemoryPackage(targetDir, version))
  {
    var pkg := CreateComposerInMemoryPackage(targetDir, version);
    ran := [FetchStage];
    if !completes(FetchStage, pkg) {
      return false, ran;
    }
    ran := ran + [PrepareStage];
    if !completes(PrepareStage, pkg) {
      return false, ran;
    }
    ran := ran + [InstallStage];
    if !completes(InstallStage, pkg) {
      return false, ran;
    }
    ran := ran + [CleanupStage];
    if !completes(CleanupStage, pkg) {
      return false, ran;
    }
    return true, ran;
  }

  /** `download`: dispatches on the Composer API version. */
  method Download(api: ComposerApi, targetDir: string, version: string, completes: (Stage, DistPackage) -> bool)
    returns (ok: bool)
    ensures ok <==> DownloadSucceeds(api, CreateComposerInMemoryPackage(targetDir, version), completes)
  {
    if api == ComposerV2 {
      var ran;
      ok, ran := DownloadUsingComposerVersion2(targetDir, version, completes);
    } else {
      ok := DownloadUsingComposerVersion1(targetDir, version, completes);
    }
  }
}
