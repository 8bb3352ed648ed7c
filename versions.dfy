/**
 * Which CasperJS version to install (`Installer::getVersion` and
 * `Installer::getRequiredVersion`): the installer package's own version in the
 * local repository if it is there, otherwise the constraint the root package
 * declares for it under "require", then under "require-dev".
 */
module Versions {
  import opened Common

  /** The name under which the installer package itself is known. */
  const PackageName := "jerome-breton/casperjs-installer"
  /** The alias of the development branch, and the branch name it stands for. */
  const DevMaster := "dev-master"
  const Master := "master"

  /** A canonical package of the local repository: its name and pretty version. */
  datatype Package = Package(name: string, prettyVersion: string)

  /** The root package's links: package name to pretty constraint. */
  datatype RootPackage = RootPackage(require: map<string, string>, requireDev: map<string, string>)

  /** The `RuntimeException` raised when no version can be determined. */
  datatype ConfigurationError = ConfigurationError(message: string)

  /** Index `i` holds the last package of the sequence named like the installer. */
  predicate LastMatchAt(packages: seq<Package>, i: int) {
    && 0 <= i < |packages|
    && packages[i].name == PackageName
    && forall j :: i < j < |packages| ==> packages[j].name != PackageName
  }

  /** The version the loop over the local repository ends with: that of the last match. */
  function LocalVersion(packages: seq<Package>): Option<string> {
    if |packages| == 0 then None
    else if packages[|packages| - 1].name == PackageName then Some(packages[|packages| - 1].prettyVersion)
    else LocalVersion(packages[..|packages| - 1])
  }

  /** LocalVersion finds the pretty version of the last match, and nothing when nothing matches. */
  lemma {:induction false} LocalVersionIsLastMatch(packages: seq<Package>)
    ensures LocalVersion(packages).None? <==> forall i :: 0 <= i < |packages| ==> packages[i].name != PackageName
    ensures LocalVersion(packages).Some? ==>
      exists i :: LastMatchAt(packages, i) && packages[i].prettyVersion == LocalVersion(packages).value
  {
    if |packages| > 0 {
      var n := |packages| - 1;
      if packages[n].name == PackageName {
        assert LastMatchAt(packages, n);
      } else {
        var init := packages[..n];
        LocalVersionIsLastMatch(init);
        assert forall i :: 0 <= i < n ==> init[i] == packages[i];
        if LocalVersion(init).Some? {
          var i :| LastMatchAt(init, i) && init[i].prettyVersion == LocalVersion(init).value;
          assert LastMatchAt(packages, i);
        }
      }
    }
  }

  /** What `getRequiredVersion` answers: "require" first, then "require-dev", else an error. */
  function RequiredVersion(root: RootPackage, name: string): Result<string, ConfigurationError> {
    if name in root.require then Ok(root.require[name])
    else if name in root.requireDev then Ok(root.requireDev[name])
    else Err(ConfigurationError("Can not determine required version of " + name))
  }

  /** "require" takes precedence: a constraint there hides one under "require-dev". */
  lemma RequireBeforeRequireDev(root: RootPackage, name: string)
    requires name in root.require
    ensures RequiredVersion(root, name) == Ok(root.require[name])
  {
  }

  /** `getRequiredVersion`: walks the two link maps in order and returns from the first that has the name. */
  method GetRequiredVersion(root: RootPackage, name: string) returns (r: Result<string, ConfigurationError>)
    ensures r.Ok? <==> name in root.require || name in root.requireDev
    ensures r == RequiredVersion(root, name)
  {
    var linkMaps := [root.require, root.requireDev];
    var k := 0;
    while k < |linkMaps|
      invariant 0 <= k <= |linkMaps|
      invariant forall m :: 0 <= m < k ==> name !in linkMaps[m]
    {
      if name in linkMaps[k] {
        assert k == 1 ==> name !in linkMaps[0];
        return Ok(linkMaps[k][name]);
      }
      k := k + 1;
    }
    assert name !in linkMaps[0] && name !in linkMaps[1];
    return Err(ConfigurationError("Can not determine required version of " + name));
  }

  /** The development-branch alias is replaced by the branch name; any other string is kept. */
  function Normalize(version: string): (r: string)
    ensures r != DevMaster
    ensures r == version || (version == DevMaster && r == Master)
  {
    if version == DevMaster then Master else version
  }

  /**
   * The whole of `getVersion`. PHP's loose `$version == null` also holds for an
   * empty string, so an empty local pretty version falls through to the root package.
   */
  function ResolveVersion(packages: seq<Package>, root: RootPackage): Result<string, ConfigurationError> {
    var local := LocalVersion(packages);
    var found := if local.None? || local.value == "" then RequiredVersion(root, PackageName) else Ok(local.value);
    match found
    case Ok(v) => Ok(Normalize(v))
    case Err(e) => Err(e)
  }

  /** A non-empty local version decides alone: the root package is not consulted. */
  lemma LocalPackageWins(packages: seq<Package>, root: RootPackage, other: RootPackage)
    requires LocalVersion(packages).Some? && LocalVersion(packages).value != ""
    ensures ResolveVersion(packages, root) == ResolveVersion(packages, other)
    ensures ResolveVersion(packages, root) == Ok(Normalize(LocalVersion(packages).value))
  {
  }

  /** Resolution fails exactly when neither the local repository nor either link map knows the package. */
  lemma ResolveVersionFails(packages: seq<Package>, root: RootPackage)
    ensures ResolveVersion(packages, root).Err? <==>
      && (LocalVersion(packages).None? || LocalVersion(packages).value == "")
      && PackageName !in root.require
      && PackageName !in root.requireDev
  {
  }

  /** `getVersion`: the local repository loop, the fallback to the root package, then normalisation. */
  method GetVersion(packages: seq<Package>, root: RootPackage) returns (r: Result<string, ConfigurationError>)
    ensures r == ResolveVersion(packages, root)
    ensures r.Ok? ==> r.value != DevMaster
  {
    var version: Option<string> := None;
    var i := 0;
    while i < |packages|
      invariant 0 <= i <= |packages|
      invariant version == LocalVersion(packages[..i])
    {
      if packages[i].name == PackageName {
        version := Some(packages[i].prettyVersion);
      }
      assert packages[..i + 1][..i] == packages[..i];
      i := i + 1;
    }
    assert packages[..i] == packages;
    if version.None? || version.value == "" {
      var required := GetRequiredVersion(root, PackageName);
      if required.Err? {
        return Err(required.error);
      }
      version := Some(required.value);
    }
    return Ok(Normalize(version.value));
  }
}
