/**
 * Operating-system detection (`Installer::getOS`): the output of `php_uname()`
 * is folded to lower case and searched for "darwin", then "win", then "linux".
 * The uname string is a parameter here, since the model performs no system call.
 */
module Platform {
  import opened Text

  /** The four answers `getOS` can give. */
  datatype OS = MacOSX | Windows | Linux | Unknown {
    /** The string `getOS` returns for this answer. */
    function Name(): (s: string)
      ensures s in {"macosx", "windows", "linux", "unknown"}
    {
      match this
      case MacOSX => "macosx"
      case Windows => "windows"
      case Linux => "linux"
      case Unknown => "unknown"
    }
  }

  /** Classifies a uname string; the first of the three substrings found decides. */
  function GetOS(uname: string): (os: OS)
    ensures os == MacOSX <==> Contains(Lower(uname), "darwin")
    ensures os == Windows <==> !Contains(Lower(uname), "darwin") && Contains(Lower(uname), "win")
  {
    var name := Lower(uname);
    if Contains(name, "darwin") then MacOSX
    else if Contains(name, "win") then Windows
    else if Contains(name, "linux") then Linux
    else Unknown
  }

  /**
   * Every string that mentions "darwin" also mentions "win", so checking
   * "darwin" first is what makes macOS reachable at all: such a uname is
   * classified as macOS although the Windows test would also have matched.
   */
  lemma DarwinShadowsWindows(uname: string)
    requires Contains(Lower(uname), "darwin")
    ensures Contains(Lower(uname), "win")
    ensures GetOS(uname) == MacOSX
  {
    assert OccursAt("darwin", "win", 3);
    ContainsTransitive(Lower(uname), "darwin", "win");
  }

  /** A uname naming Windows is classified as Windows even when it also mentions Linux. */
  lemma WindowsBeforeLinux(uname: string)
    requires !Contains(Lower(uname), "darwin")
    requires Contains(Lower(uname), "win") && Contains(Lower(uname), "linux")
    ensures GetOS(uname) == Windows
  {
  }

  /** Linux is reported only when neither earlier substring occurs. */
  lemma LinuxOnlyWithoutEarlierMatch(uname: string)
    ensures GetOS(uname) == Linux <==>
      !Contains(Lower(uname), "win") && Contains(Lower(uname), "linux")
  {
    if Contains(Lower(uname), "darwin") {
      DarwinShadowsWindows(uname);
    }
  }

  /** Only the lower-cased uname matters: classifying it again gives the same answer. */
  lemma GetOSDependsOnLower(uname: string)
    ensures GetOS(Lower(uname)) == GetOS(uname)
  {
    LowerIdempotent(uname);
  }

  /** The classification ignores the case of ASCII letters in the uname string. */
  lemma GetOSIgnoresCase(a: string, b: string)
    requires SameUpToCase(a, b)
    ensures GetOS(a) == GetOS(b)
  {
    SameUpToCaseLower(a, b);
  }

  /** A uname string that starts with "Darwin" (as on every macOS host) is macOS. */
  lemma DarwinUname(rest: string)
    ensures GetOS("Darwin" + rest) == MacOSX
  {
    var l := Lower("Darwin" + rest);
    assert l[..6] == "darwin";
    assert OccursAt(l, "darwin", 0);
  }
}
