/**
 * The launcher script written into the project's bin directory
 * (`createCasperJsBinaryToBinFolder`) and the lookup of an already unpacked
 * CasperJS binary (`getCasperJsBinary`). Both consult `getOS`, so both take
 * the uname string.
 */
module Launcher {
  import opened Common
  import opened Text
  import opened Platform
  import opened Files

  /** Where the archive is unpacked, relative to Composer's vendor directory. */
  const CasperJsTargetDir := "/jerome-breton/casperjs"

  /** The suffix of executables: ".exe" on Windows, nothing elsewhere. */
  function ExeSuffix(os: OS): string {
    if os == Windows then ".exe" else ""
  }

  /** The unpacked CasperJS binary the launcher runs. */
  function SourcePath(os: OS, targetDir: string): string {
    targetDir + "/bin/casperjs" + ExeSuffix(os)
  }

  /** The PhantomJS binary, installed beside the launcher, that CasperJS is told to use. */
  function PhantomPath(os: OS, binDir: string): string {
    binDir + "/phantomjs" + ExeSuffix(os)
  }

  /** The launcher itself: a batch file on Windows, an extension-less script elsewhere. */
  function LauncherPath(os: OS, binDir: string): string {
    binDir + "/casperjs" + (if os == Windows then ".bat" else "")
  }

  /** The launcher's text: set PHANTOMJS_EXECUTABLE, then run CasperJS with every argument. */
  function LauncherContent(os: OS, targetDir: string, binDir: string): string {
    if os == Windows then
      "SET PHANTOMJS_EXECUTABLE=" + PhantomPath(os, binDir) + "\n" + SourcePath(os, targetDir) + " %*"
    else
      "#!/bin/bash\nPHANTOMJS_EXECUTABLE=" + PhantomPath(os, binDir) + " " + SourcePath(os, targetDir) + " $*"
  }

  /**
   * The files once the launcher is written: one entry for the launcher, which a
   * Unix-like system also makes executable; no entry at all for an unknown system.
   */
  function WithLauncher(files: map<string, FileEntry>, newFileMode: nat, os: OS, targetDir: string, binDir: string)
    : (r: map<string, FileEntry>)
    ensures forall p :: p != LauncherPath(os, binDir) ==> (p in r <==> p in files) && (p in r ==> r[p] == files[p])
    ensures os == Unknown ==> r == files
    ensures os != Unknown ==>
      (LauncherPath(os, binDir) in r && r[LauncherPath(os, binDir)].content == LauncherContent(os, targetDir, binDir))
    ensures os == Linux || os == MacOSX ==> r[LauncherPath(os, binDir)].mode == ExecutableMode
  {
    var path := LauncherPath(os, binDir);
    var content := LauncherContent(os, targetDir, binDir);
    match os
    case Windows => files[path := FileEntry(content, if path in files then files[path].mode else newFileMode)]
    case Linux => files[path := FileEntry(content, ExecutableMode)]
    case MacOSX => files[path := FileEntry(content, ExecutableMode)]
    case Unknown => files
  }

  /**
   * `createCasperJsBinaryToBinFolder`: creates the bin directory when it is
   * missing, then builds the three paths and writes the launcher for the host.
   */
  method CreateCasperJsBinaryToBinFolder(fs: FileSystem, uname: string, targetDir: string, binDir: string)
    modifies fs
    ensures fs.dirs == old(fs.dirs) + {binDir}
    ensures fs.files == WithLauncher(old(fs.files), fs.newFileMode, GetOS(uname), targetDir, binDir)
  {
    if !fs.IsDir(binDir) {
      fs.Mkdir(binDir);
    }
    var os := GetOS(uname);
    var sourcePath := targetDir + "/bin/casperjs";
    var phantomPath := binDir + "/phantomjs";
    var targetPath := binDir + "/casperjs";
    assert os != Windows ==>
      sourcePath == SourcePath(os, targetDir) && phantomPath == PhantomPath(os, binDir)
      && targetPath == LauncherPath(os, binDir);
    if os == Windows {
      sourcePath := sourcePath + ".exe";
      phantomPath := phantomPath + ".exe";
      targetPath := targetPath + ".bat";
      fs.PutContents(targetPath, "SET PHANTOMJS_EXECUTABLE=" + phantomPath + "\n" + sourcePath + " %*");
    }
    if os == Linux || os == MacOSX {
      fs.PutContents(targetPath, "#!/bin/bash\nPHANTOMJS_EXECUTABLE=" + phantomPath + " " + sourcePath + " $*");
      fs.Chmod(targetPath, ExecutableMode);
    }
  }

  /** The launcher names both the PhantomJS binary and the CasperJS binary it hands over to. */
  lemma LauncherNamesItsBinaries(os: OS, targetDir: string, binDir: string)
    ensures Contains(LauncherContent(os, targetDir, binDir), PhantomPath(os, binDir))
    ensures Contains(LauncherContent(os, targetDir, binDir), SourcePath(os, targetDir))
  {
    var phantom, source := PhantomPath(os, binDir), SourcePath(os, targetDir);
    if os == Windows {
      var head, tail := "SET PHANTOMJS_EXECUTABLE=", " %*";
      assert LauncherContent(os, targetDir, binDir) == head + phantom + ("\n" + source + tail);
      ContainsInfix(head, phantom, "\n" + source + tail);
      assert LauncherContent(os, targetDir, binDir) == (head + phantom + "\n") + source + tail;
      ContainsInfix(head + phantom + "\n", source, tail);
    } else {
      var head, tail := "#!/bin/bash\nPHANTOMJS_EXECUTABLE=", " $*";
      assert LauncherContent(os, targetDir, binDir) == head + phantom + (" " + source + tail);
      ContainsInfix(head, phantom, " " + source + tail);
      assert LauncherContent(os, targetDir, binDir) == (head + phantom + " ") + source + tail;
      ContainsInfix(head + phantom + " ", source, tail);
    }
  }

  /**
   * The launcher's bytes with every path spelled out: a two-line batch file on
   * Windows, a bash script with one command line on Linux and macOS.
   */
  lemma LauncherText(os: OS, targetDir: string, binDir: string)
    ensures os == Windows ==>
      LauncherContent(os, targetDir, binDir)
      == "SET PHANTOMJS_EXECUTABLE=" + binDir + "/phantomjs.exe\n" + targetDir + "/bin/casperjs.exe %*"
    ensures os != Windows ==>
      LauncherContent(os, targetDir, binDir)
      == "#!/bin/bash\nPHANTOMJS_EXECUTABLE=" + binDir + "/phantomjs " + targetDir + "/bin/casperjs $*"
  {
    var head := if os == Windows then "SET PHANTOMJS_EXECUTABLE=" else "#!/bin/bash\nPHANTOMJS_EXECUTABLE=";
    var sep := if os == Windows then "\n" else " ";
    var tail := if os == Windows then " %*" else " $*";
    var exe := ExeSuffix(os);
    calc {
      LauncherContent(os, targetDir, binDir);
      head + (binDir + ("/phantomjs" + exe)) + sep + (targetDir + ("/bin/casperjs" + exe)) + tail;
      { Concat5(head, binDir, "/phantomjs" + exe, sep, targetDir, "/bin/casperjs" + exe, tail); }
      head + binDir + ("/phantomjs" + exe + sep) + targetDir + ("/bin/casperjs" + exe + tail);
    }
    if os == Windows {
      assert "/phantomjs" + ".exe" + "\n" == "/phantomjs.exe\n";
      assert "/bin/casperjs" + ".exe" + " %*" == "/bin/casperjs.exe %*";
    } else {
      assert "/phantomjs" + "" + " " == "/phantomjs ";
      assert "/bin/casperjs" + "" + " $*" == "/bin/casperjs $*";
    }
  }

  /** Regrouping the concatenation the launcher text is built from. */
  lemma Concat5(h: string, b: string, p: string, sep: string, t: string, s: string, tail: string)
    ensures h + (b + p) + sep + (t + s) + tail == h + b + (p + sep) + t + (s + tail)
  {
  }

  /** The path `getCasperJsBinary` looks at inside the directory it is given. */
  function BinaryPath(os: OS, dir: string): string {
    dir + "/casperjs" + ExeSuffix(os)
  }

  /** `getCasperJsBinary`: that path, if something exists there. */
  function GetCasperJsBinary(fs: FileSystem, uname: string, dir: string): (r: Option<string>)
    reads fs
    ensures r.Some? <==> BinaryPath(GetOS(uname), dir) in fs.files || BinaryPath(GetOS(uname), dir) in fs.dirs
    ensures r.Some? ==> r.value == BinaryPath(GetOS(uname), dir)
  {
    fs.RealPath(BinaryPath(GetOS(uname), dir))
  }

  /** The directory `install` hands to `getCasperJsBinary`, as the source writes it. */
  function ProbeDirAsWritten(targetDir: string): string {
    targetDir + "/bin/casperjs"
  }

  /** The directory that holds the unpacked binary, which `install` evidently means to search. */
  function ProbeDir(targetDir: string): string {
    targetDir + "/bin"
  }

  /**
   * As written, the probe looks one level below the unpacked CasperJS script
   * (".../bin/casperjs/casperjs"). The archive unpacks that script as a regular
   * file, and nothing lies below a file, so an installed CasperJS is never found.
   */
  lemma ProbeAsWrittenMissesInstall(fs: FileSystem, uname: string, targetDir: string)
    requires fs.WellFormed()
    requires targetDir + "/bin/casperjs" in fs.files
    ensures GetCasperJsBinary(fs, uname, ProbeDirAsWritten(targetDir)) == None
  {
    var script := targetDir + "/bin/casperjs";
    var probe := BinaryPath(GetOS(uname), ProbeDirAsWritten(targetDir));
    assert probe == script + ("/casperjs" + ExeSuffix(GetOS(uname)));
    assert probe[..|script|] == script;
    assert Below(script, probe);
  }

  /** A Linux host with target "/v/casperjs": the probe and the binary the launcher runs differ. */
  lemma ProbeAsWrittenExample()
    ensures BinaryPath(Linux, ProbeDirAsWritten("/v/casperjs")) == "/v/casperjs/bin/casperjs/casperjs"
    ensures SourcePath(Linux, "/v/casperjs") == "/v/casperjs/bin/casperjs"
  {
  }

  /** Searching the corrected directory looks exactly at the binary the launcher runs, on every host. */
  lemma ProbeFindsLauncherSource(os: OS, targetDir: string)
    ensures BinaryPath(os, ProbeDir(targetDir)) == SourcePath(os, targetDir)
  {
    var suffix := ExeSuffix(os);
    calc {
      BinaryPath(os, ProbeDir(targetDir));
      (targetDir + "/bin") + "/casperjs" + suffix;
      { assert "/bin" + "/casperjs" == "/bin/casperjs"; }
      targetDir + "/bin/casperjs" + suffix;
    }
  }
}
