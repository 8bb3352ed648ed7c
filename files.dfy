/**
 * The part of the host filesystem the installer touches, with the PHP
 * primitives it calls: `is_dir`, `mkdir`, `file_put_contents`, `chmod` and
 * `realpath`. Paths are plain strings; directories and files are kept apart.
 */
module Files {
  import opened Common

  /** A regular file: its contents and its permission bits. */
  datatype FileEntry = FileEntry(content: string, mode: nat)

  /** `0755`: owner may read, write and execute; everyone else may read and execute. */
  const ExecutableMode: nat := 7 * 64 + 5 * 8 + 5

  /** `q` lies strictly below the path `p` (`p` followed by a separator is a prefix of `q`). */
  predicate Below(p: string, q: string) {
    |p| < |q| && q[..|p|] == p && q[|p|] == '/'
  }

  class FileSystem {
    var dirs: set<string>
    var files: map<string, FileEntry>
    /** The mode `file_put_contents` gives a file it creates (0666 less the process umask). */
    const newFileMode: nat

    constructor (dirs0: set<string>, files0: map<string, FileEntry>, newFileMode0: nat)
      ensures dirs == dirs0 && files == files0 && newFileMode == newFileMode0
    {
      dirs, files, newFileMode := dirs0, files0, newFileMode0;
    }

    /** No path is below a regular file: a file has no entries inside it. */
    ghost predicate WellFormed()
      reads this
    {
      forall p, q | p in files && (q in files || q in dirs) :: !Below(p, q)
    }

    /** `is_dir(path)`. */
    predicate IsDir(path: string)
      reads this
    {
      path in dirs
    }

    /** `realpath(path)`: the path when something exists there, otherwise `false`. */
    function RealPath(path: string): (r: Option<string>)
      reads this
      ensures r.Some? <==> path in files || path in dirs
      ensures r.Some? ==> r.value == path
    {
      if path in files || path in dirs then Some(path) else None
    }

    /** `mkdir(path)`. */
    method Mkdir(path: string)
      modifies this
      ensures dirs == old(dirs) + {path} && files == old(files)
    {
      dirs := dirs + {path};
    }

    /** `file_put_contents(path, content)`: replaces the contents and keeps the mode of an existing file. */
    method PutContents(path: string, content: string)
      modifies this
      ensures dirs == old(dirs)
      ensures files == old(files)[path := FileEntry(content,
        if path in old(files) then old(files)[path].mode else newFileMode)]
    {
      var mode := if path in files then files[path].mode else newFileMode;
      files := files[path := FileEntry(content, mode)];
    }

    /** `chmod(path, mode)`: changes the mode of an existing file and nothing else. */
    method Chmod(path: string, mode: nat)
      modifies this
      ensures dirs == old(dirs)
      ensures path in old(files) ==> files == old(files)[path := old(files)[path].(mode := mode)]
      ensures path !in old(files) ==> files == old(files)
    {
      if path in files {
        files := files[path := files[path].(mode := mode)];
      }
    }
  }
}
