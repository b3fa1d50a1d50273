/** The request's temporary directory and the files staged in it. */
module Workspace {
  import opened Imaging
  import opened Frames

  /** A file's content: raw bytes, a saved still image (format by extension), or a saved animation. */
  datatype File = Bytes(data: seq<bv8>) | Still(format: string, image: Image) | Animated(animation: Animation)

  /** The files of one directory, by name. */
  type Files = map<string, File>

  /** Writing a directory twice leaves the second contents. */
  lemma UpdateTwice(dirs: map<string, Files>, name: string, first: Files, second: Files)
    ensures dirs[name := first][name := second] == dirs[name := second]
  {
  }

  /** Writing a directory with the contents it already has changes nothing. */
  lemma UpdateSame(dirs: map<string, Files>, name: string)
    requires name in dirs
    ensures dirs[name := dirs[name]] == dirs
  {
  }

  /** Removing a directory that was just added gives back the directories there were before. */
  lemma RemoveAdded(dirs: map<string, Files>, name: string, files: Files)
    requires name !in dirs
    ensures dirs[name := files] - {name} == dirs
  {
  }

  /** The temporary directories that exist, with their files. */
  class FileSystem {
    var dirs: map<string, Files>

    constructor (initial: map<string, Files>)
      ensures dirs == initial
    {
      dirs := initial;
    }

    /** `tempfile.mkdtemp()`: `name` is the fresh directory the system picks. */
    method MakeTempDir(name: string)
      requires name !in dirs
      modifies this
      ensures dirs == old(dirs)[name := map[]]
    {
      dirs := dirs[name := map[]];
    }

    /** `open(os.path.join(dir, name), "wb")` followed by a write, or a PIL `save` there. */
    method WriteFile(dir: string, name: string, file: File)
      requires dir in dirs
      modifies this
      ensures dirs == old(dirs)[dir := old(dirs)[dir][name := file]]
    {
      dirs := dirs[dir := dirs[dir][name := file]];
    }

    /** `os.path.exists(os.path.join(dir, name))` */
    predicate Exists(dir: string, name: string)
      reads this
    {
      dir in dirs && name in dirs[dir]
    }

    /** `open(os.path.join(dir, name), "rb").read()` */
    method ReadFile(dir: string, name: string) returns (file: File)
      requires Exists(dir, name)
      ensures file == dirs[dir][name]
    {
      file := dirs[dir][name];
    }

    /** `shutil.rmtree(dir)`; when it fails the directory stays as it was. */
    method RemoveTree(dir: string, fails: bool)
      modifies this
      ensures fails ==> dirs == old(dirs)
      ensures !fails ==> dirs == old(dirs) - {dir}
    {
      if !fails {
        dirs := dirs - {dir};
      }
    }
  }
}
