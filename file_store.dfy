/** The part of Node's synchronous `fs` API the timestamp clients use, over an in-memory
    file system: regular files by path, and the set of directories. */
module FileStore {
  import opened Encoding

  /** Two file maps that agree outside `paths` agree once `paths` are removed from both. */
  lemma AgreeOutside(m1: map<string, seq<byte>>, m2: map<string, seq<byte>>, paths: set<string>)
    requires forall p :: p !in paths ==> (p in m1 <==> p in m2)
    requires forall p :: p !in paths && p in m1 ==> m1[p] == m2[p]
    ensures m1 - paths == m2 - paths
  {
  }

  class FileStore {
    var files: map<string, seq<byte>>
    var dirs: set<string>

    constructor (files0: map<string, seq<byte>>, dirs0: set<string>)
      ensures files == files0 && dirs == dirs0
    {
      files := files0;
      dirs := dirs0;
    }

    /** `fs.existsSync(path)` for a directory. */
    method DirExists(path: string) returns (b: bool)
      ensures b <==> path in dirs
    {
      b := path in dirs;
    }

    /** `fs.existsSync(path)` for a regular file. */
    method FileExists(path: string) returns (b: bool)
      ensures b <==> path in files
    {
      b := path in files;
    }

    /** `fs.mkdirSync(path, { recursive: true })`. */
    method MakeDirectory(path: string)
      modifies this
      ensures dirs == old(dirs) + {path} && files == old(files)
    {
      dirs := dirs + {path};
    }

    /** `fs.writeFileSync(path, data)`: creates or replaces the file. */
    method WriteFile(path: string, data: seq<byte>)
      modifies this
      ensures files == old(files)[path := data] && dirs == old(dirs)
    {
      files := files[path := data];
    }

    /** `fs.readFileSync(path)`; the callers check that the file exists first. */
    method ReadFile(path: string) returns (data: seq<byte>)
      requires path in files
      ensures data == files[path]
    {
      data := files[path];
    }

    /** `fs.unlinkSync(path)`; every call in the model is on a file known to exist. */
    method Unlink(path: string)
      requires path in files
      modifies this
      ensures files == old(files) - {path} && dirs == old(dirs)
    {
      files := files - {path};
    }

    /** `fs.copyFileSync(source, target)`: the target becomes a byte-identical copy. */
    method CopyFile(source: string, target: string)
      requires source in files
      modifies this
      ensures files == old(files)[target := old(files)[source]] && dirs == old(dirs)
    {
      files := files[target := files[source]];
    }
  }
}
