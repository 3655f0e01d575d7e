/** The part of the operating system's file system the downloader touches (`os.path.exists`,
    `os.makedirs`, `open(path, "wb")`, `os.remove`, `os.rename`), as a map from path to
    contents and a set of directories. Paths are compared as written, except that a path
    ending in '/' names the directory it reaches once those slashes are dropped. */
module Files {
  import opened Py

  predicate EndsInSlash(p: string) {
    p != [] && p[|p| - 1] == '/'
  }

  /** `p` without its trailing slashes. */
  function DropSlashes(p: string): string {
    if EndsInSlash(p) then DropSlashes(p[..|p| - 1]) else p
  }

  /** The bytes of a sequence of chunks, in order. */
  function Concat(chunks: seq<seq<byte>>): (r: seq<byte>)
    ensures chunks == [] ==> r == []
  {
    if chunks == [] then [] else Concat(chunks[..|chunks| - 1]) + chunks[|chunks| - 1]
  }

  /** Writing one more chunk appends its bytes. */
  lemma ConcatSnoc(chunks: seq<seq<byte>>, c: seq<byte>)
    ensures Concat(chunks + [c]) == Concat(chunks) + c
  {
    assert (chunks + [c])[..|chunks|] == chunks;
  }

  /** The total length is the sum of the chunks' lengths; in particular the file is empty
      exactly when every chunk is. */
  lemma {:induction false} ConcatEmpty(chunks: seq<seq<byte>>)
    ensures Concat(chunks) == [] <==> forall i :: 0 <= i < |chunks| ==> chunks[i] == []
  {
    if chunks != [] {
      var init := chunks[..|chunks| - 1];
      ConcatEmpty(init);
      assert forall i :: 0 <= i < |init| ==> init[i] == chunks[i];
    }
  }

  /** Whether `p` exists among `files` and `dirs`, as `FileSystem.Exists` says. */
  predicate ExistsIn(files: map<string, seq<byte>>, dirs: set<string>, p: string) {
    p != "" && (p in files || p in dirs || (EndsInSlash(p) && (DropSlashes(p) == "" || DropSlashes(p) in dirs)))
  }

  /** The directories after `download_file()`'s `if not os.path.exists(dir): os.makedirs(dir)`
      on files `files0` and directories `dirs0`: `dir` is added when nothing existed there. */
  function DirsAfter(dir: string, files0: map<string, seq<byte>>, dirs0: set<string>): (r: set<string>)
    ensures dirs0 <= r <= dirs0 + {dir} && (!ExistsIn(files0, dirs0, dir) ==> dir in r)
  {
    if ExistsIn(files0, dirs0, dir) then dirs0 else dirs0 + {dir}
  }

  class FileSystem {
    var files: map<string, seq<byte>>
    var dirs: set<string>

    constructor (files: map<string, seq<byte>>, dirs: set<string>)
      ensures this.files == files && this.dirs == dirs
    {
      this.files := files;
      this.dirs := dirs;
    }

    /** `os.path.exists(p)`: false for the empty path; a path ending in '/' exists when it
        names a directory, the root included. */
    predicate Exists(p: string)
      reads this
    {
      ExistsIn(files, dirs, p)
    }

    /** Nothing, neither a file nor a directory, is at `p` as written. */
    predicate Unused(p: string)
      reads this
    {
      p !in files && p !in dirs
    }

    /** `os.makedirs(p)`: the empty path raises FileNotFoundError, an existing one
        FileExistsError; otherwise `p` becomes a directory. */
    method MakeDirs(p: string) returns (raised: Option<PyError>)
      modifies this`dirs
      ensures raised == (if p == "" then Some(FileNotFoundError(p))
                         else if old(Exists(p)) then Some(FileExistsError(p)) else None)
      ensures dirs == if raised.None? then old(dirs) + {p} else old(dirs)
    {
      if p == "" {
        return Some(FileNotFoundError(p));
      }
      if Exists(p) {
        return Some(FileExistsError(p));
      }
      dirs := dirs + {p};
      return None;
    }

    /** `open(p, "wb")`: a directory raises IsADirectoryError; otherwise `p` is created or
        truncated. */
    method Create(p: string) returns (raised: Option<PyError>)
      modifies this`files
      ensures raised == if p in dirs then Some(IsADirectoryError(p)) else None
      ensures files == if raised.None? then old(files)[p := []] else old(files)
    {
      if p in dirs {
        return Some(IsADirectoryError(p));
      }
      files := files[p := []];
      return None;
    }

    /** `f.write(chunk)` on the file opened at `p`. */
    method Append(p: string, chunk: seq<byte>)
      requires p in files
      modifies this`files
      ensures files == old(files)[p := old(files)[p] + chunk]
    {
      files := files[p := files[p] + chunk];
    }

    /** `os.remove(p)`: a missing file raises FileNotFoundError. */
    method Remove(p: string) returns (raised: Option<PyError>)
      modifies this`files
      ensures raised == if p !in old(files) then Some(FileNotFoundError(p)) else None
      ensures files == old(files) - {p}
    {
      if p !in files {
        return Some(FileNotFoundError(p));
      }
      files := files - {p};
      return None;
    }

    /** `os.rename(src, dst)` of a file: a missing source raises FileNotFoundError, a
        destination ending in '/' NotADirectoryError and a directory destination
        IsADirectoryError; otherwise the contents move to `dst`, replacing any file there. */
    method Rename(src: string, dst: string) returns (raised: Option<PyError>)
      modifies this`files
      ensures raised == (if src !in old(files) then Some(FileNotFoundError(src))
                         else if EndsInSlash(dst) then Some(NotADirectoryError(dst))
                         else if dst in dirs then Some(IsADirectoryError(dst)) else None)
      ensures files == if raised.None? then Moved(old(files), src, dst) else old(files)
    {
      if src !in files {
        return Some(FileNotFoundError(src));
      }
      if EndsInSlash(dst) {
        return Some(NotADirectoryError(dst));
      }
      if dst in dirs {
        return Some(IsADirectoryError(dst));
      }
      files := Moved(files, src, dst);
      return None;
    }
  }

  /** Writes `chunks` in order to the empty file just opened at `path`. */
  method WriteChunks(fs: FileSystem, path: string, chunks: seq<seq<byte>>)
    requires path in fs.files && fs.files[path] == []
    modifies fs`files
    ensures fs.files == old(fs.files)[path := Concat(chunks)]
  {
    var i := 0;
    while i < |chunks|
      invariant 0 <= i <= |chunks|
      invariant fs.files == old(fs.files)[path := Concat(chunks[..i])]
    {
      assert chunks[..i + 1] == chunks[..i] + [chunks[i]];
      ConcatSnoc(chunks[..i], chunks[i]);
      fs.Append(path, chunks[i]);
      i := i + 1;
    }
    assert chunks[..i] == chunks;
  }

  /** The files after `src` is renamed to `dst`. */
  function Moved(files: map<string, seq<byte>>, src: string, dst: string): (r: map<string, seq<byte>>)
    requires src in files
    ensures dst in r && r[dst] == files[src]
    ensures src != dst ==> src !in r
    ensures forall p :: p in files && p != src && p != dst ==> p in r && r[p] == files[p]
    ensures forall p :: p in r ==> p == dst || p in files
  {
    (files - {src})[dst := files[src]]
  }

  /** Renaming a file onto a fresh name and back restores the file system. */
  lemma MovedBack(files: map<string, seq<byte>>, src: string, dst: string)
    requires src in files && dst !in files
    ensures Moved(Moved(files, src, dst), dst, src) == files
  {
    var there := Moved(files, src, dst);
    var back := Moved(there, dst, src);
    forall p | p in back ensures p in files && back[p] == files[p] {
    }
    assert back.Keys == files.Keys;
  }

  /** Writing a fresh file and removing it restores the file system. */
  lemma RemovedFresh(files: map<string, seq<byte>>, p: string, content: seq<byte>)
    requires p !in files
    ensures files[p := content] - {p} == files
  {
    assert (files[p := content] - {p}).Keys == files.Keys;
  }

  /** Writing a fresh file and renaming it is writing the contents under the new name. */
  lemma MovedFresh(files: map<string, seq<byte>>, src: string, dst: string, content: seq<byte>)
    requires src !in files
    ensures Moved(files[src := content], src, dst) == files[dst := content]
  {
    var a := Moved(files[src := content], src, dst);
    var b := files[dst := content];
    forall p | p in a ensures p in b && a[p] == b[p] {
    }
    assert a.Keys == b.Keys;
  }
}
