/**
 * The local file system as the pipelines see it: a map from paths to file
 * sizes.  A path is the sequence of its components, so `directory / name`
 * is `directory + [name]`.  Directories are implicit (`mkdir` always
 * succeeds and is not modelled); an operation on a missing file reports
 * failure instead of raising `FileNotFoundError`.
 */
module Files {
  import opened PyText

  type Path = seq<string>

  /** `path.name`: the last component, empty for the empty path. */
  function Name(p: Path): string {
    if |p| == 0 then "" else p[|p| - 1]
  }

  /** `path.parent`: everything but the last component. */
  function Parent(p: Path): Path {
    if |p| == 0 then [] else p[..|p| - 1]
  }

  /** `str(path)`: the components joined by `/`. */
  function PathText(p: Path): string {
    Join(p, "/")
  }

  class FileSystem {
    /** Every existing file and its size in bytes. */
    var files: map<Path, nat>

    constructor (initial: map<Path, nat>)
      ensures files == initial
    {
      files := initial;
    }

    /** `path.exists()`. */
    predicate Exists(p: Path)
      reads this
    {
      p in files
    }

    /** `path.stat().st_size`. */
    function Size(p: Path): nat
      reads this
      requires Exists(p)
    {
      files[p]
    }

    /** A file written by a collaborator (a download, a copy). */
    method Write(p: Path, size: nat)
      modifies this
      ensures files == old(files)[p := size]
    {
      files := files[p := size];
    }

    /** `src.rename(dst)`: replaces `dst` if it exists; fails on a missing source. */
    method Rename(src: Path, dst: Path) returns (ok: bool)
      modifies this
      ensures ok <==> src in old(files)
      ensures ok ==> files == (old(files) - {src})[dst := old(files)[src]]
      ensures !ok ==> files == old(files)
    {
      if src in files {
        var size := files[src];
        files := (files - {src})[dst := size];
        ok := true;
      } else {
        ok := false;
      }
    }

    /** `shutil.copy2(src, dst)`: fails on a missing source. */
    method Copy(src: Path, dst: Path) returns (ok: bool)
      modifies this
      ensures ok <==> src in old(files)
      ensures ok ==> files == old(files)[dst := old(files)[src]]
      ensures !ok ==> files == old(files)
    {
      if src in files {
        files := files[dst := files[src]];
        ok := true;
      } else {
        ok := false;
      }
    }

    /** `path.unlink()`: fails on a missing file. */
    method Delete(p: Path) returns (ok: bool)
      modifies this
      ensures ok <==> p in old(files)
      ensures files == old(files) - {p}
    {
      ok := p in files;
      files := files - {p};
    }
  }
}
