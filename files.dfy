/** The filesystem as the modelled code sees it: a finite map from paths to
    nodes, each a regular file holding bytes or a directory. The operations
    are those of pathlib and os that the checkpoint code calls (`exists`,
    `is_file`, `os.listdir`, `mkdir(parents=True, exist_ok=True)`,
    `write_bytes`), each with the exception it raises modelled as an error. */
module Files {
  import opened Wrappers
  import opened Paths

  newtype byte = x: int | 0 <= x < 256

  type Bytes = seq<byte>

  datatype Node = File(content: Bytes) | Dir

  type Fs = map<Path, Node>

  /** The exceptions that the modelled code lets propagate to its caller.
      The filesystem's own errors come first; a broken transfer (raised by
      the network oracle of the Checkpoint module) and a failing load (the
      loader oracle of the Train module) are listed here too, so that every
      modelled call reports its errors with one type. */
  datatype Error =
    | FileExists(path: Path)        // mkdir over an existing regular file
    | FileNotFound(path: Path)      // path, or the directory to hold it, is missing
    | NotADirectory(path: Path)     // a regular file where a directory is needed
    | IsADirectory(path: Path)      // writing bytes over a directory
    | ConnectionFailed(url: string) // the transfer of url broke off
    | LoadFailed(path: Path)        // deserialising a checkpoint file failed

  predicate IsFile(fs: Fs, p: Path) {
    p in fs && fs[p].File?
  }

  predicate IsDir(fs: Fs, p: Path) {
    p in fs && fs[p].Dir?
  }

  /** The entries `os.listdir(d)` would list, as full paths. */
  function Entries(fs: Fs, d: Path): set<Path> {
    set q | q in fs && IsChild(d, q)
  }

  /** `len(os.listdir(d))`. */
  function ListDirCount(fs: Fs, d: Path): (r: Result<nat, Error>)
    ensures r.Ok? <==> IsDir(fs, d)
    ensures r.Ok? ==> r.value == |Entries(fs, d)|
    ensures d !in fs ==> r == Err(FileNotFound(d))
    ensures IsFile(fs, d) ==> r == Err(NotADirectory(d))
  {
    if d !in fs then Err(FileNotFound(d))
    else if fs[d].File? then Err(NotADirectory(d))
    else Ok(|Entries(fs, d)|)
  }

  /** One `os.mkdir(p)` followed by pathlib's `exist_ok` handling: an existing
      directory is accepted, anything else that fails is raised. */
  function MkdirOnce(fs: Fs, p: Path): (r: Result<Fs, Error>)
    ensures r.Ok? <==> IsDir(fs, p) || (p !in fs && IsDir(fs, Parent(p)))
    ensures r.Ok? ==> r.value == fs[p := Dir]
    ensures r.Err? && r.error.NotADirectory? ==> r.error == NotADirectory(p)
  {
    if p in fs then (if fs[p].Dir? then Ok(fs) else Err(FileExists(p)))
    else if Parent(p) !in fs then Err(FileNotFound(p))
    else if fs[Parent(p)].File? then Err(NotADirectory(p))
    else Ok(fs[p := Dir])
  }

  /** The filesystem after `p.mkdir(parents=True, exist_ok=True)`: when the
      parent is missing the parent is created first (recursively) and the
      mkdir is tried again; at a root that does not exist the error stands.
      A regular file on the way makes the very first `os.mkdir(p)` fail with
      `NotADirectoryError`, which is not retried, so that error names p. */
  function AfterMkdir(fs: Fs, p: Path): (r: Result<Fs, Error>)
    ensures r.Ok? ==> IsDir(r.value, p)
    ensures r.Ok? ==> forall q :: q in fs ==> q in r.value && r.value[q] == fs[q]
    ensures r.Ok? ==> forall q :: q in r.value && q !in fs ==> r.value[q] == Dir && q in AncestorsOrSelf(p)
    ensures r.Ok? ==> forall q :: q in r.value && q !in fs ==> q.parts != [] && IsDir(r.value, Parent(q))
    ensures IsDir(fs, p) ==> r == Ok(fs)
    ensures IsFile(fs, p) ==> r == Err(FileExists(p))
    ensures r.Err? && r.error.NotADirectory? ==> r.error == NotADirectory(p)
    decreases |p.parts|
  {
    if p !in fs && Parent(p) !in fs && p.parts != [] then
      match AfterMkdir(fs, Parent(p))
      case Err(e) => if e.NotADirectory? then Err(NotADirectory(p)) else Err(e)
      case Ok(fs1) => MkdirOnce(fs1, p)
    else
      MkdirOnce(fs, p)
  }

  /** `mkdir(parents=True, exist_ok=True)` succeeds whenever the root exists
      as a directory and no path from the root down to p is a regular file:
      every missing directory on the way is created. */
  lemma {:induction false} MkdirSucceeds(fs: Fs, p: Path)
    ensures IsDir(fs, Path(p.absolute, [])) && (forall q :: q in AncestorsOrSelf(p) ==> !IsFile(fs, q)) ==>
      AfterMkdir(fs, p).Ok?
    decreases |p.parts|
  {
    if IsDir(fs, Path(p.absolute, [])) && (forall q :: q in AncestorsOrSelf(p) ==> !IsFile(fs, q)) {
      if p.parts == [] {
        assert p == Path(p.absolute, []);
      } else {
        assert Parent(p) in AncestorsOrSelf(p);
        assert p in AncestorsOrSelf(p);
        if p !in fs && Parent(p) !in fs {
          assert forall q :: q in AncestorsOrSelf(Parent(p)) ==> q in AncestorsOrSelf(p);
          MkdirSucceeds(fs, Parent(p));
        }
      }
    }
  }

  /** The filesystem after `p.write_bytes(data)`: the file is created or
      truncated and filled with data; writing over a directory or into a
      directory that does not exist fails and changes nothing. */
  function AfterWrite(fs: Fs, p: Path, data: Bytes): (r: Result<Fs, Error>)
    ensures r.Ok? <==> !IsDir(fs, p) && IsDir(fs, Parent(p))
    ensures r.Ok? ==> r.value.Keys == fs.Keys + {p} && r.value[p] == File(data)
    ensures r.Ok? ==> forall q :: q in fs && q != p ==> r.value[q] == fs[q]
  {
    if IsDir(fs, p) then Err(IsADirectory(p))
    else if Parent(p) !in fs then Err(FileNotFound(p))
    else if fs[Parent(p)].File? then Err(NotADirectory(p))
    else Ok(fs[p := File(data)])
  }

  /** The filesystem the process works on; the modelled code updates it in
      place through `mkdir` and `write_bytes`. */
  class FileSystem {
    var nodes: Fs

    constructor (initial: Fs)
      ensures nodes == initial
    {
      nodes := initial;
    }

    /** `p.mkdir(parents=True, exist_ok=True)`. */
    method Mkdir(p: Path) returns (failure: Option<Error>)
      modifies this
      ensures AfterMkdir(old(nodes), p).Ok? ==> failure == None && nodes == AfterMkdir(old(nodes), p).value
      ensures AfterMkdir(old(nodes), p).Err? ==> failure == Some(AfterMkdir(old(nodes), p).error) && nodes == old(nodes)
    {
      var r := AfterMkdir(nodes, p);
      if r.Ok? {
        nodes := r.value;
        failure := None;
      } else {
        failure := Some(r.error);
      }
    }

    /** `p.write_bytes(data)`. */
    method WriteBytes(p: Path, data: Bytes) returns (failure: Option<Error>)
      modifies this
      ensures AfterWrite(old(nodes), p, data).Ok? ==> failure == None && nodes == AfterWrite(old(nodes), p, data).value
      ensures AfterWrite(old(nodes), p, data).Err? ==> failure == Some(AfterWrite(old(nodes), p, data).error) && nodes == old(nodes)
    {
      var r := AfterWrite(nodes, p, data);
      if r.Ok? {
        nodes := r.value;
        failure := None;
      } else {
        failure := Some(r.error);
      }
    }
  }
}
