/**
 * The volatile workspace storage: a root directory under the system's
 * temporary directory and the registry of the workspace directories
 * allocated beneath it. Directory creation and removal, the temporary
 * directory and the fresh UUIDs are inputs of the model, not effects.
 */
module Volatile {
  import opened Wrappers

  /** A path as its sequence of components. */
  type Path = seq<string>

  /** The outcome of creating a directory on disk, which the model does not do. */
  datatype IoOutcome = Created | IoFailed(reason: string)

  /** One call of `allocate`: the fresh id it draws and how creating its directory went. */
  datatype Call = Call(id: string, mkdir: IoOutcome)

  /** The result of `allocate` and the registry it leaves behind. */
  datatype Allocation = Allocation(result: Result<Path>, paths: seq<Path>)

  /** `path` names an entry directly inside `dir`. */
  predicate ChildOf(path: Path, dir: Path) {
    |path| == |dir| + 1 && path[..|dir|] == dir
  }

  /** The last component of a non-empty path. */
  function Name(path: Path): string
    requires path != []
  {
    path[|path| - 1]
  }

  /** The root directory `new` creates: `<tempDir>/gitevents/storage/<storageId>`. */
  function StorageRoot(tempDir: Path, storageId: string): (dir: Path)
    ensures |dir| == |tempDir| + 3 && dir[..|tempDir|] == tempDir
    ensures Name(dir) == storageId
  {
    tempDir + ["gitevents", "storage", storageId]
  }

  /**
   * What `allocate` does to the registry `paths` of storage rooted at `dir`:
   * on success the returned path is the entry `id` directly inside `dir` and
   * is appended to the registry; on failure the error is reported and the
   * registry is left as it was.
   */
  function AllocateStep(dir: Path, paths: seq<Path>, id: string, mkdir: IoOutcome): (r: Allocation)
    ensures r.result.Ok? <==> mkdir.Created?
    ensures r.result.Ok? ==> ChildOf(r.result.value, dir) && Name(r.result.value) == id
    ensures r.result.Ok? ==> r.paths == paths + [r.result.value]
    ensures r.result.Err? ==> r.paths == paths && r.result.error == mkdir.reason
  {
    var newDir := dir + [id];
    match mkdir
    case IoFailed(reason) => Allocation(Err(reason), paths)
    case Created => Allocation(Ok(newDir), paths + [newDir])
  }

  /** The ids of the calls whose directory creation succeeded, in call order. */
  function SucceededIds(calls: seq<Call>): seq<string>
  {
    if calls == [] then []
    else (if calls[0].mkdir.Created? then [calls[0].id] else []) + SucceededIds(calls[1..])
  }

  /** The registry after the calls `calls` of `allocate`, one after the other. */
  function Replay(dir: Path, paths: seq<Path>, calls: seq<Call>): (r: seq<Path>)
    ensures |r| == |paths| + |SucceededIds(calls)|
    ensures r[..|paths|] == paths
    ensures forall i :: 0 <= i < |SucceededIds(calls)| ==> r[|paths| + i] == dir + [SucceededIds(calls)[i]]
    decreases calls
  {
    if calls == [] then paths
    else Replay(dir, AllocateStep(dir, paths, calls[0].id, calls[0].mkdir).paths, calls[1..])
  }

  /** Every entry of `paths` lies directly inside `dir`. */
  ghost predicate AllInside(paths: seq<Path>, dir: Path) {
    forall i :: 0 <= i < |paths| ==> ChildOf(paths[i], dir)
  }

  /** No two entries of `paths` are the same path. */
  ghost predicate Distinct<T>(s: seq<T>) {
    forall i, j :: 0 <= i < j < |s| ==> s[i] != s[j]
  }

  /**
   * Entries directly inside one directory are distinct paths exactly when
   * their names are distinct.
   */
  lemma DistinctPathsDistinctNames(paths: seq<Path>, dir: Path)
    requires AllInside(paths, dir)
    ensures Distinct(paths) <==> forall i, j :: 0 <= i < j < |paths| ==> Name(paths[i]) != Name(paths[j])
  {
    forall i, j | 0 <= i < j < |paths| && Name(paths[i]) == Name(paths[j])
      ensures paths[i] == paths[j]
    {
      assert paths[i] == paths[i][..|dir|] + [Name(paths[i])];
      assert paths[j] == paths[j][..|dir|] + [Name(paths[j])];
    }
  }

  /**
   * An allocation with an id no registered entry carries keeps the registry
   * free of duplicates; the fresh UUID is what makes the id new.
   */
  lemma AllocateKeepsDistinct(dir: Path, paths: seq<Path>, id: string, mkdir: IoOutcome)
    requires AllInside(paths, dir) && Distinct(paths)
    requires forall i :: 0 <= i < |paths| ==> Name(paths[i]) != id
    ensures AllInside(AllocateStep(dir, paths, id, mkdir).paths, dir)
    ensures Distinct(AllocateStep(dir, paths, id, mkdir).paths)
  {
  }

  /** `VolatileStorage`: the root directory and the registry of allocated workspaces. */
  class VolatileStorage {
    var dir: Path
    var paths: seq<Path>

    /** Every registered workspace lies directly inside the root directory. */
    ghost predicate Valid()
      reads this
    {
      AllInside(paths, dir)
    }

    /** `VolatileStorage::new`: root `<tempDir>/gitevents/storage/<storageId>`, empty registry. */
    constructor (tempDir: Path, storageId: string)
      ensures dir == StorageRoot(tempDir, storageId) && paths == []
      ensures Valid()
    {
      dir := StorageRoot(tempDir, storageId);
      paths := [];
    }

    /**
     * `allocate`: builds `<dir>/<newId>`, creates it, and only then registers
     * and returns it; a failed creation returns the error before the registry
     * is touched. The root directory never changes.
     */
    method Allocate(newId: string, mkdir: IoOutcome) returns (r: Result<Path>)
      requires Valid()
      modifies this`paths
      ensures Valid() && dir == old(dir)
      ensures Allocation(r, paths) == AllocateStep(dir, old(paths), newId, mkdir)
    {
      var newDir := dir + [newId];
      if mkdir.IoFailed? {
        return Err(mkdir.reason);
      }
      paths := paths + [newDir];
      r := Ok(newDir);
    }
  }

  /**
   * A fresh storage that allocates once registers the allocated path as its
   * first entry: `<tempDir>/gitevents/storage/<storageId>/<newId>`.
   */
  method AllocateOnFreshStorage(tempDir: Path, storageId: string, newId: string)
    returns (r: Result<Path>, registry: seq<Path>)
    ensures r == Ok(tempDir + ["gitevents", "storage", storageId, newId])
    ensures registry == [r.value]
  {
    var storage := new VolatileStorage(tempDir, storageId);
    r := storage.Allocate(newId, Created);
    registry := storage.paths;
    assert StorageRoot(tempDir, storageId) + [newId] == tempDir + ["gitevents", "storage", storageId, newId];
  }
}
