/** Copying one reader's data into the hub's data root: a work tree is filled file
    by file and published by one atomic rename, and the migration journal then
    records it. Any step may fail, or be the last one the process makes. */
module ReaderCopy {
  import opened Options
  import opened Faults

  type Bytes = seq<int>

  /** The regular files under a directory. Tree manifests are collision-free, so
      comparing manifests is comparing trees. */
  type Tree = map<string, Bytes>

  const DATABASE: string := "translations.db"

  datatype World = World(target: Option<Tree>, work: Option<Tree>, evidence: Option<Tree>)

  /** What a directory walk of the tree finds; a missing directory has no files. */
  function Manifest(t: Option<Tree>): Tree {
    if t.Some? then t.value else map[]
  }

  /** `rmtree`: files go one at a time, in any order, then the directory. */
  method RemoveWork(w0: World, calm: bool) returns (w: World, f: Fault)
    requires w0.work.Some?
    ensures w == w0.(work := w.work)
    ensures f == Ok ==> w.work == None
    ensures calm ==> f == Ok
  {
    w, f := w0, Ok;
    var left := w.work.value.Keys;
    while left != {}
      invariant w.work.Some? && w == w0.(work := w.work)
      decreases |left|
    {
      var p :| p in left;
      left := left - {p};
      w, f := Step(w, w.(work := Some(w.work.value - {p})), calm);
      if f != Ok { return; }
    }
    w, f := Step(w, w.(work := None), calm);
  }

  /** `copytree` into a new work tree: every file is created empty, grows to any
      prefix of its bytes, and is completed, in any order of files. */
  method FillWork(source: Tree, w0: World, calm: bool) returns (w: World, f: Fault)
    requires w0.work == None
    ensures w == w0.(work := w.work)
    ensures f == Ok ==> w.work == Some(source)
    ensures calm ==> f == Ok
  {
    w, f := Step(w0, w0.(work := Some(map[])), calm);
    if f != Ok { return; }
    var todo := source.Keys;
    while todo != {}
      invariant todo <= source.Keys
      invariant w.work.Some? && w == w0.(work := w.work)
      invariant w.work.value.Keys == source.Keys - todo
      invariant forall p :: p in w.work.value ==> w.work.value[p] == source[p]
      decreases |todo|
    {
      var p :| p in todo;
      var written: nat :| written <= |source[p]|;
      w, f := Step(w, w.(work := Some(w.work.value[p := source[p][..written]])), calm);
      if f != Ok { return; }
      w, f := Step(w, w.(work := Some(w.work.value[p := source[p]])), calm);
      if f != Ok { return; }
      todo := todo - {p};
    }
    assert w.work.value == source;
    f := Check(calm);
  }

  /** Make the work tree durable and rename it; the rename is atomic. */
  method Publish(w0: World, calm: bool) returns (w: World, f: Fault)
    requires w0.work.Some? && w0.target == None
    ensures w == w0 || w == w0.(target := w0.work, work := None)
    ensures f == Ok ==> w == w0.(target := w0.work, work := None)
    ensures calm ==> f == Ok
  {
    w := w0;
    f := Check(calm);
    if f != Ok { return; }
    w, f := Step(w, w.(target := w.work, work := None), calm);
    if f != Ok { return; }
    f := Check(calm);
  }

  /** `_secure_copy_atomic`, followed by the check of what was published. */
  method CopyAtomic(source: Tree, w0: World, calm: bool) returns (w: World, f: Fault)
    requires w0.target == None && w0.work == None
    ensures w == w0.(target := w.target, work := w.work)
    ensures w.target == None || (w.target == Some(source) && w.work == None)
    ensures f == Ok ==> w.target == Some(source)
    ensures calm ==> f == Ok
  {
    w, f := FillWork(source, w0, calm);
    if f != Ok { return; }
    w, f := Publish(w, calm);
  }

  /** The copy goes through: whatever is already published is the source's data,
      and no work tree stands beside it. */
  predicate CanCopy(source: Tree, w: World) {
    && DATABASE in source
    && (w.evidence.Some? ==> w.evidence.value == source)
    && (w.evidence.Some? || w.target.Some? ==> w.work == None && Manifest(w.target) == source)
  }

  /** What interrupted runs over one source can leave. */
  predicate Left(source: Tree, w: World) {
    && (w.target.Some? ==> w.target.value == source && w.work == None)
    && (w.evidence.Some? ==> w.evidence == w.target)
  }

  /** `_copy_reader_data`. */
  method CopyReaderData(source: Tree, w0: World, calm: bool) returns (w: World, f: Fault)
    ensures w.evidence == w0.evidence
    ensures w0.target.Some? ==> w == w0
    ensures w.target != w0.target ==> w.target == Some(source) && w.work == None
    ensures f == Ok ==> w.target == Some(source) && w.work == None
    ensures !CanCopy(source, w0) ==> f != Ok && w == w0
    ensures calm && CanCopy(source, w0) ==> f == Ok
    ensures calm ==>
              (f == Ok <==>
               && "translations.db" in source
               && (w0.evidence.Some? ==> w0.evidence == Some(source))
               && (w0.evidence.Some? || w0.target.Some? ==> w0.target == Some(source) && w0.work == None))
    ensures calm && f != Ok ==> w == w0
    ensures Left(source, w0) ==> Left(source, w)
  {
    w := w0;
    f := Check(calm);
    if f != Ok { return; }
    if DATABASE !in source { return w, Error; }
    if w.evidence.Some? {
      if w.evidence.value != source || w.work.Some? || Manifest(w.target) != source { return w, Error; }
      return;
    }
    if w.target.Some? {
      if w.work.Some? || Manifest(w.target) != source { return w, Error; }
      return;
    }
    if w.work.Some? {
      if Manifest(w.work) == source {
        w, f := Publish(w, calm);
        return;
      }
      w, f := RemoveWork(w, calm);
      if f != Ok { return; }
    }
    w, f := CopyAtomic(source, w, calm);
  }

  /** The copy and its record (btctl_hub.py 1566-1577). */
  method CopyAndRecord(source: Tree, w0: World, calm: bool) returns (w: World, f: Fault)
    ensures w0.target.Some? ==> w.target == w0.target && w.work == w0.work
    ensures Left(source, w0) ==> Left(source, w)
    ensures f == Ok ==> w == World(Some(source), None, Some(source))
    ensures calm ==> (f == Ok <==> CanCopy(source, w0))
  {
    w, f := CopyReaderData(source, w0, calm);
    if f != Ok || w.evidence.Some? { return; }
    w, f := Step(w, w.(evidence := Some(source)), calm);
  }

  /** Any number of interrupted runs over an unchanged source, then one that is
      left alone: the target holds the source's files and no work tree remains.
      What was published on the way is what is there at the end. */
  method Converges(source: Tree, w0: World, interrupted: nat) returns (w: World)
    requires "translations.db" in source
    requires w0.target.Some? ==> w0.target == Some(source) && w0.work == None
    requires w0.evidence.Some? ==> w0.evidence == w0.target
    ensures w == World(Some(source), None, Some(source))
    ensures w0.target.Some? ==> w.target == w0.target
  {
    w := w0;
    var f;
    for i := 0 to interrupted
      invariant Left(source, w)
      invariant w0.target.Some? ==> w.target == w0.target
    {
      w, f := CopyAndRecord(source, w, false);
    }
    w, f := CopyAndRecord(source, w, true);
  }
}
