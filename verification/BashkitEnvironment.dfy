// The workspace environment: a text file tree behind a cache of exact bytes that is valid until
// the next shell execution, read-only host mounts, and snapshots persisted by background tasks.
// Every public operation holds the environment's lock, so operations and persist tasks
// interleave only as whole calls.
module BashkitEnvironment {
  import opened Options
  import opened WorkspaceTree

  datatype Cached<Bytes> = Cached(bytes: Bytes, generation: nat)

  /** The innermost mount at or above the first `k` components of `p`. */
  function MountAt(mounts: map<Path, Tree>, p: Path, k: nat): Option<Path>
    requires k <= |p|
  {
    if p[..k] in mounts then Some(p[..k]) else if k == 0 then None else MountAt(mounts, p, k - 1)
  }

  lemma {:induction false} MountAtIs(mounts: map<Path, Tree>, p: Path, k: nat)
    requires k <= |p|
    ensures MountAt(mounts, p, k).None? <==> forall j :: 0 <= j <= k ==> p[..j] !in mounts
    ensures MountAt(mounts, p, k).Some? ==> MountAt(mounts, p, k).value in mounts && MountAt(mounts, p, k).value <= p
    ensures MountAt(mounts, p, k).Some? ==> forall j :: |MountAt(mounts, p, k).value| < j <= k ==> p[..j] !in mounts
  {
    if k > 0 && p[..k] !in mounts {
      MountAtIs(mounts, p, k - 1);
    }
  }

  /** The environment's state as a value. */
  datatype Store<!Bytes> = Store(
    codec: Codec<Bytes>,
    base: Tree,                             // the tree without mounts
    mounts: map<Path, Tree>,                // host directories, by mount path
    files: map<Path, Cached<Bytes>>,        // exact bytes as last written
    generation: nat)                        // shell executions so far

  /** What the file system shows at a path. */
  function Look(base: Tree, mounts: map<Path, Tree>, p: Path): Option<Node>
  {
    var m := MountAt(mounts, p, |p|);
    if m.None? then if p in base then Some(base[p]) else None
    else
      assert m.value in mounts && m.value <= p by { MountAtIs(mounts, p, |p|); }
      if p[|m.value|..] in mounts[m.value] then Some(mounts[m.value][p[|m.value|..]]) else None
  }

  /** Below a mount point, and no deeper one, the host directory shows; outside all of them the tree. */
  lemma LookIs(base: Tree, mounts: map<Path, Tree>, p: Path, rest: Path)
    ensures p in mounts && (forall j :: |p| < j <= |p + rest| ==> (p + rest)[..j] !in mounts) ==>
              Look(base, mounts, p + rest) == if rest in mounts[p] then Some(mounts[p][rest]) else None
    ensures (forall j :: 0 <= j <= |p| ==> p[..j] !in mounts) ==>
              Look(base, mounts, p) == if p in base then Some(base[p]) else None
  {
    var q := p + rest;
    MountAtIs(mounts, q, |q|);
    MountAtIs(mounts, p, |p|);
    assert q[..|p|] == p && q[|p|..] == rest;
    if p in mounts && forall j :: |p| < j <= |q| ==> q[..j] !in mounts {
      var m := MountAt(mounts, q, |q|).value;
      assert m == q[..|m|];
    }
  }

  function TextAt<B>(s: Store<B>, p: Path): Option<string>
  {
    var n := Look(s.base, s.mounts, p);
    if n.Some? && n.value.File? then Some(n.value.text) else None
  }

  predicate Current<B>(s: Store<B>, p: Path)
  {
    p in s.files && s.files[p].generation >= s.generation
  }

  /** What `read_bytes` returns. */
  function BytesAt<B>(s: Store<B>, p: Path): Option<B>
  {
    if Current(s, p) then Some(s.files[p].bytes)
    else if TextAt(s, p).Some? then Some(s.codec.encode(TextAt(s, p).value)) else None
  }

  ghost predicate Coherent<B>(s: Store<B>, p: Path)
  {
    p in s.files ==>
      && s.files[p].generation <= s.generation
      && (Current(s, p) ==> MountAt(s.mounts, p, |p|).None? && p in s.base
                            && s.base[p] == File(s.codec.decode(s.files[p].bytes)))
  }

  /** Cached bytes of the current generation always decode to what the file system shows. */
  ghost predicate AllCoherent<B>(s: Store<B>)
  {
    s.codec.Lawful() && forall p :: Coherent(s, p)
  }

  /** The two stores show the same at a path, in text and in bytes. */
  predicate SameAt<B(==)>(s: Store<B>, s': Store<B>, p: Path)
  {
    TextAt(s', p) == TextAt(s, p) && BytesAt(s', p) == BytesAt(s, p)
  }

  // ---------------------------------------------------------------- effects, path by path

  /** Writing one file, or only making its parents, changes nothing anywhere else. */
  lemma WriteElsewhere<B>(s: Store<B>, s': Store<B>, p: Path, q: Path)
    requires Coherent(s, q) && p != [] && s'.codec == s.codec && s'.mounts == s.mounts && s'.generation == s.generation
    requires q != p || s'.base == s.base || s'.base == Mkdirs(s.base, Parent(p))
    requires || s'.base == s.base || s'.base == Mkdirs(s.base, Parent(p))
             || exists text :: s'.base == Written(s.base, p, text)
    requires q in s'.files <==> q in s.files
    requires q in s.files ==> s'.files[q] == s.files[q]
    ensures Coherent(s', q) && SameAt(s, s', q)
  {
  }

  lemma MkdirAt<B>(s: Store<B>, p: Path, q: Path)
    requires Coherent(s, q)
    ensures Coherent(s.(base := Mkdirs(s.base, p)), q) && SameAt(s, s.(base := Mkdirs(s.base, p)), q)
  {
  }

  /** Changes at and below `p` only: of the tree, of the mounts, of the cache. */
  lemma Elsewhere<B>(s: Store<B>, s': Store<B>, p: Path, q: Path)
    requires Coherent(s, q) && !Under(p, q) && s'.codec == s.codec && s'.generation == s.generation
    requires forall m :: m != p ==> (m in s.mounts <==> m in s'.mounts)
    requires forall m :: m != p && m in s.mounts ==> s'.mounts[m] == s.mounts[m]
    requires q in s.base ==> q in s'.base && s'.base[q] == s.base[q]
    requires q in s'.base && q !in s.base ==> s'.base[q] == Dir
    requires q in s'.files <==> q in s.files
    requires q in s.files ==> s'.files[q] == s.files[q]
    ensures Coherent(s', q) && SameAt(s, s', q)
  {
    ViewElsewhere(s.mounts, s'.mounts, p, q);
  }

  lemma UnmountBelow<B>(s: Store<B>, p: Path, q: Path)
    requires Coherent(s, q)
    ensures Coherent(s.(mounts := s.mounts - {p}), q)
  {
    MountAtFewer(s.mounts, p, q);
  }

  // ---------------------------------------------------------------- mounting

  /** Making room for a mount at `p` raises: the entry there cannot be removed. */
  predicate ClearRaises<B>(s: Store<B>, p: Path, fault: bool)
  {
    p !in s.mounts && Look(s.base, s.mounts, p).Some? && (fault || MountAt(s.mounts, p, |p|).Some?)
  }

  /** It removes an entry of the tree. */
  predicate ClearRemoves<B>(s: Store<B>, p: Path, fault: bool)
  {
    p !in s.mounts && Look(s.base, s.mounts, p).Some? && !fault && MountAt(s.mounts, p, |p|).None?
  }

  /** The mount itself raises: by a fault, or because a file is in the way of its parents. */
  predicate MountRaises<B>(s: Store<B>, p: Path, fault: bool)
  {
    fault || (MountAt(s.mounts, Parent(p), |Parent(p)|).None? && !CanMkdirs(s.base, Parent(p)))
  }

  function Evicted<B>(files: map<Path, Cached<B>>, p: Path): map<Path, Cached<B>>
  {
    map q | q in files && !Under(p, q) :: files[q]
  }

  /** What mounting at `p` makes of a store, once room was made, by removing an entry or not. */
  ghost predicate Mounts<B>(s: Store<B>, s': Store<B>, p: Path, host: Tree, removed: bool, raised: bool)
  {
    var t := if removed then Removed(s.base, p) else s.base;
    && s'.codec == s.codec && s'.generation == s.generation
    && s'.base == (if MountAt(s.mounts, Parent(p), |Parent(p)|).None? && CanMkdirs(t, Parent(p))
                   then Mkdirs(t, Parent(p)) else t)
    && s'.mounts == (if raised then s.mounts - {p} else s.mounts[p := host])
    && s'.files == (if raised then s.files else Evicted(s.files, p))
  }

  lemma SameEverywhere<B>(s: Store<B>)
    ensures forall q :: SameAt(s, s, q)
    ensures forall p, removeFault :: ClearRaises(s, p, removeFault) ==> !ClearRemoves(s, p, removeFault)
  {
  }

  lemma MountEffect<B>(s: Store<B>, s': Store<B>, p: Path, host: Tree, removed: bool, raised: bool)
    requires AllCoherent(s) && p != [] && Mounts(s, s', p, host, removed, raised)
    ensures AllCoherent(s') <==> !(removed && raised && exists q :: Under(p, q) && Current(s, q))
    ensures forall q :: !Under(p, q) ==> SameAt(s, s', q)
  {
    forall q | !Under(p, q) ensures SameAt(s, s', q) && Coherent(s', q) {
      assert Coherent(s, q);
      ParentNotAtOrBelow(if removed then Removed(s.base, p) else s.base, p);
      Elsewhere(s, s', p, q);
    }
    forall q | Under(p, q) && raised ensures Coherent(s', q) <==> !(removed && Current(s, q)) {
      assert Coherent(s, q);
      MountFailedBelow(s, s', p, removed, q);
    }
  }

  lemma MountConditions<B>(s: Store<B>, p: Path, removeFault: bool, mountFault: bool)
    ensures ClearRaises(s, p, removeFault) || MountRaises(s, p, mountFault) <==>
            || (p !in s.mounts && Look(s.base, s.mounts, p).Some?
                && (removeFault || MountAt(s.mounts, p, |p|).Some?))
            || mountFault || (MountAt(s.mounts, Parent(p), |Parent(p)|).None? && !CanMkdirs(s.base, Parent(p)))
  {
  }

  lemma ProperPrefix(q: Path, p: Path)
    requires p != []
    ensures q <= Parent(p) <==> q < p
  {
    if q < p { assert q == p[..|q|] == Parent(p)[..|q|]; }
  }

  /** After a mount that did not raise: the host directory is mounted there and no other mount has
      changed; an entry of the tree that was there is gone with all below it, every other entry is
      as before, and what is new is the directories above; nothing at or below has cached bytes. */
  lemma MountedIs<B>(s: Store<B>, s': Store<B>, p: Path, host: Tree, q: Path)
    requires p != [] && !MountRaises(s, p, false)
    requires Mounts(s, s', p, host, ClearRemoves(s, p, false), false)
    ensures s'.mounts == s.mounts[p := host]
    ensures q in s'.files <==> q in s.files && !(p <= q)
    ensures q in s.files && !(p <= q) ==> s'.files[q] == s.files[q]
    ensures var removed := p !in s.mounts && p in s.base && MountAt(s.mounts, p, |p|).None?;
            if removed && p <= q then q !in s'.base
            else if q in s.base then q in s'.base && s'.base[q] == s.base[q]
            else q in s'.base <==> q != [] && q < p && MountAt(s.mounts, Parent(p), |Parent(p)|).None?
    ensures q !in s.base && q in s'.base ==> s'.base[q] == Dir
  {
    hide Mkdirs, MountAt;
    var removed := ClearRemoves(s, p, false);
    assert removed <==> p !in s.mounts && p in s.base && MountAt(s.mounts, p, |p|).None?;
    var t := if removed then Removed(s.base, p) else s.base;
    assert q in t <==> q in s.base && !(removed && p <= q);
    ParentNotAtOrBelow(s.base, p);
    MkdirsIs(t, Parent(p), q);
    ProperPrefix(q, p);
  }

  /** Making room does not change whether the mount raises. */
  lemma ClearedRaisesAlike<B>(s: Store<B>, s': Store<B>, p: Path, removeFault: bool, fault: bool)
    requires p != [] && s'.mounts == s.mounts - {p}
    requires s'.base == if ClearRemoves(s, p, removeFault) then Removed(s.base, p) else s.base
    ensures MountRaises(s', p, fault) <==> MountRaises(s, p, fault)
    ensures MountAt(s'.mounts, Parent(p), |Parent(p)|) == MountAt(s.mounts, Parent(p), |Parent(p)|)
  {
    ParentNotAtOrBelow(s.base, p);
    ViewElsewhere(s.mounts, s'.mounts, p, Parent(p));
  }

  // ---------------------------------------------------------------- importing

  /** One member imported below the given mounts, which are read-only: an existing directory is
      no change, anything else there raises. */
  function ImportAt<B>(c: Codec<B>, base: Tree, mounts: map<Path, Tree>, m: Member<B>): Option<Tree>
  {
    var target := Target(m);
    if target.None? || MountAt(mounts, target.value, |target.value|).None? then ImportOne(c, base, m)
    else
      match m.content
      case DirMember => if Look(base, mounts, target.value) == Some(Dir) then Some(base) else None
      case FileMember(bytes) => if c.strict(bytes).Some? then None else Some(base)
      case _ => Some(base)
  }

  /** The tree that an import has made when it ends or raises, and how many members went in. */
  function ImportRun<B>(c: Codec<B>, base: Tree, mounts: map<Path, Tree>, members: seq<Member<B>>): (r: (Tree, nat))
    ensures r.1 <= |members|
    decreases |members|
  {
    if members == [] then (base, 0)
    else
      var next := ImportAt(c, base, mounts, members[0]);
      if next.None? then (base, 0)
      else
        var rest := ImportRun(c, next.value, mounts, members[1..]);
        (rest.0, rest.1 + 1)
  }

  lemma {:induction false} ImportWithoutMounts<B>(c: Codec<B>, base: Tree, members: seq<Member<B>>)
    ensures var run := ImportRun(c, base, map[], members);
            ImportAll(c, base, members) == if run.1 == |members| then Some(run.0) else None
    decreases |members|
  {
    if members != [] {
      var next := ImportAt(c, base, map[], members[0]);
      if Target(members[0]).Some? { MountAtIs(map[], Target(members[0]).value, |Target(members[0]).value|); }
      if next.Some? { ImportWithoutMounts(c, next.value, members[1..]); }
    }
  }

  predicate Extends(t: Tree, t': Tree)
  {
    forall q :: q in t ==> q in t' && t'[q] == t[q]
  }

  /** A file that was there before an import ends up with the text last imported to it, if any. */
  lemma {:induction false} ImportedText<B>(c: Codec<B>, base: Tree, mounts: map<Path, Tree>,
                                           members: seq<Member<B>>, p: Path)
    requires p in base && base[p].File? && MountAt(mounts, p, |p|).None?
    ensures var run := ImportRun(c, base, mounts, members);
            var last := LastText(c, members[..run.1], p);
            p in run.0 && run.0[p] == if last.Some? then File(last.value) else base[p]
    decreases |members|
  {
    if members != [] {
      var next := ImportAt(c, base, mounts, members[0]);
      if next.Some? {
        ImportedText(c, next.value, mounts, members[1..], p);
        var n := ImportRun(c, base, mounts, members).1;
        assert members[..n][0] == members[0] && members[..n][1..] == members[1..][..n - 1];
      }
    }
  }

  /** What an import last gives to a cached path, if anything, is the text it has. */
  predicate Agrees<B>(s: Store<B>, members: seq<Member<B>>, p: Path)
    requires Current(s, p)
  {
    LastText(s.codec, members, p) in {None, Some(s.codec.decode(s.files[p].bytes))}
  }

  lemma CoherentAfterImport<B>(s: Store<B>, members: seq<Member<B>>, base: Tree)
    requires Extends(ImportRun(s.codec, s.base, s.mounts, members).0, base)
    ensures AllCoherent(s) ==>
              (AllCoherent(s.(base := base)) <==>
               forall q :: Current(s, q) ==>
                 Agrees(s, members[..ImportRun(s.codec, s.base, s.mounts, members).1], q))
  {
    var imported := members[..ImportRun(s.codec, s.base, s.mounts, members).1];
    forall q | AllCoherent(s)
      ensures Coherent(s.(base := base), q) <==> (Current(s, q) ==> Agrees(s, imported, q))
    {
      assert Coherent(s, q);
      if Current(s, q) {
        ImportedText(s.codec, s.base, s.mounts, members, q);
      }
    }
  }

  // ---------------------------------------------------------------- exporting

  /** A directory has its member; a file has one, with its bytes, exactly when its text has neither
      a replacement nor a NUL character and at most one in twenty of the first 4096 characters is a
      control character; nothing else has any. */
  ghost predicate Holds<B>(c: Codec<B>, t: Tree, members: seq<Member<B>>, q: Path)
    requires q in t && Under(WORKSPACE, q)
  {
    match t[q]
    case Dir => Member(false, q[1..], DirMember) in members
    case File(text) =>
      Member(false, q[1..], FileMember(c.encode(text))) in members <==>
      '\U{FFFD}' !in text && '\U{0000}' !in text && 20 * |ControlPositions(text)| <= SampleLength(text)
    case Special => forall m :: m in members ==> m.absolute || m.parts != q[1..]
  }

  // ---------------------------------------------------------------- operations

  /** One public operation, or one persist task that gets to run. A library fault may strike
      wherever the operation calls the library. */
  datatype Operation<Bytes> =
    | DoReadBytes(path: Path)
    | DoWriteText(path: Path, text: string, fault: bool)
    | DoWriteBytes(path: Path, content: Bytes, fault: bool)
    | DoMkdir(path: Path, fault: bool)
    | DoExec(result: Tree)
    | DoRm(path: Path, force: bool, fault: bool)
    | DoMount(path: Path, host: Tree, removeFault: bool, fault: bool)
    | DoSnapshot
    | DoPersist

  predicate Writes<B>(op: Operation<B>)
  {
    op.DoWriteText? || op.DoWriteBytes? || op.DoMount?
  }

  /** The one operation that leaves the cache incoherent: a mount about to remove an entry with
      current cached bytes at or below it, and then to raise. */
  predicate Spoils<B>(op: Operation<B>, s: Store<B>)
  {
    && op.DoMount? && ClearRemoves(s, op.path, op.removeFault) && MountRaises(s, op.path, op.fault)
    && exists q :: q in s.files && Under(op.path, q) && Current(s, q)
  }

  /** What is still known about the bytes at `p` after an operation: what was written stays until
      a command runs, or the file is written again or removed, or a mount at or above it is tried. */
  function KnownAfter<B>(c: Codec<B>, op: Operation<B>, raised: bool, p: Path, known: Option<B>): Option<B>
  {
    if raised && !op.DoMount? then known
    else
      match op
      case DoWriteText(q, text, _) => if q == p then Some(c.encode(text)) else known
      case DoWriteBytes(q, content, _) => if q == p then Some(content) else known
      case DoExec(_) => None
      case DoRm(q, _, _) => if Under(q, p) then None else known
      case DoMount(q, _, _, _) => if Under(q, p) then None else known
      case _ => known
  }

  /** The bytes last written at `p` over a sequence of operations, if they are still known. */
  function Known<B>(c: Codec<B>, ops: seq<Operation<B>>, raises: seq<bool>, p: Path): Option<B>
    requires |raises| <= |ops|
  {
    if raises == [] then None
    else
      var n := |raises| - 1;
      KnownAfter(c, ops[n], raises[n], p, Known(c, ops, raises[..n], p))
  }

  /** An operation after which bytes written at `p` may be gone or others. */
  predicate Disturbs<B>(op: Operation<B>, raised: bool, p: Path)
  {
    match op
    case DoExec(_) => !raised
    case DoWriteText(q, _, _) => !raised && q == p
    case DoWriteBytes(q, _, _) => !raised && q == p
    case DoRm(q, _, _) => !raised && q <= p
    case DoMount(q, _, _, _) => q <= p
    case _ => false
  }

  /** Bytes that were written stay known until an operation disturbs them. */
  lemma {:induction false} WrittenIsKnown<B>(c: Codec<B>, ops: seq<Operation<B>>, raises: seq<bool>, k: nat, p: Path)
    requires k < |raises| <= |ops| && !raises[k] && (ops[k].DoWriteBytes? || ops[k].DoWriteText?) && ops[k].path == p
    requires forall j :: k < j < |raises| ==> !Disturbs(ops[j], raises[j], p)
    ensures Known(c, ops, raises, p) == Some(if ops[k].DoWriteBytes? then ops[k].content else c.encode(ops[k].text))
    decreases |raises|
  {
    var n := |raises| - 1;
    if k < n {
      assert forall j :: 0 <= j < n ==> raises[..n][j] == raises[j];
      WrittenIsKnown(c, ops, raises[..n], k, p);
      assert !Disturbs(ops[n], raises[n], p);
    }
  }

  ghost predicate Keeps<B>(c: Codec<B>, op: Operation<B>, raised: bool, s: Store<B>, s': Store<B>, p: Path)
  {
    var known := KnownAfter(c, op, raised, p, BytesAt(s, p));
    known.Some? ==> BytesAt(s', p) == known
  }

  class Environment<Bytes(==)> {
    const codec: Codec<Bytes>
    const persistent: bool
    var base: Tree
    var mounts: map<Path, Tree>
    var binaryFiles: map<Path, Cached<Bytes>>
    var execGeneration: nat
    var pendingPersists: nat
    var stored: Option<Tree>

    function Value(): Store<Bytes>
      reads this
    {
      Store(codec, base, mounts, binaryFiles, execGeneration)
    }

    ghost predicate Valid()
      reads this
    {
      AllCoherent(Value()) && (!persistent ==> pendingPersists == 0)
    }

    /** Either a persist task is yet to run or a restart would bring back the current tree. */
    ghost predicate Persisted()
      reads this
    {
      persistent ==> pendingPersists > 0 || stored == Some(base) || base == Reloaded(stored)
    }

    constructor (codec: Codec<Bytes>, snapshot: Option<Tree>, persistent: bool)
      requires codec.Lawful()
      ensures Valid() && Persisted() && base == Reloaded(snapshot)
      ensures this.codec == codec && this.persistent == persistent
      ensures mounts == map[] && binaryFiles == map[] && stored == snapshot
    {
      this.codec, this.persistent := codec, persistent;
      base, mounts, binaryFiles, execGeneration := Reloaded(snapshot), map[], map[], 0;
      pendingPersists, stored := 0, snapshot;
    }

    method NotifyChange()
      modifies this`pendingPersists
      ensures pendingPersists == old(pendingPersists) + if persistent then 1 else 0
    {
      if persistent {
        pendingPersists := pendingPersists + 1;
      }
    }

    // -------------------------------------------------------------- reading

    method ReadText(p: Path) returns (r: Option<string>)
      ensures r == TextAt(Value(), p)
    {
      var n := Look(base, mounts, p);
      return if n.Some? && n.value.File? then Some(n.value.text) else None;
    }

    /** Reading bytes and reading text always agree. */
    method ReadBytes(p: Path) returns (r: Option<Bytes>)
      requires Valid()
      ensures r == BytesAt(Value(), p)
      ensures r.Some? <==> TextAt(Value(), p).Some?
      ensures r.Some? ==> codec.decode(r.value) == TextAt(Value(), p).value
    {
      assert Coherent(Value(), p);
      if p in binaryFiles {
        var cached := binaryFiles[p];
        if cached.generation >= execGeneration {
          return Some(cached.bytes);
        }
      }
      var text := ReadText(p);
      return if text.Some? then Some(codec.encode(text.value)) else None;
    }

    // -------------------------------------------------------------- writing

    /** Writes through the file system: parents first, then the file. `fault` stands for any
        other reason the library has to raise. */
    method LibraryWrite(p: Path, text: string, fault: bool) returns (raised: bool)
      requires p != []
      modifies this`base
      ensures raised <==> fault || MountAt(mounts, p, |p|).Some? || !old(CanWrite(base, p))
      ensures !raised ==> base == old(Written(base, p, text))
      ensures raised ==> base == old(base) || base == old(Mkdirs(base, Parent(p)))
    {
      if MountAt(mounts, p, |p|).Some? || !CanMkdirs(base, Parent(p)) { return true; }
      base := Mkdirs(base, Parent(p));
      ParentNotAtOrBelow(old(base), p);
      if fault || (p in base && !base[p].File?) { return true; }
      base := base[p := File(text)];
      return false;
    }

    method WriteText(p: Path, content: string, fault: bool) returns (raised: bool)
      requires Valid() && p != []
      modifies this`base, this`binaryFiles, this`pendingPersists
      ensures Valid()
      ensures raised <==> fault || MountAt(mounts, p, |p|).Some? || !old(CanWrite(base, p))
      ensures !raised ==> base == old(Written(base, p, content)) && TextAt(Value(), p) == Some(content)
                          && BytesAt(Value(), p) == Some(codec.encode(content))
      ensures forall q :: q != p || raised ==> SameAt(old(Value()), Value(), q)
      ensures !raised ==> Persisted()
    {
      raised := LibraryWrite(p, content, fault);
      if !raised {
        binaryFiles := binaryFiles - {p};
        NotifyChange();
      }
      forall q | q != p || raised ensures Coherent(Value(), q) && SameAt(old(Value()), Value(), q) {
        assert Coherent(old(Value()), q);
        WriteElsewhere(old(Value()), Value(), p, q);
      }
    }

    /** What is written is read back byte for byte, and no other file changes. */
    method WriteBytes(p: Path, content: Bytes, fault: bool) returns (raised: bool)
      requires Valid() && p != []
      modifies this`base, this`binaryFiles, this`pendingPersists
      ensures Valid()
      ensures raised <==> fault || MountAt(mounts, p, |p|).Some? || !old(CanWrite(base, p))
      ensures !raised ==> base == old(Written(base, p, codec.decode(content)))
      ensures !raised ==> Current(Value(), p) && BytesAt(Value(), p) == Some(content)
                          && TextAt(Value(), p) == Some(codec.decode(content))
      ensures forall q :: q != p || raised ==> SameAt(old(Value()), Value(), q)
      ensures !raised ==> Persisted()
    {
      raised := LibraryWrite(p, codec.decode(content), fault);
      if !raised {
        binaryFiles := binaryFiles[p := Cached(content, execGeneration)];
        NotifyChange();
      }
      forall q | q != p || raised ensures Coherent(Value(), q) && SameAt(old(Value()), Value(), q) {
        assert Coherent(old(Value()), q);
        WriteElsewhere(old(Value()), Value(), p, q);
      }
    }

    /** Inside a mount a directory can only be one that exists. */
    method Mkdir(p: Path, fault: bool) returns (raised: bool)
      requires Valid()
      modifies this`base, this`pendingPersists
      ensures Valid()
      ensures base == if raised || MountAt(mounts, p, |p|).Some? then old(base) else old(Mkdirs(base, p))
      ensures raised <==> fault || if MountAt(mounts, p, |p|).Some? then Look(old(base), mounts, p) != Some(Dir)
                                   else !old(CanMkdirs(base, p))
      ensures forall q :: SameAt(old(Value()), Value(), q)
      ensures old(Persisted()) || !raised ==> Persisted()
    {
      if MountAt(mounts, p, |p|).Some? {
        if fault || Look(base, mounts, p) != Some(Dir) { return true; }
      } else {
        if fault || !CanMkdirs(base, p) { return true; }
        base := Mkdirs(base, p);
      }
      NotifyChange();
      forall q ensures Coherent(Value(), q) && SameAt(old(Value()), Value(), q) {
        assert Coherent(old(Value()), q);
        MkdirAt(old(Value()), p, q);
      }
      return false;
    }

    /** Any shell command: the tree may become anything, and no cached bytes survive it, also
        when the command times out or raises. */
    method Exec(result: Tree)
      requires Valid()
      modifies this`base, this`execGeneration, this`pendingPersists
      ensures Valid() && Persisted() && base == result
      ensures forall q :: !Current(Value(), q)
    {
      forall q ensures q in binaryFiles ==> binaryFiles[q].generation <= execGeneration { assert Coherent(Value(), q); }
      base := result;
      execGeneration := execGeneration + 1;
      NotifyChange();
    }

    /** Drops the cached bytes at and below a path. */
    method Evict(p: Path)
      modifies this`binaryFiles
      ensures binaryFiles == Evicted(old(binaryFiles), p)
    {
      var todo := binaryFiles.Keys;
      while todo != {}
        invariant todo <= old(binaryFiles).Keys
        invariant binaryFiles == map q | q in old(binaryFiles) && (q in todo || !Under(p, q)) :: old(binaryFiles)[q]
        decreases todo
      {
        var q :| q in todo;
        todo := todo - {q};
        if Under(p, q) {
          binaryFiles := binaryFiles - {q};
        }
      }
    }

    /** Removing a mount point unmounts it; anything else is removed with all below it. */
    method Rm(p: Path, force: bool, fault: bool) returns (raised: bool)
      requires Valid()
      modifies this`base, this`mounts, this`binaryFiles, this`pendingPersists
      ensures Valid()
      ensures raised ==> Value() == old(Value())
      ensures p in old(mounts) ==> !raised && mounts == old(mounts) - {p} && base == old(base)
      ensures p !in old(mounts) && old(Look(base, mounts, p)).None? ==> raised == !force && Value() == old(Value())
      ensures p !in old(mounts) && old(Look(base, mounts, p)).Some? ==>
                (raised <==> fault || old(MountAt(mounts, p, |p|)).Some?)
      ensures p !in old(mounts) && !raised && old(Look(base, mounts, p)).Some? ==>
                base == old(Removed(base, p)) && mounts == old(mounts)
                && forall q :: Under(p, q) ==> q !in binaryFiles && q !in base
      ensures forall q :: !Under(p, q) ==> SameAt(old(Value()), Value(), q)
      ensures old(Persisted()) ==> Persisted()
    {
      if p in mounts {
        mounts := mounts - {p};
        NotifyChange();
        forall q ensures Coherent(Value(), q) && (!Under(p, q) ==> SameAt(old(Value()), Value(), q)) {
          assert Coherent(old(Value()), q);
          UnmountBelow(old(Value()), p, q);
          if !Under(p, q) { Elsewhere(old(Value()), Value(), p, q); }
        }
        return false;
      }
      if Look(base, mounts, p).None? { return !force; }
      if fault || MountAt(mounts, p, |p|).Some? { return true; }
      base := Removed(base, p);
      Evict(p);
      NotifyChange();
      forall q | !Under(p, q) ensures Coherent(Value(), q) && SameAt(old(Value()), Value(), q) {
        assert Coherent(old(Value()), q);
        Elsewhere(old(Value()), Value(), p, q);
      }
      return false;
    }

    /** Makes room for a mount: an old mount goes, any other entry is removed. */
    method ClearMountPoint(p: Path, fault: bool) returns (raised: bool)
      modifies this`base, this`mounts
      ensures raised <==> old(ClearRaises(Value(), p, fault))
      ensures base == if old(ClearRemoves(Value(), p, fault)) then old(Removed(base, p)) else old(base)
      ensures mounts == if raised then old(mounts) else old(mounts) - {p}
    {
      if p in mounts {
        mounts := mounts - {p};
        return false;
      }
      assert mounts == mounts - {p};
      if Look(base, mounts, p).None? { return false; }
      if fault || MountAt(mounts, p, |p|).Some? { return true; }
      base := Removed(base, p);
      return false;
    }

    method MakeMount(p: Path, host: Tree, fault: bool) returns (raised: bool)
      requires p != []
      modifies this`base, this`mounts, this`binaryFiles, this`pendingPersists
      ensures raised <==> old(MountRaises(Value(), p, fault))
      ensures base == if MountAt(old(mounts), Parent(p), |Parent(p)|).None? && CanMkdirs(old(base), Parent(p))
                      then Mkdirs(old(base), Parent(p)) else old(base)
      ensures mounts == if raised then old(mounts) else old(mounts)[p := host]
      ensures binaryFiles == if raised then old(binaryFiles) else Evicted(old(binaryFiles), p)
      ensures pendingPersists == old(pendingPersists) + if raised || !persistent then 0 else 1
    {
      if MountAt(mounts, Parent(p), |Parent(p)|).None? {
        if !CanMkdirs(base, Parent(p)) { return true; }
        base := Mkdirs(base, Parent(p));
      }
      if fault { return true; }
      mounts := mounts[p := host];
      Evict(p);
      NotifyChange();
      return false;
    }

    /** Mounting a host directory. When the call is about to remove an existing entry and the mount
        is then going to raise, current cached bytes at or below that entry outlive it; in every
        other case the cache stays coherent. */
    method MountReadonly(p: Path, host: Tree, removeFault: bool, mountFault: bool) returns (raised: bool)
      requires Valid() && p != []
      modifies this`base, this`mounts, this`binaryFiles, this`pendingPersists
      ensures raised <==> old(ClearRaises(Value(), p, removeFault) || MountRaises(Value(), p, mountFault))
      ensures Valid() <==> !old(ClearRemoves(Value(), p, removeFault) && MountRaises(Value(), p, mountFault)
                                && exists q :: Under(p, q) && Current(Value(), q))
      ensures old(ClearRaises(Value(), p, removeFault)) ==> Value() == old(Value())
      ensures !old(ClearRaises(Value(), p, removeFault)) ==>
                Mounts(old(Value()), Value(), p, host, old(ClearRemoves(Value(), p, removeFault)), raised)
      ensures forall q :: !Under(p, q) ==> SameAt(old(Value()), Value(), q)
      ensures raised <==>
              || (p !in old(mounts) && old(Look(base, mounts, p)).Some?
                  && (removeFault || old(MountAt(mounts, p, |p|)).Some?))
              || mountFault || old(MountAt(mounts, Parent(p), |Parent(p)|).None? && !CanMkdirs(base, Parent(p)))
      ensures !raised ==> Persisted()
    {
      hide AllCoherent, Coherent, Current, SameAt, ClearRaises, ClearRemoves, MountRaises, Evicted, MountAt, Look;
      ghost var before := Value();
      MountConditions(before, p, removeFault, mountFault);
      raised := ClearMountPoint(p, removeFault);
      if raised {
        SameEverywhere(before);
        return;
      }
      ClearedRaisesAlike(before, Value(), p, removeFault, mountFault);
      ghost var removed := ClearRemoves(before, p, removeFault);
      assert removed ==> !ClearRaises(before, p, removeFault);
      raised := MakeMount(p, host, mountFault);
      assert (before.mounts - {p})[p := host] == before.mounts[p := host];
      MountEffect(before, Value(), p, host, removed, raised);
    }

    // -------------------------------------------------------------- snapshots

    method Unmount() returns (saved: map<Path, Tree>)
      modifies this`mounts
      ensures saved == old(mounts) && mounts == map[]
    {
      saved := mounts;
      var todo := saved.Keys;
      while todo != {}
        invariant mounts == map m | m in saved && m in todo :: saved[m]
        invariant todo <= saved.Keys
        decreases todo
      {
        var m :| m in todo;
        todo := todo - {m};
        mounts := mounts - {m};
      }
    }

    method Remount(saved: map<Path, Tree>)
      requires mounts == map[]
      modifies this`mounts
      ensures mounts == saved
    {
      var todo := saved.Keys;
      while todo != {}
        invariant mounts == map m | m in saved && m !in todo :: saved[m]
        invariant todo <= saved.Keys
        decreases todo
      {
        var m :| m in todo;
        todo := todo - {m};
        mounts := mounts[m := saved[m]];
      }
    }

    /** Mounts are taken out for the snapshot and put back afterwards. */
    method Snapshot() returns (snapshot: Tree)
      modifies this`mounts
      ensures snapshot == base && mounts == old(mounts)
    {
      var saved := Unmount();
      snapshot := base;
      Remount(saved);
    }

    /** One pending persist task: it stores the tree of the moment it runs, so however tasks and
        operations interleave, nothing is lost once no task is pending. */
    method RunPersistTask()
      requires pendingPersists > 0 && Valid()
      modifies this`mounts, this`stored, this`pendingPersists
      ensures Valid() && Persisted()
      ensures stored == Some(base) && mounts == old(mounts) && pendingPersists == old(pendingPersists) - 1
      ensures Value() == old(Value())
    {
      var snapshot := Snapshot();
      stored := Some(snapshot);
      pendingPersists := pendingPersists - 1;
    }

    // -------------------------------------------------------------- whole sessions

    method Perform(op: Operation<Bytes>) returns (raised: bool)
      requires Valid() && (Writes(op) ==> op.path != [])
      modifies this
      ensures Valid() <==> !old(Spoils(op, Value()))
      ensures forall p :: Keeps(codec, op, raised, old(Value()), Value(), p)
      ensures old(Persisted()) && !raised ==> Persisted()
    {
      forall q | Current(Value(), q) ensures q in binaryFiles {}
      raised := false;
      match op {
        case DoReadBytes(p) => var _ := ReadBytes(p);
        case DoWriteText(p, text, fault) => raised := WriteText(p, text, fault);
        case DoWriteBytes(p, content, fault) => raised := WriteBytes(p, content, fault);
        case DoMkdir(p, fault) => raised := Mkdir(p, fault);
        case DoExec(result) => Exec(result);
        case DoRm(p, force, fault) => raised := Rm(p, force, fault);
        case DoMount(p, host, removeFault, fault) => raised := MountReadonly(p, host, removeFault, fault);
        case DoSnapshot => var _ := Snapshot();
        case DoPersist => if pendingPersists > 0 { RunPersistTask(); }
      }
      forall p ensures Keeps(codec, op, raised, old(Value()), Value(), p) {
        match op {
          case DoWriteText(q, text, _) => assert (q == p && !raised) || SameAt(old(Value()), Value(), p);
          case DoWriteBytes(q, content, _) => assert (q == p && !raised) || SameAt(old(Value()), Value(), p);
          case DoMkdir(_, _) => assert SameAt(old(Value()), Value(), p);
          case DoRm(q, _, _) => assert Under(q, p) || SameAt(old(Value()), Value(), p);
          case DoMount(q, _, _, _) => assert Under(q, p) || SameAt(old(Value()), Value(), p);
          case DoExec(_) =>
          case _ => assert Value() == old(Value());
        }
      }
    }

    /** Over any interleaving of operations, raising or not, and persist tasks, up to a mount that
        would spoil the cache: the cache stays coherent, and the bytes last written anywhere are
        read back exactly for as long as they are known. If none raised nothing is lost: once the
        pending tasks have run, a restart brings back the tree. */
    method Session(ops: seq<Operation<Bytes>>) returns (raises: seq<bool>)
      requires Valid()
      requires forall i :: 0 <= i < |ops| && Writes(ops[i]) ==> ops[i].path != []
      modifies this
      ensures Valid() && pendingPersists == 0 && |raises| <= |ops|
      ensures |raises| < |ops| ==> Spoils(ops[|raises|], Value())
      ensures forall p :: Known(codec, ops, raises, p).Some? ==> BytesAt(Value(), p) == Known(codec, ops, raises, p)
      ensures old(Persisted()) && persistent && true !in raises ==> Reloaded(stored) == Reloaded(Some(base))
      ensures old(Persisted()) && persistent && true !in raises && WORKSPACE in base ==> Reloaded(stored) == base
    {
      raises := [];
      while |raises| < |ops| && !Spoils(ops[|raises|], Value())
        invariant Valid() && |raises| <= |ops|
        invariant forall p :: Known(codec, ops, raises, p).Some? ==> BytesAt(Value(), p) == Known(codec, ops, raises, p)
        invariant old(Persisted()) && true !in raises ==> Persisted()
      {
        ghost var before := Value();
        var n := |raises|;
        var raised := Perform(ops[n]);
        assert (raises + [raised])[..n] == raises;
        forall p | Known(codec, ops, raises + [raised], p).Some?
          ensures BytesAt(Value(), p) == Known(codec, ops, raises + [raised], p)
        {
          assert Keeps(codec, ops[n], raised, before, Value(), p);
        }
        raises := raises + [raised];
      }
      Drain();
    }

    method Drain()
      requires Valid()
      modifies this`mounts, this`stored, this`pendingPersists
      ensures Valid() && pendingPersists == 0 && Value() == old(Value())
      ensures old(Persisted()) && persistent ==> Reloaded(stored) == Reloaded(Some(base))
      ensures old(Persisted()) && persistent && WORKSPACE in base ==> Reloaded(stored) == base
    {
      while pendingPersists > 0
        invariant Valid() && Value() == old(Value()) && (old(Persisted()) ==> Persisted())
      {
        RunPersistTask();
      }
      ReloadedSame(base);
      ReloadedHasWorkspace(stored);
    }

    // -------------------------------------------------------------- tar

    method ImportMember(m: Member<Bytes>) returns (kind: Kind, raised: bool)
      modifies this`base
      ensures kind == KindOf(codec, m)
      ensures raised <==> old(ImportAt(codec, base, mounts, m)).None?
      ensures !raised ==> Some(base) == old(ImportAt(codec, base, mounts, m))
      ensures raised ==> Extends(old(base), base)
      ensures kind == Other <==> m.absolute || ".." in m.parts || m.content.OtherMember?
      ensures kind == Directory ==> m.content.DirMember?
      ensures kind == Symlink ==> m.content.SymlinkMember?
      ensures kind == Text ==> m.content.FileMember? && codec.strict(m.content.bytes).Some?
      ensures kind == Binary ==> m.content.FileMember? && codec.strict(m.content.bytes).None?
      ensures kind in {Symlink, Binary, Other} ==> !raised && base == old(base)
      ensures kind == Text && !raised ==> TextAt(Value(), Target(m).value) == codec.strict(m.content.bytes)
      ensures kind == Directory && !raised ==> Look(base, mounts, Target(m).value) == Some(Dir)
    {
      var target := Target(m);
      if target.None? { return Other, false; }
      match m.content {
        case DirMember =>
          if MountAt(mounts, target.value, |target.value|).Some? {
            return Directory, Look(base, mounts, target.value) != Some(Dir);
          }
          if !CanMkdirs(base, target.value) { return Directory, true; }
          MkdirsIs(base, target.value, target.value);
          assert target.value[..|target.value|] == target.value;
          base := Mkdirs(base, target.value);
          return Directory, false;
        case SymlinkMember => return Symlink, false;
        case OtherMember => return Other, false;
        case FileMember(bytes) =>
          var text := codec.strict(bytes);
          if text.None? { return Binary, false; }
          raised := LibraryWrite(target.value, text.value, false);
          return Text, raised;
      }
    }

    /** Imports an archive up to the first member on which the library raises; each member is
        counted exactly once. Nothing is evicted: afterwards the cache is coherent exactly when no
        cached file got a different text. */
    method ImportTar(members: seq<Member<Bytes>>) returns (report: Option<Report>)
      requires codec.Lawful()
      modifies this`base, this`pendingPersists
      ensures var run := old(ImportRun(codec, base, mounts, members));
              && (report.Some? <==> run.1 == |members|) && Extends(run.0, base)
              && (report.Some? ==> base == run.0 && Persisted())
              && (report.Some? ==>
                    var r := report.value;
                    && r.files == Count(codec, members, Text) && r.dirs == Count(codec, members, Directory)
                    && r.symlinks == Count(codec, members, Symlink) && r.binaries == Count(codec, members, Binary)
                    && r.others == Count(codec, members, Other))
              && (old(Valid()) ==>
                    (Valid() <==> forall q :: Current(old(Value()), q) ==> Agrees(old(Value()), members[..run.1], q)))
    {
      hide LastText, Coherent, AllCoherent, Current, Agrees, ImportAt, MountAt, Look, KindOf, Incremented;
      ghost var before := Value();
      ghost var run := ImportRun(codec, base, mounts, members);
      var counted := Report(0, 0, 0, 0, 0);
      assert members[0..] == members;
      for i := 0 to |members|
        invariant pendingPersists == old(pendingPersists)
        invariant Counts(codec, members[..i], counted)
        invariant ImportRun(codec, base, mounts, members[i..]) == (run.0, run.1 - i)
      {
        assert members[i..][0] == members[i] && members[i..][1..] == members[i + 1..];
        var kind, raised := ImportMember(members[i]);
        if raised {
          CoherentAfterImport(before, members, base);
          return None;
        }
        CountsNext(codec, members, i, counted);
        counted := Incremented(counted, kind);
      }
      assert members[|members|..] == [] && members[..|members|] == members;
      NotifyChange();
      CoherentAfterImport(before, members, base);
      return Some(counted);
    }

    /** Exports the workspace with the mounts taken out. Importing the archive into a fresh
        environment gives back exactly the directories and exportable text files if and only if
        no kept entry at the top is itself called "workspace". */
    method ExportTar() returns (members: Option<seq<Member<Bytes>>>)
      requires codec.Lawful() && NamesOk(base) && (WORKSPACE in base ==> WellFormed(base))
      modifies this`mounts
      ensures mounts == old(mounts)
      ensures members.Some? <==> WORKSPACE in base
      ensures members.Some? ==> Archives(codec, base, members.value)
      ensures members.Some? ==> |members.value| == |KeptBelow(base, WORKSPACE)|
      ensures members.Some? ==>
                forall q :: q in base && Under(WORKSPACE, q) && q != WORKSPACE ==> Holds(codec, base, members.value, q)
      ensures members.Some? ==>
                (ImportAll(codec, Reloaded(None), members.value) == Some(Kept(base)) <==> NoInnerWorkspace(base))
    {
      var saved := Unmount();
      if WORKSPACE !in base {
        members := None;
      } else {
        var listed := AddTree(codec, base, WORKSPACE);
        ListsArchives(codec, base, listed);
        RoundTripExact(codec, base, listed);
        forall q | q in base && Under(WORKSPACE, q) && q != WORKSPACE ensures Holds(codec, base, listed, q) {
          ArchiveHolds(codec, base, listed, q);
        }
        FreshIsNew();
        members := Some(listed);
      }
      Remount(saved);
    }
  }

  // ---------------------------------------------------------------- a failing mount

  const DIRECTORY: Path := ["workspace", "data"]
  const FILE: Path := ["workspace", "data", "file"]

  lemma FileInFresh(text: string)
    ensures Parent(FILE) == DIRECTORY && Under(DIRECTORY, FILE)
    ensures CanWrite(FRESH, FILE) && DIRECTORY in Written(FRESH, FILE, text)
    ensures forall t: Tree ::
              FILE !in Removed(t, DIRECTORY) && FILE !in Mkdirs(Removed(t, DIRECTORY), Parent(DIRECTORY))
  {
    forall q | q in Prefixes(Parent(FILE)) && q in FRESH ensures FRESH[q] == Dir {}
    assert DIRECTORY[..2] == DIRECTORY && DIRECTORY in Prefixes(DIRECTORY);
    forall t: Tree ensures FILE !in Mkdirs(Removed(t, DIRECTORY), Parent(DIRECTORY)) {
      ParentNotAtOrBelow(Removed(t, DIRECTORY), DIRECTORY);
    }
  }

  /** Bytes written below a directory are still read after a mount there has removed them and
      failed, though the file is gone. */
  method StaleAfterFailedMount<B(==)>(codec: Codec<B>, content: B, host: Tree) returns (env: Environment<B>)
    requires codec.Lawful()
    ensures fresh(env) && !env.Valid()
    ensures BytesAt(env.Value(), FILE) == Some(content) && TextAt(env.Value(), FILE).None?
  {
    hide CanWrite, Written, Mkdirs, Removed, Prefixes, Parent, Coherent, AllCoherent;
    FreshIsNew();
    FileInFresh(codec.decode(content));
    env := new Environment(codec, None, false);
    MountAtIs(env.mounts, FILE, |FILE|);
    var raised := env.WriteBytes(FILE, content, false);
    MountAtIs(env.mounts, DIRECTORY, |DIRECTORY|);
    assert ClearRemoves(env.Value(), DIRECTORY, false) && Current(env.Value(), FILE);
    raised := env.MountReadonly(DIRECTORY, host, false, true);
    MountAtIs(env.mounts, FILE, |FILE|);
  }

  function TextMember<B>(c: Codec<B>, text: string): Member<B>
  {
    Member(false, ["data", "file"], FileMember(c.encode(text)))
  }

  lemma TextMemberImports<B>(c: Codec<B>, base: Tree, text: string)
    requires c.Lawful() && CanWrite(base, FILE)
    ensures ImportRun(c, base, map[], [TextMember(c, text)]) == (Written(base, FILE, text), 1)
    ensures LastText(c, [TextMember(c, text)], FILE) == Some(text)
  {
    var m := TextMember(c, text);
    RelevantOfNames(m.parts);
    assert Target(m) == Some(FILE) by { assert WORKSPACE + m.parts == FILE; }
    assert c.strict(c.encode(text)) == Some(text);
    MountAtIs(map[], FILE, |FILE|);
    assert [m][1..] == [];
  }

  /** Bytes written to a file are still read after an archive has given the file another text. */
  method StaleAfterImport<B(==)>(codec: Codec<B>, content: B, text: string) returns (env: Environment<B>)
    requires codec.Lawful() && codec.decode(content) != text
    ensures fresh(env) && !env.Valid()
    ensures BytesAt(env.Value(), FILE) == Some(content) && TextAt(env.Value(), FILE) == Some(text)
  {
    hide CanWrite, Mkdirs, Prefixes, Coherent, AllCoherent, LastText, ImportRun, TextMember;
    FreshIsNew();
    FileInFresh(codec.decode(content));
    env := new Environment(codec, None, false);
    MountAtIs(env.mounts, FILE, |FILE|);
    var raised := env.WriteBytes(FILE, content, false);
    WrittenAgain(FRESH, codec.decode(content));
    TextMemberImports(codec, env.base, text);
    var members := [TextMember(codec, text)];
    assert members[..1] == members;
    var report := env.ImportTar(members);
  }

  lemma WrittenAgain(t: Tree, text: string)
    requires CanWrite(t, FILE)
    ensures CanWrite(Written(t, FILE, text), FILE)
  {
    ParentNotAtOrBelow(t, FILE);
  }

  // ---------------------------------------------------------------- facts about the tree

  lemma ParentNotAtOrBelow(t: Tree, p: Path)
    requires p != []
    ensures p in Mkdirs(t, Parent(p)) <==> p in t
    ensures p in t ==> Mkdirs(t, Parent(p))[p] == t[p]
    ensures forall q :: Under(p, q) ==> q !in Prefixes(Parent(p))
  {
  }

  /** A mount that failed half-way, seen at or below its mount point. */
  lemma MountFailedBelow<B>(s: Store<B>, s': Store<B>, p: Path, removed: bool, q: Path)
    requires Coherent(s, q) && Under(p, q) && p != []
    requires s'.codec == s.codec && s'.generation == s.generation && s'.files == s.files && s'.mounts == s.mounts - {p}
    requires var t := if removed then Removed(s.base, p) else s.base; s'.base == t || s'.base == Mkdirs(t, Parent(p))
    ensures Coherent(s', q) <==> !(removed && Current(s, q))
  {
    ParentNotAtOrBelow(if removed then Removed(s.base, p) else s.base, p);
    MountAtFewer(s.mounts, p, q);
  }

  /** Two sets of mounts that differ at `p` only agree on every path not at or below it. */
  lemma {:induction false} MountElsewhere(a: map<Path, Tree>, b: map<Path, Tree>, p: Path, q: Path, k: nat)
    requires k <= |q| && !Under(p, q)
    requires forall m :: m != p ==> (m in a <==> m in b)
    ensures MountAt(a, q, k) == MountAt(b, q, k)
  {
    assert q[..k] != p;
    if k > 0 {
      MountElsewhere(a, b, p, q, k - 1);
    }
  }

  lemma ViewElsewhere(a: map<Path, Tree>, b: map<Path, Tree>, p: Path, q: Path)
    requires !Under(p, q)
    requires forall m :: m != p ==> (m in a <==> m in b)
    ensures MountAt(a, q, |q|) == MountAt(b, q, |q|)
    ensures MountAt(a, q, |q|).Some? ==> MountAt(a, q, |q|).value != p && MountAt(a, q, |q|).value in a
  {
    MountElsewhere(a, b, p, q, |q|);
    MountAtIs(a, q, |q|);
  }

  lemma MountAtFewer(a: map<Path, Tree>, p: Path, q: Path)
    ensures MountAt(a, q, |q|).None? ==> MountAt(a - {p}, q, |q|).None?
  {
    MountAtIs(a, q, |q|);
    MountAtIs(a - {p}, q, |q|);
  }
}
