// The in-process file tree of a workspace, and its tar export and import.
module WorkspaceTree {
  import opened Options

  /** A path as its components, the root directory being []. */
  type Path = seq<string>

  const WORKSPACE: Path := ["workspace"]

  datatype Node = Dir | File(text: string) | Special

  type Tree = map<Path, Node>

  predicate Under(p: Path, q: Path)
  {
    p <= q
  }

  /** Every ancestor of an entry below the workspace is a directory entry. */
  ghost predicate WellFormed(t: Tree)
  {
    && WORKSPACE in t && t[WORKSPACE] == Dir
    && forall q, k :: q in t && 1 <= k < |q| ==> q[..k] in t && t[q[..k]] == Dir
  }

  function Prefixes(p: Path): set<Path>
  {
    set k | 1 <= k <= |p| :: p[..k]
  }

  /** `mkdir -p`; it raises when a file is in the way. */
  predicate CanMkdirs(t: Tree, p: Path)
  {
    forall q :: q in Prefixes(p) && q in t ==> t[q] == Dir
  }

  function Mkdirs(t: Tree, p: Path): Tree
  {
    t + map q | q in Prefixes(p) && q !in t :: Dir
  }

  /** `mkdir -p` adds the path and its ancestors, as directories, and changes nothing. */
  lemma MkdirsIs(t: Tree, p: Path, q: Path)
    ensures q in Mkdirs(t, p) <==> q in t || (q != [] && q <= p)
    ensures q in t ==> Mkdirs(t, p)[q] == t[q]
    ensures q !in t && q in Mkdirs(t, p) ==> Mkdirs(t, p)[q] == Dir
    ensures CanMkdirs(t, p) <==> forall k :: 1 <= k <= |p| && p[..k] in t ==> t[p[..k]] == Dir
  {
    assert q <= p ==> q == p[..|q|];
    if CanMkdirs(t, p) {
      forall k | 1 <= k <= |p| && p[..k] in t ensures t[p[..k]] == Dir { assert p[..k] in Prefixes(p); }
    }
  }

  function Parent(p: Path): Path
  {
    if p == [] then [] else p[..|p| - 1]
  }

  predicate CanWrite(t: Tree, p: Path)
  {
    p != [] && CanMkdirs(t, Parent(p)) && (p in t ==> t[p].File?)
  }

  function Written(t: Tree, p: Path, text: string): Tree
  {
    Mkdirs(t, Parent(p))[p := File(text)]
  }

  /** A written file has its text, its ancestors are there, and nothing else is different. */
  lemma WrittenIs(t: Tree, p: Path, text: string, q: Path)
    requires p != []
    ensures Written(t, p, text)[p] == File(text)
    ensures q in Written(t, p, text) <==> q in t || (q != [] && q <= p)
    ensures q in t && q != p ==> Written(t, p, text)[q] == t[q]
    ensures q in Written(t, p, text) && q !in t && q != p ==> Written(t, p, text)[q] == Dir
  {
    MkdirsIs(t, Parent(p), q);
    assert q <= Parent(p) ==> q <= p;
    assert q <= p && |q| < |p| ==> q <= Parent(p) by {
      if q <= p && |q| < |p| { assert q == p[..|q|] == Parent(p)[..|q|]; }
    }
    assert q <= p && |q| == |p| ==> q == p;
  }

  function Removed(t: Tree, p: Path): Tree
  {
    map q | q in t && !Under(p, q) :: t[q]
  }

  /** An environment built from a stored snapshot: its tree with the workspace directory made. */
  function Reloaded(snapshot: Option<Tree>): Tree
  {
    Mkdirs(if snapshot.Some? then snapshot.value else map[], WORKSPACE)
  }

  lemma PrefixesOfWorkspace()
    ensures Prefixes(WORKSPACE) == {WORKSPACE}
  {
    assert forall k :: 1 <= k <= 1 ==> WORKSPACE[..k] == WORKSPACE;
    assert WORKSPACE[..1] in Prefixes(WORKSPACE);
  }

  lemma ReloadedHasWorkspace(snapshot: Option<Tree>)
    ensures WORKSPACE in Reloaded(snapshot)
  {
    PrefixesOfWorkspace();
  }

  lemma ReloadedSame(t: Tree)
    ensures WORKSPACE in t ==> Reloaded(Some(t)) == t
  {
    PrefixesOfWorkspace();
  }

  // ---------------------------------------------------------------- archives

  datatype Content<Bytes> = DirMember | FileMember(bytes: Bytes) | SymlinkMember | OtherMember

  /** A tar member; `parts` are the parts of its name as a pure posix path. */
  datatype Member<Bytes> = Member(absolute: bool, parts: seq<string>, content: Content<Bytes>)

  function Relevant(parts: seq<string>): seq<string>
  {
    if parts == [] then []
    else (if parts[0] == "" || parts[0] == "." then [] else [parts[0]]) + Relevant(parts[1..])
  }

  lemma {:induction false} RelevantAppend(a: seq<string>, b: seq<string>)
    ensures Relevant(a + b) == Relevant(a) + Relevant(b)
  {
    if a == [] {
      assert a + b == b;
    } else {
      RelevantAppend(a[1..], b);
      var head := if a[0] == "" || a[0] == "." then [] else [a[0]];
      var x, y := Relevant(a[1..]), Relevant(b);
      assert (a + b)[0] == a[0] && (a + b)[1..] == a[1..] + b;
      assert Relevant(a) == head + x && Relevant(a + b) == head + (x + y);
      assert head + (x + y) == head + x + y;
    }
  }

  /** Empty and "." parts are dropped; the others stay, in order. */
  lemma {:induction false} RelevantIs(parts: seq<string>, x: string)
    ensures Relevant([]) == []
    ensures Relevant(parts + [x]) == Relevant(parts) + if x in {"", "."} then [] else [x]
  {
    RelevantAppend(parts, [x]);
    assert [x][1..] == [];
    assert Relevant([x]) == (if x == "" || x == "." then [] else [x]) + Relevant([x][1..]);
  }

  /** Where a member goes: below the workspace, a leading "workspace" part being dropped. */
  function Target<B>(m: Member<B>): Option<Path>
  {
    if m.absolute || ".." in m.parts then None
    else
      var parts := Relevant(m.parts);
      Some(WORKSPACE + if parts != [] && parts[0] == "workspace" then parts[1..] else parts)
  }

  /** An absolute name, and one with a ".." part, goes nowhere; empty and "." parts do not matter. */
  lemma TargetIs<B>(a: seq<string>, b: seq<string>, dot: string, m: Member<B>)
    requires dot in {"", "."}
    ensures Target(m).None? <==> m.absolute || ".." in m.parts
    ensures Target(m.(parts := a + [dot] + b)) == Target(m.(parts := a + b))
  {
    RelevantIs(a, dot);
    RelevantAppend(a + [dot], b);
    RelevantAppend(a, b);
    assert Relevant(a + [dot] + b) == Relevant(a + b);
    assert dot != ".." && (".." in a + [dot] + b <==> ".." in a + b);
  }

  lemma {:induction false} RelevantOfPlain(parts: seq<string>)
    requires forall i :: 0 <= i < |parts| ==> parts[i] !in {"", "."}
    ensures Relevant(parts) == parts
  {
    if parts != [] {
      RelevantOfPlain(parts[1..]);
      assert parts == [parts[0]] + parts[1..];
    }
  }

  /** A plain name goes to its parts below the workspace, and so does one with "workspace" in front. */
  lemma TargetOfPlain<B>(a: seq<string>, m: Member<B>)
    requires !m.absolute && forall i :: 0 <= i < |a| ==> a[i] !in {"", ".", ".."}
    ensures Target(m.(parts := ["workspace"] + a)) == Some(WORKSPACE + a)
    ensures a == [] || a[0] != "workspace" ==> Target(m.(parts := a)) == Some(WORKSPACE + a)
  {
    RelevantOfPlain(a);
    RelevantOfPlain(["workspace"] + a);
    assert (["workspace"] + a)[1..] == a;
    assert ".." !in a && ".." !in ["workspace"] + a;
  }

  /** UTF-8: what the exporter writes, the strict decoder reads back. */
  datatype Codec<!Bytes> = Codec(encode: string -> Bytes, decode: Bytes -> string, strict: Bytes -> Option<string>)
  {
    ghost predicate Lawful()
    {
      forall s :: decode(encode(s)) == s && strict(encode(s)) == Some(s)
    }
  }

  datatype Kind = Text | Directory | Symlink | Binary | Other

  /** What the report counts a member as. */
  function KindOf<B>(c: Codec<B>, m: Member<B>): Kind
  {
    if Target(m).None? then Other
    else
      match m.content
      case DirMember => Directory
      case SymlinkMember => Symlink
      case OtherMember => Other
      case FileMember(bytes) => if c.strict(bytes).Some? then Text else Binary
  }

  function Count<B>(c: Codec<B>, members: seq<Member<B>>, kind: Kind): nat
  {
    if members == [] then 0
    else Count(c, members[..|members| - 1], kind) + if KindOf(c, members[|members| - 1]) == kind then 1 else 0
  }

  datatype Report = Report(files: nat, dirs: nat, symlinks: nat, binaries: nat, others: nat)

  predicate Counts<B>(c: Codec<B>, members: seq<Member<B>>, r: Report)
  {
    && r.files == Count(c, members, Text) && r.dirs == Count(c, members, Directory)
    && r.symlinks == Count(c, members, Symlink) && r.binaries == Count(c, members, Binary)
    && r.others == Count(c, members, Other)
  }

  function Incremented(r: Report, kind: Kind): Report
  {
    match kind
    case Text => r.(files := r.files + 1)
    case Directory => r.(dirs := r.dirs + 1)
    case Symlink => r.(symlinks := r.symlinks + 1)
    case Binary => r.(binaries := r.binaries + 1)
    case Other => r.(others := r.others + 1)
  }

  lemma CountsNext<B>(c: Codec<B>, members: seq<Member<B>>, i: nat, r: Report)
    requires i < |members| && Counts(c, members[..i], r)
    ensures Counts(c, members[..i + 1], Incremented(r, KindOf(c, members[i])))
  {
    assert members[..i + 1][..i] == members[..i];
  }

  /** One member imported; None when the file system raises. */
  function ImportOne<B>(c: Codec<B>, t: Tree, m: Member<B>): Option<Tree>
  {
    var target := Target(m);
    if target.None? then Some(t)
    else
      match m.content
      case DirMember => if CanMkdirs(t, target.value) then Some(Mkdirs(t, target.value)) else None
      case FileMember(bytes) =>
        var text := c.strict(bytes);
        if text.None? then Some(t)
        else if CanWrite(t, target.value) then Some(Written(t, target.value, text.value)) else None
      case _ => Some(t)
  }

  function ImportAll<B>(c: Codec<B>, t: Tree, members: seq<Member<B>>): Option<Tree>
    decreases |members|
  {
    if members == [] then Some(t)
    else
      var next := ImportOne(c, t, members[0]);
      if next.None? then None else ImportAll(c, next.value, members[1..])
  }

  /** The text that an archive last gives to a path. */
  function LastText<B>(c: Codec<B>, members: seq<Member<B>>, p: Path): Option<string>
    decreases |members|
  {
    if members == [] then None
    else
      var rest := LastText(c, members[1..], p);
      if rest.Some? then rest
      else if KindOf(c, members[0]) == Text && Target(members[0]) == Some(p) then c.strict(members[0].content.bytes)
      else None
  }

  /** The five kinds of members cover an archive: imported plus skipped is everything. */
  lemma {:induction false} CountsAddUp<B>(c: Codec<B>, members: seq<Member<B>>)
    ensures Count(c, members, Text) + Count(c, members, Directory) + Count(c, members, Symlink)
            + Count(c, members, Binary) + Count(c, members, Other) == |members|
  {
    if members != [] {
      CountsAddUp(c, members[..|members| - 1]);
    }
  }

  // ---------------------------------------------------------------- what is exportable

  predicate IsControl(ch: char)
  {
    ch < ' ' && ch !in {'\n', '\r', '\t', '\U{000C}', '\U{0008}'}
  }

  function Controls(s: string): nat
  {
    if s == "" then 0 else (if IsControl(s[0]) then 1 else 0) + Controls(s[1..])
  }

  /** `_looks_like_unexportable_binary_text`: more than one character in twenty of the first 4096
      is a control character, or a replacement or NUL character appears anywhere. */
  predicate Unexportable(s: string)
  {
    || '\U{FFFD}' in s || '\U{0000}' in s
    || (s != "" && var sample := if |s| > 4096 then s[..4096] else s; 20 * Controls(sample) > |sample|)
  }

  /** The positions in the first 4096 characters that hold a control character other than line
      feed, carriage return, tab, form feed and backspace. */
  function ControlPositions(text: string): set<nat>
  {
    set i: nat | i < |text| && i < 4096
                 && text[i] < ' ' && text[i] !in {'\n', '\r', '\t', '\U{000C}', '\U{0008}'}
  }

  function SampleLength(text: string): nat
  {
    if |text| < 4096 then |text| else 4096
  }

  lemma {:induction false} ControlsAre(s: string, n: nat)
    requires n <= |s| && n <= 4096
    ensures Controls(s[..n]) == |set i: nat | i in ControlPositions(s) && i < n|
  {
    var upTo := set i: nat | i in ControlPositions(s) && i < n;
    if n == 0 {
      assert upTo == {};
    } else {
      var before := set i: nat | i in ControlPositions(s) && i < n - 1;
      ControlsAre(s, n - 1);
      ControlsSnoc(s[..n - 1], s[n - 1]);
      assert s[..n] == s[..n - 1] + [s[n - 1]];
      assert upTo == if n - 1 in ControlPositions(s) then before + {n - 1} else before;
    }
  }

  lemma {:induction false} ControlsSnoc(s: string, ch: char)
    ensures Controls(s + [ch]) == Controls(s) + if IsControl(ch) then 1 else 0
  {
    if s == "" {
      assert s + [ch] == [ch] && [ch][1..] == "";
    } else {
      ControlsSnoc(s[1..], ch);
      assert (s + [ch])[1..] == s[1..] + [ch];
    }
  }

  /** No control characters but line feed, carriage return, tab, form feed and backspace. */
  predicate HasOnlyText(text: string)
  {
    forall ch :: ch in text && ch < ' ' ==> ch in {'\n', '\r', '\t', '\U{000C}', '\U{0008}'}
  }

  /** Which texts are taken for binary, counted character by character. */
  lemma UnexportableIs(text: string)
    ensures Unexportable(text) <==>
            '\U{FFFD}' in text || '\U{0000}' in text || 20 * |ControlPositions(text)| > SampleLength(text)
    ensures '\U{FFFD}' !in text && HasOnlyText(text) ==> !Unexportable(text)
  {
    var n := SampleLength(text);
    ControlsAre(text, n);
    assert (set i: nat | i in ControlPositions(text) && i < n) == ControlPositions(text);
    assert text[..|text|] == text;
    if HasOnlyText(text) {
      forall i: nat | i < |text| ensures i !in ControlPositions(text) { assert text[i] in text; }
      assert ControlPositions(text) == {};
    }
  }

  predicate Exported(n: Node)
  {
    n.Dir? || (n.File? && !Unexportable(n.text))
  }

  /** What survives an export: directories and exportable text files below the workspace. */
  function Kept(t: Tree): Tree
  {
    map q | q in t && Under(WORKSPACE, q) && Exported(t[q]) :: t[q]
  }

  function MemberFor<B>(c: Codec<B>, q: Path, n: Node): Member<B>
    requires Under(WORKSPACE, q) && !n.Special?
  {
    Member(false, q[1..], if n.Dir? then DirMember else FileMember(c.encode(n.text)))
  }

  /** `m` is the member for the kept entry `q`; the root itself has none. */
  ghost predicate Stands<B>(c: Codec<B>, t: Tree, m: Member<B>, q: Path)
  {
    q in Kept(t) && q != WORKSPACE && m == MemberFor(c, q, t[q])
  }

  ghost predicate Sourced<B>(c: Codec<B>, t: Tree, m: Member<B>)
  {
    exists q :: Stands(c, t, m, q)
  }

  ghost predicate AllStand<B>(c: Codec<B>, t: Tree, members: seq<Member<B>>)
  {
    forall m :: m in members ==> Sourced(c, t, m)
  }

  /** An archive of the tree: a member for each kept entry but the root, and no others. */
  ghost predicate Archives<B>(c: Codec<B>, t: Tree, members: seq<Member<B>>)
  {
    && (forall q :: q in Kept(t) && q != WORKSPACE ==> MemberFor(c, q, t[q]) in members)
    && AllStand(c, t, members)
  }

  /** The members of an archive, entry by entry: every directory but the root, and every text file
      not taken for binary, with its bytes. */
  lemma ArchiveHolds<B>(c: Codec<B>, t: Tree, members: seq<Member<B>>, q: Path)
    requires Archives(c, t, members) && q in t && Under(WORKSPACE, q) && q != WORKSPACE
    ensures t[q].Dir? ==> Member(false, q[1..], DirMember) in members
    ensures t[q].File? ==>
              var text := t[q].text;
              (Member(false, q[1..], FileMember(c.encode(text))) in members <==>
               '\U{FFFD}' !in text && '\U{0000}' !in text && 20 * |ControlPositions(text)| <= SampleLength(text))
    ensures t[q].Special? ==> forall m :: m in members ==> m.absolute || m.parts != q[1..]
  {
    if t[q].File? { UnexportableIs(t[q].text); }
    forall m | m in members && m.parts == q[1..] ensures q in Kept(t) {
      assert Sourced(c, t, m);
      var p :| Stands(c, t, m, p);
      assert p == WORKSPACE + p[1..] && q == WORKSPACE + q[1..];
    }
  }

  /** Names that a directory listing can contain. */
  ghost predicate NamesOk(t: Tree)
  {
    forall q, i :: q in t && 0 <= i < |q| ==> q[i] !in {"", ".", ".."}
  }

  lemma {:induction false} RelevantOfNames(parts: seq<string>)
    requires forall i :: 0 <= i < |parts| ==> parts[i] !in {"", ".", ".."}
    ensures Relevant(parts) == parts && ".." !in parts
  {
    if parts != [] {
      RelevantOfNames(parts[1..]);
      assert parts == [parts[0]] + parts[1..];
    }
  }

  ghost predicate NoInnerWorkspace(t: Tree)
  {
    ["workspace", "workspace"] !in Kept(t)
  }

  /** Where the member of a kept entry goes. */
  lemma TargetOfKept<B>(c: Codec<B>, t: Tree, q: Path)
    requires WellFormed(t) && NamesOk(t) && q in Kept(t) && q != WORKSPACE
    ensures |q| >= 2
    ensures Target(MemberFor(c, q, t[q])) == Some(if q[1] == "workspace" then WORKSPACE + q[2..] else q)
    ensures forall k :: 1 <= k < |q| ==> q[..k] in Kept(t) && t[q[..k]] == Dir
  {
    assert q[0] == WORKSPACE[0];
    assert |q| == 1 ==> q == WORKSPACE;
    var parts := q[1..];
    forall i | 0 <= i < |parts| ensures parts[i] !in {"", ".", ".."} { assert parts[i] == q[i + 1]; }
    RelevantOfNames(parts);
    assert q == WORKSPACE + q[1..] && q[1..][1..] == q[2..];
    forall k | 1 <= k < |q| ensures q[..k] in Kept(t) && t[q[..k]] == Dir {
      assert q[..k][..1] == WORKSPACE;
    }
  }

  /** A tree on its way from empty to the archived one. */
  ghost predicate Partial(t: Tree, u: Tree)
  {
    WORKSPACE in u && forall q :: q in u ==> q in Kept(t) && u[q] == t[q]
  }

  lemma InnerWorkspaceKept(t: Tree, q: Path)
    requires WellFormed(t) && q in Kept(t) && |q| >= 2 && q[1] == "workspace"
    ensures !NoInnerWorkspace(t)
  {
    assert q[..2] == ["workspace", "workspace"];
    assert |q| == 2 ==> q == q[..2];
    assert q[..2][..1] == WORKSPACE;
  }

  lemma PrefixesOf(q: Path)
    requires q != []
    ensures Prefixes(q) == Prefixes(Parent(q)) + {q}
  {
    forall p ensures p in Prefixes(q) <==> p in Prefixes(Parent(q)) || p == q {
      if p in Prefixes(q) {
        var k :| 1 <= k <= |q| && p == q[..k];
        if k < |q| { assert p == Parent(q)[..k]; }
      }
      if p in Prefixes(Parent(q)) {
        var k :| 1 <= k <= |Parent(q)| && p == Parent(q)[..k];
        assert p == q[..k];
      }
      assert q == q[..|q|];
    }
  }

  lemma AncestorsKept<B>(c: Codec<B>, t: Tree, q: Path)
    requires WellFormed(t) && NamesOk(t) && q in Kept(t) && q != WORKSPACE
    ensures forall p :: p in Prefixes(Parent(q)) ==> p in Kept(t) && t[p] == Dir
  {
    TargetOfKept(c, t, q);
    forall p | p in Prefixes(Parent(q)) ensures p in Kept(t) && t[p] == Dir {
      var k :| 1 <= k <= |Parent(q)| && p == Parent(q)[..k];
      assert p == q[..k];
    }
  }

  lemma KeptGoesHome<B>(c: Codec<B>, t: Tree, m: Member<B>, q: Path)
    requires WellFormed(t) && NamesOk(t) && NoInnerWorkspace(t) && Stands(c, t, m, q)
    ensures Target(m) == Some(q) && |q| >= 2
  {
    TargetOfKept(c, t, q);
    if q[1] == "workspace" {
      InnerWorkspaceKept(t, q);
    }
  }

  lemma ImportOneKept<B>(c: Codec<B>, t: Tree, u: Tree, m: Member<B>, q: Path)
    requires c.Lawful() && WellFormed(t) && NamesOk(t) && NoInnerWorkspace(t) && Partial(t, u) && Stands(c, t, m, q)
    ensures var r := ImportOne(c, u, m);
            r.Some? && Partial(t, r.value) && q in r.value && forall p :: p in u ==> p in r.value
  {
    hide WellFormed, NamesOk, NoInnerWorkspace, Target, Prefixes, Unexportable;
    KeptGoesHome(c, t, m, q);
    AncestorsKept(c, t, q);
    PrefixesOf(q);
    if t[q].File? {
      assert c.strict(c.encode(t[q].text)) == Some(t[q].text);
    }
  }

  lemma StandsForOne<B>(c: Codec<B>, t: Tree, m: Member<B>, p: Path, q: Path)
    requires Stands(c, t, m, p) && Stands(c, t, m, q)
    ensures p == q
  {
  }

  lemma {:induction false} ImportAllKept<B>(c: Codec<B>, t: Tree, u: Tree, members: seq<Member<B>>)
    requires c.Lawful() && WellFormed(t) && NamesOk(t) && NoInnerWorkspace(t)
    requires Partial(t, u) && AllStand(c, t, members)
    ensures var r := ImportAll(c, u, members);
            r.Some? && Partial(t, r.value) && (forall p :: p in u ==> p in r.value)
            && forall m, q :: m in members && Stands(c, t, m, q) ==> q in r.value
    decreases |members|
  {
    if members != [] {
      assert Sourced(c, t, members[0]);
      var q :| Stands(c, t, members[0], q);
      ImportOneKept(c, t, u, members[0], q);
      var next := ImportOne(c, u, members[0]).value;
      assert forall m :: m in members[1..] ==> m in members;
      ImportAllKept(c, t, next, members[1..]);
      forall m, p | m in members && Stands(c, t, m, p)
        ensures p in ImportAll(c, u, members).value
      {
        if m == members[0] {
          StandsForOne(c, t, m, p, q);
        } else {
          assert m in members[1..];
        }
      }
    }
  }

  const FRESH: Tree := map[WORKSPACE := Dir]

  lemma FreshIsNew()
    ensures Reloaded(None) == FRESH
  {
    PrefixesOfWorkspace();
  }

  /** Importing an export into a fresh workspace gives back exactly the directories and the
      exportable text files, with equal contents, in whatever order the members come. */
  lemma RoundTrip<B>(c: Codec<B>, t: Tree, members: seq<Member<B>>)
    requires c.Lawful() && WellFormed(t) && NamesOk(t) && Archives(c, t, members)
    requires NoInnerWorkspace(t)
    ensures ImportAll(c, FRESH, members) == Some(Kept(t))
  {
    ImportAllKept(c, t, FRESH, members);
    var r := ImportAll(c, FRESH, members).value;
    forall q | q in Kept(t) ensures q in r {
      if q != WORKSPACE { assert Stands(c, t, MemberFor(c, q, t[q]), q); }
    }
    assert r == Kept(t);
  }

  // ---------------------------------------------------------------- an inner "workspace" entry

  function Nest(k: nat): Path
  {
    seq(k, i => "workspace")
  }

  /** Whatever an import leaves at a path comes from before or from a member at or below it. */
  lemma {:induction false} ImportedFrom<B>(c: Codec<B>, u: Tree, members: seq<Member<B>>, p: Path)
    requires ImportAll(c, u, members).Some? && p in ImportAll(c, u, members).value && p !in u
    ensures exists m :: m in members && Target(m).Some? && p <= Target(m).value
    decreases |members|
  {
    assert members != [];
    var next := ImportOne(c, u, members[0]).value;
    if p in next {
      var target := Target(members[0]).value;
      assert p == target || p in Prefixes(target) || p in Prefixes(Parent(target));
      assert Parent(target) <= target;
      assert members[0] in members && p <= target;
    } else {
      ImportedFrom(c, next, members[1..], p);
      var m :| m in members[1..] && Target(m).Some? && p <= Target(m).value;
      assert m in members;
    }
  }

  /** A kept entry called "workspace" at the top always spoils the round trip: the deepest
      workspace/.../workspace entry is hoisted away and nothing takes its place. */
  lemma RoundTripExact<B>(c: Codec<B>, t: Tree, members: seq<Member<B>>)
    requires c.Lawful() && WellFormed(t) && NamesOk(t) && Archives(c, t, members)
    ensures ImportAll(c, FRESH, members) == Some(Kept(t)) <==> NoInnerWorkspace(t)
  {
    if NoInnerWorkspace(t) {
      RoundTrip(c, t, members);
    } else if ImportAll(c, FRESH, members) == Some(Kept(t)) {
      assert Nest(2) == ["workspace", "workspace"];
      var k := DeepestNest(t, 2);
      ImportedFrom(c, FRESH, members, Nest(k));
      var m :| m in members && Target(m).Some? && Nest(k) <= Target(m).value;
      assert Sourced(c, t, m);
      var q :| Stands(c, t, m, q);
      HoistedFromDeeper(c, t, q, k);
      assert false;
    }
  }

  /** What arrives at or below the k-fold nest came from the (k+1)-fold one. */
  lemma HoistedFromDeeper<B>(c: Codec<B>, t: Tree, q: Path, k: nat)
    requires WellFormed(t) && NamesOk(t) && q in Kept(t) && q != WORKSPACE && k >= 2
    requires Target(MemberFor(c, q, t[q])).Some? && Nest(k) <= Target(MemberFor(c, q, t[q])).value
    ensures Nest(k + 1) in Kept(t)
  {
    TargetOfKept(c, t, q);
    var target := Target(MemberFor(c, q, t[q])).value;
    assert target[1] == Nest(k)[1] == "workspace";
    assert q[1] == "workspace" && target == WORKSPACE + q[2..];
    forall i | 0 <= i < k + 1 ensures q[i] == "workspace" {
      if i >= 2 { assert q[i] == target[i - 1] == Nest(k)[i - 1]; }
    }
    assert q[..k + 1] == Nest(k + 1);
    assert |q| == k + 1 ==> q == q[..k + 1];
  }

  lemma DeepestNest(t: Tree, k: nat) returns (d: nat)
    requires Nest(k) in Kept(t) && k >= 2
    ensures d >= k && Nest(d) in Kept(t) && Nest(d + 1) !in Kept(t)
    decreases |Kept(t).Keys - set i | 0 <= i <= k :: Nest(i)|
  {
    if Nest(k + 1) in Kept(t) {
      var seen := set i | 0 <= i <= k :: Nest(i);
      var more := set i | 0 <= i <= k + 1 :: Nest(i);
      assert Nest(k + 1) in more && Nest(k + 1) !in seen by {
        forall i | 0 <= i <= k ensures Nest(i) != Nest(k + 1) { assert |Nest(i)| == i; }
      }
      assert forall x :: x in seen ==> x in more;
      assert Kept(t).Keys - more < Kept(t).Keys - seen;
      StrictSubsetSmaller(Kept(t).Keys - more, Kept(t).Keys - seen);
      d := DeepestNest(t, k + 1);
    } else {
      d := k;
    }
  }

  lemma StrictSubsetSmaller<T>(a: set<T>, b: set<T>)
    requires a < b
    ensures |a| < |b|
  {
    var x :| x in b && x !in a;
    assert b == a + (b - a) && |b - a| > 0 by { assert x in b - a; }
  }

  // ---------------------------------------------------------------- export

  function Below(t: Tree, p: Path): set<Path>
  {
    set q | q in t && Under(p, q)
  }

  lemma ChildHasLess(t: Tree, p: Path, child: Path)
    requires p in t && Under(p, child) && |child| > |p|
    ensures |Below(t, child)| < |Below(t, p)|
  {
    assert p in Below(t, p) && p !in Below(t, child);
    StrictSubsetSmaller(Below(t, child), Below(t, p));
  }

  function KeptBelow(t: Tree, p: Path): set<Path>
  {
    set q | q in Kept(t).Keys && Under(p, q) && q != WORKSPACE
  }

  /** The members stand, in order, for the distinct entries `paths`. */
  ghost predicate Lists<B>(c: Codec<B>, t: Tree, members: seq<Member<B>>, paths: seq<Path>)
  {
    && |members| == |paths|
    && (forall i :: 0 <= i < |paths| ==> Stands(c, t, members[i], paths[i]))
    && forall i, j :: 0 <= i < j < |paths| ==> paths[i] != paths[j]
  }

  lemma {:induction false} DistinctCount<T>(paths: seq<T>, all: set<T>)
    requires forall i, j :: 0 <= i < j < |paths| ==> paths[i] != paths[j]
    requires forall q :: q in paths <==> q in all
    ensures |paths| == |all|
  {
    if paths != [] {
      var last := paths[|paths| - 1];
      var rest := paths[..|paths| - 1];
      forall q ensures q in rest <==> q in all - {last} {
        if q in paths && q != last { var i :| 0 <= i < |paths| && paths[i] == q; assert rest[i] == q; }
      }
      DistinctCount(rest, all - {last});
      assert last in paths;
    }
  }

  lemma ListsArchives<B>(c: Codec<B>, t: Tree, members: seq<Member<B>>)
    requires ListsOnce(c, t, members, KeptBelow(t, WORKSPACE))
    ensures Archives(c, t, members) && |members| == |KeptBelow(t, WORKSPACE)|
  {
    var paths :| Lists(c, t, members, paths) && forall q :: q in paths <==> q in KeptBelow(t, WORKSPACE);
    forall q | q in Kept(t) && q != WORKSPACE ensures MemberFor(c, q, t[q]) in members {
      assert q in paths;
    }
    DistinctCount(paths, KeptBelow(t, WORKSPACE));
  }

  /** The paths are the kept entries at and below `p`, but for those below the children `todo`. */
  ghost predicate Covers(t: Tree, p: Path, todo: set<Path>, paths: seq<Path>)
  {
    forall q :: q in paths <==> q in KeptBelow(t, p) && (|q| <= |p| || q[..|p| + 1] !in todo)
  }

  lemma CoversMore(t: Tree, p: Path, child: Path, todo: set<Path>, paths: seq<Path>, more: seq<Path>)
    requires child in todo && Under(p, child) && |child| == |p| + 1
    requires Covers(t, p, todo, paths) && forall q :: q in more <==> q in KeptBelow(t, child)
    ensures Covers(t, p, todo - {child}, paths + more)
    ensures forall q :: q in more ==> q !in paths
  {
    forall q ensures Under(child, q) <==> |q| > |p| && q[..|p| + 1] == child {}
    forall q ensures q in paths + more <==> q in KeptBelow(t, p) && (|q| <= |p| || q[..|p| + 1] !in todo - {child}) {
      assert q in paths + more <==> q in paths || q in more;
      assert Under(child, q) ==> Under(p, q);
    }
  }

  lemma ListsMore<B>(c: Codec<B>, t: Tree, members: seq<Member<B>>, paths: seq<Path>,
                     more: seq<Member<B>>, morePaths: seq<Path>)
    requires Lists(c, t, members, paths) && Lists(c, t, more, morePaths)
    requires forall q :: q in morePaths ==> q !in paths
    ensures Lists(c, t, members + more, paths + morePaths)
  {
    var all := paths + morePaths;
    forall i | 0 <= i < |all| ensures Stands(c, t, (members + more)[i], all[i]) {
      hide *;
    }
    forall i, j | 0 <= i < j < |all| ensures all[i] != all[j] {
      hide *;
      if i < |paths| <= j { assert all[i] in paths && all[j] in morePaths; }
    }
  }

  /** The members stand for each entry of `all` exactly once, and for nothing else. */
  ghost predicate ListsOnce<B>(c: Codec<B>, t: Tree, members: seq<Member<B>>, all: set<Path>)
  {
    exists paths :: Lists(c, t, members, paths) && forall q :: q in paths <==> q in all
  }

  /** The members at and below an entry: each kept entry once, whatever order directories list
      their children in. */
  method AddTree<B>(c: Codec<B>, t: Tree, p: Path) returns (members: seq<Member<B>>)
    requires WellFormed(t) && Under(WORKSPACE, p) && p in t
    ensures ListsOnce(c, t, members, KeptBelow(t, p))
    decreases |Below(t, p)|
  {
    members := [];
    ghost var paths: seq<Path> := [];
    if t[p] != Dir {
      if t[p].File? && !Unexportable(t[p].text) {
        members, paths := [MemberFor(c, p, t[p])], [p];
      }
      assert forall q :: q in t && Under(p, q) ==> q == p by {
        forall q | q in t && Under(p, q) ensures q == p {
          assert q[..|p|] == p;
        }
      }
      assert Lists(c, t, members, paths);
      return;
    }
    if p != WORKSPACE {
      members, paths := [MemberFor(c, p, Dir)], [p];
    }
    var todo := set q | q in t && Under(p, q) && |q| == |p| + 1;
    forall q | q in KeptBelow(t, p) && q != p ensures q[..|p| + 1] in todo {
      assert |q| == |p| + 1 ==> q[..|p| + 1] == q;
      assert |q| == |p| ==> q == p;
    }
    while todo != {}
      invariant forall q :: q in todo ==> q in t && Under(p, q) && |q| == |p| + 1
      invariant Lists(c, t, members, paths)
      invariant Covers(t, p, todo, paths)
      decreases todo
    {
      var child :| child in todo;
      ChildHasLess(t, p, child);
      var more := AddTree(c, t, child);
      ghost var morePaths :| Lists(c, t, more, morePaths) && forall q :: q in morePaths <==> q in KeptBelow(t, child);
      CoversMore(t, p, child, todo, paths, morePaths);
      ListsMore(c, t, members, paths, more, morePaths);
      members, paths := members + more, paths + morePaths;
      todo := todo - {child};
    }
  }
}
