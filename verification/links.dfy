/** Link counts: create(), sys_link() and sys_unlink() of kernel/sysfile.c over the directories of kernel/fs.c,
    as steps that hold the locks of the inodes they change. */
module Links {
  datatype Kind = Unused | Dir | File               // File stands for T_FILE and T_DEVICE

  /** A directory entry; inum 0 marks a free one. */
  datatype Entry = Entry(inum: nat, name: string)

  datatype Inode = Inode(kind: Kind, nlink: nat, ents: seq<Entry>)

  type Inodes = map<nat, Inode>

  const ROOT: nat := 1
  const DOT := "."
  const DOTDOT := ".."

  /** `extra` holds an inode once for each unit of its nlink that no entry accounts for: between the two halves of
      sys_link(), and between those of sys_unlink(). `dying` are the directories between the latter. */
  datatype State = State(ino: Inodes, extra: multiset<nat>, dying: set<nat>)

  // ----- directories -----

  /** dirlookup(): the first used entry with the name, |ents| if there is none. */
  function Find(ents: seq<Entry>, name: string): (k: nat)
    ensures k <= |ents|
    ensures k < |ents| ==> ents[k].inum != 0 && ents[k].name == name
    ensures forall j | 0 <= j < k :: ents[j].inum == 0 || ents[j].name != name
  {
    if ents == [] then 0
    else if ents[0].inum != 0 && ents[0].name == name then 0
    else 1 + Find(ents[1..], name)
  }

  /** The place dirlink() writes to: the first free entry, or the end. */
  function FreeAt(ents: seq<Entry>): (k: nat)
    ensures k <= |ents|
    ensures k < |ents| ==> ents[k].inum == 0
    ensures forall j | 0 <= j < k :: ents[j].inum != 0
  {
    if ents == [] then 0 else if ents[0].inum == 0 then 0 else 1 + FreeAt(ents[1..])
  }

  function WithEntry(ents: seq<Entry>, e: Entry): (r: seq<Entry>)
    ensures |r| >= |ents| && FreeAt(ents) < |r| && r[FreeAt(ents)] == e
    ensures forall j | 0 <= j < |r| && j != FreeAt(ents) :: j < |ents| && r[j] == ents[j]
  {
    var k := FreeAt(ents);
    if k < |ents| then ents[k := e] else ents + [e]
  }

  /** isdirempty(): nothing beyond "." and "..". */
  predicate Empty(ents: seq<Entry>) {
    forall k | 2 <= k < |ents| :: ents[k].inum == 0
  }

  // ----- the law -----

  datatype Ref = Ref(dir: nat, index: nat)

  /** The entries of d count: d is a directory that has links and is not about to lose its last one. */
  predicate Alive(s: State, d: nat) {
    d in s.ino && s.ino[d].kind.Dir? && s.ino[d].nlink > 0 && d !in s.dying
  }

  predicate Names(s: State, r: Ref, i: nat) {
    && Alive(s, r.dir) && r.index < |s.ino[r.dir].ents|
    && s.ino[r.dir].ents[r.index].inum == i && s.ino[r.dir].ents[r.index].name != DOT
  }

  /** The non-"." entries that name inode i, in directories with links. */
  ghost function Refs(s: State, i: nat): (rs: set<Ref>)
    ensures forall r :: r in rs <==> Names(s, r, i)
  {
    set d, k | d in s.ino && 0 <= k < |s.ino[d].ents| && Names(s, Ref(d, k), i) :: Ref(d, k)
  }

  /** nlink is the number of references, and of links in transit. */
  ghost predicate LawAt(s: State, i: nat) {
    if i in s.ino && !s.ino[i].kind.Unused? then s.ino[i].nlink == |Refs(s, i)| + s.extra[i]
    else |Refs(s, i)| == 0 && s.extra[i] == 0
  }

  ghost predicate Law(s: State) {
    forall i: nat | i != 0 :: LawAt(s, i)
  }

  // ----- the steps -----

  datatype Action =
    | Create(dir: nat, name: string, inum: nat, kind: Kind)    // create() of a new inode
    | LinkBegin(inum: nat)                          // sys_link(): nlink++
    | LinkEnd(dir: nat, name: string, inum: nat)    // sys_link(): dirlink()
    | UnlinkBegin(dir: nat, index: nat)             // sys_unlink(): the entry is erased, and a ".." accounted for
    | Drop(inum: nat)                               // nlink--: sys_unlink()'s second half, or sys_link() giving up
    | Reclaim(inum: nat)                            // iput() of an inode without links

  predicate Enabled(s: State, a: Action) {
    match a
    case Create(d, name, i, kind) =>
      && d in s.ino && s.ino[d].kind.Dir? && Find(s.ino[d].ents, name) == |s.ino[d].ents|
      && i != 0 && i in s.ino && s.ino[i].kind.Unused? && !kind.Unused?
    case LinkBegin(i) => i != 0 && i in s.ino && s.ino[i].kind.File?
    case LinkEnd(d, name, i) =>
      && d in s.ino && s.ino[d].kind.Dir? && Find(s.ino[d].ents, name) == |s.ino[d].ents|
      && i != 0 && i in s.ino && s.ino[i].kind.File? && s.extra[i] > 0
    case UnlinkBegin(d, k) =>
      && d in s.ino && s.ino[d].kind.Dir? && k < |s.ino[d].ents| && s.ino[d].ents[k].inum != 0
      && s.ino[d].ents[k].name != DOT && s.ino[d].ents[k].name != DOTDOT
      && s.ino[d].ents[k].inum in s.ino && s.ino[d].ents[k].inum !in s.dying
      && (s.ino[s.ino[d].ents[k].inum].kind.Dir? ==> Empty(s.ino[s.ino[d].ents[k].inum].ents) && s.ino[d].nlink >= 1)
    case Drop(i) => i != 0 && i in s.ino && s.extra[i] > 0 && s.ino[i].nlink > 0
    case Reclaim(i) => i != 0 && i in s.ino && !s.ino[i].kind.Unused? && s.ino[i].nlink == 0 && s.extra[i] == 0
  }

  /** What create() and sys_link() do not check: that the directory still has links. */
  predicate Proviso(s: State, a: Action) {
    match a
    case Create(d, _, _, _) => Alive(s, d)
    case LinkEnd(d, _, _) => Alive(s, d)
    case _ => true
  }

  function NewInode(kind: Kind, i: nat, d: nat): Inode {
    Inode(kind, 1, if kind.Dir? then [Entry(i, DOT), Entry(d, DOTDOT)] else [])
  }

  function Apply(s: State, a: Action): State
    requires Enabled(s, a)
  {
    match a
    case Create(d, name, i, kind) =>
      var dir := s.ino[d];
      var dir' := dir.(nlink := if kind.Dir? then dir.nlink + 1 else dir.nlink,
                       ents := WithEntry(dir.ents, Entry(i, name)));
      s.(ino := s.ino[i := NewInode(kind, i, d)][d := dir'])
    case LinkBegin(i) =>
      s.(ino := s.ino[i := s.ino[i].(nlink := s.ino[i].nlink + 1)], extra := s.extra + multiset{i})
    case LinkEnd(d, name, i) =>
      s.(ino := s.ino[d := s.ino[d].(ents := WithEntry(s.ino[d].ents, Entry(i, name)))], extra := s.extra - multiset{i})
    case UnlinkBegin(d, k) =>
      var i := s.ino[d].ents[k].inum;
      var ents' := s.ino[d].ents[k := Entry(0, "")];
      if s.ino[i].kind.Dir? then
        State(s.ino[d := s.ino[d].(ents := ents', nlink := s.ino[d].nlink - 1)], s.extra + multiset{i}, s.dying + {i})
      else
        s.(ino := s.ino[d := s.ino[d].(ents := ents')], extra := s.extra + multiset{i})
    case Drop(i) =>
      State(s.ino[i := s.ino[i].(nlink := s.ino[i].nlink - 1)], s.extra - multiset{i}, s.dying - {i})
    case Reclaim(i) =>
      s.(ino := s.ino[i := Inode(Unused, 0, [])])
  }

  /** mkfs's image: only the root directory, its ".." its own only link. */
  predicate Init(s: State) {
    && 0 !in s.ino && ROOT in s.ino && s.ino[ROOT] == Inode(Dir, 1, [Entry(ROOT, DOT), Entry(ROOT, DOTDOT)])
    && (forall i | i in s.ino && i != ROOT :: s.ino[i] == Inode(Unused, 0, []))
    && s.extra == multiset{} && s.dying == {}
  }

  predicate Next(s: State, a: Action, t: State) {
    Enabled(s, a) && Proviso(s, a) && t == Apply(s, a)
  }

  predicate IsRun(run: seq<State>, acts: seq<Action>) {
    && |run| == |acts| + 1 && Init(run[0])
    && forall j | 0 <= j < |acts| :: Next(run[j], acts[j], run[j + 1])
  }
}
