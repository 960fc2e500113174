/** The link-count law holds in every run. */
module LinksProof {
  import opened Links

  /** Directories begin with "." and ".."; one whose entries do not count holds nothing else. */
  ghost predicate DirOk(s: State, d: nat)
    requires d in s.ino
  {
    var n := s.ino[d];
    if n.kind.Dir? then
      && |n.ents| >= 2 && n.ents[0] == Entry(d, DOT) && n.ents[1].name == DOTDOT && n.ents[1].inum != 0
      && (forall k | 2 <= k < |n.ents| && n.ents[k].inum != 0 :: n.ents[k].name != DOT && n.ents[k].name != DOTDOT)
      && (!Alive(s, d) ==> Empty(n.ents))
    else n.ents == []
  }

  ghost predicate DirsOk(s: State) {
    && 0 !in s.ino && (forall d | d in s.ino :: DirOk(s, d))
    && Alive(s, ROOT) && s.ino[ROOT].ents[1].inum == ROOT
  }

  /** Directories form a tree: up[c] is the one entry that names directory c, in the directory its ".." names. */
  ghost predicate TreeOk(s: State, up: map<nat, Ref>) {
    && ROOT !in up
    && (forall r, c | Names(s, r, c) && r.index >= 2 && c in s.ino && s.ino[c].kind.Dir? ::
          c in up && up[c] == r && c !in s.dying)
    && (forall c | Alive(s, c) && c != ROOT ::
          && c in up && Names(s, up[c], c) && up[c].index >= 2 && |s.ino[c].ents| >= 2
          && up[c].dir == s.ino[c].ents[1].inum)
  }

  ghost predicate ExtraOk(s: State) {
    && (forall c | c in s.dying :: c in s.ino && s.ino[c].kind.Dir? && c != ROOT)
    && (forall c | c in s.ino && s.ino[c].kind.Dir? :: s.extra[c] == if c in s.dying then 1 else 0)
  }

  ghost predicate Inv(s: State, up: map<nat, Ref>) {
    Law(s) && DirsOk(s) && TreeOk(s, up) && ExtraOk(s)
  }

  lemma InitInv(s: State)
    requires Init(s)
    ensures Inv(s, map[])
  {
    forall r, i | i != 0 ensures Names(s, r, i) <==> r == Ref(ROOT, 1) && i == ROOT {
    }
    assert Refs(s, ROOT) == {Ref(ROOT, 1)};
    forall i: nat | i != 0 && i != ROOT ensures Refs(s, i) == {} {}
  }

  // ----- create -----

  lemma CreateNames(s: State, a: Action, up: map<nat, Ref>, r: Ref, x: nat)
    requires Inv(s, up) && a.Create? && Enabled(s, a) && Proviso(s, a) && x != 0
    ensures Names(Apply(s, a), r, x) <==>
      || Names(s, r, x)
      || (x == a.inum && r == Ref(a.dir, FreeAt(s.ino[a.dir].ents)))
      || (x == a.dir && a.kind.Dir? && r == Ref(a.inum, 1))
  {
    hide Law, TreeOk;
    assert DirOk(s, a.dir) && DirOk(s, a.inum);
    NotDots(s.ino[a.dir].ents, a.name);
  }

  /** A name that dirlookup() does not find is neither of the two that are always there. */
  lemma NotDots(ents: seq<Entry>, name: string)
    requires Find(ents, name) == |ents| >= 2 && ents[0].inum != 0 && ents[0].name == DOT && ents[1].inum != 0
    requires ents[1].name == DOTDOT
    ensures name != DOT && name != DOTDOT && FreeAt(ents) >= 2
  {}

  lemma CreateLaw(s: State, a: Action, up: map<nat, Ref>)
    requires Inv(s, up) && a.Create? && Enabled(s, a) && Proviso(s, a)
    ensures Law(Apply(s, a))
  {
    hide Law, LawAt, Inv, Enabled, Apply, Proviso;
    forall x: nat | x != 0 ensures LawAt(Apply(s, a), x) {
      CreateLawAt(s, a, up, x);
    }
    AllLaw(Apply(s, a));
  }

  lemma AllLaw(s: State)
    requires forall x: nat | x != 0 :: LawAt(s, x)
    ensures Law(s)
  {}

  lemma LawFor(s: State, x: nat)
    requires Law(s) && x != 0
    ensures LawAt(s, x)
  {}

  lemma CreateLawAt(s: State, a: Action, up: map<nat, Ref>, x: nat)
    requires Inv(s, up) && a.Create? && Enabled(s, a) && Proviso(s, a) && x != 0
    ensures LawAt(Apply(s, a), x)
  {
    hide Names, DirsOk, TreeOk, ExtraOk, Law;
    var t := Apply(s, a);
    var k := FreeAt(s.ino[a.dir].ents);
    LawFor(s, x);
    forall r ensures Names(t, r, x) <==>
      Names(s, r, x) || (x == a.inum && r == Ref(a.dir, k)) || (x == a.dir && a.kind.Dir? && r == Ref(a.inum, 1))
    {
      CreateNames(s, a, up, r, x);
    }
    if x == a.inum {
      assert Refs(s, x) == {};
      assert Refs(t, x) == {Ref(a.dir, k)};
    } else if x == a.dir && a.kind.Dir? {
      assert Ref(a.inum, 1) !in Refs(s, x) by { NoEntries(s, a.inum, x); }
      assert Refs(t, x) == Refs(s, x) + {Ref(a.inum, 1)};
    } else {
      assert Refs(t, x) == Refs(s, x);
    }
  }

  lemma NoEntries(s: State, i: nat, x: nat)
    requires i in s.ino && s.ino[i].kind.Unused?
    ensures Ref(i, 1) !in Refs(s, x)
  {}

  ghost function CreateUp(s: State, a: Action, up: map<nat, Ref>): map<nat, Ref>
    requires a.Create? && a.dir in s.ino
  {
    if a.kind.Dir? then up[a.inum := Ref(a.dir, FreeAt(s.ino[a.dir].ents))] else up
  }

  lemma CreateDirs(s: State, a: Action, up: map<nat, Ref>)
    requires Inv(s, up) && a.Create? && Enabled(s, a) && Proviso(s, a)
    ensures DirsOk(Apply(s, a)) && ExtraOk(Apply(s, a))
  {
    hide Law, TreeOk;
    var t := Apply(s, a);
    assert DirOk(s, a.dir);
    NotDots(s.ino[a.dir].ents, a.name);
    LawFor(s, a.inum);
    forall q | q in t.ino ensures DirOk(t, q) {
      assert q in s.ino ==> DirOk(s, q);
    }
  }

  lemma CreateTree(s: State, a: Action, up: map<nat, Ref>)
    requires Inv(s, up) && a.Create? && Enabled(s, a) && Proviso(s, a)
    ensures TreeOk(Apply(s, a), CreateUp(s, a, up))
  {
    hide Law, Names;
    var t := Apply(s, a);
    var up' := CreateUp(s, a, up);
    assert DirOk(s, a.dir);
    LawFor(s, a.inum);
    assert Refs(s, a.inum) == {};
    forall r, c | Names(t, r, c) && r.index >= 2 && c in t.ino && t.ino[c].kind.Dir?
      ensures c in up' && up'[c] == r && c !in t.dying
    {
      CreateNames(s, a, up, r, c);
    }
    forall c | Alive(t, c) && c != ROOT
      ensures c in up' && Names(t, up'[c], c) && up'[c].index >= 2 && |t.ino[c].ents| >= 2
      ensures up'[c].dir == t.ino[c].ents[1].inum
    {
      assert DirOk(s, c);
      NotDots(s.ino[a.dir].ents, a.name);
      if c == a.inum {
        CreateNames(s, a, up, Ref(a.dir, FreeAt(s.ino[a.dir].ents)), c);
      } else {
        assert Alive(s, c);
        CreateNames(s, a, up, up[c], c);
      }
    }
  }

  // ----- steps that change no reference -----

  lemma SameRefs(s: State, t: State, x: nat)
    requires forall r :: Names(t, r, x) <==> Names(s, r, x)
    ensures Refs(t, x) == Refs(s, x)
  {
    hide Names;
  }

  /** No entry names a directory that is losing its last link. */
  lemma DyingUnnamed(s: State, up: map<nat, Ref>, c: nat)
    requires Inv(s, up) && c in s.dying
    ensures Refs(s, c) == {}
  {
    hide Law;
    forall r ensures !Names(s, r, c) {}
  }

  lemma DropNames(s: State, a: Action, up: map<nat, Ref>, r: Ref, x: nat)
    requires Inv(s, up) && (a.Drop? || a.LinkBegin? || a.Reclaim?) && Enabled(s, a)
    ensures Names(Apply(s, a), r, x) <==> Names(s, r, x)
  {
    hide TreeOk;
    if a.Drop? && s.ino[a.inum].kind.Dir? {
      DyingUnnamed(s, up, a.inum);
      assert LawAt(s, a.inum);
    }
  }

  lemma DropKeeps(s: State, a: Action, up: map<nat, Ref>)
    requires Inv(s, up) && (a.Drop? || a.LinkBegin? || a.Reclaim?) && Enabled(s, a)
    ensures Inv(Apply(s, a), up)
  {
    hide Law, LawAt, DirsOk, TreeOk, ExtraOk;
    var t := Apply(s, a);
    forall r, x ensures Names(t, r, x) <==> Names(s, r, x) {
      DropNames(s, a, up, r, x);
    }
    forall x: nat | x != 0 ensures LawAt(t, x) {
      LawFor(s, x);
      SameRefs(s, t, x);
      DropLaw(s, a, up, x);
    }
    AllLaw(t);
    DropRest(s, a, up);
  }

  lemma DropLaw(s: State, a: Action, up: map<nat, Ref>, x: nat)
    requires Inv(s, up) && (a.Drop? || a.LinkBegin? || a.Reclaim?) && Enabled(s, a) && LawAt(s, x) && x != 0
    requires Refs(Apply(s, a), x) == Refs(s, x)
    ensures LawAt(Apply(s, a), x)
  {
    hide Law, DirsOk, TreeOk, ExtraOk, Refs;
  }

  lemma DropRest(s: State, a: Action, up: map<nat, Ref>)
    requires Inv(s, up) && (a.Drop? || a.LinkBegin? || a.Reclaim?) && Enabled(s, a)
    requires forall r, x :: Names(Apply(s, a), r, x) <==> Names(s, r, x)
    ensures DirsOk(Apply(s, a)) && TreeOk(Apply(s, a), up) && ExtraOk(Apply(s, a))
  {
    hide Law, Names, LawAt, Refs, Empty;
    var t := Apply(s, a);
    forall q ensures Alive(t, q) <==> Alive(s, q) {
      DropAlive(s, a, up, q);
    }
    DropDirs(s, a, up);
    hide Alive, DirsOk;
    forall r, c | Names(t, r, c) && r.index >= 2 && c in t.ino && t.ino[c].kind.Dir?
      ensures c in up && up[c] == r && c !in t.dying
    {
      assert Names(s, r, c);
    }
    forall c | Alive(t, c) && c != ROOT
      ensures c in up && Names(t, up[c], c) && up[c].index >= 2 && |t.ino[c].ents| >= 2
      ensures up[c].dir == t.ino[c].ents[1].inum
    {
      assert Alive(s, c) && Names(s, up[c], c);
      DropEnts(s, a, c);
    }
  }

  lemma DropAlive(s: State, a: Action, up: map<nat, Ref>, q: nat)
    requires Inv(s, up) && (a.Drop? || a.LinkBegin? || a.Reclaim?) && Enabled(s, a)
    ensures Alive(Apply(s, a), q) <==> Alive(s, q)
  {
    hide TreeOk, Law;
    if a.Drop? && a.inum in s.dying {
      LawFor(s, a.inum);
      DyingUnnamed(s, up, a.inum);
    }
  }

  lemma DropEnts(s: State, a: Action, c: nat)
    requires (a.Drop? || a.LinkBegin? || a.Reclaim?) && Enabled(s, a) && Alive(s, c)
    ensures c in Apply(s, a).ino && Apply(s, a).ino[c].ents == s.ino[c].ents
  {}

  lemma DropDirs(s: State, a: Action, up: map<nat, Ref>)
    requires Inv(s, up) && (a.Drop? || a.LinkBegin? || a.Reclaim?) && Enabled(s, a)
    requires forall q :: Alive(Apply(s, a), q) <==> Alive(s, q)
    ensures DirsOk(Apply(s, a)) && ExtraOk(Apply(s, a))
  {
    hide Law, TreeOk, Alive, Names, Refs;
    var t := Apply(s, a);
    assert DirOk(s, a.inum) && (a.Reclaim? ==> a.inum != ROOT) by { RootStays(s, a); }
    forall q | q in t.ino ensures DirOk(t, q) {
      assert DirOk(s, q);
    }
  }

  lemma RootStays(s: State, a: Action)
    requires DirsOk(s) && Enabled(s, a)
    ensures a.Reclaim? ==> a.inum != ROOT
  {}

  // ----- the rest of sys_link -----

  lemma LinkNames(s: State, a: Action, up: map<nat, Ref>, r: Ref, x: nat)
    requires Inv(s, up) && a.LinkEnd? && Enabled(s, a) && Proviso(s, a) && x != 0
    ensures Names(Apply(s, a), r, x) <==> Names(s, r, x) || (x == a.inum && r == Ref(a.dir, FreeAt(s.ino[a.dir].ents)))
  {
    hide Law, TreeOk;
    assert DirOk(s, a.dir);
    NotDots(s.ino[a.dir].ents, a.name);
  }

  lemma LinkLaw(s: State, a: Action, up: map<nat, Ref>, x: nat)
    requires Inv(s, up) && a.LinkEnd? && Enabled(s, a) && Proviso(s, a) && x != 0
    ensures LawAt(Apply(s, a), x)
  {
    hide Names, DirsOk, TreeOk, ExtraOk, Law;
    var t := Apply(s, a);
    var k := FreeAt(s.ino[a.dir].ents);
    LawFor(s, x);
    forall r ensures Names(t, r, x) <==> Names(s, r, x) || (x == a.inum && r == Ref(a.dir, k)) {
      LinkNames(s, a, up, r, x);
    }
    if x == a.inum {
      assert Ref(a.dir, k) !in Refs(s, x) by { FreeNames(s, a.dir, x); }
      assert Refs(t, x) == Refs(s, x) + {Ref(a.dir, k)};
    } else {
      assert Refs(t, x) == Refs(s, x);
    }
  }

  lemma FreeNames(s: State, d: nat, x: nat)
    requires d in s.ino && x != 0
    ensures !Names(s, Ref(d, FreeAt(s.ino[d].ents)), x)
  {}

  lemma LinkKeeps(s: State, a: Action, up: map<nat, Ref>)
    requires Inv(s, up) && a.LinkEnd? && Enabled(s, a) && Proviso(s, a)
    ensures Inv(Apply(s, a), up)
  {
    hide Law, LawAt, TreeOk, DirsOk, ExtraOk;
    var t := Apply(s, a);
    forall x: nat | x != 0 ensures LawAt(t, x) { LinkLaw(s, a, up, x); }
    AllLaw(t);
    LinkDirs(s, a, up);
    LinkTree(s, a, up);
  }

  lemma LinkDirs(s: State, a: Action, up: map<nat, Ref>)
    requires Inv(s, up) && a.LinkEnd? && Enabled(s, a) && Proviso(s, a)
    ensures DirsOk(Apply(s, a)) && ExtraOk(Apply(s, a))
  {
    hide Law, TreeOk;
    var t := Apply(s, a);
    assert DirOk(s, a.dir);
    NotDots(s.ino[a.dir].ents, a.name);
    forall q | q in t.ino ensures DirOk(t, q) {
      assert DirOk(s, q);
    }
  }

  lemma LinkTree(s: State, a: Action, up: map<nat, Ref>)
    requires Inv(s, up) && a.LinkEnd? && Enabled(s, a) && Proviso(s, a)
    ensures TreeOk(Apply(s, a), up)
  {
    hide Law, Names;
    var t := Apply(s, a);
    assert DirOk(s, a.dir);
    NotDots(s.ino[a.dir].ents, a.name);
    forall r, c | Names(t, r, c) && r.index >= 2 && c in t.ino && t.ino[c].kind.Dir?
      ensures c in up && up[c] == r && c !in t.dying
    {
      LinkNames(s, a, up, r, c);
    }
    forall c | Alive(t, c) && c != ROOT
      ensures c in up && Names(t, up[c], c) && up[c].index >= 2 && |t.ino[c].ents| >= 2
      ensures up[c].dir == t.ino[c].ents[1].inum
    {
      assert Alive(s, c);
      LinkNames(s, a, up, up[c], c);
    }
  }

  // ----- unlink -----

  /** What sys_unlink() may rely on: the inode it found has a link, and the counts it lowers are large enough. */
  lemma Unlinkable(s: State, up: map<nat, Ref>, d: nat, k: nat)
    requires Inv(s, up) && d in s.ino && s.ino[d].kind.Dir? && k < |s.ino[d].ents| && s.ino[d].ents[k].inum != 0
    requires s.ino[d].ents[k].name != DOT && s.ino[d].ents[k].name != DOTDOT
    ensures k >= 2 && Alive(s, d) && Names(s, Ref(d, k), s.ino[d].ents[k].inum)
    ensures var i := s.ino[d].ents[k].inum;
      && i in s.ino && s.ino[i].nlink >= 1 && !s.ino[i].kind.Unused?
      && (s.ino[i].kind.Dir? ==>
            Alive(s, i) && i != ROOT && up[i] == Ref(d, k) && |s.ino[i].ents| >= 2 && s.ino[i].ents[1].inum == d)
  {
    hide Law;
    var i := s.ino[d].ents[k].inum;
    assert DirOk(s, d);
    assert Names(s, Ref(d, k), i);
    LawFor(s, i);
    assert Ref(d, k) in Refs(s, i);
    if i in s.ino && s.ino[i].kind.Dir? {
      assert i in up && up[i] == Ref(d, k) && i !in s.dying;
      assert DirOk(s, i);
    }
  }

  /** A directory has a link beside the ".." of one of its subdirectories. */
  lemma TwoLinks(s: State, up: map<nat, Ref>, d: nat, i: nat)
    requires Inv(s, up) && Alive(s, d) && Alive(s, i) && i != ROOT && |s.ino[i].ents| >= 2 && s.ino[i].ents[1].inum == d
    ensures s.ino[d].nlink >= 2
  {
    hide Law;
    LawFor(s, d);
    var own := if d == ROOT then Ref(ROOT, 1) else up[d];
    assert DirOk(s, i) && DirOk(s, d) && DirOk(s, ROOT);
    assert Names(s, Ref(i, 1), d) && Names(s, own, d);
    assert own != Ref(i, 1);
    Pair(Refs(s, d), own, Ref(i, 1));
  }

  lemma Pair(rs: set<Ref>, a: Ref, b: Ref)
    requires a in rs && b in rs && a != b
    ensures |rs| >= 2
  {
    assert |rs - {a}| == |rs| - 1;
    assert b in rs - {a};
  }

  lemma UnlinkAlive(s: State, a: Action, up: map<nat, Ref>, q: nat)
    requires Inv(s, up) && a.UnlinkBegin? && Enabled(s, a)
    ensures var i := s.ino[a.dir].ents[a.index].inum;
      Alive(Apply(s, a), q) <==> Alive(s, q) && !(s.ino[i].kind.Dir? && q == i)
  {
    hide Law, TreeOk, DirsOk, ExtraOk;
    Unlinkable(s, up, a.dir, a.index);
    var i := s.ino[a.dir].ents[a.index].inum;
    if s.ino[i].kind.Dir? {
      TwoLinks(s, up, a.dir, i);
    }
  }

  lemma UnlinkNames(s: State, a: Action, up: map<nat, Ref>, r: Ref, x: nat)
    requires Inv(s, up) && a.UnlinkBegin? && Enabled(s, a) && x != 0
    ensures var i := s.ino[a.dir].ents[a.index].inum;
      Names(Apply(s, a), r, x) <==>
        Names(s, r, x) && r != Ref(a.dir, a.index) && !(s.ino[i].kind.Dir? && r == Ref(i, 1))
    ensures var i := s.ino[a.dir].ents[a.index].inum;
      s.ino[i].kind.Dir? && Names(s, Ref(i, 1), x) ==> x == a.dir
  {
    hide Law, TreeOk, ExtraOk, Alive;
    Unlinkable(s, up, a.dir, a.index);
    UnlinkAlive(s, a, up, r.dir);
    var i := s.ino[a.dir].ents[a.index].inum;
    assert DirOk(s, i) && DirOk(s, a.dir);
    assert s.ino[i].kind.Dir? && Names(s, r, x) && r.dir == i ==> r == Ref(i, 1);
  }

  lemma UnlinkLaw(s: State, a: Action, up: map<nat, Ref>, x: nat)
    requires Inv(s, up) && a.UnlinkBegin? && Enabled(s, a) && x != 0
    ensures LawAt(Apply(s, a), x)
  {
    hide Names, DirsOk, TreeOk, ExtraOk, Law, Alive, Empty;
    var t := Apply(s, a);
    var i := s.ino[a.dir].ents[a.index].inum;
    Unlinkable(s, up, a.dir, a.index);
    LawFor(s, x);
    forall r
      ensures Names(t, r, x) <==> Names(s, r, x) && r != Ref(a.dir, a.index) && !(s.ino[i].kind.Dir? && r == Ref(i, 1))
    {
      UnlinkNames(s, a, up, r, x);
    }
    UnlinkNames(s, a, up, Ref(i, 1), x);
    UnlinkRefs(s, a, up, x);
  }

  lemma UnlinkRefs(s: State, a: Action, up: map<nat, Ref>, x: nat)
    requires Inv(s, up) && a.UnlinkBegin? && Enabled(s, a) && x != 0 && LawAt(s, x)
    requires var i := s.ino[a.dir].ents[a.index].inum;
      && (forall r ::
            Names(Apply(s, a), r, x) <==>
              Names(s, r, x) && r != Ref(a.dir, a.index) && !(s.ino[i].kind.Dir? && r == Ref(i, 1)))
      && (s.ino[i].kind.Dir? && Names(s, Ref(i, 1), x) ==> x == a.dir)
    ensures LawAt(Apply(s, a), x)
  {
    hide Names, TreeOk, Law, Alive, Empty, ExtraOk, DirsOk, Apply, Refs;
    var t := Apply(s, a);
    var i := s.ino[a.dir].ents[a.index].inum;
    Unlinkable(s, up, a.dir, a.index);
    UnlinkFields(s, a, x);
    OneName(s, Ref(a.dir, a.index), i, x);
    if x == i {
      NotOwnParent(s, a, up);
      OneLess(s, t, x, Ref(a.dir, a.index));
    } else if x == a.dir && s.ino[i].kind.Dir? {
      ParentName(s, i, x);
      OneLess(s, t, x, Ref(i, 1));
    } else {
      SameRefs(s, t, x);
    }
  }

  lemma OneLess(s: State, t: State, x: nat, out: Ref)
    requires Names(s, out, x) && forall r :: Names(t, r, x) <==> Names(s, r, x) && r != out
    ensures |Refs(t, x)| == |Refs(s, x)| - 1
  {
    hide Names;
    assert Refs(t, x) == Refs(s, x) - {out};
  }

  lemma UnlinkFields(s: State, a: Action, x: nat)
    requires a.UnlinkBegin? && Enabled(s, a)
    ensures var i, t := s.ino[a.dir].ents[a.index].inum, Apply(s, a);
      && (x in t.ino <==> x in s.ino) && t.extra[x] == s.extra[x] + (if x == i then 1 else 0)
      && (x in s.ino ==> t.ino[x].kind == s.ino[x].kind)
      && (x in s.ino ==> t.ino[x].nlink == s.ino[x].nlink - if x == a.dir && s.ino[i].kind.Dir? then 1 else 0)
      && (x in s.ino && a.index >= 2 && |s.ino[x].ents| >= 2 ==>
            |t.ino[x].ents| >= 2 && t.ino[x].ents[1] == s.ino[x].ents[1])
      && t.dying == if s.ino[i].kind.Dir? then s.dying + {i} else s.dying
  {}

  lemma OneName(s: State, r: Ref, i: nat, x: nat)
    ensures Names(s, r, i) && Names(s, r, x) ==> x == i
  {}

  lemma ParentName(s: State, i: nat, d: nat)
    requires DirsOk(s) && Alive(s, i) && |s.ino[i].ents| >= 2 && s.ino[i].ents[1].inum == d
    ensures Names(s, Ref(i, 1), d)
  {
    assert DirOk(s, i);
  }

  lemma NotOwnParent(s: State, a: Action, up: map<nat, Ref>)
    requires Inv(s, up) && a.UnlinkBegin? && Enabled(s, a)
    ensures var i := s.ino[a.dir].ents[a.index].inum; s.ino[i].kind.Dir? ==> i != a.dir && !Names(s, Ref(i, 1), i)
  {
    hide Law, TreeOk, ExtraOk;
    Unlinkable(s, up, a.dir, a.index);
    assert DirOk(s, a.dir);
  }

  lemma UnlinkDirs(s: State, a: Action, up: map<nat, Ref>)
    requires Inv(s, up) && a.UnlinkBegin? && Enabled(s, a)
    ensures DirsOk(Apply(s, a)) && ExtraOk(Apply(s, a))
  {
    hide Law, TreeOk, Alive, Names;
    var t := Apply(s, a);
    var i := s.ino[a.dir].ents[a.index].inum;
    Unlinkable(s, up, a.dir, a.index);
    UnlinkAlive(s, a, up, ROOT);
    AliveInode(s, up, ROOT);
    assert DirOk(s, a.dir) && DirOk(s, ROOT);
    forall q | q in t.ino ensures DirOk(t, q) {
      assert DirOk(s, q);
      UnlinkAlive(s, a, up, q);
    }
  }

  lemma UnlinkTree(s: State, a: Action, up: map<nat, Ref>)
    requires Inv(s, up) && a.UnlinkBegin? && Enabled(s, a)
    ensures TreeOk(Apply(s, a), up)
  {
    hide Law, Names, Alive, Empty, DirsOk, ExtraOk, Apply;
    var t := Apply(s, a);
    var i := s.ino[a.dir].ents[a.index].inum;
    Unlinkable(s, up, a.dir, a.index);
    forall r, c | Names(t, r, c) && r.index >= 2 && c in t.ino && t.ino[c].kind.Dir?
      ensures c in up && up[c] == r && c !in t.dying
    {
      UnlinkFields(s, a, c);
      KnownInode(s, up, c);
      UnlinkNames(s, a, up, r, c);
    }
    forall c | Alive(t, c) && c != ROOT
      ensures c in t.ino && c in up && Names(t, up[c], c) && up[c].index >= 2
      ensures |t.ino[c].ents| >= 2 && up[c].dir == t.ino[c].ents[1].inum
    {
      UnlinkAlive(s, a, up, c);
      UnlinkFields(s, a, c);
      AliveInode(s, up, c);
      UnlinkNames(s, a, up, up[c], c);
      Unlinkable(s, up, a.dir, a.index);
      OneName(s, up[c], i, c);
    }
  }

  lemma KnownInode(s: State, up: map<nat, Ref>, c: nat)
    requires Inv(s, up) && c in s.ino
    ensures c != 0
  {}

  lemma AliveInode(s: State, up: map<nat, Ref>, c: nat)
    requires Inv(s, up) && Alive(s, c)
    ensures c != 0 && c in s.ino && s.ino[c].kind.Dir? && |s.ino[c].ents| >= 2
  {
    assert DirOk(s, c);
  }

  lemma CreateDir(s: State, a: Action)
    requires a.Create? && Enabled(s, a)
    ensures a.dir in s.ino
  {}

  // ----- every run -----

  lemma Keeps(s: State, a: Action, up: map<nat, Ref>) returns (up': map<nat, Ref>)
    requires Inv(s, up) && Enabled(s, a) && Proviso(s, a)
    ensures Inv(Apply(s, a), up')
  {
    hide Law, LawAt, TreeOk, DirsOk, ExtraOk, Apply, Enabled, Proviso;
    up' := up;
    if a.Create? {
      CreateLaw(s, a, up);
      CreateDirs(s, a, up);
      CreateTree(s, a, up);
      CreateDir(s, a);
      up' := CreateUp(s, a, up);
    } else if a.LinkEnd? {
      LinkKeeps(s, a, up);
    } else if a.UnlinkBegin? {
      forall x: nat | x != 0 ensures LawAt(Apply(s, a), x) { UnlinkLaw(s, a, up, x); }
      AllLaw(Apply(s, a));
      UnlinkDirs(s, a, up);
      UnlinkTree(s, a, up);
    } else {
      DropKeeps(s, a, up);
    }
  }

  lemma {:induction false} RunInv(run: seq<State>, acts: seq<Action>, j: nat) returns (up: map<nat, Ref>)
    requires IsRun(run, acts) && j < |run|
    ensures Inv(run[j], up)
  {
    hide Init, Law, TreeOk, DirsOk, ExtraOk, Apply, Enabled, Proviso;
    if j == 0 {
      InitInv(run[0]);
      up := map[];
    } else {
      up := RunInv(run, acts, j - 1);
      assert Next(run[j - 1], acts[j - 1], run[j]);
      up := Keeps(run[j - 1], acts[j - 1], up);
    }
  }

  /** The non-"." entries naming i in directories whose own nlink is positive. */
  ghost function LinkedFrom(ino: Inodes, i: nat): set<Ref> {
    set d, k | d in ino && ino[d].kind.Dir? && ino[d].nlink > 0 && 0 <= k < |ino[d].ents|
      && ino[d].ents[k].inum == i && ino[d].ents[k].name != DOT :: Ref(d, k)
  }

  /** After any run, when no sys_link() and no sys_unlink() is half done, every nlink is the number of entries that
      name the inode. */
  lemma LinkCounts(run: seq<State>, acts: seq<Action>, i: nat)
    requires IsRun(run, acts) && run[|acts|].extra == multiset{} && run[|acts|].dying == {}
    requires i in run[|acts|].ino && !run[|acts|].ino[i].kind.Unused?
    ensures run[|acts|].ino[i].nlink == |LinkedFrom(run[|acts|].ino, i)|
  {
    hide Init, Next, TreeOk, ExtraOk;
    var s := run[|acts|];
    var up := RunInv(run, acts, |acts|);
    KnownInode(s, up, i);
    assert LawAt(s, i);
    assert LinkedFrom(s.ino, i) == Refs(s, i);
  }

  /** And an inode that is not in use is named by none, so reusing it is safe. */
  lemma UnusedUnnamed(run: seq<State>, acts: seq<Action>, i: nat)
    requires IsRun(run, acts) && i != 0 && (i in run[|acts|].ino ==> run[|acts|].ino[i].kind.Unused?)
    ensures Refs(run[|acts|], i) == {}
  {
    hide Init, Next, TreeOk, ExtraOk, DirsOk;
    var up := RunInv(run, acts, |acts|);
    assert LawAt(run[|acts|], i);
  }

  // ----- exactly when an entry may be added -----

  lemma LinkDead(s: State, a: Action, up: map<nat, Ref>)
    requires Inv(s, up) && a.LinkEnd? && Enabled(s, a) && !Alive(s, a.dir)
    ensures !LawAt(Apply(s, a), a.inum)
  {
    hide Law, TreeOk, DirsOk, ExtraOk;
    LawFor(s, a.inum);
    SameRefs(s, Apply(s, a), a.inum);
  }

  lemma CreateDead(s: State, a: Action, up: map<nat, Ref>)
    requires Inv(s, up) && a.Create? && Enabled(s, a) && !Alive(s, a.dir) && !Alive(Apply(s, a), a.dir)
    ensures !LawAt(Apply(s, a), a.inum)
  {
    hide Law, TreeOk;
    var t := Apply(s, a);
    LawFor(s, a.inum);
    assert DirOk(s, a.dir) && DirOk(s, a.inum);
    forall r ensures Names(t, r, a.inum) <==> Names(s, r, a.inum) {}
    hide Names;
    SameRefs(s, t, a.inum);
  }

  /** mkdir in a removed directory revives its "..", which the parent has already stopped counting. */
  lemma CreateRevives(s: State, a: Action, up: map<nat, Ref>) returns (p: nat)
    requires Inv(s, up) && a.Create? && Enabled(s, a) && !Alive(s, a.dir) && Alive(Apply(s, a), a.dir)
    ensures p != 0 && !LawAt(Apply(s, a), p)
  {
    hide Law, TreeOk;
    var t := Apply(s, a);
    assert DirOk(s, a.dir) && DirOk(s, a.inum);
    p := s.ino[a.dir].ents[1].inum;
    var k := FreeAt(s.ino[a.dir].ents);
    NotDots(s.ino[a.dir].ents, a.name);
    LawFor(s, p);
    LawFor(s, a.dir);
    LawFor(s, a.inum);
    assert Names(t, Ref(a.dir, 1), p) && Names(t, Ref(a.dir, k), a.inum) && Names(t, Ref(a.inum, 1), a.dir);
    if p == a.inum {
      Pair(Refs(t, p), Ref(a.dir, 1), Ref(a.dir, k));
    } else if p == a.dir {
      Pair(Refs(t, p), Ref(a.dir, 1), Ref(a.inum, 1));
    } else {
      RevivedRefs(s, a, p);
    }
  }

  lemma RevivedRefs(s: State, a: Action, p: nat)
    requires a.Create? && Enabled(s, a) && !Alive(s, a.dir) && Alive(Apply(s, a), a.dir) && p != a.inum && p != 0
    requires |s.ino[a.dir].ents| >= 2 && s.ino[a.dir].ents[1] == Entry(p, DOTDOT) && FreeAt(s.ino[a.dir].ents) >= 2
    ensures |Refs(Apply(s, a), p)| >= |Refs(s, p)| + 1
  {
    var t := Apply(s, a);
    forall r | Names(s, r, p) ensures Names(t, r, p) {}
    assert Names(t, Ref(a.dir, 1), p) && !Names(s, Ref(a.dir, 1), p);
    hide Names;
    assert Refs(s, p) + {Ref(a.dir, 1)} <= Refs(t, p);
    Fewer(Refs(s, p) + {Ref(a.dir, 1)}, Refs(t, p));
  }

  lemma Fewer(a: set<Ref>, b: set<Ref>)
    requires a <= b
    ensures |a| <= |b|
  {
    assert a + (b - a) == b;
  }

  /** create() and sys_link() keep the law exactly if the directory they write to still has links. */
  lemma ProvisoExact(s: State, a: Action, up: map<nat, Ref>)
    requires Inv(s, up) && (a.Create? || a.LinkEnd?) && Enabled(s, a)
    ensures Law(Apply(s, a)) <==> Alive(s, a.dir)
  {
    hide LawAt, TreeOk, DirsOk, ExtraOk, Alive, Apply, Enabled;
    if Alive(s, a.dir) {
      assert Proviso(s, a);
      var up' := Keeps(s, a, up);
    } else if a.LinkEnd? {
      LinkDead(s, a, up);
      InumReal(s, a);
    } else if Alive(Apply(s, a), a.dir) {
      var p := CreateRevives(s, a, up);
    } else {
      CreateDead(s, a, up);
      InumReal(s, a);
    }
  }

  lemma InumReal(s: State, a: Action)
    requires (a.Create? || a.LinkEnd?) && Enabled(s, a)
    ensures a.inum != 0
  {}

  /** mkdir and rmdir, while someone still has the directory open. */
  lemma RemovedRun() returns (run: seq<State>, acts: seq<Action>)
    ensures |acts| == 3 && IsRun(run, acts) && 2 in run[3].ino && 3 in run[3].ino
    ensures run[3].ino[2] == Inode(Dir, 0, [Entry(2, DOT), Entry(1, DOTDOT)]) && run[3].ino[3] == Inode(Unused, 0, [])
  {
    var root := [Entry(1, DOT), Entry(1, DOTDOT)];
    var ino := map[1 := Inode(Dir, 1, root), 2 := Inode(Unused, 0, []), 3 := Inode(Unused, 0, [])];
    var s0 := State(ino, multiset{}, {});
    var mkdir := Create(1, "d", 2, Dir);
    SmallDir(root, "d");
    var s1 := Apply(s0, mkdir);
    var dots := [Entry(2, DOT), Entry(1, DOTDOT)];
    assert s1.ino[1] == Inode(Dir, 2, root + [Entry(2, "d")]) && s1.ino[2] == Inode(Dir, 1, dots);
    var s2 := Apply(s1, UnlinkBegin(1, 2));
    var s3 := Apply(s2, Drop(2));
    run, acts := [s0, s1, s2, s3], [mkdir, UnlinkBegin(1, 2), Drop(2)];
  }

  /** A create() in the directory that is gone breaks the law. */
  lemma RemovedDirectory() returns (run: seq<State>, acts: seq<Action>, a: Action)
    ensures IsRun(run, acts) && Enabled(run[|acts|], a) && !Law(Apply(run[|acts|], a))
  {
    hide Init, Next, Law, TreeOk, DirsOk, ExtraOk, Find, FreeAt;
    run, acts := RemovedRun();
    a := Create(2, "f", 3, File);
    SmallDir([Entry(2, DOT), Entry(1, DOTDOT)], "f");
    var up := RunInv(run, acts, 3);
    ProvisoExact(run[3], a, up);
  }

  lemma SmallDir(ents: seq<Entry>, name: string)
    requires |ents| == 2 && ents[0].inum != 0 && ents[1].inum != 0 && ents[0].name != name && ents[1].name != name
    ensures Find(ents, name) == 2 && FreeAt(ents) == 2
  {}
}
