/** What a name in a directory leads to, after every step of create(), sys_link() and sys_unlink(). */
module LinksNames {
  import opened Links

  /** What dirlookup() answers, 0 for nothing. */
  function Lookup(ents: seq<Entry>, name: string): nat {
    if Find(ents, name) < |ents| then ents[Find(ents, name)].inum else 0
  }

  predicate UniqueNames(ents: seq<Entry>) {
    forall j, k | 0 <= j < k < |ents| && ents[j].inum != 0 && ents[k].inum != 0 :: ents[j].name != ents[k].name
  }

  ghost predicate AllUnique(s: State) {
    forall d | d in s.ino :: UniqueNames(s.ino[d].ents)
  }

  lemma FindIs(ents: seq<Entry>, name: string, k: nat)
    requires k < |ents| && ents[k].inum != 0 && ents[k].name == name
    requires forall j | 0 <= j < k :: ents[j].inum == 0 || ents[j].name != name
    ensures Lookup(ents, name) == ents[k].inum
  {
    assert Find(ents, name) == k;
  }

  lemma FindNone(ents: seq<Entry>, name: string)
    requires forall j | 0 <= j < |ents| :: ents[j].inum == 0 || ents[j].name != name
    ensures Lookup(ents, name) == 0
  {}

  /** dirlink(): the new name leads to the new inode, and every other name to where it did. */
  lemma Added(ents: seq<Entry>, e: Entry, name: string)
    requires e.inum != 0 && Find(ents, e.name) == |ents|
    ensures Lookup(WithEntry(ents, e), name) == if name == e.name then e.inum else Lookup(ents, name)
    ensures UniqueNames(ents) ==> UniqueNames(WithEntry(ents, e))
  {
    hide Lookup, WithEntry, FreeAt, Find, UniqueNames;
    if name == e.name {
      AddedOne(ents, e);
    } else {
      AddedOther(ents, e, name);
    }
    AddedUnique(ents, e);
  }

  lemma AddedOne(ents: seq<Entry>, e: Entry)
    requires e.inum != 0 && Find(ents, e.name) == |ents|
    ensures Lookup(WithEntry(ents, e), e.name) == e.inum
  {
    hide WithEntry, FreeAt, Find;
    FindIs(WithEntry(ents, e), e.name, FreeAt(ents));
  }

  lemma AddedOther(ents: seq<Entry>, e: Entry, name: string)
    requires name != e.name
    ensures Lookup(WithEntry(ents, e), name) == Lookup(ents, name)
  {
    hide WithEntry, FreeAt, Find;
    var r, f := WithEntry(ents, e), Find(ents, name);
    if f < |ents| {
      FindIs(r, name, f);
    } else {
      FindNone(r, name);
    }
  }

  lemma AddedUnique(ents: seq<Entry>, e: Entry)
    requires e.inum != 0 && Find(ents, e.name) == |ents|
    ensures UniqueNames(ents) ==> UniqueNames(WithEntry(ents, e))
  {
    hide WithEntry, FreeAt, Find;
  }

  /** sys_unlink(): the name leads nowhere, and every other name to where it did. */
  lemma Removed(ents: seq<Entry>, k: nat, name: string)
    requires UniqueNames(ents) && k < |ents| && ents[k].inum != 0
    ensures Lookup(ents[k := Entry(0, "")], name) == if name == ents[k].name then 0 else Lookup(ents, name)
    ensures UniqueNames(ents[k := Entry(0, "")])
  {
    var r := ents[k := Entry(0, "")];
    if name == ents[k].name {
      FindNone(r, name);
    } else {
      var f := Find(ents, name);
      if f < |ents| {
        FindIs(r, name, f);
      } else {
        FindNone(r, name);
      }
    }
  }

  /** What name n of inode x leads to after the step. */
  function LookupAfter(s: State, a: Action, x: nat, n: string): nat
    requires Enabled(s, a) && x in s.ino
  {
    match a
    case Create(d, name, i, kind) =>
      if x == d && n == name then i
      else if x == i then (if kind.Dir? && n == DOT then i else if kind.Dir? && n == DOTDOT then d else 0)
      else Lookup(s.ino[x].ents, n)
    case LinkEnd(d, name, i) => if x == d && n == name then i else Lookup(s.ino[x].ents, n)
    case UnlinkBegin(d, k) => if x == d && n == s.ino[d].ents[k].name then 0 else Lookup(s.ino[x].ents, n)
    case Reclaim(i) => if x == i then 0 else Lookup(s.ino[x].ents, n)
    case _ => Lookup(s.ino[x].ents, n)
  }

  /** create() gives an inode its kind, and only iput() of one without links takes it back. */
  function KindAfter(s: State, a: Action, x: nat): Kind
    requires x in s.ino
  {
    if a.Create? && a.inum == x then a.kind else if a.Reclaim? && a.inum == x then Unused else s.ino[x].kind
  }

  lemma NewNames(kind: Kind, i: nat, d: nat, n: string)
    requires i != 0 && d != 0
    ensures Lookup(NewInode(kind, i, d).ents, n)
              == if kind.Dir? && n == DOT then i else if kind.Dir? && n == DOTDOT then d else 0
    ensures UniqueNames(NewInode(kind, i, d).ents)
  {
    var ents := NewInode(kind, i, d).ents;
    if kind.Dir? && n == DOT {
      FindIs(ents, n, 0);
    } else if kind.Dir? && n == DOTDOT {
      FindIs(ents, n, 1);
    } else {
      FindNone(ents, n);
    }
  }

  /** After every step, every name of every directory leads to where it should, and no name is there twice. */
  lemma NamesAfter(s: State, a: Action, x: nat, n: string)
    requires 0 !in s.ino && AllUnique(s) && Enabled(s, a) && x in s.ino
    ensures Apply(s, a).ino.Keys == s.ino.Keys
    ensures Lookup(Apply(s, a).ino[x].ents, n) == LookupAfter(s, a, x, n) && UniqueNames(Apply(s, a).ino[x].ents)
    ensures Apply(s, a).ino[x].kind == KindAfter(s, a, x)
  {
    hide Find, WithEntry, UniqueNames, Lookup;
    assert UniqueNames(s.ino[x].ents);
    match a
    case Create(d, name, i, kind) =>
      if x == d {
        Added(s.ino[d].ents, Entry(i, name), n);
      } else if x == i {
        NewNames(kind, i, d, n);
      }
    case LinkEnd(d, name, i) => Added(s.ino[d].ents, Entry(i, name), n);
    case UnlinkBegin(d, k) => if x == d { Removed(s.ino[d].ents, k, n); }
    case Reclaim(i) => NothingNamed(n);
    case LinkBegin(_) =>
    case Drop(_) =>
  }

  lemma NothingNamed(n: string)
    ensures Lookup([], n) == 0 && UniqueNames([])
  {}

  /** In every run, no directory has a name twice. */
  lemma {:induction false} NamesUnique(run: seq<State>, acts: seq<Action>, j: nat)
    requires IsRun(run, acts) && j < |run|
    ensures 0 !in run[j].ino && AllUnique(run[j])
  {
    hide Enabled, Apply, Proviso, UniqueNames;
    if j == 0 {
      StartUnique(run[0]);
    } else {
      NamesUnique(run, acts, j - 1);
      assert Next(run[j - 1], acts[j - 1], run[j]);
      forall d | d in run[j - 1].ino ensures d in run[j].ino && UniqueNames(run[j].ino[d].ents) && 0 !in run[j].ino {
        NamesAfter(run[j - 1], acts[j - 1], d, "");
      }
      if ROOT in run[j - 1].ino { NamesAfter(run[j - 1], acts[j - 1], ROOT, ""); }
      RootThere(run, acts, j - 1);
    }
  }

  lemma StartUnique(s: State)
    requires Init(s)
    ensures 0 !in s.ino && AllUnique(s)
  {}

  lemma {:induction false} RootThere(run: seq<State>, acts: seq<Action>, j: nat)
    requires IsRun(run, acts) && j < |run|
    ensures ROOT in run[j].ino
  {
    if j > 0 {
      RootThere(run, acts, j - 1);
      assert Next(run[j - 1], acts[j - 1], run[j]);
    }
  }
}
