/** create(), sys_link() and sys_unlink() of kernel/sysfile.c as code over a table of inodes, step by step the
    machine of module Links. Names have been resolved: dp and ip are what namei() and nameiparent() return. */
module LinksCode {
  import opened Options
  import opened Links
  import opened LinksProof

  class InodeTable {
    var ino: Inodes
    ghost var extra: multiset<nat>
    ghost var dying: set<nat>
    ghost var up: map<nat, Ref>

    ghost function Now(): State
      reads this
    {
      State(ino, extra, dying)
    }

    ghost predicate Valid()
      reads this
    {
      Inv(Now(), up)
    }

    /** dirlookup(): the used entry with the name, if any. */
    method Dirlookup(dp: nat, name: string) returns (k: Option<nat>)
      requires dp in ino && ino[dp].kind.Dir?
      ensures k.None? <==>
        forall j | 0 <= j < |ino[dp].ents| :: ino[dp].ents[j].inum == 0 || ino[dp].ents[j].name != name
      ensures k.Some? ==> k.value == Find(ino[dp].ents, name) < |ino[dp].ents|
      ensures k.None? ==> Find(ino[dp].ents, name) == |ino[dp].ents|
    {
      var off := 0;
      while off < |ino[dp].ents|
        invariant 0 <= off <= |ino[dp].ents|
        invariant forall j | 0 <= j < off :: ino[dp].ents[j].inum == 0 || ino[dp].ents[j].name != name
      {
        var de := ino[dp].ents[off];
        if de.inum != 0 && de.name == name {
          return Some(off);
        }
        off := off + 1;
      }
      return None;
    }

    /** dirlink(): false if the name is there already. */
    method Dirlink(dp: nat, name: string, inum: nat) returns (ok: bool)
      requires dp in ino && ino[dp].kind.Dir?
      modifies this`ino
      ensures ok <==> Find(old(ino)[dp].ents, name) == |old(ino)[dp].ents|
      ensures !ok ==> ino == old(ino)
      ensures ok ==> ino == old(ino)[dp := old(ino)[dp].(ents := WithEntry(old(ino)[dp].ents, Entry(inum, name)))]
    {
      var k := Dirlookup(dp, name);
      if k.Some? {
        return false;
      }
      var ents := ino[dp].ents;
      var off := 0;
      while off < |ents|
        invariant 0 <= off <= |ents| && forall j | 0 <= j < off :: ents[j].inum != 0
      {
        if ents[off].inum == 0 {
          break;
        }
        off := off + 1;
      }
      assert off == FreeAt(ents);
      if off < |ents| {
        ents := ents[off := Entry(inum, name)];
      } else {
        ents := ents + [Entry(inum, name)];
      }
      ino := ino[dp := ino[dp].(ents := ents)];
      return true;
    }

    /** isdirempty(). */
    method Isdirempty(dp: nat) returns (empty: bool)
      requires dp in ino && |ino[dp].ents| >= 2
      ensures empty <==> Empty(ino[dp].ents)
    {
      var off := 2;
      while off < |ino[dp].ents|
        invariant 2 <= off <= |ino[dp].ents| && forall k | 2 <= k < off :: ino[dp].ents[k].inum == 0
      {
        if ino[dp].ents[off].inum != 0 {
          return false;
        }
        off := off + 1;
      }
      return true;
    }

    /** The entries `.` and `..` of a new directory, and the link to its parent. */
    method MakeDots(dp: nat, spare: nat)
      requires dp in ino && spare in ino && spare != dp && spare != 0 && ino[spare] == Inode(Dir, 1, [])
      modifies this`ino
      ensures ino == old(ino)[spare := NewInode(Dir, spare, dp)][dp := old(ino)[dp].(nlink := old(ino)[dp].nlink + 1)]
    {
      ino := ino[dp := ino[dp].(nlink := ino[dp].nlink + 1)];
      var ok := Dirlink(spare, DOT, spare);
      assert ino[spare].ents == [Entry(spare, DOT)];
      ok := Dirlink(spare, DOTDOT, dp);
      assert ino[spare].ents == [Entry(spare, DOT), Entry(dp, DOTDOT)];
    }

    /** create(); `spare` is the inode that ialloc() finds. None is 0. The law is kept if dp still has links. */
    method Create(dp: nat, name: string, kind: Kind, spare: nat) returns (r: Option<nat>)
      requires Valid() && dp in ino && ino[dp].kind.Dir? && !kind.Unused?
      requires spare in ino && ino[spare].kind.Unused?
      modifies this
      ensures Alive(old(Now()), dp) ==> Valid()
      ensures extra == old(extra) && dying == old(dying)
      ensures Find(old(ino)[dp].ents, name) < |old(ino)[dp].ents| ==>
        && ino == old(ino) && Valid()
        && var i := ino[dp].ents[Find(ino[dp].ents, name)].inum;
           r == if kind.File? && i in ino && ino[i].kind.File? then Some(i) else None
      ensures Find(old(ino)[dp].ents, name) == |old(ino)[dp].ents| ==>
        && r == Some(spare) && Enabled(old(Now()), Links.Create(dp, name, spare, kind))
        && Now() == Apply(old(Now()), Links.Create(dp, name, spare, kind))
    {
      hide Inv;
      ghost var s0 := Now();
      KnownInode(s0, up, spare);
      var k := Dirlookup(dp, name);
      if k.Some? {
        var i := ino[dp].ents[k.value].inum;
        if i in ino && kind.File? && ino[i].kind.File? {
          return Some(i);
        }
        return None;
      }
      ghost var a := Links.Create(dp, name, spare, kind);
      ino := ino[spare := Inode(kind, 1, [])];
      if kind.Dir? {
        MakeDots(dp, spare);
      }
      var ok := Dirlink(dp, name, spare);
      assert ok;                                    // never panic("create: dirlink")
      assert Now() == Apply(s0, a);
      if Alive(s0, dp) {
        up := Keeps(s0, a, up);
      }
      return Some(spare);
    }

    /** sys_link() from the point where `ip` has been found; `dp` is None if the new path has no parent, and
        `sameDev` is whether the two are on one device. */
    method SysLink(ip: nat, dp: Option<nat>, name: string, sameDev: bool) returns (ok: bool)
      requires Valid() && ip in ino && !ino[ip].kind.Unused?
      requires dp.Some? ==> dp.value in ino && ino[dp.value].kind.Dir?
      modifies this
      ensures !ok || (dp.Some? && Alive(old(Now()), dp.value)) ==> Valid()
      ensures !ok ==> Now() == old(Now())
      ensures ok <==>
        && old(ino)[ip].kind.File? && dp.Some? && sameDev
        && Find(old(ino)[dp.value].ents, name) == |old(ino)[dp.value].ents|
      ensures ok ==> Now() == Linked(old(Now()), dp.value, name, ip)
    {
      hide Inv, WithEntry, Find;
      ghost var s0 := Now();
      KnownInode(s0, up, ip);
      UpAndDown(s0, ip);
      InAndOut(extra, ip);
      if ino[ip].kind.Dir? {
        return false;
      }
      ino := ino[ip := ino[ip].(nlink := ino[ip].nlink + 1)];
      extra := extra + multiset{ip};
      ghost var s1 := Now();
      assert s1 == Apply(s0, LinkBegin(ip));
      ok := false;
      if dp.Some? {
        if sameDev {
          ok := Dirlink(dp.value, name, ip);
          if ok {
            extra := extra - multiset{ip};
            BothHalves(s0, dp.value, name, ip);
            assert Now() == Apply(s1, LinkEnd(dp.value, name, ip));
            if Alive(s0, dp.value) {
              up := Keeps(s0, LinkBegin(ip), up);
              up := Keeps(s1, LinkEnd(dp.value, name, ip), up);
            }
            return;
          }
        }
      }
      ino := ino[ip := ino[ip].(nlink := ino[ip].nlink - 1)];
      extra := extra - multiset{ip};
    }

    /** sys_unlink() from the point where the parent directory has been found. */
    method SysUnlink(dp: nat, name: string) returns (ok: bool)
      requires Valid() && dp in ino && ino[dp].kind.Dir? && dying == {}
      modifies this
      ensures Valid() && extra == old(extra) && dying == {}
      ensures !ok ==> Now() == old(Now())
      ensures ok <==>
        && name != DOT && name != DOTDOT && Find(old(ino)[dp].ents, name) < |old(ino)[dp].ents|
        && var i := old(ino)[dp].ents[Find(old(ino)[dp].ents, name)].inum;
           i in old(ino) && (old(ino)[i].kind.Dir? ==> Empty(old(ino)[i].ents))
      ensures ok ==> Unlinked(old(Now()), dp, Find(old(ino)[dp].ents, name), Now())
    {
      hide Inv, Find, Empty, Names;
      ghost var s0 := Now();
      if name == DOT || name == DOTDOT {
        return false;
      }
      var k := Dirlookup(dp, name);
      if k.None? {
        return false;
      }
      var ip := ino[dp].ents[k.value].inum;
      Unlinkable(s0, up, dp, k.value);
      assert ino[ip].nlink >= 1;                    // never panic("unlink: nlink < 1")
      if ino[ip].kind.Dir? {
        var empty := Isdirempty(ip);
        if !empty {
          return false;
        }
        TwoLinks(s0, up, dp, ip);
      }
      Erase(dp, k.value, ip);
      return true;
    }

    /** The part of sys_unlink() that changes things. */
    method Erase(dp: nat, k: nat, ip: nat)
      requires Valid() && Enabled(Now(), UnlinkBegin(dp, k)) && ip == ino[dp].ents[k].inum && dying == {}
      modifies this
      ensures Valid() && extra == old(extra) && dying == {} && Unlinked(old(Now()), dp, k, Now())
    {
      hide Inv, Empty, Enabled;
      ghost var s0, a := Now(), UnlinkBegin(dp, k);
      EraseEntry(dp, k, ip);
      DropNext(s0, a, up);
      up := Keeps(Now(), Drop(ip), up);
      DropIs(Now(), ip);
      ino := ino[ip := ino[ip].(nlink := ino[ip].nlink - 1)];
      extra, dying := extra - multiset{ip}, dying - {ip};
      InAndOut(s0.extra, ip);
    }

    /** The entry goes, and with a directory its link to the parent. */
    method EraseEntry(dp: nat, k: nat, ip: nat)
      requires Valid() && Enabled(Now(), UnlinkBegin(dp, k)) && ip == ino[dp].ents[k].inum && dying == {}
      modifies this
      ensures Valid() && Now() == Apply(old(Now()), UnlinkBegin(dp, k)) && ip in ino
      ensures extra == old(extra) + multiset{ip} && dying <= {ip}
    {
      hide Inv, Empty;
      ghost var s0 := Now();
      up := Keeps(s0, UnlinkBegin(dp, k), up);
      ino := ino[dp := ino[dp].(ents := ino[dp].ents[k := Entry(0, "")])];
      if ino[ip].kind.Dir? {
        ino := ino[dp := ino[dp].(nlink := ino[dp].nlink - 1)];
        dying := dying + {ip};
      }
      extra := extra + multiset{ip};
      assert Now() == Apply(s0, UnlinkBegin(dp, k));
    }
  }

  lemma DropIs(s: State, i: nat)
    requires Enabled(s, Drop(i))
    ensures i in s.ino && s.ino[i].nlink > 0
    ensures Apply(s, Drop(i)) == State(s.ino[i := s.ino[i].(nlink := s.ino[i].nlink - 1)],
                                                     s.extra - multiset{i}, s.dying - {i})
  {}

  lemma DropNext(s: State, a: Action, up: map<nat, Ref>)
    requires a.UnlinkBegin? && Enabled(s, a) && Inv(Apply(s, a), up)
    ensures Enabled(Apply(s, a), Drop(s.ino[a.dir].ents[a.index].inum))
  {
    hide TreeOk, DirsOk, ExtraOk;
    var i := s.ino[a.dir].ents[a.index].inum;
    assert LawAt(Apply(s, a), i);
  }

  lemma InAndOut(m: multiset<nat>, x: nat)
    ensures m + multiset{x} - multiset{x} == m
  {}

  lemma UpAndDown(s: State, i: nat)
    requires i in s.ino
    ensures var up := s.ino[i := s.ino[i].(nlink := s.ino[i].nlink + 1)];
      up[i := up[i].(nlink := up[i].nlink - 1)] == s.ino
  {}

  lemma BothHalves(s: State, d: nat, name: string, i: nat)
    requires Enabled(s, LinkBegin(i)) && d in s.ino && s.ino[d].kind.Dir?
    requires Find(s.ino[d].ents, name) == |s.ino[d].ents|
    ensures var s1 := Apply(s, LinkBegin(i));
      && Enabled(s1, LinkEnd(d, name, i)) && Apply(s1, LinkEnd(d, name, i)) == Linked(s, d, name, i)
      && (Alive(s, d) ==> Alive(s1, d))
  {
    InAndOut(s.extra, i);
  }

  /** The new entry and the new count, which sys_link() leaves. */
  function Linked(s: State, d: nat, name: string, i: nat): State
    requires d in s.ino && i in s.ino && d != i
  {
    var ino := s.ino[i := s.ino[i].(nlink := s.ino[i].nlink + 1)];
    s.(ino := ino[d := ino[d].(ents := WithEntry(ino[d].ents, Entry(i, name)))])
  }

  /** Both halves of sys_unlink() in a row. */
  predicate Unlinked(s: State, d: nat, k: nat, t: State) {
    && Enabled(s, UnlinkBegin(d, k))
    && var m, i := Apply(s, UnlinkBegin(d, k)), s.ino[d].ents[k].inum; Enabled(m, Drop(i)) && t == Apply(m, Drop(i))
  }
}
