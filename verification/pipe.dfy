/** kernel/pipe.c: a ring of PIPESIZE bytes between 32-bit counters that wrap around. */
module Pipes {
  const PIPESIZE: nat := 512
  const UINT: nat := 0x1_0000_0000

  /** How many bytes are in the pipe: nwrite - nread in 32-bit arithmetic. */
  function Used(nread: nat, nwrite: nat): nat
    requires nread < UINT && nwrite < UINT
  {
    (nwrite + UINT - nread) % UINT
  }

  /** pi->nwrite == pi->nread + PIPESIZE, as pipewrite() tests it. */
  predicate IsFull(nread: nat, nwrite: nat) {
    nwrite == (nread + PIPESIZE) % UINT
  }

  function At(nread: nat, k: nat): (i: nat)
    ensures i < PIPESIZE
  {
    (nread + k) % PIPESIZE
  }

  /** The bytes in the pipe, in the order in which they will be read. */
  function Contents(data: seq<nat>, nread: nat, n: nat): (c: seq<nat>)
    requires |data| == PIPESIZE
    ensures |c| == n && forall k | 0 <= k < n :: c[k] == data[At(nread, k)]
  {
    seq(n, k requires 0 <= k < n => data[At(nread, k)])
  }

  ghost predicate RingOk(data: seq<nat>, nread: nat, nwrite: nat) {
    |data| == PIPESIZE && nread < UINT && nwrite < UINT && Used(nread, nwrite) <= PIPESIZE
  }

  /** The two tests of the code mean what they should, wherever the counters have got to. */
  lemma FullAndEmpty(nread: nat, nwrite: nat)
    requires nread < UINT && nwrite < UINT && Used(nread, nwrite) <= PIPESIZE
    ensures IsFull(nread, nwrite) <==> Used(nread, nwrite) == PIPESIZE
    ensures nread == nwrite <==> Used(nread, nwrite) == 0
  {}

  lemma SlotOf(n: nat)
    ensures n % UINT % PIPESIZE == n % PIPESIZE
  {}

  lemma SlotsDiffer(nread: nat, j: nat, k: nat)
    requires j < k < PIPESIZE
    ensures At(nread, j) != At(nread, k)
  {}

  lemma WriteSlot(nread: nat, nwrite: nat)
    requires nread < UINT && nwrite < UINT
    ensures nwrite % PIPESIZE == At(nread, Used(nread, nwrite))
  {
    var u := Used(nread, nwrite);
    assert nwrite == (nread + u) % UINT;
    SlotOf(nread + u);
  }

  lemma CountUp(nread: nat, nwrite: nat)
    requires nread < UINT && nwrite < UINT && Used(nread, nwrite) < PIPESIZE
    ensures Used(nread, (nwrite + 1) % UINT) == Used(nread, nwrite) + 1
  {}

  lemma CountDown(nread: nat, nwrite: nat)
    requires nread < UINT && nwrite < UINT && 0 < Used(nread, nwrite) <= PIPESIZE
    ensures Used((nread + 1) % UINT, nwrite) == Used(nread, nwrite) - 1
  {}

  /** Storing a byte puts it at the end. */
  lemma StoreAppends(data: seq<nat>, nread: nat, nwrite: nat, ch: nat)
    requires RingOk(data, nread, nwrite) && !IsFull(nread, nwrite)
    ensures RingOk(data[nwrite % PIPESIZE := ch], nread, (nwrite + 1) % UINT)
    ensures Contents(data[nwrite % PIPESIZE := ch], nread, Used(nread, (nwrite + 1) % UINT)) ==
      Contents(data, nread, Used(nread, nwrite)) + [ch]
  {
    FullAndEmpty(nread, nwrite);
    var u := Used(nread, nwrite);
    CountUp(nread, nwrite);
    WriteSlot(nread, nwrite);
    hide Used, At;
    forall k | 0 <= k < u ensures At(nread, k) != At(nread, u) {
      SlotsDiffer(nread, k, u);
    }
  }

  /** Taking a byte takes the first. */
  lemma FetchTakes(data: seq<nat>, nread: nat, nwrite: nat)
    requires RingOk(data, nread, nwrite) && nread != nwrite
    ensures RingOk(data, (nread + 1) % UINT, nwrite)
    ensures Contents(data, nread, Used(nread, nwrite)) ==
      [data[nread % PIPESIZE]] + Contents(data, (nread + 1) % UINT, Used((nread + 1) % UINT, nwrite))
  {
    FullAndEmpty(nread, nwrite);
    var u := Used(nread, nwrite);
    CountDown(nread, nwrite);
    assert At(nread, 0) == nread % PIPESIZE;
    forall k {:trigger At((nread + 1) % UINT, k)} | 0 <= k < u - 1
      ensures At((nread + 1) % UINT, k) == At(nread, k + 1)
    {
      NextSlot(nread, k);
    }
    hide Used, At;
  }

  lemma NextSlot(nread: nat, k: nat)
    requires nread < UINT
    ensures At((nread + 1) % UINT, k) == At(nread, k + 1)
  {
    if nread + 1 == UINT {
      var q, r := k / PIPESIZE, k % PIPESIZE;
      Residue(q, r);
      Residue(0x80_0000 + q, r);
    } else {
      assert (nread + 1) % UINT == nread + 1;
    }
  }

  lemma Residue(q: nat, r: nat)
    requires r < PIPESIZE
    ensures (q * PIPESIZE + r) % PIPESIZE == r
  {}

  // ----- any interleaving of readers and writers -----

  /** `stored` and `removed` are all the bytes that ever went in and out. */
  datatype State = State(data: seq<nat>, nread: nat, nwrite: nat, stored: seq<nat>, removed: seq<nat>)

  /** Some writer stores a byte, or some reader removes one; what each thread does under the lock is a sequence of
      these. */
  datatype Action = Store(ch: nat) | Fetch

  predicate Next(s: State, a: Action, t: State) {
    && |s.data| == PIPESIZE
    && match a
       case Store(ch) =>
         && !IsFull(s.nread, s.nwrite)
         && t == s.(data := s.data[s.nwrite % PIPESIZE := ch], nwrite := (s.nwrite + 1) % UINT,
                      stored := s.stored + [ch])
       case Fetch =>
         && s.nread != s.nwrite
         && t == s.(nread := (s.nread + 1) % UINT, removed := s.removed + [s.data[s.nread % PIPESIZE]])
  }

  predicate IsRun(run: seq<State>, acts: seq<Action>) {
    && |run| == |acts| + 1 && |run[0].data| == PIPESIZE && run[0].nread == run[0].nwrite == 0
    && run[0].stored == run[0].removed == []
    && forall j | 0 <= j < |acts| :: Next(run[j], acts[j], run[j + 1])
  }

  ghost predicate Inv(s: State) {
    RingOk(s.data, s.nread, s.nwrite) && s.stored == s.removed + Contents(s.data, s.nread, Used(s.nread, s.nwrite))
  }

  lemma Keeps(s: State, a: Action, t: State)
    requires Inv(s) && Next(s, a, t)
    ensures Inv(t)
  {
    hide RingOk, Contents, Used, IsFull;
    assert |s.data| == PIPESIZE && s.nread < UINT && s.nwrite < UINT by { Bounds(s.data, s.nread, s.nwrite); }
    if a.Store? {
      StoreAppends(s.data, s.nread, s.nwrite, a.ch);
    } else {
      FetchTakes(s.data, s.nread, s.nwrite);
    }
    Bounds(t.data, t.nread, t.nwrite);
  }

  lemma Bounds(data: seq<nat>, nread: nat, nwrite: nat)
    requires RingOk(data, nread, nwrite)
    ensures |data| == PIPESIZE && nread < UINT && nwrite < UINT
  {}

  lemma {:induction false} RunInv(run: seq<State>, acts: seq<Action>, j: nat)
    requires IsRun(run, acts) && j < |run|
    ensures Inv(run[j])
  {
    if j > 0 {
      hide Inv, Next;
      RunInv(run, acts, j - 1);
      Keeps(run[j - 1], acts[j - 1], run[j]);
    }
  }

  /** Whatever readers and writers do, and however often the counters wrap: what has come out is, in order, the first
      part of what went in, and at most PIPESIZE bytes are in between. */
  lemma FirstInFirstOut(run: seq<State>, acts: seq<Action>, j: nat)
    requires IsRun(run, acts) && j < |run|
    ensures run[j].removed <= run[j].stored
    ensures run[j].nread < UINT && run[j].nwrite < UINT
    ensures |run[j].stored| - |run[j].removed| == Used(run[j].nread, run[j].nwrite) <= PIPESIZE
  {
    hide Used;
    RunInv(run, acts, j);
  }

  // ----- the code -----

  datatype Outcome = Done | Killed | Asleep

  /** What others do while a process sleeps: use the pipe, close its other end, kill the process. */
  datatype Turn = Turn(acts: seq<Action>, closes: bool, kills: bool)

  /** at[k], increasing in k, is where among the bytes stored, from `lo` on, the k-th byte of src is. */
  ghost predicate Placed(at: seq<nat>, src: seq<nat>, stored: seq<nat>, lo: nat) {
    && |at| <= |src|
    && (forall k | 0 <= k < |at| :: lo <= at[k] < |stored| && stored[at[k]] == src[k])
    && (forall j, k | 0 <= j < k < |at| :: at[j] < at[k])
  }

  ghost function Numbers(n: nat, m: nat): seq<nat> {
    seq(m, k requires 0 <= k < m => n + k)
  }

  lemma PlacedNone(src: seq<nat>, stored: seq<nat>, lo: nat)
    ensures Placed([], src, stored, lo)
  {}

  lemma PlacedMore(at: seq<nat>, src: seq<nat>, stored: seq<nat>, lo: nat, i: nat)
    requires Placed(at, src, stored, lo) && |at| <= i <= |src| && lo <= |stored|
    ensures Placed(at + Numbers(|stored|, i - |at|), src, stored + src[|at|..i], lo)
  {}

  lemma PlacedStays(at: seq<nat>, src: seq<nat>, stored: seq<nat>, more: seq<nat>, lo: nat)
    requires Placed(at, src, stored, lo) && stored <= more
    ensures Placed(at, src, more, lo)
  {
    assert forall k | 0 <= k < |stored| :: more[k] == stored[k];
  }

  function Min(a: int, b: int): int {
    if a < b then a else b
  }

  class Pipe {
    const data: array<nat>
    var nread: nat
    var nwrite: nat
    var readopen: bool
    var writeopen: bool
    ghost var stored: seq<nat>
    ghost var removed: seq<nat>

    ghost function Now(): State
      reads this, data
    {
      State(data[..], nread, nwrite, stored, removed)
    }

    ghost predicate Valid()
      reads this, data
    {
      Inv(Now())
    }

    /** pipealloc(). */
    constructor ()
      ensures Valid() && fresh(data) && readopen && writeopen && stored == removed == []
    {
      data := new nat[PIPESIZE](_ => 0);
      nread, nwrite, readopen, writeopen, stored, removed := 0, 0, true, true, [], [];
    }

    /** What pipewrite() does from taking the lock, with i bytes written before, until it gives it up: because it is
        done, or is told to stop, or has to sleep on a full pipe. User memory ends after `mapped` bytes of src. */
    method Pipewrite(src: seq<nat>, start: nat, mapped: nat, killed: bool) returns (i: nat, out: Outcome)
      requires Valid() && start <= |src| && mapped <= |src|
      modifies this`nwrite, this`stored, data
      ensures Valid() && start <= i <= |src| && stored == old(stored) + src[start..i]
      ensures out.Killed? <==> start < |src| && (killed || !readopen)
      ensures out.Killed? ==> i == start
      ensures out.Asleep? <==> !out.Killed? && i < |src| && |stored| - |removed| == PIPESIZE
      ensures !out.Killed? ==>
        i == Min(start + PIPESIZE - |old(stored)| + |removed|, if mapped < start then start else mapped)
    {
      hide Inv;
      Facts(Now());
      i := start;
      while i < |src|
        invariant Valid() && start <= i <= |src| && stored == old(stored) + src[start..i]
        invariant i == start || (i <= mapped && readopen && !killed)
        invariant |stored| - |removed| <= PIPESIZE
      {
        if !readopen || killed {
          return i, Killed;
        }
        Facts(Now());
        if nwrite == (nread + PIPESIZE) % UINT {
          return i, Asleep;
        }
        if i >= mapped {
          break;
        }
        Put(src[i]);
        assert src[start..i + 1] == src[start..i] + [src[i]];
        i := i + 1;
      }
      return i, Done;
    }

    /** Stores a byte in a pipe that is not full. */
    method Put(ch: nat)
      requires Valid() && |stored| - |removed| < PIPESIZE
      modifies this`nwrite, this`stored, data
      ensures Valid() && stored == old(stored) + [ch]
    {
      hide Inv;
      Facts(Now());
      ghost var s := Now();
      data[nwrite % PIPESIZE] := ch;
      nwrite := (nwrite + 1) % UINT;
      stored := stored + [ch];
      assert Now().data == s.data[s.nwrite % PIPESIZE := ch];
      Keeps(s, Store(ch), Now());
    }

    static lemma Facts(s: State)
      requires Inv(s)
      ensures |s.data| == PIPESIZE && s.nread < UINT && s.nwrite < UINT && Used(s.nread, s.nwrite) <= PIPESIZE
      ensures Used(s.nread, s.nwrite) == |s.stored| - |s.removed|
      ensures IsFull(s.nread, s.nwrite) <==> Used(s.nread, s.nwrite) == PIPESIZE
      ensures s.nread == s.nwrite <==> Used(s.nread, s.nwrite) == 0
    {
      FullAndEmpty(s.nread, s.nwrite);
    }

    /** piperead() likewise. The byte at which copyout() fails, after `mapped` bytes, has left the pipe. */
    method Piperead(n: nat, mapped: nat, killed: bool) returns (i: nat, got: seq<nat>, out: Outcome)
      requires Valid()
      modifies this`nread, this`removed
      ensures Valid() && i <= n && removed == old(removed) + got
      ensures !out.Done? <==> |stored| == |old(removed)| && writeopen
      ensures !out.Done? ==> i == 0 && got == [] && nread == nwrite
      ensures out.Killed? <==> !out.Done? && killed
      ensures out.Done? ==>
        && i == Min(n, Min(mapped, |stored| - |old(removed)|))
        && |got| == if mapped < n && mapped < |stored| - |old(removed)| then i + 1 else i
    {
      hide Inv;
      i, got := 0, [];
      Facts(Now());
      if nread == nwrite && writeopen {
        if killed {
          return i, got, Killed;
        }
        return i, got, Asleep;
      }
      while i < n
        invariant Valid() && i <= n && |got| == i <= mapped && removed == old(removed) + got
        invariant i <= |stored| - |old(removed)|
      {
        Facts(Now());
        if nread == nwrite {
          break;
        }
        ghost var s := Now();
        var ch := data[nread % PIPESIZE];
        nread := (nread + 1) % UINT;
        removed := removed + [ch];
        got := got + [ch];
        Keeps(s, Fetch, Now());
        Facts(Now());
        if i == mapped {
          break;
        }
        i := i + 1;
      }
      return i, got, Done;
    }

    /** What other processes do to the pipe while this one sleeps: any stores and removals that are possible. */
    method Others(acts: seq<Action>)
      requires Valid()
      modifies this`nread, this`nwrite, this`stored, this`removed, data
      ensures Valid() && old(stored) <= stored && old(removed) <= removed
    {
      hide Inv;
      for k := 0 to |acts|
        invariant Valid() && old(stored) <= stored && old(removed) <= removed
      {
        ghost var s := Now();
        Facts(s);
        match acts[k]
        case Store(ch) =>
          if nwrite != (nread + PIPESIZE) % UINT {
            data[nwrite % PIPESIZE] := ch;
            nwrite := (nwrite + 1) % UINT;
            stored := stored + [ch];
            assert Now().data == s.data[s.nwrite % PIPESIZE := ch];
            Keeps(s, acts[k], Now());
          }
        case Fetch =>
          if nread != nwrite {
            removed := removed + [data[nread % PIPESIZE]];
            nread := (nread + 1) % UINT;
            Keeps(s, acts[k], Now());
          }
      }
    }

    /** The whole of pipewrite(), with what others do each time it sleeps; Asleep if it still sleeps after that. Its
        bytes are all stored, once each and in order, however others' bytes come in between. */
    method WholeWrite(src: seq<nat>, mapped: nat, killed: bool, turns: seq<Turn>)
      returns (ret: int, out: Outcome, ghost at: seq<nat>)
      requires Valid() && mapped <= |src|
      modifies this`nread, this`nwrite, this`stored, this`removed, this`readopen, data
      ensures Valid() && old(stored) <= stored && old(removed) <= removed && |at| <= |src|
      ensures Placed(at, src, stored, |old(stored)|)
      ensures out.Done? ==> ret == |at| == mapped
      ensures out.Killed? ==>
        && ret == -1 && |at| < |src| && |at| <= mapped
        && (killed || !readopen || exists t :: 0 <= t < |turns| && turns[t].kills)
      ensures out.Asleep? ==> |at| < |src| && |at| <= mapped && |stored| - |removed| == PIPESIZE
    {
      hide Inv, Placed;
      at, ret, out := [], 0, Asleep;
      var i, dead, t := 0, killed, 0;
      PlacedNone(src, stored, |stored|);
      while true
        invariant Valid() && old(stored) <= stored && old(removed) <= removed && 0 <= i == |at| <= |src| && t <= |turns|
        invariant Placed(at, src, stored, |old(stored)|) && i <= mapped
        invariant dead ==> killed || exists t :: 0 <= t < |turns| && turns[t].kills
        decreases |turns| - t
      {
        ghost var before, i0 := stored, i;
        i, out := Pipewrite(src, i, mapped, dead);
        PlacedMore(at, src, before, |old(stored)|, i);
        at := at + Numbers(|before|, i - i0);
        if out.Done? {
          return i, out, at;
        }
        if out.Killed? {
          return -1, out, at;
        }
        if t == |turns| {
          return 0, out, at;
        }
        before := stored;
        Others(turns[t].acts);
        PlacedStays(at, src, before, stored, |old(stored)|);
        readopen, dead := readopen && !turns[t].closes, dead || turns[t].kills;
        t := t + 1;
      }
    }

    /** The whole of piperead() likewise: it gets what comes next out of the pipe, and sleeps while there is nothing. */
    method WholeRead(n: nat, mapped: nat, killed: bool, turns: seq<Turn>)
      returns (ret: int, got: seq<nat>, out: Outcome)
      requires Valid()
      modifies this`nread, this`nwrite, this`stored, this`removed, this`writeopen, data
      ensures Valid() && old(stored) <= stored && old(removed) <= removed
      ensures |got| <= |removed| - |old(removed)| && removed[|removed| - |got|..] == got
      ensures out.Done? ==> 0 <= ret <= n && (|got| == ret || (|got| == ret + 1 && ret == mapped && ret < n))
      ensures out.Done? && ret < n && ret < mapped ==> |removed| == |stored|
      ensures out.Done? && ret == 0 && n > 0 && mapped > 0 ==> !writeopen
      ensures !out.Done? ==> got == [] && writeopen && nread == nwrite
      ensures out.Killed? ==> ret == -1 && (killed || exists t :: 0 <= t < |turns| && turns[t].kills)
    {
      hide Inv;
      ret, got, out := 0, [], Asleep;
      var dead, t := killed, 0;
      while true
        invariant Valid() && old(stored) <= stored && old(removed) <= removed && t <= |turns|
        invariant dead ==> killed || exists t :: 0 <= t < |turns| && turns[t].kills
        decreases |turns| - t
      {
        ghost var before := removed;
        var i;
        Facts(Now());
        i, got, out := Piperead(n, mapped, dead);
        assert removed[|removed| - |got|..] == got;
        Facts(Now());
        if out.Done? {
          return i, got, out;
        }
        if out.Killed? {
          return -1, got, out;
        }
        if t == |turns| {
          return 0, got, out;
        }
        Others(turns[t].acts);
        writeopen, dead := writeopen && !turns[t].closes, dead || turns[t].kills;
        t := t + 1;
      }
    }

    /** pipeclose(); true if the pipe is to be freed. */
    method Pipeclose(writable: bool) returns (last: bool)
      requires Valid()
      modifies this`readopen, this`writeopen
      ensures Valid() && writeopen == (old(writeopen) && !writable) && readopen == (old(readopen) && writable)
      ensures last <==> !readopen && !writeopen
    {
      if writable {
        writeopen := false;
      } else {
        readopen := false;
      }
      last := !readopen && !writeopen;
    }
  }
}
