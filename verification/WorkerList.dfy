/** The pool's `workers` slice as Go keeps it: a backing array and a length. removeWorker closes the gap
    in place, which is why Reload and Stop work on a copy. */
module WorkerList {
  import opened PoolMachine

  class WorkerSlice {
    var slots: array<nat>
    var len: nat
    var active: int

    ghost predicate Valid()
      reads this
    {
      len <= slots.Length
    }

    ghost function Ids(): (ids: seq<nat>)
      requires Valid()
      reads this, slots
    {
      slots[..len]
    }

    constructor ()
      ensures Valid() && Ids() == [] && active == 0 && fresh(slots)
    {
      slots := new nat[0];
      len := 0;
      active := 0;
    }

    /** spawnWorker's lock section: append, in place while there is room, else into a larger array. */
    method Append(w: nat)
      requires Valid()
      modifies this, slots
      ensures Valid() && Ids() == old(Ids()) + [w] && active == old(active) + 1
      ensures slots == old(slots) || fresh(slots)
    {
      if len == slots.Length {
        var larger := new nat[2 * len + 1];
        var i := 0;
        while i < len
          modifies larger
          invariant 0 <= i <= len && larger.Length == 2 * len + 1
          invariant larger[..i] == slots[..i]
        {
          larger[i] := slots[i];
          i := i + 1;
        }
        slots := larger;
      }
      slots[len] := w;
      len := len + 1;
      active := active + 1;
    }

    /** append(ws[:i], ws[i+1:]...): shift what is behind index i one to the left. */
    method CloseGap(i: nat)
      requires Valid() && i < len
      modifies slots
      ensures slots[..len - 1] == old(slots[..i]) + old(slots[i + 1..len])
    {
      var k := i;
      while k + 1 < len
        modifies slots
        invariant i <= k < len
        invariant forall j :: 0 <= j < i ==> slots[j] == old(slots[j])
        invariant forall j :: i <= j < k ==> slots[j] == old(slots[j + 1])
        invariant forall j :: k < j < len ==> slots[j] == old(slots[j])
      {
        slots[k] := slots[k + 1];
        k := k + 1;
      }
    }

    /** removeWorker: find the id, close the gap, shorten the slice, count down. */
    method Remove(w: nat)
      requires Valid()
      modifies this, slots
      ensures Valid() && slots == old(slots)
      ensures Ids() == RemoveId(old(Ids()), w)
      ensures active == old(active) - (if w in old(Ids()) then 1 else 0)
    {
      var i := 0;
      while i < len && slots[i] != w
        invariant 0 <= i <= len
        invariant forall k :: 0 <= k < i ==> slots[k] != w
      {
        i := i + 1;
      }
      RemoveAt(Ids(), w, i);
      if i < len {
        assert Ids()[..i] == slots[..i] && Ids()[i + 1..] == slots[i + 1..len];
        CloseGap(i);
        len := len - 1;
        active := active - 1;
      }
    }

    /** The copy taken under the read lock by Reload, Stop and the health check. */
    method Snapshot() returns (copy: array<nat>)
      requires Valid()
      ensures fresh(copy) && copy[..] == Ids()
    {
      copy := new nat[len];
      var i := 0;
      while i < len
        invariant 0 <= i <= len && copy[..i] == slots[..i]
      {
        copy[i] := slots[i];
        i := i + 1;
      }
    }

    /** Reload's drain loop with nobody else at work. It reads the ids from its own copy while the shared
        array is being shifted; what is left is what was spawned since, in order. */
    method Drain(oldWorkers: array<nat>)
      requires Valid() && oldWorkers != slots && NoDup(Ids())
      modifies this, slots
      ensures Valid() && slots == old(slots) && oldWorkers[..] == old(oldWorkers[..])
      ensures Ids() == Without(old(Ids()), oldWorkers[..])
    {
      WithoutNone(Ids());
      var i := 0;
      while i < oldWorkers.Length
        invariant 0 <= i <= oldWorkers.Length
        invariant Valid() && slots == old(slots) && oldWorkers[..] == old(oldWorkers[..])
        invariant Ids() == Without(old(Ids()), oldWorkers[..i])
      {
        WithoutOneMore(old(Ids()), oldWorkers[..i], oldWorkers[i]);
        assert oldWorkers[..i] + [oldWorkers[i]] == oldWorkers[..i + 1];
        Remove(oldWorkers[i]);
        i := i + 1;
      }
      assert oldWorkers[..i] == oldWorkers[..];
    }
  }

  /** What index the removal works at. */
  lemma {:induction false} RemoveAt(ws: seq<nat>, w: nat, i: nat)
    requires i <= |ws| && (forall k :: 0 <= k < i ==> ws[k] != w) && (i < |ws| ==> ws[i] == w)
    ensures RemoveId(ws, w) == if i < |ws| then ws[..i] + ws[i + 1..] else ws
    ensures w in ws <==> i < |ws|
  {
    if i > 0 {
      RemoveAt(ws[1..], w, i - 1);
      assert ws == [ws[0]] + ws[1..];
    }
  }

  /** The ids of ws that are not in xs, in order. */
  function Without(ws: seq<nat>, xs: seq<nat>): (r: seq<nat>)
    ensures forall w :: w in r <==> w in ws && w !in xs
  {
    if ws == [] then []
    else if ws[0] in xs then Without(ws[1..], xs)
    else [ws[0]] + Without(ws[1..], xs)
  }

  lemma {:induction false} WithoutNone(ws: seq<nat>)
    ensures Without(ws, []) == ws
  {
    if ws != [] { WithoutNone(ws[1..]); }
  }

  lemma {:induction false} WithoutOneMore(ws: seq<nat>, xs: seq<nat>, x: nat)
    requires NoDup(ws)
    ensures Without(ws, xs + [x]) == RemoveId(Without(ws, xs), x)
  {
    if ws != [] {
      assert ws == [ws[0]] + ws[1..];
      NoDupEnds(ws, 0);
      WithoutOneMore(ws[1..], xs, x);
      if ws[0] == x && x !in xs {
        RemoveAt(Without(ws[1..], xs), x, |Without(ws[1..], xs)|);
      }
    }
  }
}
