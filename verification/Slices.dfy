/** A Go byte slice that is reused: a backing array, a length, and whatever an earlier use left behind
    the length. */
module Slices {
  import opened Bytes

  class ByteSlice {
    var store: array<Byte>
    var len: nat

    ghost predicate Valid()
      reads this
    {
      len <= store.Length
    }

    ghost function Contents(): (s: seq<Byte>)
      requires Valid()
      reads this, store
    {
      store[..len]
    }

    constructor (capacity: nat)
      ensures Valid() && Contents() == [] && store.Length == capacity && fresh(store)
    {
      store := new Byte[capacity];
      len := 0;
    }

    /** A new backing array of the given capacity with the same contents. */
    method Reallocate(capacity: nat)
      requires Valid() && len <= capacity
      modifies this`store
      ensures Valid() && fresh(store) && store.Length == capacity && Contents() == old(Contents())
    {
      var larger := new Byte[capacity];
      var i := 0;
      while i < len
        modifies larger
        invariant 0 <= i <= len && larger[..i] == store[..i]
      {
        larger[i] := store[i];
        i := i + 1;
      }
      store := larger;
    }

    /** append(buf, src...): in place while the capacity lasts, else into a new array. The source is not
        the slice's own backing array. */
    method Append(src: array<Byte>)
      requires Valid() && src != store
      modifies this, store
      ensures Valid() && Contents() == old(Contents()) + src[..]
      ensures store == old(store) || fresh(store)
      ensures old(len) + src.Length <= old(store.Length) ==> store == old(store)
      ensures src[..] == old(src[..])
    {
      if store.Length < len + src.Length { Reallocate(len + src.Length); }
      Copy(src);
      len := len + src.Length;
    }

    /** copy(buf[len:], src) */
    method Copy(src: array<Byte>)
      requires Valid() && src != store && len + src.Length <= store.Length
      modifies store
      ensures store[..len + src.Length] == old(store[..len]) + src[..]
    {
      var i := 0;
      while i < src.Length
        modifies store
        invariant 0 <= i <= src.Length
        invariant forall k :: 0 <= k < len ==> store[k] == old(store[k])
        invariant forall k :: 0 <= k < i ==> store[len + k] == src[k]
      {
        store[len + i] := src[i];
        i := i + 1;
      }
    }
  }
}
