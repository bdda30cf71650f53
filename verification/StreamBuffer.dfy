/** The per-stream line buffer of the Loki sink: a Go slice, that is a backing array and a
    length, which Flush slides in place. */
module StreamBuffer {
  class StreamBuf<T(0)> {
    var backing: array<T>
    var len: nat

    ghost predicate Valid()
      reads this
    {
      len <= backing.Length
    }

    ghost function Contents(): (s: seq<T>)
      reads this, backing
      requires Valid()
      ensures |s| == len
    {
      backing[..len]
    }

    constructor (capacity: nat)
      ensures Valid() && fresh(backing) && Contents() == [] && backing.Length == capacity
    {
      backing := new T[capacity];
      len := 0;
    }

    /** Go's append of one entry: in place while there is room, into a larger array otherwise. */
    method Append(x: T)
      requires Valid()
      modifies this, backing
      ensures Valid()
      ensures Contents() == old(Contents()) + [x]
      ensures if old(len) < old(backing.Length) then backing == old(backing) else fresh(backing)
    {
      if len == backing.Length {
        var larger := new T[2 * len + 1];
        for i := 0 to len
          modifies larger
          invariant larger[..i] == backing[..i]
        {
          larger[i] := backing[i];
        }
        backing := larger;
      }
      backing[len] := x;
      len := len + 1;
    }

    /** The copy Flush hands to the pusher: later appends cannot reach it. */
    method Snapshot() returns (entries: seq<T>)
      requires Valid()
      ensures entries == Contents()
    {
      entries := backing[..len];
    }

    /** Drop the first `n` entries by sliding the rest to the front of the same array. */
    method DropPrefix(n: nat)
      requires Valid()
      modifies this`len, backing
      ensures Valid() && backing == old(backing)
      ensures Contents() == if n >= old(len) then [] else old(Contents())[n..]
    {
      if n >= len {
        len := 0;
      } else {
        var rest := len - n;
        for i := 0 to rest
          invariant forall k :: 0 <= k < i ==> backing[k] == old(backing[n + k])
          invariant forall k :: i <= k < backing.Length ==> backing[k] == old(backing[k])
        {
          backing[i] := backing[n + i];
        }
        len := rest;
      }
    }
  }
}
