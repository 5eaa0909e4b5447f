/** A queue kept as a window of a backing array: appends go behind it, drops move its start. */
module SliceQueue {

  class Queue<T(0)> {
    var buf: array<T>
    var lo: nat
    var hi: nat

    ghost predicate Valid()
      reads this
    {
      lo <= hi <= buf.Length
    }

    /** The queued entries, oldest first. */
    ghost function Contents(): seq<T>
      requires Valid()
      reads this, buf
    {
      buf[lo..hi]
    }

    /** How much of the backing array the window still keeps alive. */
    function Capacity(): int
      reads this
    {
      buf.Length - lo
    }

    constructor ()
      ensures Valid() && fresh(buf) && Contents() == []
    {
      buf := new T[0];
      lo, hi := 0, 0;
    }

    /** Moves the window to a fresh array of the given size. */
    method MoveTo(size: nat)
      requires Valid() && hi - lo <= size
      modifies this
      ensures Valid() && fresh(buf) && buf.Length == size && lo == 0
      ensures Contents() == old(Contents())
    {
      var moved := new T[size];
      forall i | 0 <= i < hi - lo {
        moved[i] := buf[lo + i];
      }
      buf, lo, hi := moved, 0, hi - lo;
    }

    method Append(x: T)
      requires Valid()
      modifies this, buf
      ensures Valid() && (buf == old(buf) || fresh(buf))
      ensures Contents() == old(Contents()) + [x]
    {
      if hi == buf.Length {
        MoveTo(2 * (hi - lo) + 1);
      }
      buf[hi] := x;
      hi := hi + 1;
    }

    method DropFirst() returns (x: T)
      requires Valid() && Contents() != []
      modifies this`lo
      ensures Valid()
      ensures old(Contents()) == [x] + Contents()
    {
      x := buf[lo];
      lo := lo + 1;
    }

    /** Copies a window that keeps too large an array alive; the queued entries stay as they were. */
    method CompactAbove(limit: nat)
      requires Valid()
      modifies this
      ensures Valid() && (buf == old(buf) || fresh(buf))
      ensures Contents() == old(Contents())
      ensures |Contents()| <= limit ==> Capacity() <= limit
    {
      if buf.Length - lo > limit {
        MoveTo(hi - lo);
      }
    }
  }
}
