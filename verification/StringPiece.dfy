// strings/StringPiece.h: a window (pointer and length) onto a byte buffer.
module StringPieces {
  import opened Base

  class StringPiece {
    const buffer: seq<byte>
    var ptr: nat
    var length: nat

    ghost predicate Valid()
      reads this
    {
      ptr + length <= |buffer|
    }

    /** The bytes a reader of this piece can still see. */
    ghost function View(): (v: seq<byte>)
      requires Valid()
      reads this
      ensures |v| == length
    {
      buffer[ptr..ptr + length]
    }

    constructor (buffer: seq<byte>)
      ensures Valid() && View() == buffer && this.buffer == buffer && ptr == 0
    {
      this.buffer := buffer;
      ptr, length := 0, |buffer|;
    }

    constructor Copy(other: StringPiece)
      requires other.Valid()
      ensures Valid() && View() == other.View()
      ensures buffer == other.buffer && ptr == other.ptr
    {
      buffer := other.buffer;
      ptr, length := other.ptr, other.length;
    }

    method RemovePrefix(n: nat)
      requires Valid() && n <= length
      modifies this
      ensures Valid() && View() == old(View())[n..]
      ensures ptr == old(ptr) + n
    {
      ptr := ptr + n;
      length := length - n;
    }

    /** As written: the pointer moves and the length stays, so the window slides
        instead of shrinking, and a window that reached the end of its buffer
        now sticks out of it. */
    method Advance(offset: nat)
      requires Valid() && offset < length
      modifies this
      ensures ptr == old(ptr) + offset && length == old(length)
      ensures Valid() <==> old(ptr) + offset + old(length) <= |buffer|
      ensures offset > 0 && old(ptr + length) == |buffer| ==> !Valid()
      // what is left is what consuming would leave only if nothing is passed
      ensures Valid() ==> (View() == old(View())[offset..] <==> offset == 0)
    {
      ghost var before := View();
      ptr := ptr + offset;
      assert Valid() && offset > 0 ==> |View()| != |before[offset..]|;
    }

    /** Re-seats the window on buffer[start..end). */
    method Assign(start: nat, end: nat)
      requires start <= end <= |buffer|
      modifies this
      ensures Valid() && View() == buffer[start..end] && ptr == start
    {
      ptr := start;
      length := end - start;
    }
  }
}
