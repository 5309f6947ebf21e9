// logging/LogBuffer.h: a bounded buffer that truncates what does not fit.
module LogBuffers {
  import opened Base

  /** What a buffer of some size holds after an append: the rest of a message that does
      not fit is cut off. */
  function Appended(content: seq<byte>, size: nat, d: seq<byte>): (r: seq<byte>)
    requires |content| <= size
    ensures |r| <= size && content <= r <= content + d
    ensures r == content + d <==> |content| + |d| <= size
    ensures |content| + |d| > size ==> |r| == size
  {
    if size - |content| > |d| then content + d else content + d[..size - |content|]
  }

  class LogBuffer {
    const data: array<byte>
    var current: nat

    ghost predicate Valid()
      reads this
    {
      current <= data.Length
    }

    function Content(): seq<byte>
      reads this, data
      requires Valid()
    {
      data[..current]
    }

    constructor (size: nat)
      ensures Valid() && Content() == [] && data.Length == size && fresh(data)
    {
      data := new byte[size];
      current := 0;
    }

    function Length(): nat
      reads this
    {
      current
    }

    function Avail(): nat
      reads this
      requires Valid()
    {
      data.Length - current
    }

    /** The memcpy of a prefix of d that fits. */
    method Copy(d: seq<byte>, n: nat)
      requires Valid() && n <= Avail() && n <= |d|
      modifies this, data
      ensures Valid() && Content() == old(Content()) + d[..n]
    {
      ghost var before := Content();
      var i := 0;
      while i < n
        invariant 0 <= i <= n && current == old(current) && Valid()
        invariant data[..current + i] == before + d[..i]
      {
        data[current + i] := d[i];
        assert data[..current + i + 1] == data[..current + i] + [d[i]];
        i := i + 1;
      }
      current := current + n;
    }

    method Append(d: seq<byte>)
      requires Valid()
      modifies this, data
      ensures Valid() && Content() == Appended(old(Content()), data.Length, d)
    {
      if Avail() > |d| {
        Copy(d, |d|);
        assert d[..|d|] == d;
      } else if Avail() > 0 {
        Copy(d, Avail());
      }
    }

    method Reset()
      modifies this
      ensures Valid() && Content() == []
    {
      current := 0;
    }
  }
}
