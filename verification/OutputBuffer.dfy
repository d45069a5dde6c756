/** The growing response buffer (src/OutputBuffer.h, src/OutputBuffer.cc). */
module OutputBuffers {
  import opened Basics

  const INITIAL_OUTPUT_BUFFER_SIZE := 1024
  const DOUBLING_LIMIT := 500 * 1024 * 1024

  class OutputBuffer {
    var buffer: array<Byte>
    var writepos: nat

    ghost predicate Valid()
      reads this
    {
      writepos <= buffer.Length && buffer.Length >= 1
    }

    ghost function Contents(): seq<Byte>
      reads this, buffer
      requires Valid()
    {
      buffer[..writepos]
    }

    /** Any capacity that doubling increases will do; the program starts with INITIAL_OUTPUT_BUFFER_SIZE. */
    constructor (capacity: nat := INITIAL_OUTPUT_BUFFER_SIZE)
      requires capacity >= 1
      ensures Valid() && fresh(buffer) && Contents() == []
    {
      buffer := new Byte[capacity];
      writepos := 0;
    }

    /** Makes room for `len` more bytes: doubles, and from 500 MB on adds a quarter, until it is enough. */
    method NeedSpace(len: nat)
      requires Valid()
      modifies this`buffer
      ensures Valid() && writepos + len <= buffer.Length
      ensures buffer == old(buffer) || fresh(buffer)
      ensures Contents() == old(Contents())
    {
      if writepos + len > buffer.Length {
        var maxSize := buffer.Length;
        var needed := writepos + len;
        while maxSize < needed
          invariant buffer.Length <= maxSize
          decreases needed - maxSize
        {
          if maxSize < DOUBLING_LIMIT {
            maxSize := maxSize * 2;
          } else {
            maxSize := maxSize + maxSize / 4;
          }
        }
        var grown := new Byte[maxSize];
        forall i | 0 <= i < writepos {
          grown[i] := buffer[i];
        }
        buffer := grown;
      }
    }

    method AddChar(c: Byte)
      requires Valid()
      modifies this, buffer
      ensures Valid() && (buffer == old(buffer) || fresh(buffer))
      ensures Contents() == old(Contents()) + [c]
    {
      if writepos + 1 > buffer.Length {
        NeedSpace(1);
      }
      buffer[writepos] := c;
      writepos := writepos + 1;
    }

    method AddBuffer(bytes: seq<Byte>)
      requires Valid()
      modifies this, buffer
      ensures Valid() && (buffer == old(buffer) || fresh(buffer))
      ensures Contents() == old(Contents()) + bytes
    {
      if writepos + |bytes| > buffer.Length {
        NeedSpace(|bytes|);
      }
      forall i | 0 <= i < |bytes| {
        buffer[writepos + i] := bytes[i];
      }
      writepos := writepos + |bytes|;
    }

    /**
     Appends the run of insignificant bytes that starts at `src` and returns where it ends. The end of the string counts
     as significant, because the terminating NUL of the C string does.
     */
    method AddUntilNextSignificantChar(value: seq<Byte>, src: nat, isSignificant: Byte -> bool) returns (p: nat)
      requires Valid() && src <= |value|
      modifies this, buffer
      ensures Valid() && (buffer == old(buffer) || fresh(buffer))
      ensures src <= p <= |value| && (p < |value| ==> isSignificant(value[p]))
      ensures forall i | src <= i < p :: !isSignificant(value[i])
      ensures Contents() == old(Contents()) + value[src..p]
    {
      p := src;
      while p < |value| && !isSignificant(value[p])
        invariant src <= p <= |value| && forall i | src <= i < p :: !isSignificant(value[i])
      {
        p := p + 1;
      }
      if p != src {
        AddBuffer(value[src..p]);
      }
    }
  }
}
