/**
Packet handles (adapter/ph/src/packet.rs): a byte buffer divided into metadata, headroom, body
and tailroom. The metadata area is kept as fields; `minOffset` is its size. Preconditions are
the assertions the source makes.
*/
module Packets {
  import opened Bytes

  class Packet {
    const buf: array<byte>
    const minOffset: nat
    var offset: nat
    var len: nat

    constructor (buf: array<byte>, minOffset: nat, headroom: nat)
      requires minOffset + headroom <= buf.Length
      ensures Valid() && this.buf == buf && this.minOffset == minOffset
      ensures Body() == [] && Headroom() == headroom
    {
      this.buf, this.minOffset := buf, minOffset;
      offset, len := minOffset + headroom, 0;
    }

    ghost predicate Valid()
      reads this
    {
      minOffset <= offset && offset + len <= buf.Length
    }

    function Body(): (body: seq<byte>)
      requires Valid()
      reads this, buf
      ensures |body| == len
    {
      buf[offset..offset + len]
    }

    function Headroom(): nat
      requires Valid()
      reads this
    {
      offset - minOffset
    }

    function Tailroom(): nat
      requires Valid()
      reads this
    {
      buf.Length - (offset + len)
    }

    /** Discard bytes from the front. */
    method Advance(cnt: nat)
      requires Valid() && cnt <= len
      modifies this
      ensures Valid() && offset == old(offset) + cnt
      ensures Body() == old(Body())[cnt..]
    {
      offset, len := offset + cnt, len - cnt;
    }

    /** Discard bytes from the tail. */
    method ShrinkBy(cnt: nat)
      requires Valid() && cnt <= len
      modifies this
      ensures Valid() && offset == old(offset)
      ensures Body() == old(Body())[..old(len) - cnt]
    {
      len := len - cnt;
    }

    /** Take a big-endian word from the front. */
    method GetU16() returns (w: u16)
      requires Valid() && 2 <= len
      modifies this
      ensures Valid() && offset == old(offset) + 2
      ensures w == Word(old(Body()), 0) && Body() == old(Body())[2..]
    {
      w := Word(Body(), 0);
      Advance(2);
    }

    /** Copy a header into the headroom. */
    method PushHeader(header: seq<byte>)
      requires Valid() && |header| <= Headroom()
      modifies this, buf
      ensures Valid() && offset == old(offset) - |header|
      ensures Body() == header + old(Body())
    {
      ghost var before := Body();
      offset, len := offset - |header|, len + |header|;
      forall k | offset <= k < offset + |header| {
        buf[k] := header[k - offset];
      }
      assert buf[offset..offset + |header|] == header;
      assert buf[offset + |header|..offset + len] == before;
    }

    /** Append to the body, into the tailroom. */
    method Put(data: seq<byte>)
      requires Valid() && |data| <= Tailroom()
      modifies this, buf
      ensures Valid() && offset == old(offset)
      ensures Body() == old(Body()) + data
    {
      forall k | offset + len <= k < offset + len + |data| {
        buf[k] := data[k - offset - len];
      }
      len := len + |data|;
      assert Body()[..old(len)] == old(Body());
    }

    /** Overwrite a field of the body. */
    method Write(at: nat, field: seq<byte>)
      requires Valid() && at + |field| <= len
      modifies buf
      ensures Body() == Patch(old(Body()), at, field)
    {
      forall k | offset + at <= k < offset + at + |field| {
        buf[k] := field[k - offset - at];
      }
    }

    /** Move `cnt` bytes of the body; the ranges may overlap. */
    method CopyWithin(from: nat, cnt: nat, to: nat)
      requires Valid() && from + cnt <= len && to + cnt <= len
      modifies buf
      ensures Body() == Patch(old(Body()), to, old(Body())[from..from + cnt])
    {
      var moved := Body()[from..from + cnt];
      Write(to, moved);
    }

    /**
    Complete a transform that left `written` bytes at the start of the tailroom: move the first
    `headerLen` bytes of the body in front of them and make header and output the new body.
    */
    method AdoptTailroomWithHeader(headerLen: nat, written: nat)
      requires Valid() && headerLen <= len && written <= Tailroom()
      modifies this, buf
      ensures Valid() && offset == old(offset + len) - headerLen
      ensures Body() == old(buf[offset..offset + headerLen] + buf[offset + len..offset + len + written])
    {
      var newOffset := offset + len - headerLen;
      var header := buf[offset..offset + headerLen];
      forall k | newOffset <= k < newOffset + headerLen {
        buf[k] := header[k - newOffset];
      }
      offset, len := newOffset, headerLen + written;
    }
  }
}
