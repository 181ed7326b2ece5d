/**
 The length-prefixed transport of backend/app/agents/embedded_runtime.py: a frame is a 32-bit
 big-endian length and that many bytes, written and read in pieces of whatever size the operating
 system grants.
 */
module Framing {
  import opened Prelude

  const MAX_FRAME: nat := 16 * 1024 * 1024

  datatype Error = Eof | WriteFailed | FrameTooLarge | FrameInvalid

  // ---------------------------------------------------------------- the length prefix

  /** `n.to_bytes(4, "big")` */
  function ToBytes(n: nat): seq<Byte>
    requires n < 0x1_0000_0000
  {
    [(n / 0x100_0000) as Byte, (n / 0x1_0000 % 0x100) as Byte, (n / 0x100 % 0x100) as Byte, (n % 0x100) as Byte]
  }

  /** `int.from_bytes(bytes, "big")` */
  function FromBytes(bytes: seq<Byte>): nat {
    if bytes == [] then 0 else FromBytes(bytes[..|bytes|-1]) * 0x100 + bytes[|bytes|-1] as nat
  }

  lemma FromFour(b: seq<Byte>)
    requires |b| == 4
    ensures FromBytes(b) == ((b[0] as nat * 0x100 + b[1] as nat) * 0x100 + b[2] as nat) * 0x100 + b[3] as nat
  {
    assert b[..3][..2] == b[..2] && b[..2][..1] == b[..1] && b[..1][..0] == [];
    assert FromBytes(b[..1]) == b[0] as nat;
    assert FromBytes(b[..2]) == b[0] as nat * 0x100 + b[1] as nat;
  }

  /** Every 32-bit length survives the trip through four bytes. */
  lemma LengthRoundTrip(n: nat)
    requires n < 0x1_0000_0000
    ensures FromBytes(ToBytes(n)) == n
  {
    FromFour(ToBytes(n));
    assert n / 0x100 / 0x100 == n / 0x1_0000 && n / 0x1_0000 / 0x100 == n / 0x100_0000;
  }

  /** And every four bytes are the prefix of the length they denote. */
  lemma BytesRoundTrip(b: seq<Byte>)
    requires |b| == 4
    ensures FromBytes(b) < 0x1_0000_0000 && ToBytes(FromBytes(b)) == b
  {
    FromFour(b);
    var n2 := b[0] as nat * 0x100 + b[1] as nat;
    var n3 := n2 * 0x100 + b[2] as nat;
    var n := n3 * 0x100 + b[3] as nat;
    LastByte(b[0] as nat, b[1] as nat);
    LastByte(n2, b[2] as nat);
    LastByte(n3, b[3] as nat);
    assert n / 0x1_0000 == n3 / 0x100 && n / 0x100_0000 == n2 / 0x100;
    assert ToBytes(n)[0] == b[0] && ToBytes(n)[1] == b[1] && ToBytes(n)[2] == b[2] && ToBytes(n)[3] == b[3];
  }

  lemma LastByte(q: nat, r: nat)
    requires r < 0x100
    ensures (q * 0x100 + r) / 0x100 == q && (q * 0x100 + r) % 0x100 == r
  {
  }

  // ---------------------------------------------------------------- pieces

  /** A pipe holds the bytes written to it and not yet read. */
  class Pipe {
    var data: seq<Byte>

    constructor ()
      ensures data == []
    {
      data := [];
    }

    /** `os.write`: takes at most `grant` bytes of a non-empty view. */
    method Write(view: seq<Byte>, grant: int) returns (written: int)
      requires view != []
      modifies this
      ensures written <= |view| && (written > 0 <==> grant > 0)
      ensures data == if written > 0 then old(data) + view[..written] else old(data)
    {
      if grant <= 0 {
        return grant;
      }
      written := if grant < |view| then grant else |view|;
      data := data + view[..written];
    }

    /** `os.read`: at least one and at most `size` bytes, or none at the end of the data. */
    method Read(size: nat, grant: int) returns (chunk: seq<Byte>)
      requires size > 0
      modifies this
      ensures |chunk| <= size && chunk + data == old(data)
      ensures chunk == [] <==> old(data) == []
    {
      var most := if size < |data| then size else |data|;
      var n := if grant < 1 then (if most > 0 then 1 else 0) else if grant < most then grant else most;
      chunk := data[..n];
      data := data[n..];
    }

    /** `_write_all`, the i-th call of `os.write` being granted `grants(i)` bytes. */
    method WriteAll(bytes: seq<Byte>, grants: nat -> int) returns (r: Result<(), Error>)
      modifies this
      ensures r.Ok? ==> data == old(data) + bytes
      ensures r.Err? ==> r.error == WriteFailed && exists k | 0 <= k < |bytes| :: data == old(data) + bytes[..k]
      ensures (forall i :: grants(i) > 0) ==> r.Ok?
    {
      var view := bytes;
      var i := 0;
      ghost var sent := 0;
      assert bytes[..0] == [];
      while view != []
        invariant 0 <= sent <= |bytes| && view == bytes[sent..] && data == old(data) + bytes[..sent]
        decreases |view|
      {
        var written := Write(view, grants(i));
        if written <= 0 {
          return Err(WriteFailed);
        }
        assert bytes[..sent] + view[..written] == bytes[..sent + written];
        view := view[written..];
        sent := sent + written;
        i := i + 1;
      }
      assert bytes[..sent] == bytes;
      return Ok(());
    }

    /** `_read_exact` */
    method ReadExact(size: nat, grants: nat -> int) returns (r: Result<seq<Byte>, Error>)
      modifies this
      ensures size <= |old(data)| ==> r == Ok(old(data)[..size]) && data == old(data)[size..]
      ensures size > |old(data)| ==> r == Err(Eof) && data == []
    {
      var chunks: seq<Byte> := [];
      var remaining := size;
      var i := 0;
      while remaining > 0
        invariant 0 <= remaining && |chunks| + remaining == size && chunks + data == old(data)
        decreases remaining
      {
        var chunk := Read(remaining, grants(i));
        if chunk == [] {
          return Err(Eof);
        }
        chunks := chunks + chunk;
        remaining := remaining - |chunk|;
        i := i + 1;
      }
      assert old(data)[..size] == chunks && old(data)[size..] == data;
      return Ok(chunks);
    }

    method Send(payload: seq<Byte>, grants: nat -> int) returns (r: Result<(), Error>)
      modifies this
      ensures |payload| > MAX_FRAME ==> r == Err(FrameTooLarge) && data == old(data)
      ensures |payload| <= MAX_FRAME && (forall i :: grants(i) > 0) ==> r.Ok?
      ensures r.Ok? ==> |payload| <= MAX_FRAME && data == old(data) + Framed(payload)
    {
      if |payload| > MAX_FRAME {
        return Err(FrameTooLarge);
      }
      r := WriteAll(ToBytes(|payload|) + payload, grants);
    }

    method Receive(grants: nat -> int) returns (r: Result<seq<Byte>, Error>)
      modifies this
      ensures (r, data) == Received(old(data))
    {
      var prefix := ReadExact(4, grants);
      if prefix.Err? {
        return prefix;
      }
      var size := FromBytes(prefix.value);
      if size <= 0 || size > MAX_FRAME {
        return Err(FrameInvalid);
      }
      r := ReadExact(size, grants);
    }

    /** Sends all payloads, each write granted any positive number of bytes. */
    method SendAll(payloads: seq<seq<Byte>>, grants: nat -> nat -> int) returns (r: Result<(), Error>)
      requires forall k, i :: grants(k)(i) > 0
      modifies this
      ensures r.Ok? <==> forall p <- payloads :: |p| <= MAX_FRAME
      ensures r.Ok? ==> data == old(data) + Stream(payloads)
    {
      assert Stream(payloads[..0]) == [];
      for k := 0 to |payloads|
        invariant forall p <- payloads[..k] :: |p| <= MAX_FRAME
        invariant data == old(data) + Stream(payloads[..k])
      {
        assert payloads[..k+1] == payloads[..k] + [payloads[k]];
        var sent := Send(payloads[k], grants(k));
        if sent.Err? {
          assert payloads[k] in payloads;
          return sent;
        }
        StreamSnoc(payloads[..k], payloads[k]);
      }
      assert payloads[..|payloads|] == payloads;
      return Ok(());
    }

    /** Receives frames until one fails. */
    method ReceiveAll(grants: nat -> nat -> int) returns (payloads: seq<seq<Byte>>, e: Error)
      modifies this
      ensures (payloads, e) == ReceivedAll(old(data))
    {
      payloads := [];
      var k := 0;
      ghost var before := data;
      assert [] + ReceivedAll(data).0 == ReceivedAll(data).0;
      while true
        invariant ReceivedAll(before) == (payloads + ReceivedAll(data).0, ReceivedAll(data).1)
        decreases |data|
      {
        ghost var now := data;
        var r := Receive(grants(k));
        if r.Err? {
          assert payloads + [] == payloads;
          return payloads, r.error;
        }
        assert payloads + ([r.value] + ReceivedAll(data).0) == payloads + [r.value] + ReceivedAll(data).0;
        payloads := payloads + [r.value];
        k := k + 1;
      }
    }
  }

  // ---------------------------------------------------------------- frames

  function Framed(payload: seq<Byte>): seq<Byte>
    requires |payload| <= MAX_FRAME
  {
    ToBytes(|payload|) + payload
  }

  /** The first frame in the data and what is left, or the error with what is left. */
  function Received(data: seq<Byte>): (Result<seq<Byte>, Error>, seq<Byte>) {
    if |data| < 4 then (Err(Eof), [])
    else
      var size := FromBytes(data[..4]);
      if size <= 0 || size > MAX_FRAME then (Err(FrameInvalid), data[4..])
      else if |data| < 4 + size then (Err(Eof), [])
      else (Ok(data[4..][..size]), data[4..][size..])
  }

  function ReceivedAll(data: seq<Byte>): (seq<seq<Byte>>, Error)
    decreases |data|
  {
    var (r, rest) := Received(data);
    if r.Err? then ([], r.error)
    else
      var (later, e) := ReceivedAll(rest);
      ([r.value] + later, e)
  }

  function Stream(payloads: seq<seq<Byte>>): seq<Byte>
    requires forall p <- payloads :: |p| <= MAX_FRAME
  {
    if payloads == [] then [] else Framed(payloads[0]) + Stream(payloads[1..])
  }

  lemma {:induction false} StreamSnoc(payloads: seq<seq<Byte>>, p: seq<Byte>)
    requires (forall q <- payloads :: |q| <= MAX_FRAME) && |p| <= MAX_FRAME
    ensures Stream(payloads + [p]) == Stream(payloads) + Framed(p)
    decreases |payloads|
  {
    if payloads == [] {
      assert payloads + [p] == [p] && [p][1..] == [];
    } else {
      assert (payloads + [p])[1..] == payloads[1..] + [p];
      StreamSnoc(payloads[1..], p);
    }
  }

  /** The limit is 16 MiB, for sending and for receiving. */
  lemma SizeLimit(size: nat, rest: seq<Byte>)
    requires size < 0x1_0000_0000
    ensures Received(ToBytes(size) + rest).0 == Err(FrameInvalid) <==> size == 0 || size > 0x100_0000
  {
    LengthRoundTrip(size);
    assert (ToBytes(size) + rest)[..4] == ToBytes(size);
  }

  /** A frame comes out as it went in, unless it is empty: the receiver refuses length zero. */
  lemma FrameRoundTrip(payload: seq<Byte>, rest: seq<Byte>)
    requires |payload| <= MAX_FRAME
    ensures Received(Framed(payload) + rest) == if payload == [] then (Err(FrameInvalid), rest) else (Ok(payload), rest)
  {
    var data := Framed(payload) + rest;
    LengthRoundTrip(|payload|);
    assert data[..4] == ToBytes(|payload|) && data[4..] == payload + rest;
  }

  /** All frames sent are received, in order and byte for byte, up to the end of the data. */
  lemma {:induction false} StreamRoundTrip(payloads: seq<seq<Byte>>)
    requires forall p <- payloads :: 0 < |p| <= MAX_FRAME
    ensures ReceivedAll(Stream(payloads)) == (payloads, Eof)
    decreases |payloads|
  {
    if payloads != [] {
      assert payloads[0] in payloads;
      FrameRoundTrip(payloads[0], Stream(payloads[1..]));
      StreamRoundTrip(payloads[1..]);
      assert payloads == [payloads[0]] + payloads[1..];
    }
  }

  /** Whatever the sizes of the pieces written and read, the payloads sent are the payloads received. */
  method Transfer(payloads: seq<seq<Byte>>, writeGrants: nat -> nat -> int, readGrants: nat -> nat -> int)
    returns (received: seq<seq<Byte>>, e: Error)
    requires (forall p <- payloads :: 0 < |p| <= 0x100_0000) && forall k, i :: writeGrants(k)(i) > 0
    ensures received == payloads && e == Eof
  {
    var pipe := new Pipe();
    var sent := pipe.SendAll(payloads, writeGrants);
    assert [] + Stream(payloads) == Stream(payloads);
    received, e := pipe.ReceiveAll(readGrants);
    StreamRoundTrip(payloads);
  }
}
