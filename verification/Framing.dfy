/** Length-prefixed messages on the agent's socket: four bytes, most significant
    first, then the payload. The length is truncated to 32 bits. */
module Framing {
  import opened Wrappers
  import opened Protocol
  import Strings

  const LIMIT: nat := 0x1_0000_0000

  /** `(len as u32).to_be_bytes()`. */
  function ToBytes(len: nat): Bytes {
    [len / 0x100_0000 % 256, len / 0x1_0000 % 256, len / 0x100 % 256, len % 256]
  }

  /** `u32::from_be_bytes`. */
  function FromBytes(b: Bytes): nat
    requires |b| == 4
  {
    0x100_0000 * b[0] as int + 0x1_0000 * b[1] as int + 0x100 * b[2] as int + b[3] as int
  }

  /** The four bytes hold the length as far as it fits. */
  lemma LengthSurvives(len: nat)
    ensures FromBytes(ToBytes(len)) == len % LIMIT
  {
    var q := len / LIMIT;
    assert len / 0x100 / 0x100 == len / 0x1_0000;
    assert len / 0x1_0000 / 0x100 == len / 0x100_0000;
    assert len / 0x100_0000 / 0x100 == q;
    assert len == 0x100 * (len / 0x100) + len % 256;
    assert len / 0x100 == 0x100 * (len / 0x1_0000) + len / 0x100 % 256;
    assert len / 0x1_0000 == 0x100 * (len / 0x100_0000) + len / 0x1_0000 % 256;
    assert len / 0x100_0000 == 0x100 * q + len / 0x100_0000 % 256;
  }

  /** Most significant first: of two lengths that fit, the bytes of the smaller are
      less where they first differ. */
  lemma BigEndian(a: nat, b: nat)
    requires a < b < LIMIT
    ensures exists k | 0 <= k < 4 :: ToBytes(a)[..k] == ToBytes(b)[..k] && ToBytes(a)[k] < ToBytes(b)[k]
  {
    LengthSurvives(a);
    LengthSurvives(b);
    var x, y := ToBytes(a), ToBytes(b);
    var k := if x[0] != y[0] then 0 else if x[1] != y[1] then 1 else if x[2] != y[2] then 2 else 3;
    assert x[..k] == y[..k];
    assert a == FromBytes(x) && b == FromBytes(y);
  }

  function Frame(data: Bytes): Bytes {
    ToBytes(|data|) + data
  }

  /** One message off the front of a stream, and what is left; none if the
      stream ends first, and then nothing is left. */
  function Unframe(s: Bytes): (Option<Bytes>, Bytes) {
    if |s| < 4 then (None, [])
    else
      var len := FromBytes(s[..4]);
      if |s| - 4 < len then (None, []) else (Some(s[4..4 + len]), s[4 + len..])
  }

  /** A message is read back whole, at its place in the stream, exactly when its
      length fits 32 bits. */
  lemma FrameRoundTrip(data: Bytes, rest: Bytes)
    ensures Unframe(Frame(data) + rest) == (Some(data), rest) <==> |data| < LIMIT
  {
    var s := Frame(data) + rest;
    var len := |data| % LIMIT;
    LengthSurvives(|data|);
    assert s[..4] == ToBytes(|data|);
    assert s[4..4 + len] == data[..len];
    if |data| < LIMIT {
      assert s[4 + len..] == rest;
    }
  }

  function Frames(msgs: seq<Bytes>): Bytes {
    if msgs == [] then [] else Frame(msgs[0]) + Frames(msgs[1..])
  }

  /** Everything on a stream up to where it ends. */
  function Messages(s: Bytes): seq<Bytes>
    decreases |s|
  {
    var (m, rest) := Unframe(s);
    if m.None? then [] else [m.value] + Messages(rest)
  }

  lemma CutShort(last: Bytes, cut: nat)
    requires |last| < LIMIT && cut < |Frame(last)|
    ensures Messages(Frame(last)[..cut]) == []
  {
    LengthSurvives(|last|);
    assert cut >= 4 ==> Frame(last)[..cut][..4] == ToBytes(|last|);
  }

  lemma FirstMessage(s: Bytes, m: Bytes, rest: Bytes)
    requires Unframe(s) == (Some(m), rest)
    ensures Messages(s) == [m] + Messages(rest)
  {
  }

  lemma {:induction false} FramesArrive(msgs: seq<Bytes>, tail: Bytes)
    requires Messages(tail) == [] && forall m <- msgs :: |m| < LIMIT
    ensures Messages(Frames(msgs) + tail) == msgs
  {
    if msgs == [] {
      assert [] + tail == tail;
    } else {
      var first, rest := msgs[0], Frames(msgs[1..]) + tail;
      Strings.Assoc(Frame(first), Frames(msgs[1..]), tail);
      FrameRoundTrip(first, rest);
      FramesArrive(msgs[1..], tail);
      FirstMessage(Frame(first) + rest, first, rest);
    }
  }

  /** A whole conversation arrives as it was sent, however the bytes were cut;
      a last message cut short is not delivered at all. */
  lemma ConversationArrives(msgs: seq<Bytes>, last: Bytes, cut: nat)
    requires |last| < LIMIT && cut < |Frame(last)|
    requires forall m <- msgs :: |m| < LIMIT
    ensures Messages(Frames(msgs) + Frame(last)[..cut]) == msgs
  {
    CutShort(last, cut);
    FramesArrive(msgs, Frame(last)[..cut]);
  }

  class Socket {
    var incoming: Bytes
    var outgoing: Bytes

    constructor (arriving: Bytes)
      ensures incoming == arriving && outgoing == []
    {
      incoming, outgoing := arriving, [];
    }

    method WriteAll(data: Bytes)
      modifies this
      ensures outgoing == old(outgoing) + data && incoming == old(incoming)
    {
      outgoing := outgoing + data;
    }

    /** Fills all of `buf`, or fails having read to the end of the stream. */
    method ReadExact(buf: array<byte>) returns (ok: bool)
      modifies this, buf
      ensures outgoing == old(outgoing)
      ensures ok <==> buf.Length <= |old(incoming)|
      ensures ok ==> buf[..] == old(incoming)[..buf.Length] && incoming == old(incoming)[buf.Length..]
      ensures !ok ==> incoming == []
    {
      var i := 0;
      while i < buf.Length && incoming != []
        invariant 0 <= i <= buf.Length && i <= |old(incoming)|
        invariant incoming == old(incoming)[i..] && outgoing == old(outgoing)
        invariant buf[..i] == old(incoming)[..i]
      {
        buf[i], incoming := incoming[0], incoming[1..];
        i := i + 1;
      }
      ok := i == buf.Length;
    }

    method WriteMsg(data: Bytes)
      modifies this
      ensures outgoing == old(outgoing) + Frame(data) && incoming == old(incoming)
    {
      WriteAll(ToBytes(|data|));
      WriteAll(data);
      assert old(outgoing) + ToBytes(|data|) + data == old(outgoing) + Frame(data);
    }

    method ReadMsg() returns (data: Option<Bytes>)
      modifies this
      ensures (data, incoming) == Unframe(old(incoming)) && outgoing == old(outgoing)
    {
      ghost var s := incoming;
      var lenBuf := new byte[4];
      var ok := ReadExact(lenBuf);
      if !ok {
        return None;
      }
      var len := FromBytes(lenBuf[..]);
      assert len == FromBytes(s[..4]);
      var buf := new byte[len];
      ok := ReadExact(buf);
      if !ok {
        return None;
      }
      data := Some(buf[..]);
      assert buf[..] == s[4..][..len] == s[4..4 + len];
      assert incoming == s[4..][len..] == s[4 + len..];
    }
  }
}
