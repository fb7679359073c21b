/** The peer-to-peer address service: one worker answers every request out of
    one 40-byte buffer that it overwrites in place. */
module PeerToPeer {
  import opened Net

  const STUN_ID: I16 := 26262
  const REQUEST_LENGTH: nat := 48
  const REPLY_LENGTH: nat := 40

  datatype Request = Request(packet: seq<Byte>, from: Endpoint, allowed: bool)

  /** XOR with 0x20, which flips the bit of weight 32. */
  function Xor20(b: Byte): (r: Byte)
    ensures r != b
  {
    if b / 0x20 % 2 == 0 then b + 0x20 else b - 0x20
  }

  lemma Xor20Twice(b: Byte)
    ensures Xor20(Xor20(b)) == b
  {
  }

  lemma Xor20IsBitwise(b: bv8)
    ensures Xor20(b as int) == (b ^ 0x20) as int
  {
  }

  /** The six address bytes of an endpoint; an IPv6 address counts as 0.0.0.0. */
  function AddressBytes(ep: Endpoint): (b: seq<Byte>)
    ensures |b| == 6
  {
    var port := [ep.port / 0x100, ep.port % 0x100];
    match ep.ip
    case V4(a, b, c, d) => [a, b, c, d] + port
    case V6(_) => [0, 0, 0, 0] + port
  }

  /** Requests are served when they have the right length, come from a valid
      address, are within the rate and start with the STUN id. */
  predicate Serves(validAddress: Endpoint -> bool, r: Request) {
    && |r.packet| == REQUEST_LENGTH && validAddress(r.from) && r.allowed
    && FromBeBytes(r.packet[0], r.packet[1]) == STUN_ID
  }

  /** The buffer after serving a request from `from`. */
  function Written(buffer: seq<Byte>, from: Endpoint): seq<Byte>
    requires |buffer| == REPLY_LENGTH
  {
    seq(6, i requires 0 <= i < 6 => Xor20(AddressBytes(from)[i])) + buffer[6..]
  }

  /** The buffer after set-up on top of any fill. */
  function SetUp(fill: seq<Byte>): seq<Byte>
    requires |fill| == REPLY_LENGTH
  {
    fill[6 := STUN_ID / 0x100][7 := STUN_ID % 0x100]
  }

  /** The buffer after a worker set up on `fill` was given the first `i` requests. */
  function BufferAt(validAddress: Endpoint -> bool, fill: seq<Byte>, rs: seq<Request>, i: nat): (b: seq<Byte>)
    requires |fill| == REPLY_LENGTH && i <= |rs|
    ensures |b| == REPLY_LENGTH
  {
    if i == 0 then SetUp(fill)
    else
      var b := BufferAt(validAddress, fill, rs, i - 1);
      if Serves(validAddress, rs[i - 1]) then Written(b, rs[i - 1].from) else b
  }

  /** The reply to request `i`, out of the buffer as it is then. */
  function ReplyTo(validAddress: Endpoint -> bool, fill: seq<Byte>, rs: seq<Request>, i: nat): Option<Send>
    requires |fill| == REPLY_LENGTH && i < |rs|
  {
    if Serves(validAddress, rs[i]) then Some(Send(rs[i].from, BufferAt(validAddress, fill, rs, i + 1))) else None
  }

  class Worker {
    const validAddress: Endpoint -> bool
    const sendBuffer: array<Byte>

    constructor (validAddress: Endpoint -> bool, fill: seq<Byte>)
      requires |fill| == REPLY_LENGTH
      ensures this.validAddress == validAddress && fresh(sendBuffer)
      ensures sendBuffer[..] == SetUp(fill)
    {
      this.validAddress := validAddress;
      var b := new Byte[REPLY_LENGTH](i requires 0 <= i < REPLY_LENGTH => fill[i]);
      b[6] := STUN_ID / 0x100;
      b[7] := STUN_ID % 0x100;
      sendBuffer := b;
    }

    method OnReceive(r: Request) returns (sent: Option<Send>)
      requires sendBuffer.Length == REPLY_LENGTH
      modifies sendBuffer
      ensures sendBuffer[..] ==
        if Serves(validAddress, r) then Written(old(sendBuffer[..]), r.from) else old(sendBuffer[..])
      ensures sent == if Serves(validAddress, r) then Some(Send(r.from, sendBuffer[..])) else None
    {
      if |r.packet| != REQUEST_LENGTH || !validAddress(r.from) || !r.allowed {
        return None;
      }
      if FromBeBytes(r.packet[0], r.packet[1]) != STUN_ID {
        return None;
      }
      match r.from.ip {
        case V4(a, b, c, d) =>
          sendBuffer[0], sendBuffer[1], sendBuffer[2], sendBuffer[3] := a, b, c, d;
        case V6(_) =>
          sendBuffer[0], sendBuffer[1], sendBuffer[2], sendBuffer[3] := 0, 0, 0, 0;
      }
      sendBuffer[4], sendBuffer[5] := r.from.port / 0x100, r.from.port % 0x100;
      ghost var plain := sendBuffer[..];
      assert plain[..6] == AddressBytes(r.from);
      for i := 0 to 6
        invariant forall k :: 0 <= k < i ==> sendBuffer[k] == Xor20(plain[k])
        invariant forall k :: i <= k < REPLY_LENGTH ==> sendBuffer[k] == plain[k]
      {
        sendBuffer[i] := Xor20(sendBuffer[i]);
      }
      assert forall k :: 0 <= k < 6 ==> sendBuffer[k] == Xor20(AddressBytes(r.from)[k]);
      assert sendBuffer[..] == Written(old(sendBuffer[..]), r.from);
      return Some(Send(r.from, sendBuffer[..]));
    }

    /** The receive loop over the requests `rs`, from set-up on. */
    method ReceiveLoop(ghost fill: seq<Byte>, rs: seq<Request>) returns (replies: seq<Option<Send>>)
      requires |fill| == REPLY_LENGTH && sendBuffer[..] == SetUp(fill)
      modifies sendBuffer
      ensures |replies| == |rs|
      ensures forall i :: 0 <= i < |rs| ==> replies[i] == ReplyTo(validAddress, fill, rs, i)
      ensures sendBuffer[..] == BufferAt(validAddress, fill, rs, |rs|)
    {
      replies := [];
      assert sendBuffer.Length == |sendBuffer[..]|;
      for n := 0 to |rs|
        invariant |replies| == n
        invariant forall i :: 0 <= i < n ==> replies[i] == ReplyTo(validAddress, fill, rs, i)
        invariant sendBuffer[..] == BufferAt(validAddress, fill, rs, n)
      {
        var sent := OnReceive(rs[n]);
        assert sent == ReplyTo(validAddress, fill, rs, n);
        replies := replies + [sent];
      }
    }
  }

  /** What a client reads out of a reply. */
  function DecodeIp(reply: seq<Byte>): Ip
    requires |reply| == REPLY_LENGTH
  {
    V4(Xor20(reply[0]), Xor20(reply[1]), Xor20(reply[2]), Xor20(reply[3]))
  }

  function DecodePort(reply: seq<Byte>): U16
    requires |reply| == REPLY_LENGTH
  {
    0x100 * (Xor20(reply[4]) as int) + Xor20(reply[5])
  }

  lemma WrittenDecodes(buffer: seq<Byte>, from: Endpoint)
    requires |buffer| == REPLY_LENGTH
    ensures DecodeIp(Written(buffer, from)) == if from.ip.V4? then from.ip else V4(0, 0, 0, 0)
    ensures DecodePort(Written(buffer, from)) == from.port
    ensures Written(buffer, from)[6..] == buffer[6..]
  {
    forall i | 0 <= i < 6 ensures Xor20(Written(buffer, from)[i]) == AddressBytes(from)[i] {
      Xor20Twice(AddressBytes(from)[i]);
    }
  }

  lemma {:induction false} TailKept(validAddress: Endpoint -> bool, fill: seq<Byte>, rs: seq<Request>, i: nat)
    requires |fill| == REPLY_LENGTH && i <= |rs|
    ensures BufferAt(validAddress, fill, rs, i)[6..] == SetUp(fill)[6..]
  {
    if i > 0 {
      TailKept(validAddress, fill, rs, i - 1);
      if Serves(validAddress, rs[i - 1]) {
        WrittenDecodes(BufferAt(validAddress, fill, rs, i - 1), rs[i - 1].from);
      }
    }
  }

  /** Exactly the requests of 48 bytes from a valid address within the rate that
      start with the bytes 0x66 0x96 are answered. */
  lemma AnsweredExactly(validAddress: Endpoint -> bool, fill: seq<Byte>, rs: seq<Request>, i: nat)
    requires |fill| == REPLY_LENGTH && i < |rs|
    ensures ReplyTo(validAddress, fill, rs, i).Some? <==>
      && |rs[i].packet| == 48 && rs[i].packet[0] == 0x66 && rs[i].packet[1] == 0x96
      && validAddress(rs[i].from) && rs[i].allowed
  {
  }

  /** Whatever earlier clients left in the buffer, the reply to a served request
      goes to its sender, decodes to exactly its sender's IPv4 address and port, carries the STUN id
      in bytes 6 and 7, and ends with the 32 bytes of the initial fill. */
  lemma ReplyIsForItsSender(validAddress: Endpoint -> bool, fill: seq<Byte>, rs: seq<Request>, i: nat)
    requires |fill| == REPLY_LENGTH && i < |rs| && Serves(validAddress, rs[i])
    ensures ReplyTo(validAddress, fill, rs, i).Some? && ReplyTo(validAddress, fill, rs, i).value.to == rs[i].from
    ensures var reply := ReplyTo(validAddress, fill, rs, i).value.bytes;
      && |reply| == REPLY_LENGTH
      && DecodeIp(reply) == (if rs[i].from.ip.V4? then rs[i].from.ip else V4(0, 0, 0, 0))
      && DecodePort(reply) == rs[i].from.port
      && reply[6] == 0x66 && reply[7] == 0x96
      && reply[8..] == fill[8..]
  {
    WrittenDecodes(BufferAt(validAddress, fill, rs, i), rs[i].from);
    TailKept(validAddress, fill, rs, i + 1);
    var reply := BufferAt(validAddress, fill, rs, i + 1);
    assert reply[6] == reply[6..][0] && reply[7] == reply[6..][1];
    assert reply[8..] == reply[6..][2..];
    assert SetUp(fill)[6..][2..] == fill[8..];
  }
}
