/** What the four services share: addresses, datagrams and the client record
    the two tunnels keep in their tables. */
module Net {

  datatype Option<+T> = None | Some(value: T)

  type Byte = b: int | 0 <= b < 0x100
  type U16 = x: int | 0 <= x < 0x1_0000

  type I16 = x: int | -0x8000 <= x < 0x8000

  /** A signed 16-bit integer from its two bytes, most significant first. */
  function FromBeBytes(hi: Byte, lo: Byte): I16 {
    var x := 0x100 * (hi as int) + lo;
    if x < 0x8000 then x else x - 0x1_0000
  }

  /** The address part of a socket address; a V6 address keeps its eight groups. */
  datatype Ip = V4(a: Byte, b: Byte, c: Byte, d: Byte) | V6(groups: seq<U16>)

  datatype Endpoint = Endpoint(ip: Ip, port: U16)

  const MAX_PACKET_SIZE: nat := 1472

  /** An arbitrary endpoint for the runs that show what can happen. */
  const SOMEWHERE: Endpoint := Endpoint(V4(192, 0, 2, 1), 1234)

  /** One attempt to send a datagram. */
  datatype Send = Send(to: Endpoint, bytes: seq<Byte>)

  /** What handling one datagram puts into the worker's metrics batch:
      the bytes received, and the bytes sent if a send succeeded. */
  datatype Traffic = Traffic(rx: nat, tx: Option<nat>)

  /** The shape of traffic that never amplifies: a datagram of legal size and
      at most one send, no longer than the datagram itself. */
  predicate Unamplified(t: Traffic) {
    t.rx <= MAX_PACKET_SIZE && (t.tx.Some? ==> t.tx.value <= t.rx)
  }
}

/** The client record of the relay library, as far as the tunnels use it. */
module Clients {
  import opened Net

  const TIMEOUT_SECONDS: nat := 30

  datatype Client = Client(endpoint: Option<Endpoint>, lastReceive: nat)

  /** A client is timed out once the clock is at least the timeout past its
      last receive time. */
  predicate TimedOut(c: Client, now: nat) {
    now - c.lastReceive >= TIMEOUT_SECONDS
  }

  /** The table after every timed out entry was dropped. */
  function Retained<K>(m: map<K, Client>, now: nat): (r: map<K, Client>)
    ensures r.Keys <= m.Keys
  {
    map k | k in m && !TimedOut(m[k], now) :: m[k]
  }

  /** `kept` has the entries of `m` that are not timed out, and only these. */
  lemma RetainedIs<K>(m: map<K, Client>, kept: map<K, Client>, now: nat)
    requires kept.Keys <= m.Keys && forall k :: k in kept ==> kept[k] == m[k]
    requires forall k :: k in m ==> (k in kept <==> !TimedOut(m[k], now))
    ensures kept == Retained(m, now)
  {
  }

  lemma SubsetSize<K>(small: set<K>, large: set<K>)
    requires small <= large
    ensures |small| <= |large|
  {
    if small != {} {
      var k :| k in small;
      SubsetSize(small - {k}, large - {k});
    }
  }

  lemma UnionAtMost<K>(a: set<K>, b: set<K>)
    ensures |a + b| <= |a| + |b|
  {
    assert a + b == a + (b - a);
    SubsetSize(b - a, b);
  }
}
