/** The traffic counters: eight shared atomics and, per worker, a batch of eight
    local counters that is added to them every 64 packets. */
module MetricsSpec {
  import opened Net

  const U16_RANGE: nat := 0x1_0000
  const U32_RANGE: nat := 0x1_0000_0000
  const U64_RANGE: nat := 0x1_0000_0000_0000_0000

  type U32 = x: nat | x < U32_RANGE
  type U64 = x: nat | x < U64_RANGE

  const FLUSH_INTERVAL: nat := 64

  /** The eight counters, in the order in which a flush visits them. */
  const COUNTERS: nat := 8

  datatype Tunnel = V3 | V2

  function PacketsRx(t: Tunnel): nat { if t.V3? then 0 else 4 }
  function PacketsTx(t: Tunnel): nat { PacketsRx(t) + 1 }
  function BytesRx(t: Tunnel): nat { PacketsRx(t) + 2 }
  function BytesTx(t: Tunnel): nat { PacketsRx(t) + 3 }

  /** Packet counts are 32 bits wide in a batch, byte counts 64. */
  function Width(c: nat): nat {
    if c % 4 < 2 then U32_RANGE else U64_RANGE
  }

  type Row = r: seq<nat> | |r| == COUNTERS witness seq(COUNTERS, _ => 0)

  function Zeros(): Row {
    seq(COUNTERS, _ => 0)
  }

  /** Adds to a batch counter with the wrap-around of its width. */
  function Bump(batch: Row, c: nat, amount: nat): Row
    requires c < COUNTERS
  {
    batch[c := (batch[c] + amount) % Width(c)]
  }

  function RecordRx(batch: Row, t: Tunnel, bytes: nat): Row {
    Bump(Bump(batch, PacketsRx(t), 1), BytesRx(t), bytes)
  }

  function RecordTx(batch: Row, t: Tunnel, bytes: nat): Row {
    Bump(Bump(batch, PacketsTx(t), 1), BytesTx(t), bytes)
  }

  /** One counter of a flush: a fetch_add, skipped when there is nothing to add. */
  function FlushedCounter(shared: Row, batch: Row, c: nat): Row
    requires c < COUNTERS
  {
    shared[c := (shared[c] + batch[c]) % U64_RANGE]
  }

  function AddedTo(shared: Row, batch: Row): Row {
    seq(COUNTERS, c requires 0 <= c < COUNTERS => (shared[c] + batch[c]) % U64_RANGE)
  }

  /** A batch after one datagram of `rx` bytes was received and, if `tx` says so,
      one of that many bytes was sent: counter by counter, with the widths of the
      fields written out. */
  function WithDatagram(b: Row, t: Tunnel, rx: nat, tx: Option<nat>): Row {
    var packets, bytes := if tx.Some? then 1 else 0, if tx.Some? then tx.value else 0;
    var row: seq<nat> := if t.V3? then
      [Sum32(b[0], 1), Sum32(b[1], packets), Sum64(b[2], rx), Sum64(b[3], bytes), b[4], b[5], b[6], b[7]]
    else
      [b[0], b[1], b[2], b[3], Sum32(b[4], 1), Sum32(b[5], packets), Sum64(b[6], rx), Sum64(b[7], bytes)];
    row
  }

  function Sum32(a: nat, b: nat): nat {
    if b == 0 then a else (a + b) % 0x1_0000_0000
  }

  function Sum64(a: nat, b: nat): nat {
    if b == 0 then a else (a + b) % 0x1_0000_0000_0000_0000
  }

  /** Every counter fits its field. */
  predicate Fits(b: Row) {
    forall c :: 0 <= c < COUNTERS ==> b[c] < Width(c)
  }

  /** Recording does just that. */
  lemma RecordsExactly(b: Row, t: Tunnel, rx: nat, tx: Option<nat>)
    requires Fits(b)
    ensures var received := RecordRx(b, t, rx);
      (if tx.Some? then RecordTx(received, t, tx.value) else received) == WithDatagram(b, t, rx, tx)
  {
  }

  /** With room in the counters: one packet and its bytes received, one packet and
      its bytes sent if a send went out, and nothing in any other counter. */
  lemma DatagramCounts(b: Row, t: Tunnel, rx: nat, tx: Option<nat>, c: nat)
    requires c < 8 && (c % 4 < 2 ==> b[c] + 1 < 0x1_0000_0000)
    requires b[c] + rx < 0x1_0000_0000_0000_0000 && (tx.Some? ==> b[c] + tx.value < 0x1_0000_0000_0000_0000)
    ensures WithDatagram(b, t, rx, tx)[c] == b[c] +
      if (c < 4) != t.V3? then 0
      else if c % 4 == 0 then 1
      else if c % 4 == 2 then rx
      else if tx.None? then 0
      else if c % 4 == 1 then 1
      else tx.value
  {
    var bytes := if tx.Some? then tx.value else 0;
    SumsFit(b[c], 1);
    SumsFit(b[c], rx);
    SumsFit(b[c], bytes);
    var row := WithDatagram(b, t, rx, tx);
    assert t.V3? ==> row[2] == Sum64(b[2], rx) && row[3] == Sum64(b[3], bytes);
    assert t.V2? ==> row[6] == Sum64(b[6], rx) && row[7] == Sum64(b[7], bytes);
  }

  lemma SumsFit(a: nat, b: nat)
    ensures a + b < 0x1_0000_0000 ==> Sum32(a, b) == a + b
    ensures a + b < 0x1_0000_0000_0000_0000 ==> Sum64(a, b) == a + b
  {
  }

  lemma SameRow(a: Row, b: Row)
    requires a[0] == b[0] && a[1] == b[1] && a[2] == b[2] && a[3] == b[3]
    requires a[4] == b[4] && a[5] == b[5] && a[6] == b[6] && a[7] == b[7]
    ensures a == b
  {
  }
}

module MetricsClasses {
  import opened Net
  import opened MetricsSpec

  /** The traffic part of the shared metrics. */
  class Metrics {
    var v3PacketsReceived: U64
    var v3PacketsSent: U64
    var v3BytesReceived: U64
    var v3BytesSent: U64
    var v2PacketsReceived: U64
    var v2PacketsSent: U64
    var v2BytesReceived: U64
    var v2BytesSent: U64

    function Shared(): Row
      reads this
    {
      var row: seq<nat> := [v3PacketsReceived, v3PacketsSent, v3BytesReceived, v3BytesSent,
                            v2PacketsReceived, v2PacketsSent, v2BytesReceived, v2BytesSent];
      row
    }

    constructor ()
      ensures Shared() == Zeros()
    {
      v3PacketsReceived, v3PacketsSent, v3BytesReceived, v3BytesSent := 0, 0, 0, 0;
      v2PacketsReceived, v2PacketsSent, v2BytesReceived, v2BytesSent := 0, 0, 0, 0;
    }
  }

  class LocalMetricsBatch {
    var v3PacketsRx: U32
    var v3PacketsTx: U32
    var v3BytesRx: U64
    var v3BytesTx: U64
    var v2PacketsRx: U32
    var v2PacketsTx: U32
    var v2BytesRx: U64
    var v2BytesTx: U64
    var counter: U16

    function Batch(): Row
      reads this
    {
      var row: seq<nat> := [v3PacketsRx, v3PacketsTx, v3BytesRx, v3BytesTx,
                            v2PacketsRx, v2PacketsTx, v2BytesRx, v2BytesTx];
      row
    }

    constructor ()
      ensures Batch() == Zeros() && counter == 0
    {
      v3PacketsRx, v3PacketsTx, v3BytesRx, v3BytesTx := 0, 0, 0, 0;
      v2PacketsRx, v2PacketsTx, v2BytesRx, v2BytesTx := 0, 0, 0, 0;
      counter := 0;
    }

    method RecordV3Rx(bytes: U64)
      modifies this
      ensures Batch() == RecordRx(old(Batch()), V3, bytes) && counter == old(counter)
    {
      v3PacketsRx := (v3PacketsRx + 1) % U32_RANGE;
      v3BytesRx := (v3BytesRx + bytes) % U64_RANGE;
    }

    method RecordV3Tx(bytes: U64)
      modifies this
      ensures Batch() == RecordTx(old(Batch()), V3, bytes) && counter == old(counter)
    {
      v3PacketsTx := (v3PacketsTx + 1) % U32_RANGE;
      v3BytesTx := (v3BytesTx + bytes) % U64_RANGE;
    }

    method RecordV2Rx(bytes: U64)
      modifies this
      ensures Batch() == RecordRx(old(Batch()), V2, bytes) && counter == old(counter)
    {
      v2PacketsRx := (v2PacketsRx + 1) % U32_RANGE;
      v2BytesRx := (v2BytesRx + bytes) % U64_RANGE;
    }

    method RecordV2Tx(bytes: U64)
      modifies this
      ensures Batch() == RecordTx(old(Batch()), V2, bytes) && counter == old(counter)
    {
      v2PacketsTx := (v2PacketsTx + 1) % U32_RANGE;
      v2BytesTx := (v2BytesTx + bytes) % U64_RANGE;
    }

    method MaybeFlush(metrics: Metrics)
      modifies this, metrics
      ensures counter == (old(counter) + 1) % 0x1_0000
      ensures if counter % 64 == 0
        then Batch() == Zeros() && metrics.Shared() == AddedTo(old(metrics.Shared()), old(Batch()))
        else Batch() == old(Batch()) && metrics.Shared() == old(metrics.Shared())
    {
      counter := (counter + 1) % U16_RANGE;
      if counter % FLUSH_INTERVAL == 0 {
        Flush(metrics);
      }
    }

    method Flush(metrics: Metrics)
      modifies this, metrics
      ensures Batch() == Zeros() && counter == old(counter)
      ensures metrics.Shared() == AddedTo(old(metrics.Shared()), old(Batch()))
    {
      ghost var shared, batch := metrics.Shared(), Batch();
      FlushV3(metrics);
      FlushV2(metrics);
      SameRow(metrics.Shared(), AddedTo(shared, batch));
    }

    method FlushV3(metrics: Metrics)
      modifies this`v3PacketsRx, this`v3PacketsTx, this`v3BytesRx, this`v3BytesTx
      modifies metrics`v3PacketsReceived, metrics`v3PacketsSent, metrics`v3BytesReceived, metrics`v3BytesSent
      ensures v3PacketsRx == v3PacketsTx == v3BytesRx == v3BytesTx == 0
      ensures metrics.v3PacketsReceived == (old(metrics.v3PacketsReceived) + old(v3PacketsRx)) % U64_RANGE
      ensures metrics.v3PacketsSent == (old(metrics.v3PacketsSent) + old(v3PacketsTx)) % U64_RANGE
      ensures metrics.v3BytesReceived == (old(metrics.v3BytesReceived) + old(v3BytesRx)) % U64_RANGE
      ensures metrics.v3BytesSent == (old(metrics.v3BytesSent) + old(v3BytesTx)) % U64_RANGE
    {
      if v3PacketsRx > 0 {
        metrics.v3PacketsReceived := (metrics.v3PacketsReceived + v3PacketsRx) % U64_RANGE;
        v3PacketsRx := 0;
      }
      if v3PacketsTx > 0 {
        metrics.v3PacketsSent := (metrics.v3PacketsSent + v3PacketsTx) % U64_RANGE;
        v3PacketsTx := 0;
      }
      if v3BytesRx > 0 {
        metrics.v3BytesReceived := (metrics.v3BytesReceived + v3BytesRx) % U64_RANGE;
        v3BytesRx := 0;
      }
      if v3BytesTx > 0 {
        metrics.v3BytesSent := (metrics.v3BytesSent + v3BytesTx) % U64_RANGE;
        v3BytesTx := 0;
      }
    }

    method FlushV2(metrics: Metrics)
      modifies this`v2PacketsRx, this`v2PacketsTx, this`v2BytesRx, this`v2BytesTx
      modifies metrics`v2PacketsReceived, metrics`v2PacketsSent, metrics`v2BytesReceived, metrics`v2BytesSent
      ensures v2PacketsRx == v2PacketsTx == v2BytesRx == v2BytesTx == 0
      ensures metrics.v2PacketsReceived == (old(metrics.v2PacketsReceived) + old(v2PacketsRx)) % U64_RANGE
      ensures metrics.v2PacketsSent == (old(metrics.v2PacketsSent) + old(v2PacketsTx)) % U64_RANGE
      ensures metrics.v2BytesReceived == (old(metrics.v2BytesReceived) + old(v2BytesRx)) % U64_RANGE
      ensures metrics.v2BytesSent == (old(metrics.v2BytesSent) + old(v2BytesTx)) % U64_RANGE
    {
      if v2PacketsRx > 0 {
        metrics.v2PacketsReceived := (metrics.v2PacketsReceived + v2PacketsRx) % U64_RANGE;
        v2PacketsRx := 0;
      }
      if v2PacketsTx > 0 {
        metrics.v2PacketsSent := (metrics.v2PacketsSent + v2PacketsTx) % U64_RANGE;
        v2PacketsTx := 0;
      }
      if v2BytesRx > 0 {
        metrics.v2BytesReceived := (metrics.v2BytesReceived + v2BytesRx) % U64_RANGE;
        v2BytesRx := 0;
      }
      if v2BytesTx > 0 {
        metrics.v2BytesSent := (metrics.v2BytesSent + v2BytesTx) % U64_RANGE;
        v2BytesTx := 0;
      }
    }
  }
}
