/**
 How the input of the demuxer may be split: which packets its scan meets, and where a cut changes
 them.  Nothing is carried over from one call to the next.
 */
module TsSplit {
  import opened Wrappers
  import opened Segmenter
  import opened TsDemux

  type Result = (Demux, seq<Frame>)

  type Packet = p: Bytes | |p| == PACKET && p[0] == SYNC witness [SYNC] + seq(PACKET - 1, _ => 0 as Byte)

  function PushPackets(d: Demux, packets: seq<Packet>): Result
    decreases |packets|
  {
    if packets == [] then (d, [])
    else
      var r := OnPacket(d, packets[0]);
      var next := PushPackets(r.0, packets[1..]);
      (next.0, r.1 + next.1)
  }

  lemma {:induction false} PushPacketsConcat(d: Demux, a: seq<Packet>, b: seq<Packet>)
    ensures PushPackets(d, a + b).0 == PushPackets(PushPackets(d, a).0, b).0
    ensures PushPackets(d, a + b).1 == PushPackets(d, a).1 + PushPackets(PushPackets(d, a).0, b).1
    decreases |a|
  {
    hide OnPacket;
    if a == [] {
      assert a + b == b;
    } else {
      PushPacketsConcat(OnPacket(d, a[0]).0, a[1..], b);
      assert (a + b)[0] == a[0] && (a + b)[1..] == a[1..] + b;
    }
  }

  /** The packets the scan meets in some bytes. */
  function Met(data: Bytes): seq<Packet>
    decreases |data|
  {
    if |data| < PACKET then []
    else if data[0] != SYNC then Met(data[1..])
    else
      var p: Packet := data[..PACKET];
      [p] + Met(data[PACKET..])
  }

  lemma {:induction false} MetShort(data: Bytes)
    requires |data| < PACKET
    ensures Met(data) == []
  {
  }

  lemma {:induction false} MetSkip(data: Bytes)
    requires data != [] && data[0] != SYNC
    ensures Met(data) == Met(data[1..])
  {
  }

  lemma {:induction false} MetTake(p: Packet, rest: Bytes)
    ensures Met(p + rest) == [p] + Met(rest)
  {
    var data: Bytes := p + rest;
    assert data[..PACKET] == p && data[PACKET..] == rest;
  }

  /** Whatever the bytes, demuxing them is handling the packets met. */
  lemma {:induction false} PushIsMet(d: Demux, data: Bytes)
    ensures PushData(d, data) == PushPackets(d, Met(data))
    decreases |data|
  {
    hide OnPacket;
    if |data| >= PACKET {
      if data[0] != SYNC {
        PushIsMet(d, data[1..]);
      } else {
        PushIsMet(OnPacket(d, data[..PACKET]).0, data[PACKET..]);
      }
    }
  }

  /** The last offset up to k at which the scan stops. */
  function StopAt(data: Bytes, k: nat): (o: nat)
    requires k <= |data|
    ensures o <= k
    decreases |data|
  {
    if k == 0 || |data| < PACKET then 0
    else if data[0] != SYNC then 1 + StopAt(data[1..], k - 1)
    else if k >= PACKET then PACKET + StopAt(data[PACKET..], k - PACKET)
    else 0
  }

  /** The first part of a cut meets what the scan met before its last stop. */
  lemma {:induction false} StopSplits(data: Bytes, k: nat)
    requires k <= |data|
    ensures Met(data) == Met(data[..k]) + Met(data[StopAt(data, k)..])
    decreases |data|
  {
    hide Met;
    if k == 0 || |data| < PACKET || (data[0] == SYNC && k < PACKET) {
      assert data[0..] == data && [] + Met(data) == Met(data);
      MetShort(data[..k]);
      if |data| < PACKET { MetShort(data); }
    } else if data[0] != SYNC {
      StopSplits(data[1..], k - 1);
      assert data[1..][..k - 1] == data[..k][1..];
      assert data[1..][StopAt(data[1..], k - 1)..] == data[StopAt(data, k)..];
      MetSkip(data);
      MetSkip(data[..k]);
    } else {
      var p: Packet, rest := data[..PACKET], data[PACKET..];
      StopSplits(rest, k - PACKET);
      assert data == p + rest && data[..k] == p + rest[..k - PACKET];
      assert rest[StopAt(rest, k - PACKET)..] == data[StopAt(data, k)..];
      MetTake(p, rest);
      MetTake(p, rest[..k - PACKET]);
      Associative([p], Met(rest[..k - PACKET]), Met(data[StopAt(data, k)..]));
    }
  }

  function Then(r: Result, data: Bytes): Result {
    var next := PushData(r.0, data);
    (next.0, r.1 + next.1)
  }

  lemma {:induction false} ThenIsMet(d: Demux, data: Bytes, k: nat)
    requires k <= |data|
    ensures Then(PushData(d, data[..k]), data[k..]) == PushPackets(d, Met(data[..k]) + Met(data[k..]))
  {
    hide Met, PushData, PushPackets;
    PushIsMet(d, data[..k]);
    PushIsMet(PushData(d, data[..k]).0, data[k..]);
    PushPacketsConcat(d, Met(data[..k]), Met(data[k..]));
  }

  /**
   For any bytes and any cut: the two calls handle the packets of the single call if and only if a
   scan from the cut meets what the scan from the last stop before it meets.
   */
  lemma {:induction false} SamePacketsIff(data: Bytes, k: nat)
    requires k <= |data|
    ensures Met(data[..k]) + Met(data[k..]) == Met(data) <==> Met(data[k..]) == Met(data[StopAt(data, k)..])
  {
    StopSplits(data, k);
    hide Met;
    var a, b, c := Met(data[..k]), Met(data[k..]), Met(data[StopAt(data, k)..]);
    if a + b == a + c { assert b == (a + b)[|a|..] && c == (a + c)[|a|..]; }
  }

  /** Then every demuxer returns the same frames and ends in the same state. */
  lemma {:induction false} SamePacketsSameResult(d: Demux, data: Bytes, k: nat)
    requires k <= |data| && Met(data[k..]) == Met(data[StopAt(data, k)..])
    ensures PushData(d, data) == Then(PushData(d, data[..k]), data[k..])
  {
    hide Met;
    SamePacketsIff(data, k);
    PushIsMet(d, data);
    ThenIsMet(d, data, k);
  }

  /** Input may be split at every offset the scan stops at: same frames, same final state. */
  lemma {:induction false} SplitIsHarmless(d: Demux, data: Bytes, k: nat)
    requires k <= |data| && StopAt(data, k) == k
    ensures PushData(d, data) == Then(PushData(d, data[..k]), data[k..])
  {
    SamePacketsSameResult(d, data, k);
  }

  // ------------------------------------------------------------------------------------------
  // What a cut inside a packet does.

  lemma {:induction false} SkipJunk(junk: Bytes, rest: Bytes)
    requires SYNC !in junk
    ensures Met(junk + rest) == Met(rest)
  {
    hide Met;
    if junk == [] {
      assert junk + rest == rest;
    } else {
      SkipJunk(junk[1..], rest);
      assert (junk + rest)[1..] == junk[1..] + rest && (junk + rest)[0] == junk[0];
      MetSkip(junk + rest);
    }
  }

  /** If the rest of the packet cut holds no sync byte, that packet is lost and no other. */
  lemma {:induction false} CutLosesOnePacket(data: Bytes, k: nat)
    requires k <= |data| && StopAt(data, k) < k && StopAt(data, k) + PACKET <= |data|
    requires var o := StopAt(data, k); k <= o + PACKET && data[o] == SYNC && SYNC !in data[k..o + PACKET]
    ensures var o := StopAt(data, k);
            && Met(data) == Met(data[..k]) + [data[o..o + PACKET]] + Met(data[o + PACKET..])
            && Met(data[k..]) == Met(data[o + PACKET..])
  {
    var o := StopAt(data, k);
    StopSplits(data, k);
    assert data[o..][..PACKET] == data[o..o + PACKET] && data[o..][PACKET..] == data[o + PACKET..];
    assert data[k..] == data[k..o + PACKET] + data[o + PACKET..];
    SkipJunk(data[k..o + PACKET], data[o + PACKET..]);
  }

  /** If the cut falls on a sync byte, the second call misframes: neither packet is handled. */
  lemma {:induction false} CutOnSyncByteMisframes(p: Packet, q: Packet, k: nat)
    requires 0 < k < PACKET && p[k] == SYNC
    ensures Met(p + q) == [p, q]
    ensures Met((p + q)[..k]) + Met((p + q)[k..]) == [p[k..] + q[..k]]
  {
    var data: Bytes := p + q;
    assert data[..PACKET] == p && data[PACKET..] == q && q[..PACKET] == q && q[PACKET..] == [];
    assert Met(q) == [q] && Met(data[..k]) == [];
    var tail := data[k..];
    assert tail[0] == p[k] && tail[..PACKET] == p[k..] + q[..k];
    assert Met(tail[PACKET..]) == [];
  }

  // ------------------------------------------------------------------------------------------
  // Aligned input in pieces.

  function PushAll(d: Demux, chunks: seq<Bytes>): Result
    decreases |chunks|
  {
    if chunks == [] then (d, [])
    else
      var r := PushData(d, chunks[0]);
      var next := PushAll(r.0, chunks[1..]);
      (next.0, r.1 + next.1)
  }

  function Concat(parts: seq<Bytes>): Bytes {
    if parts == [] then [] else parts[0] + Concat(parts[1..])
  }

  /** Whole packets, each starting with the sync byte. */
  predicate Aligned(data: Bytes)
    decreases |data|
  {
    data == [] || (|data| >= PACKET && data[0] == SYNC && Aligned(data[PACKET..]))
  }

  lemma {:induction false} AlignedStops(a: Bytes, b: Bytes)
    requires Aligned(a)
    ensures StopAt(a + b, |a|) == |a|
    decreases |a|
  {
    if a != [] {
      AlignedStops(a[PACKET..], b);
      assert (a + b)[PACKET..] == a[PACKET..] + b;
    }
  }

  /** Aligned input gives the same frames and final state however it is divided into calls. */
  lemma {:induction false} ChunksDoNotMatter(d: Demux, chunks: seq<Bytes>)
    requires forall i | 0 <= i < |chunks| :: Aligned(chunks[i])
    ensures PushAll(d, chunks) == PushData(d, Concat(chunks))
    decreases |chunks|
  {
    hide Aligned, StopAt;
    if chunks != [] {
      var first, rest := chunks[0], Concat(chunks[1..]);
      AlignedStops(first, rest);
      SplitIsHarmless(d, first + rest, |first|);
      assert (first + rest)[..|first|] == first && (first + rest)[|first|..] == rest;
      ChunksDoNotMatter(PushData(d, first).0, chunks[1..]);
    }
  }

  lemma {:induction false} MetConcat(packets: seq<Packet>, rest: Bytes)
    ensures Met(Concat(packets) + rest) == packets + Met(rest)
    decreases |packets|
  {
    hide Met;
    if packets == [] {
      assert Concat(packets) + rest == rest && [] + Met(rest) == Met(rest);
    } else {
      var p: Bytes, more := packets[0], Concat(packets[1..]) + rest;
      Associative(p, Concat(packets[1..]), rest);
      MetTake(p, more);
      MetConcat(packets[1..], rest);
      Associative([packets[0]], packets[1..], Met(rest));
      assert [packets[0]] + packets[1..] == packets;
    }
  }

  lemma {:induction false} PacketsOneByOne(d: Demux, packets: seq<Packet>)
    ensures PushData(d, Concat(packets)) == PushPackets(d, packets)
  {
    PushIsMet(d, Concat(packets));
    MetConcat(packets, []);
    assert Concat(packets) + [] == Concat(packets) && packets + Met([]) == packets;
  }

  lemma {:induction false} ConcatSize(packets: seq<Packet>)
    ensures |Concat(packets)| == PACKET * |packets| && Aligned(Concat(packets))
  {
    if packets != [] {
      var p: Bytes, rest := packets[0], Concat(packets[1..]);
      ConcatSize(packets[1..]);
      assert (p + rest)[PACKET..] == rest;
    }
  }
}
