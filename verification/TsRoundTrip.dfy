/**
 What the demuxer gives back: a round trip with a transport-stream multiplexer that follows
 ISO/IEC 13818-1.
 */
module TsRoundTrip {
  import opened Wrappers
  import opened Segmenter
  import opened TsDemux
  import opened TsSplit

  // ------------------------------------------------------------------------------------------
  // Timestamps.

  /** Section 2.4.3.7: four prefix bits, 33 bits in three groups, a marker bit after each. */
  function EncodeTimestamp(prefix: nat, ts: nat): (r: Bytes)
    requires prefix < 16 && ts < 0x2_0000_0000
    ensures |r| == 5
  {
    [(prefix * 16 + ts / 0x4000_0000 * 2 + 1) as Byte,
     (ts / 0x40_0000 % 256) as Byte,
     (ts / 0x8000 % 128 * 2 + 1) as Byte,
     (ts / 0x80 % 256) as Byte,
     (ts % 128 * 2 + 1) as Byte]
  }

  lemma {:induction false} TimestampRoundTrip(prefix: nat, ts: nat)
    requires prefix < 16 && ts < 0x2_0000_0000
    ensures ParseTimestamp(EncodeTimestamp(prefix, ts)) == ts
  {
    var b := EncodeTimestamp(prefix, ts);
    FieldsOf(prefix, ts);
    FieldsAddUp(ts);
  }

  lemma {:induction false} FieldsOf(prefix: nat, ts: nat)
    requires prefix < 16 && ts < 0x2_0000_0000
    ensures var b := EncodeTimestamp(prefix, ts);
            && b[0] as nat / 2 % 8 == ts / 0x4000_0000 && b[1] as nat == ts / 0x40_0000 % 256
            && b[2] as nat / 2 == ts / 0x8000 % 128 && b[3] as nat == ts / 0x80 % 256
            && b[4] as nat / 2 == ts % 128
  {
  }

  lemma {:induction false} FieldsAddUp(ts: nat)
    ensures ts == ts / 0x4000_0000 * 0x4000_0000 + ts / 0x40_0000 % 256 * 0x40_0000
                  + ts / 0x8000 % 128 * 0x8000 + ts / 0x80 % 256 * 0x80 + ts % 128
  {
    assert ts / 0x8000 == ts / 0x80 / 256;
    assert ts / 0x40_0000 == ts / 0x8000 / 128;
    assert ts / 0x4000_0000 == ts / 0x40_0000 / 256;
  }

  // ------------------------------------------------------------------------------------------
  // Packets.

  /** `n` bytes of an adaptation field without flags. */
  function Stuffing(n: nat): (r: Bytes)
    ensures |r| == n
  {
    if n == 0 then [] else [0 as Byte] + seq(n - 1, _ => 0xFF as Byte)
  }

  /** One packet; a short chunk is preceded by an adaptation field that fills the packet. */
  function TsPacket(pid: nat, start: bool, counter: nat, chunk: Bytes): (p: Packet)
    requires pid < 0x2000 && counter < 16 && 1 <= |chunk| <= 184
  {
    var header := [SYNC, ((if start then 64 else 0) + pid / 256) as Byte, (pid % 256) as Byte];
    if |chunk| == 184 then header + [(16 + counter) as Byte] + chunk
    else header + [(48 + counter) as Byte, (183 - |chunk|) as Byte] + Stuffing(183 - |chunk|) + chunk
  }

  lemma {:induction false} TsPacketParses(pid: nat, start: bool, counter: nat, chunk: Bytes)
    requires pid < 0x2000 && counter < 16 && 1 <= |chunk| <= 184
    ensures var p := TsPacket(pid, start, counter, chunk);
            Pid(p) == pid && UnitStart(p) == start && HasPayload(p) && Payload(p) == chunk
  {
  }

  /** A PES packet cut into transport packets. */
  function Packetise(pid: nat, start: bool, counter: nat, pes: Bytes): (r: seq<Packet>)
    requires pid < 0x2000 && counter < 16 && pes != []
    decreases |pes|
  {
    if |pes| <= 184 then [TsPacket(pid, start, counter, pes)]
    else [TsPacket(pid, start, counter, pes[..184])] + Packetise(pid, false, (counter + 1) % 16, pes[184..])
  }

  /** The packets of this pid carry media for the demuxer, not tables. */
  predicate Media(d: Demux, pid: nat) {
    pid != 0 && d.pmtPid != Some(pid)
  }

  lemma {:induction false} PacketAccepted(d: Demux, pid: nat, start: bool, counter: nat, chunk: Bytes)
    requires pid < 0x2000 && counter < 16 && 1 <= |chunk| <= 184 && Media(d, pid)
    ensures OnPacket(d, TsPacket(pid, start, counter, chunk)) == OnMedia(d, pid, start, chunk)
  {
    hide TsPacket, OnMedia;
    TsPacketParses(pid, start, counter, chunk);
  }

  /** Two pieces of one unit have the effect of the whole. */
  lemma {:induction false} PiecesJoin(d: Demux, pid: nat, start: bool, a: Bytes, b: Bytes)
    ensures var r := OnMedia(d, pid, start, a);
            && OnMedia(r.0, pid, false, b).0 == OnMedia(d, pid, start, a + b).0
            && OnMedia(r.0, pid, false, b).1 == [] && r.1 == OnMedia(d, pid, start, a + b).1
            && r.0.pmtPid == d.pmtPid
  {
  }

  lemma {:induction false} PacketisedUnit(d: Demux, pid: nat, start: bool, counter: nat, pes: Bytes)
    requires pid < 0x2000 && counter < 16 && pes != [] && Media(d, pid)
    ensures PushPackets(d, Packetise(pid, start, counter, pes)) == OnMedia(d, pid, start, pes)
    decreases |pes|
  {
    hide OnPacket, OnMedia, TsPacket;
    if |pes| <= 184 {
      PacketAccepted(d, pid, start, counter, pes);
      var p := TsPacket(pid, start, counter, pes);
      var r := OnPacket(d, p);
      assert [p][1..] == [] && r.1 + [] == r.1;
    } else {
      var a, b := pes[..184], pes[184..];
      PacketAccepted(d, pid, start, counter, a);
      PiecesJoin(d, pid, start, a, b);
      assert a + b == pes;
      var r := OnMedia(d, pid, start, a);
      PacketisedUnit(r.0, pid, false, (counter + 1) % 16, b);
      var p, rest := TsPacket(pid, start, counter, a), Packetise(pid, false, (counter + 1) % 16, b);
      assert ([p] + rest)[1..] == rest && r.1 + [] == r.1;
    }
  }

  // ------------------------------------------------------------------------------------------
  // Where aligned input may be cut.

  ghost predicate Harmless(d: Demux, data: Bytes, k: nat)
    requires k <= |data|
  {
    PushData(d, data) == Then(PushData(d, data[..k]), data[k..])
  }

  function ZeroChunk(): (r: Bytes)
    ensures |r| == 184
  {
    seq(184, _ => 0 as Byte)
  }

  /** A packet that adds 184 zeros to the unit being collected; its only sync byte is the first. */
  function ZeroPacket(): Packet {
    TsPacket(1, false, 0, ZeroChunk())
  }

  function Collecting(pes: Bytes): Demux {
    NewDemux().(videoPid := Some(1), videoPes := pes)
  }

  lemma {:induction false} ZeroPacketBytes(m: nat)
    requires 0 < m <= PACKET
    ensures SYNC !in ZeroPacket()[m..]
  {
    var p: Bytes := ZeroPacket();
    assert forall i | 1 <= i < PACKET :: p[i] != SYNC;
  }

  function Repeat(n: nat): (r: seq<Packet>)
    ensures |r| == n
  {
    if n == 0 then [] else [ZeroPacket()] + Repeat(n - 1)
  }

  lemma {:induction false} RepeatJoins(i: nat, j: nat)
    ensures Repeat(i) + Repeat(j) == Repeat(i + j)
  {
    if i > 0 { RepeatJoins(i - 1, j); }
  }

  lemma {:induction false} CollectMore(pes: Bytes, chunk: Bytes)
    ensures OnMedia(Collecting(pes), 1, false, chunk) == (Collecting(pes + chunk), [])
  {
    var r := OnMedia(Collecting(pes), 1, false, chunk);
    assert r.0 == Collecting(pes + chunk);
    assert r.1 == [];
  }

  lemma {:induction false} RepeatCollects(pes: Bytes, n: nat)
    ensures |PushPackets(Collecting(pes), Repeat(n)).0.videoPes| == |pes| + 184 * n
    decreases n
  {
    hide TsPacket, OnPacket;
    if n > 0 {
      var zeros := ZeroChunk();
      PacketAccepted(Collecting(pes), 1, false, 0, zeros);
      CollectMore(pes, zeros);
      assert ([ZeroPacket()] + Repeat(n - 1))[1..] == Repeat(n - 1);
      RepeatCollects(pes + zeros, n - 1);
    }
  }

  /** Cutting n such packets anywhere but between two of them loses one. */
  lemma {:induction false} CutZeros(n: nat, i: nat, m: nat)
    requires i < n && 0 < m < PACKET
    ensures var data, k := Concat(Repeat(n)), PACKET * i + m;
            |data| == PACKET * n && Met(data[..k]) + Met(data[k..]) == Repeat(n - 1)
  {
    hide ZeroPacket, Met, Repeat;
    var data, k := Concat(Repeat(n)), PACKET * i + m;
    var a: Bytes, q: Bytes, b: Bytes := Concat(Repeat(i)), ZeroPacket(), Concat(Repeat(n - i - 1));
    ConcatSize(Repeat(n));
    ConcatSize(Repeat(i));
    RepeatJoins(i, n - i);
    ConcatJoins(Repeat(i), Repeat(n - i));
    hide Concat;
    assert data == a + (q + b) by { FirstOf(n - i); }
    CutBytes(a, q, b, m);
    MetConcat(Repeat(i), q[..m]);
    MetShort(q[..m]);
    ZeroPacketBytes(m);
    SkipJunk(q[m..], b);
    MetAll(Repeat(n - i - 1));
    RepeatJoins(i, n - i - 1);
    assert Repeat(i) + [] == Repeat(i);
  }

  lemma {:induction false} FirstOf(n: nat)
    requires n > 0
    ensures var q: Bytes := ZeroPacket(); Concat(Repeat(n)) == q + Concat(Repeat(n - 1))
  {
    assert Repeat(n)[1..] == Repeat(n - 1);
  }

  lemma {:induction false} CutBytes(a: Bytes, q: Bytes, b: Bytes, m: nat)
    requires m <= |q|
    ensures (a + (q + b))[..|a| + m] == a + q[..m] && (a + (q + b))[|a| + m..] == q[m..] + b
  {
  }

  lemma {:induction false} MetAll(packets: seq<Packet>)
    ensures Met(Concat(packets)) == packets
  {
    hide Met;
    MetConcat(packets, []);
    MetShort([]);
    assert Concat(packets) + [] == Concat(packets) && packets + [] == packets;
  }

  lemma {:induction false} ConcatJoins(a: seq<Packet>, b: seq<Packet>)
    ensures Concat(a + b) == Concat(a) + Concat(b)
  {
    if a == [] {
      assert a + b == b && [] + Concat(b) == Concat(b);
    } else {
      ConcatJoins(a[1..], b);
      assert (a + b)[0] == a[0] && (a + b)[1..] == a[1..] + b;
      var p: Bytes := a[0];
      Associative(p, Concat(a[1..]), Concat(b));
    }
  }

  /**
   A cut at offset k is harmless for every aligned input of n packets and every demuxer state if and
   only if it falls between two packets.
   */
  lemma {:induction false} AlignedCutIff(n: nat, k: nat)
    requires k <= PACKET * n
    ensures (forall d, data: Bytes | Aligned(data) && |data| == PACKET * n :: Harmless(d, data, k)) <==> k % PACKET == 0
  {
    hide Met, PushPackets, ZeroPacket;
    if k % PACKET == 0 {
      forall d, data: Bytes | Aligned(data) && |data| == PACKET * n ensures Harmless(d, data, k) {
        AlignedStopsAt(data, k);
        SplitIsHarmless(d, data, k);
      }
    } else {
      var i, m := k / PACKET, k % PACKET;
      var data: Bytes := Concat(Repeat(n));
      CutZeros(n, i, m);
      ConcatSize(Repeat(n));
      ThenIsMet(Collecting([]), data, k);
      PacketsOneByOne(Collecting([]), Repeat(n));
      RepeatCollects([], n);
      RepeatCollects([], n - 1);
      assert !Harmless(Collecting([]), data, k);
    }
  }

  lemma {:induction false} AlignedStopsAt(data: Bytes, k: nat)
    requires Aligned(data) && k <= |data| && k % PACKET == 0
    ensures StopAt(data, k) == k
    decreases k
  {
    if k > 0 { AlignedStopsAt(data[PACKET..], k - PACKET); }
  }

  /** All of its payload is sync bytes, on the pid of null packets. */
  function NullPacket(): (p: Packet)
    ensures forall i | 4 <= i < PACKET :: p[i] == SYNC
  {
    [SYNC, 0x1F, 0xFF, 0x10] + seq(184, _ => SYNC)
  }

  /** Not one of the demuxer's pids, nor the program table's. */
  ghost predicate Foreign(d: Demux, pid: nat) {
    pid != 0 && d.videoPid != Some(pid) && d.audioPid != Some(pid) && d.pmtPid != Some(pid)
  }

  /**
   Cutting a packet without any effect can lose the packet after it: a null packet full of sync
   bytes, cut in its payload, makes the second call start a packet there (its pid reads 0x747) and
   swallow the next one's head.
   */
  lemma {:induction false} CutNullPacketLosesNext(d: Demux, q: Packet, k: nat)
    requires 4 <= k <= PACKET - 4 && Foreign(d, 0x1FFF) && Foreign(d, 0x747)
    ensures OnPacket(d, NullPacket()) == (d, [])
    ensures PushData(d, NullPacket() + q) == OnPacket(d, q)
    ensures var data: Bytes := NullPacket() + q; Then(PushData(d, data[..k]), data[k..]) == (d, [])
  {
    var p: Bytes := NullPacket();
    var data: Bytes := p + q;
    ForeignPacket(d, p);
    CutOnSyncByteMisframes(p, q, k);
    var wrong: Packet := p[k..] + q[..k];
    assert wrong[1] == SYNC && wrong[2] == SYNC;
    ForeignPacket(d, wrong);
    PushIsMet(d, data);
    ThenIsMet(d, data, k);
    hide OnPacket, Met, NullPacket;
    assert [p, q][1..] == [q] && [q][1..] == [] && [wrong][1..] == [];
    var r := OnPacket(d, q);
    assert r.1 + [] == r.1 && [] + r.1 == r.1;
    assert PushPackets(d, [q]) == r;
    assert PushPackets(d, [p, q]) == r;
  }

  lemma {:induction false} ForeignPacket(d: Demux, p: Packet)
    requires Foreign(d, Pid(p))
    ensures OnPacket(d, p) == (d, [])
  {
    if HasPayload(p) {
      var r := OnMedia(d, Pid(p), UnitStart(p), Payload(p));
      assert r.0 == d;
      assert r.1 == [];
    }
  }

  // ------------------------------------------------------------------------------------------
  // PES packets of one track.

  datatype Unit = Unit(pts: nat, dts: Option<nat>, payload: Bytes)

  predicate Sendable(u: Unit) {
    u.pts < 0x2_0000_0000 && (u.dts.Some? ==> u.dts.value < 0x2_0000_0000) && u.payload != []
  }

  function Stamps(u: Unit): (r: Bytes)
    requires Sendable(u)
    ensures |r| == if u.dts.Some? then 10 else 5
  {
    if u.dts.Some? then EncodeTimestamp(3, u.pts) + EncodeTimestamp(1, u.dts.value) else EncodeTimestamp(2, u.pts)
  }

  /** Section 2.4.3.6; a packet too long for the length field carries length 0. */
  function BuildPes(streamId: Byte, u: Unit): (r: Bytes)
    requires Sendable(u)
    ensures r != []
  {
    var stamps := Stamps(u);
    var size := 3 + |stamps| + |u.payload|;
    var length := if size < 0x10000 then size else 0;
    [0, 0, 1, streamId, (length / 256) as Byte, (length % 256) as Byte,
     0x80, if u.dts.Some? then 0xC0 else 0x80, |stamps| as Byte] + stamps + u.payload
  }

  /** What the demuxer should report; audio has no separate decoding time. */
  function Expected(track: TrackKind, u: Unit): Frame {
    if track == Audio then Frame(Audio, u.payload, u.pts, u.pts, true)
    else Frame(Video, u.payload, if u.dts.Some? then u.dts.value else u.pts, u.pts, HasIdr(u.payload))
  }

  function Extracted(track: TrackKind, pes: Bytes, before: nat): Frame
    requires Extractable(pes)
  {
    if track == Video then VideoFrame(pes, before) else AudioFrame(pes, before)
  }

  lemma {:induction false} PesRoundTrip(track: TrackKind, streamId: Byte, u: Unit, before: nat)
    requires Sendable(u)
    ensures Extractable(BuildPes(streamId, u))
    ensures Extracted(track, BuildPes(streamId, u), before) == Expected(track, u)
  {
    hide EncodeTimestamp, ParseTimestamp, HasIdr;
    var pes, stamps := BuildPes(streamId, u), Stamps(u);
    assert pes[9..9 + |stamps|] == stamps && pes[9 + |stamps|..] == u.payload;
    assert pes[9..14] == stamps[..5];
    if u.dts.Some? {
      assert pes[14..19] == stamps[5..10] == EncodeTimestamp(1, u.dts.value);
      assert stamps[..5] == EncodeTimestamp(3, u.pts);
      TimestampRoundTrip(3, u.pts);
      TimestampRoundTrip(1, u.dts.value);
    } else {
      TimestampRoundTrip(2, u.pts);
    }
  }

  predicate AllSendable(units: seq<Unit>) {
    forall i | 0 <= i < |units| :: Sendable(units[i])
  }

  /** The transport packets of a list of units, with a running continuity counter. */
  function Send(pid: nat, streamId: Byte, units: seq<Unit>): (r: seq<Packet>)
    requires pid < 0x2000 && AllSendable(units)
  {
    if units == [] then []
    else
      var front := Send(pid, streamId, units[..|units| - 1]);
      front + Packetise(pid, true, |front| % 16, BuildPes(streamId, units[|units| - 1]))
  }

  function Collected(d: Demux, track: TrackKind): Bytes { if track == Video then d.videoPes else d.audioPes }

  function Time(d: Demux, track: TrackKind): nat { if track == Video then d.videoDts else d.audioDts }

  function PidOf(d: Demux, track: TrackKind): Option<nat> { if track == Video then d.videoPid else d.audioPid }

  function Other(track: TrackKind): TrackKind { if track == Video then Audio else Video }

  /** The frame a next unit start will hand over. */
  function Pending(d: Demux, track: TrackKind): seq<Frame> {
    if Extractable(Collected(d, track)) then [Extracted(track, Collected(d, track), Time(d, track))] else []
  }

  function ExpectedAll(track: TrackKind, units: seq<Unit>): seq<Frame> {
    seq(|units|, i requires 0 <= i < |units| => Expected(track, units[i]))
  }

  ghost predicate Carries(d: Demux, pid: nat, track: TrackKind) {
    Media(d, pid) && PidOf(d, track) == Some(pid) && PidOf(d, Other(track)) != Some(pid)
  }

  ghost predicate SamePids(d: Demux, e: Demux) {
    d.videoPid == e.videoPid && d.audioPid == e.audioPid && d.pmtPid == e.pmtPid
  }

  lemma {:induction false} UnitStarts(d: Demux, pid: nat, track: TrackKind, pes: Bytes)
    requires Carries(d, pid, track)
    ensures var r := OnMedia(d, pid, true, pes);
            r.1 == Pending(d, track) && Collected(r.0, track) == pes && SamePids(r.0, d)
  {
  }

  lemma {:induction false} OneMoreUnit(d: Demux, pid: nat, track: TrackKind, streamId: Byte, units: seq<Unit>)
    requires pid < 0x2000 && AllSendable(units) && units != []
    requires Carries(PushPackets(d, Send(pid, streamId, units[..|units| - 1])).0, pid, track)
    ensures var r := PushPackets(d, Send(pid, streamId, units[..|units| - 1]));
            var s := PushPackets(d, Send(pid, streamId, units));
            && s.1 == r.1 + Pending(r.0, track)
            && Collected(s.0, track) == BuildPes(streamId, units[|units| - 1]) && SamePids(s.0, r.0)
  {
    hide OnMedia, PushPackets, Packetise, BuildPes, Collected, Pending;
    var sent, pes := Send(pid, streamId, units[..|units| - 1]), BuildPes(streamId, units[|units| - 1]);
    var r := PushPackets(d, sent);
    PushPacketsConcat(d, sent, Packetise(pid, true, |sent| % 16, pes));
    PacketisedUnit(r.0, pid, true, |sent| % 16, pes);
    UnitStarts(r.0, pid, track, pes);
  }

  /** Sending units returns what was pending and all units but the last; the last is pending. */
  lemma {:induction false} TrackRoundTrip(d: Demux, pid: nat, track: TrackKind, streamId: Byte, units: seq<Unit>)
    requires pid < 0x2000 && AllSendable(units) && Carries(d, pid, track) && units != []
    ensures var r := PushPackets(d, Send(pid, streamId, units));
            && r.1 == Pending(d, track) + ExpectedAll(track, units[..|units| - 1])
            && Collected(r.0, track) == BuildPes(streamId, units[|units| - 1]) && SamePids(r.0, d)
    decreases |units|
  {
    hide PushPackets, BuildPes, Collected, Pending, ExpectedAll, Expected;
    var n := |units|;
    var front := units[..n - 1];
    var r := PushPackets(d, Send(pid, streamId, front));
    if front == [] {
      NothingSent(d);
      NothingExpected(track);
    } else {
      TrackRoundTrip(d, pid, track, streamId, front);
      PendingUnit(r.0, track, streamId, front[n - 2]);
      ExpectedSnoc(track, front);
      Associative(Pending(d, track), ExpectedAll(track, front[..n - 2]), [Expected(track, front[n - 2])]);
    }
    OneMoreUnit(d, pid, track, streamId, units);
  }

  lemma {:induction false} PendingUnit(d: Demux, track: TrackKind, streamId: Byte, u: Unit)
    requires Sendable(u) && Collected(d, track) == BuildPes(streamId, u)
    ensures Pending(d, track) == [Expected(track, u)]
  {
    hide BuildPes, Extractable, Extracted, Expected, Collected;
    PesRoundTrip(track, streamId, u, Time(d, track));
  }

  lemma {:induction false} ExpectedSnoc(track: TrackKind, units: seq<Unit>)
    requires units != []
    ensures ExpectedAll(track, units)
         == ExpectedAll(track, units[..|units| - 1]) + [Expected(track, units[|units| - 1])]
  {
  }

  lemma {:induction false} NothingExpected(track: TrackKind)
    ensures ExpectedAll(track, []) == []
  {
  }

  lemma {:induction false} NothingSent(d: Demux)
    ensures PushPackets(d, []) == (d, [])
  {
  }

  // ------------------------------------------------------------------------------------------
  // Interleaved tracks.

  function Only(packets: seq<Packet>, pid: nat): seq<Packet> {
    if packets == [] then []
    else (if Pid(packets[0]) == pid then [packets[0]] else []) + Only(packets[1..], pid)
  }

  function FramesOf(frames: seq<Frame>, track: TrackKind): seq<Frame> {
    if frames == [] then []
    else (if frames[0].track == track then [frames[0]] else []) + FramesOf(frames[1..], track)
  }

  lemma {:induction false} FramesOfConcat(a: seq<Frame>, b: seq<Frame>, track: TrackKind)
    ensures FramesOf(a + b, track) == FramesOf(a, track) + FramesOf(b, track)
    decreases |a|
  {
    if a == [] {
      assert a + b == b && [] + FramesOf(b, track) == FramesOf(b, track);
    } else {
      FramesOfConcat(a[1..], b, track);
      assert (a + b)[0] == a[0] && (a + b)[1..] == a[1..] + b;
      Associative(if a[0].track == track then [a[0]] else [], FramesOf(a[1..], track), FramesOf(b, track));
    }
  }

  /** Not a table for this demuxer, or one that tells it nothing new. */
  ghost predicate NoNews(d: Demux, p: Packet) {
    UnitStart(p) && !Media(d, Pid(p)) ==> SamePids(OnPacket(d, p).0, d)
  }

  lemma {:induction false} NoNewsByPids(d: Demux, e: Demux, p: Packet)
    requires SamePids(d, e) && NoNews(d, p)
    ensures NoNews(e, p)
  {
    hide PatEntries, PmtEntries, OnMedia;
  }

  ghost predicate SameTrack(d: Demux, e: Demux, track: TrackKind) {
    SamePids(d, e) && Collected(d, track) == Collected(e, track) && Time(d, track) == Time(e, track)
  }

  ghost predicate Apart(d: Demux) {
    d.videoPid.Some? && d.audioPid.Some? && d.videoPid != d.audioPid
  }

  lemma {:induction false} OwnPacket(d: Demux, e: Demux, p: Packet, track: TrackKind)
    requires Apart(d) && SameTrack(d, e, track) && NoNews(d, p) && PidOf(d, track) == Some(Pid(p))
    ensures var r, s := OnPacket(d, p), OnPacket(e, p);
            SameTrack(r.0, s.0, track) && SamePids(r.0, d) && FramesOf(r.1, track) == FramesOf(s.1, track)
  {
    hide PatEntries, PmtEntries;
    NoNewsByPids(d, e, p);
  }

  lemma {:induction false} OtherPacket(d: Demux, p: Packet, track: TrackKind)
    requires Apart(d) && NoNews(d, p) && PidOf(d, track) != Some(Pid(p))
    ensures var r := OnPacket(d, p); SameTrack(r.0, d, track) && FramesOf(r.1, track) == []
  {
    hide PatEntries, PmtEntries;
  }

  lemma {:induction false} StillNoNews(d: Demux, e: Demux, packets: seq<Packet>)
    requires SamePids(d, e) && forall i | 0 <= i < |packets| :: NoNews(d, packets[i])
    ensures forall i | 0 <= i < |packets| :: NoNews(e, packets[i])
  {
    hide NoNews, SamePids;
    forall i | 0 <= i < |packets| ensures NoNews(e, packets[i]) { NoNewsByPids(d, e, packets[i]); }
  }

  /** A track's frames depend on the packets of its own pid alone. */
  lemma {:induction false} TracksAreIndependent(d: Demux, e: Demux, packets: seq<Packet>, pid: nat, track: TrackKind)
    requires Apart(d) && SameTrack(d, e, track) && PidOf(d, track) == Some(pid)
    requires forall i | 0 <= i < |packets| :: NoNews(d, packets[i])
    ensures var r, s := PushPackets(d, packets), PushPackets(e, Only(packets, pid));
            SameTrack(r.0, s.0, track) && FramesOf(r.1, track) == FramesOf(s.1, track)
    decreases |packets|
  {
    hide OnPacket, Collected, Time, Pid, UnitStart, NoNews;
    if packets != [] {
      var p, rest := packets[0], packets[1..];
      var r := OnPacket(d, p);
      FramesOfConcat(r.1, PushPackets(r.0, rest).1, track);
      if Pid(p) == pid {
        OwnPacket(d, e, p, track);
        var s := OnPacket(e, p);
        StillNoNews(d, r.0, rest);
        TracksAreIndependent(r.0, s.0, rest, pid, track);
        FramesOfConcat(s.1, PushPackets(s.0, Only(rest, pid)).1, track);
        assert ([p] + Only(rest, pid))[1..] == Only(rest, pid);
      } else {
        OtherPacket(d, p, track);
        StillNoNews(d, r.0, rest);
        TracksAreIndependent(r.0, e, rest, pid, track);
        assert [] + Only(rest, pid) == Only(rest, pid);
      }
    }
  }

  lemma {:induction false} AllOfTrack(frames: seq<Frame>, track: TrackKind)
    requires forall i | 0 <= i < |frames| :: frames[i].track == track
    ensures FramesOf(frames, track) == frames
  {
    if frames != [] { AllOfTrack(frames[1..], track); }
  }

  /** Packets without new tables, those of the track's pid being its units in order, the others any. */
  ghost predicate Multiplexed(
      d: Demux, packets: seq<Packet>, pid: nat, track: TrackKind, streamId: Byte, units: seq<Unit>)
  {
    && Apart(d) && (forall i | 0 <= i < |packets| :: NoNews(d, packets[i]))
    && pid < 0x2000 && AllSendable(units) && units != [] && Carries(d, pid, track)
    && Only(packets, pid) == Send(pid, streamId, units)
  }

  /** The packets' bytes, in aligned pieces. */
  ghost predicate Pieces(chunks: seq<Bytes>, packets: seq<Packet>) {
    (forall i | 0 <= i < |chunks| :: Aligned(chunks[i])) && Concat(chunks) == Concat(packets)
  }

  lemma {:induction false} MultiplexPackets(
      d: Demux, packets: seq<Packet>, pid: nat, track: TrackKind, streamId: Byte, units: seq<Unit>)
    requires Multiplexed(d, packets, pid, track, streamId, units)
    ensures FramesOf(PushPackets(d, packets).1, track) == Pending(d, track) + ExpectedAll(track, units[..|units| - 1])
    ensures Collected(PushPackets(d, packets).0, track) == BuildPes(streamId, units[|units| - 1])
  {
    hide Only, NoNews, Pending;
    TracksAreIndependent(d, d, packets, pid, track);
    TrackRoundTrip(d, pid, track, streamId, units);
    PendingIsOfTrack(d, track);
    AllOfTrack(Pending(d, track) + ExpectedAll(track, units[..|units| - 1]), track);
  }

  /**
   A multiplex of two tracks, interleaved in any order and handed over in any aligned pieces, comes
   back as each track's units in order, with their timestamps, up to the one still being collected.
   */
  lemma {:induction false} MultiplexRoundTrip(
      d: Demux, chunks: seq<Bytes>, packets: seq<Packet>, pid: nat, track: TrackKind, streamId: Byte, units: seq<Unit>)
    requires Pieces(chunks, packets) && Multiplexed(d, packets, pid, track, streamId, units)
    ensures FramesOf(PushAll(d, chunks).1, track) == Pending(d, track) + ExpectedAll(track, units[..|units| - 1])
    ensures Collected(PushAll(d, chunks).0, track) == BuildPes(streamId, units[|units| - 1])
  {
    hide Aligned, Only, NoNews, Pending;
    ChunksDoNotMatter(d, chunks);
    PacketsOneByOne(d, packets);
    MultiplexPackets(d, packets, pid, track, streamId, units);
  }

  lemma {:induction false} PendingIsOfTrack(d: Demux, track: TrackKind)
    ensures forall i | 0 <= i < |Pending(d, track)| :: Pending(d, track)[i].track == track
  {
  }
}
