/**
 Program tables: what the demuxer learns from tables that a multiplexer sends, also when they are
 longer than one packet, and the round trip from a demuxer that knows nothing yet.
 */
module TsTables {
  import opened Wrappers
  import opened Segmenter
  import opened TsDemux
  import opened TsSplit
  import opened TsRoundTrip

  function Hi(n: nat): Byte
    requires n < 0x10000
  {
    (n / 256) as Byte
  }

  function Lo(n: nat): Byte { (n % 256) as Byte }

  function Min(a: nat, b: nat): nat { if a <= b then a else b }

  // ------------------------------------------------------------------------------------------
  // Only the first packet of a table is read.

  /** What fits the first packet. */
  function First(payload: Bytes): Bytes { payload[..Min(|payload|, 184)] }

  lemma {:induction false} OnePacket(d: Demux, p: Packet)
    ensures PushPackets(d, [p]) == OnPacket(d, p)
  {
    hide OnPacket;
    var r := OnPacket(d, p);
    assert [p][1..] == [] && r.1 + [] == r.1;
  }

  /** Packets of one pid that begin nothing. */
  predicate Continue(packets: seq<Packet>, pid: nat) {
    packets == [] || (Pid(packets[0]) == pid && !UnitStart(packets[0]) && Continue(packets[1..], pid))
  }

  lemma {:induction false} IgnoredPacket(d: Demux, p: Packet)
    requires !UnitStart(p) && d.videoPid != Some(Pid(p)) && d.audioPid != Some(Pid(p))
    ensures OnPacket(d, p) == (d, [])
  {
    var r := OnPacket(d, p);
    assert r.0 == d;
    assert r.1 == [];
  }

  lemma {:induction false} RestIsIgnored(d: Demux, packets: seq<Packet>, pid: nat)
    requires d.videoPid != Some(pid) && d.audioPid != Some(pid) && Continue(packets, pid)
    ensures PushPackets(d, packets) == (d, [])
  {
    hide OnPacket, Pid, UnitStart;
    if packets != [] {
      IgnoredPacket(d, packets[0]);
      RestIsIgnored(d, packets[1..], pid);
      var none: seq<Frame> := [];
      assert none + none == none;
    }
  }

  lemma {:induction false} RestContinues(pid: nat, counter: nat, bytes: Bytes)
    requires pid < 0x2000 && counter < 16 && bytes != []
    ensures Continue(Packetise(pid, false, counter, bytes), pid)
    decreases |bytes|
  {
    hide TsPacket;
    var chunk, next := First(bytes), (counter + 1) % 16;
    assert |bytes| <= 184 ==> chunk == bytes;
    TsPacketParses(pid, false, counter, chunk);
    if |bytes| > 184 {
      RestContinues(pid, next, bytes[184..]);
      var p, rest := TsPacket(pid, false, counter, chunk), Packetise(pid, false, next, bytes[184..]);
      assert ([p] + rest)[1..] == rest;
    }
  }

  lemma {:induction false} TableSent(d: Demux, e: Demux, pid: nat, counter: nat, payload: Bytes)
    requires pid < 0x2000 && counter < 16 && payload != [] && e.videoPid != Some(pid) && e.audioPid != Some(pid)
    requires OnPacket(d, TsPacket(pid, true, counter, First(payload))) == (e, [])
    ensures PushPackets(d, Packetise(pid, true, counter, payload)) == (e, [])
  {
    hide OnPacket, TsPacket;
    var p, next := TsPacket(pid, true, counter, First(payload)), (counter + 1) % 16;
    if |payload| <= 184 {
      assert First(payload) == payload;
      OnePacket(d, p);
    } else {
      RestContinues(pid, next, payload[184..]);
      RestIsIgnored(e, Packetise(pid, false, next, payload[184..]), pid);
      assert ([p] + Packetise(pid, false, next, payload[184..]))[1..] == Packetise(pid, false, next, payload[184..]);
    }
  }

  // ------------------------------------------------------------------------------------------
  // The program association table.

  datatype Program = Program(number: nat, pid: nat)

  /** A section holds at most 253 programs: its length field goes up to 1021. */
  predicate Listable(programs: seq<Program>) {
    && |programs| <= 253
    && forall i | 0 <= i < |programs| :: programs[i].number < 0x10000 && programs[i].pid < 0x2000
  }

  function ProgramBytes(programs: seq<Program>): (r: Bytes)
    requires Listable(programs)
    ensures |r| == 4 * |programs|
  {
    if programs == [] then []
    else
      var p := programs[0];
      [Hi(p.number), Lo(p.number), Hi(0xE000 + p.pid), Lo(p.pid)] + ProgramBytes(programs[1..])
  }

  function PatFixed(length: nat): (r: Bytes)
    requires length < 0x1000
    ensures |r| == 9 && r[0] == 0 && r[1] == 0 && Word(r[2], r[3], 16) == length
  {
    [0, 0, Hi(0xB000 + length), Lo(length), 0, 1, 0xC1, 0, 0]
  }

  /** Section 2.4.4.3 of ISO/IEC 13818-1, after a pointer field of 0; the CRC is not looked at. */
  function BuildPat(programs: seq<Program>, crc: Bytes): (r: Bytes)
    requires Listable(programs) && |crc| == 4
    ensures |r| == 13 + 4 * |programs|
  {
    PatFixed(9 + 4 * |programs|) + ProgramBytes(programs) + crc
  }

  /** The last program that is not the network's. */
  function LastProgram(programs: seq<Program>, before: Option<nat>): Option<nat> {
    if programs == [] then before
    else LastProgram(programs[1..], if programs[0].number == 0 then before else Some(programs[0].pid))
  }

  lemma {:induction false} ProgramEntry(p: Program)
    requires p.number < 0x10000 && p.pid < 0x2000
    ensures Hi(p.number) == 0 && Lo(p.number) == 0 <==> p.number == 0
    ensures Word(Hi(0xE000 + p.pid), Lo(p.pid), 32) == p.pid
  {
  }

  lemma {:induction false} ProgramEntries(data: Bytes, i: nat, end: nat, programs: seq<Program>, before: Option<nat>)
    requires Listable(programs) && i + 4 * |programs| <= end < i + 4 * |programs| + 4 && end <= |data|
    requires data[i..i + 4 * |programs|] == ProgramBytes(programs)
    ensures PatEntries(data, i, end, before) == LastProgram(programs, before)
    decreases |programs|
  {
    hide Hi, Lo, Word;
    if programs != [] {
      var p, s := programs[0], data[i..i + 4 * |programs|];
      ProgramEntry(p);
      assert data[i] == s[0] && data[i + 1] == s[1] && data[i + 2] == s[2] && data[i + 3] == s[3];
      assert data[i + 4..i + 4 * |programs|] == s[4..];
      ProgramEntries(data, i + 4, end, programs[1..], if p.number == 0 then before else Some(p.pid));
    }
  }

  lemma {:induction false} ProgramBytesPrefix(programs: seq<Program>, j: nat)
    requires Listable(programs) && j <= |programs|
    ensures ProgramBytes(programs)[..4 * j] == ProgramBytes(programs[..j])
  {
    hide Hi, Lo;
    if j > 0 {
      ProgramBytesPrefix(programs[1..], j - 1);
      assert programs[..j][1..] == programs[1..][..j - 1];
      var p, rest := programs[0], ProgramBytes(programs[1..]);
      var head := [Hi(p.number), Lo(p.number), Hi(0xE000 + p.pid), Lo(p.pid)];
      assert (head + rest)[..4 * j] == head + rest[..4 * (j - 1)];
    }
  }

  /** How many programs the first packet holds. */
  function ProgramsRead(n: nat): nat { Min(n, 42) }

  lemma {:induction false} PatFirstPacket(programs: seq<Program>, crc: Bytes)
    requires Listable(programs) && |crc| == 4
    ensures var n, j, first := |programs|, ProgramsRead(|programs|), First(BuildPat(programs, crc));
            && |first| == Min(13 + 4 * n, 184) && first[0] == 0 && first[1] == 0
            && EntriesEnd(first[1..]) == Min(8 + 4 * n, 179) && first[1..][8..8 + 4 * j] == ProgramBytes(programs[..j])
  {
    hide ProgramBytes, PatFixed, Word;
    var n, j, payload := |programs|, ProgramsRead(|programs|), BuildPat(programs, crc);
    var fixed, first := PatFixed(9 + 4 * n), First(payload);
    ProgramBytesPrefix(programs, j);
    assert payload[9..9 + 4 * n] == ProgramBytes(programs);
    Window(payload, |first|, 8, 8 + 4 * j, 4 * n);
    assert first[1..][1] == fixed[2] && first[1..][2] == fixed[3];
  }

  /**
   A program table sets the map table's pid to that of the last program in its first packet: of the
   last of all, up to 42 programs, and of the first 42 otherwise.
   */
  lemma {:induction false} PatRoundTrip(d: Demux, programs: seq<Program>, crc: Bytes, counter: nat)
    requires Listable(programs) && |crc| == 4 && counter < 16 && d.videoPid != Some(0) && d.audioPid != Some(0)
    ensures PushPackets(d, Packetise(0, true, counter, BuildPat(programs, crc)))
         == (d.(pmtPid := LastProgram(programs[..ProgramsRead(|programs|)], d.pmtPid)), [])
  {
    hide BuildPat, PushPackets, Packetise, OnPacket;
    PatPacket(d, programs, crc, counter);
    var e := d.(pmtPid := LastProgram(programs[..ProgramsRead(|programs|)], d.pmtPid));
    TableSent(d, e, 0, counter, BuildPat(programs, crc));
  }

  lemma {:induction false} PatPacket(d: Demux, programs: seq<Program>, crc: Bytes, counter: nat)
    requires Listable(programs) && |crc| == 4 && counter < 16
    ensures OnPacket(d, TsPacket(0, true, counter, First(BuildPat(programs, crc))))
         == (d.(pmtPid := LastProgram(programs[..ProgramsRead(|programs|)], d.pmtPid)), [])
  {
    hide BuildPat, EntriesEnd, TsPacket, PatEntries, OnMedia;
    var j, first := ProgramsRead(|programs|), First(BuildPat(programs, crc));
    PatFirstPacket(programs, crc);
    ProgramEntries(first[1..], 8, EntriesEnd(first[1..]), programs[..j], d.pmtPid);
    TsPacketParses(0, true, counter, first);
  }

  /** Every program counts exactly up to 42 programs. */
  lemma {:induction false} EveryProgramReadIff(n: nat)
    requires n <= 253
    ensures (forall programs: seq<Program> | Listable(programs) && |programs| == n ::
               LastProgram(programs[..ProgramsRead(n)], None) == LastProgram(programs, None))
       <==> n <= 42
  {
    hide LastProgram;
    if n <= 42 {
      forall programs: seq<Program> | Listable(programs) && |programs| == n
        ensures LastProgram(programs[..ProgramsRead(n)], None) == LastProgram(programs, None)
      {
        assert programs[..n] == programs;
      }
    } else {
      var programs := seq(n, i => Program(1, if i < 0 then 0 else i));
      LastOfAll(programs, None);
      LastOfAll(programs[..42], None);
      assert Listable(programs) && |programs| == n;
    }
  }

  lemma {:induction false} LastOfAll(programs: seq<Program>, before: Option<nat>)
    requires programs != [] && forall i | 0 <= i < |programs| :: programs[i].number != 0
    ensures LastProgram(programs, before) == Some(programs[|programs| - 1].pid)
  {
    if |programs| > 1 { LastOfAll(programs[1..], Some(programs[0].pid)); }
  }

  // ------------------------------------------------------------------------------------------
  // The program map table.

  datatype Elementary = Elementary(kind: Byte, pid: nat, info: Bytes)

  predicate Describable(streams: seq<Elementary>) {
    forall i | 0 <= i < |streams| :: streams[i].pid < 0x2000 && |streams[i].info| < 0x1000
  }

  function Header(s: Elementary): (r: Bytes)
    requires s.pid < 0x2000 && |s.info| < 0x1000
    ensures |r| == 5 && r[0] == s.kind && Word(r[1], r[2], 32) == s.pid && Word(r[3], r[4], 16) == |s.info|
  {
    [s.kind, Hi(0xE000 + s.pid), Lo(s.pid), Hi(0xF000 + |s.info|), Lo(|s.info|)]
  }

  function StreamBytes(streams: seq<Elementary>): Bytes
    requires Describable(streams)
  {
    if streams == [] then [] else Header(streams[0]) + streams[0].info + StreamBytes(streams[1..])
  }

  function PmtFixed(program: nat, clockPid: nat, infoLength: nat, length: nat): (r: Bytes)
    requires program < 0x10000 && clockPid < 0x2000 && infoLength < 0x1000 && length < 0x1000
    ensures |r| == 13 && r[0] == 0
    ensures Word(r[2], r[3], 16) == length && Word(r[11], r[12], 16) == infoLength
  {
    [0, 2, Hi(0xB000 + length), Lo(length), Hi(program), Lo(program), 0xC1, 0, 0,
     Hi(0xE000 + clockPid), Lo(clockPid), Hi(0xF000 + infoLength), Lo(infoLength)]
  }

  datatype Table = Table(program: nat, clockPid: nat, info: Bytes, streams: seq<Elementary>, crc: Bytes)

  predicate Buildable(t: Table) {
    && Describable(t.streams) && t.program < 0x10000 && t.clockPid < 0x2000 && |t.crc| == 4
    && 13 + |t.info| + |StreamBytes(t.streams)| < 0x1000
  }

  /** Section 2.4.4.8 of ISO/IEC 13818-1, after a pointer field of 0. */
  function BuildPmt(t: Table): (r: Bytes)
    requires Buildable(t)
    ensures |r| == 17 + |t.info| + |StreamBytes(t.streams)|
  {
    PmtFixed(t.program, t.clockPid, |t.info|, 13 + |t.info| + |StreamBytes(t.streams)|)
    + t.info + StreamBytes(t.streams) + t.crc
  }

  /** The pids of the last H.264 and the last AAC stream. */
  function LastStreams(streams: seq<Elementary>, before: (Option<nat>, Option<nat>)): (Option<nat>, Option<nat>) {
    if streams == [] then before
    else
      var s := streams[0];
      LastStreams(streams[1..],
                  if s.kind == 0x1B then (Some(s.pid), before.1)
                  else if s.kind == 0x0F then (before.0, Some(s.pid)) else before)
  }

  /** How many stream headers, laid out from `at`, are complete before `end`. */
  function HeadersRead(streams: seq<Elementary>, at: nat, end: nat): (r: nat)
    ensures r <= |streams|
  {
    if streams == [] || at + 5 > end then 0
    else 1 + HeadersRead(streams[1..], at + 5 + |streams[0].info|, end)
  }

  lemma {:induction false} FirstEntry(data: Bytes, i: nat, end: nat, header: Bytes, info: Bytes, rest: Bytes)
    requires |header| == 5 && i + 5 <= end <= |data| && end - i <= 5 + |info| + |rest|
    requires data[i..end] == (header + info + rest)[..end - i]
    ensures forall j | 0 <= j < 5 :: data[i + j] == header[j]
    ensures var next := i + 5 + |info|; next <= end ==> data[next..end] == rest[..end - next]
  {
    var b, bytes, next := data[i..end], header + info + rest, i + 5 + |info|;
    assert forall j | 0 <= j < 5 :: data[i + j] == b[j] == bytes[j] == header[j];
    if next <= end {
      assert data[next..end] == b[5 + |info|..] == bytes[..end - i][5 + |info|..] == rest[..end - next];
    }
  }

  lemma {:induction false} StreamEntries(
      data: Bytes, i: nat, end: nat, streams: seq<Elementary>, before: (Option<nat>, Option<nat>))
    requires Describable(streams) && end <= |data|
    requires i <= end ==> end - i <= |StreamBytes(streams)| && data[i..end] == StreamBytes(streams)[..end - i]
    ensures PmtEntries(data, i, end, before) == LastStreams(streams[..HeadersRead(streams, i, end)], before)
    decreases |streams|
  {
    hide Header, Word;
    if i + 5 <= end {
      var s := streams[0];
      var next := i + 5 + |s.info|;
      FirstEntry(data, i, end, Header(s), s.info, StreamBytes(streams[1..]));
      var after := if s.kind == 0x1B then (Some(s.pid), before.1)
                   else if s.kind == 0x0F then (before.0, Some(s.pid)) else before;
      StreamEntries(data, next, end, streams[1..], after);
      var k := HeadersRead(streams[1..], next, end);
      assert streams[..k + 1][1..] == streams[1..][..k];
    }
  }

  /** Where the first packet's entries end. */
  function EndRead(t: Table): nat
    requires Buildable(t)
  {
    Min(12 + |t.info| + |StreamBytes(t.streams)|, 179)
  }

  function StreamsRead(t: Table): seq<Elementary>
    requires Buildable(t)
  {
    t.streams[..HeadersRead(t.streams, 12 + |t.info|, EndRead(t))]
  }

  /** A table that fits one packet is read whole. */
  lemma {:induction false} WholeTableRead(t: Table)
    requires Buildable(t) && |BuildPmt(t)| <= 184
    ensures StreamsRead(t) == t.streams
  {
    hide BuildPmt;
    AllHeadersRead(t.streams, 12 + |t.info|);
  }

  lemma {:induction false} AllHeadersRead(streams: seq<Elementary>, at: nat)
    requires Describable(streams)
    ensures HeadersRead(streams, at, at + |StreamBytes(streams)|) == |streams|
  {
    hide Header;
    if streams != [] { AllHeadersRead(streams[1..], at + 5 + |streams[0].info|); }
  }

  lemma {:induction false} PmtFirstPacket(t: Table)
    requires Buildable(t)
    ensures var first, at := First(BuildPmt(t)), 12 + |t.info|;
            && |first| == Min(|BuildPmt(t)|, 184) && |first| >= 13 && first[0] == 0
            && EntriesEnd(first[1..]) == EndRead(t)
            && Word(first[1..][10], first[1..][11], 16) == |t.info|
            && (at <= EndRead(t) ==> first[1..][at..EndRead(t)] == StreamBytes(t.streams)[..EndRead(t) - at])
  {
    hide StreamBytes, PmtFixed, Word, Describable;
    var n, at, end := |StreamBytes(t.streams)|, 12 + |t.info|, EndRead(t);
    var fixed := PmtFixed(t.program, t.clockPid, |t.info|, 13 + |t.info| + n);
    var payload, first := BuildPmt(t), First(BuildPmt(t));
    assert first[1..][1] == fixed[2] && first[1..][2] == fixed[3];
    assert first[1..][10] == fixed[11] && first[1..][11] == fixed[12];
    Middle(fixed + t.info, StreamBytes(t.streams), t.crc);
    assert payload[at + 1..at + 1 + n] == StreamBytes(t.streams);
    if at <= end { Window(payload, |first|, at, end, n); }
  }

  /** A stretch of the section that is in the first packet, seen from the section and the packet. */
  lemma {:induction false} Window(payload: Bytes, packet: nat, at: nat, end: nat, n: nat)
    requires at <= end <= at + n && end < packet <= |payload| && at + 1 + n <= |payload|
    ensures payload[..packet][1..][at..end] == payload[at + 1..at + 1 + n][..end - at]
  {
    var first := payload[..packet];
    assert first[1..][at..end] == first[at + 1..end + 1] == payload[at + 1..end + 1];
    assert payload[at + 1..at + 1 + n][..end - at] == payload[at + 1..end + 1];
  }

  lemma {:induction false} Middle(a: Bytes, b: Bytes, c: Bytes)
    ensures (a + b + c)[|a|..|a| + |b|] == b
  {
  }

  /**
   A map table sets the pids to those of the last H.264 and the last AAC stream among the stream
   headers complete in its first packet.
   */
  lemma {:induction false} PmtRoundTrip(d: Demux, t: Table, pid: nat, counter: nat)
    requires Buildable(t) && 0 < pid < 0x2000 && counter < 16 && d.pmtPid == Some(pid)
    requires var pids := LastStreams(StreamsRead(t), (d.videoPid, d.audioPid));
             pids.0 != Some(pid) && pids.1 != Some(pid)
    ensures var pids := LastStreams(StreamsRead(t), (d.videoPid, d.audioPid));
            PushPackets(d, Packetise(pid, true, counter, BuildPmt(t)))
            == (d.(videoPid := pids.0, audioPid := pids.1), [])
  {
    hide BuildPmt, PushPackets, Packetise, OnPacket, StreamsRead, LastStreams;
    PmtPacket(d, t, pid, counter);
    var pids := LastStreams(StreamsRead(t), (d.videoPid, d.audioPid));
    TableSent(d, d.(videoPid := pids.0, audioPid := pids.1), pid, counter, BuildPmt(t));
  }

  lemma {:induction false} PmtPacket(d: Demux, t: Table, pid: nat, counter: nat)
    requires Buildable(t) && 0 < pid < 0x2000 && counter < 16 && d.pmtPid == Some(pid)
    ensures var pids := LastStreams(StreamsRead(t), (d.videoPid, d.audioPid));
            OnPacket(d, TsPacket(pid, true, counter, First(BuildPmt(t))))
            == (d.(videoPid := pids.0, audioPid := pids.1), [])
  {
    hide BuildPmt, EntriesEnd, TsPacket, PmtEntries, OnMedia, Word, StreamBytes;
    var first := First(BuildPmt(t));
    PmtFirstPacket(t);
    StreamEntries(first[1..], 12 + |t.info|, EndRead(t), t.streams, (d.videoPid, d.audioPid));
    TsPacketParses(pid, true, counter, first);
  }

  // ------------------------------------------------------------------------------------------
  // From a demuxer that knows nothing to the frames of a track.

  /** What a multiplexer announces: the tables, and the pids they make known. */
  datatype Announcement = Announcement(
    programs: seq<Program>, crc: Bytes, table: Table, pmtPid: nat, videoPid: nat, audioPid: nat)

  predicate Announced(a: Announcement) {
    && Listable(a.programs) && |a.crc| == 4 && Buildable(a.table) && 0 < a.pmtPid < 0x2000
    && LastProgram(a.programs[..ProgramsRead(|a.programs|)], None) == Some(a.pmtPid)
    && LastStreams(StreamsRead(a.table), (None, None)) == (Some(a.videoPid), Some(a.audioPid))
    && a.videoPid != a.audioPid && a.pmtPid != a.videoPid && a.pmtPid != a.audioPid
  }

  function TablePackets(a: Announcement): seq<Packet>
    requires Announced(a)
  {
    Packetise(0, true, 0, BuildPat(a.programs, a.crc)) + Packetise(a.pmtPid, true, 0, BuildPmt(a.table))
  }

  function Ready(a: Announcement): Demux {
    NewDemux().(pmtPid := Some(a.pmtPid), videoPid := Some(a.videoPid), audioPid := Some(a.audioPid))
  }

  lemma {:induction false} TablesRead(a: Announcement)
    requires Announced(a)
    ensures PushPackets(NewDemux(), TablePackets(a)) == (Ready(a), [])
  {
    hide PushPackets, Packetise, BuildPat, BuildPmt, Buildable, Listable, LastProgram, LastStreams, StreamsRead;
    var d := NewDemux();
    var e := d.(pmtPid := Some(a.pmtPid));
    PatRoundTrip(d, a.programs, a.crc, 0);
    PmtRoundTrip(e, a.table, a.pmtPid, 0);
    var first := Packetise(0, true, 0, BuildPat(a.programs, a.crc));
    var second := Packetise(a.pmtPid, true, 0, BuildPmt(a.table));
    PushPacketsConcat(d, first, second);
  }

  // Repetitions of the announced tables, as encoders send them.

  lemma {:induction false} ProgramWins(programs: seq<Program>, before: Option<nat>, pid: nat)
    requires LastProgram(programs, None) == Some(pid)
    ensures LastProgram(programs, before) == Some(pid)
  {
    if programs[0].number == 0 { ProgramWins(programs[1..], before, pid); }
  }

  lemma {:induction false} StreamsWin(streams: seq<Elementary>, a: (Option<nat>, Option<nat>), b: (Option<nat>,
                                      Option<nat>))
    ensures var r, s := LastStreams(streams, a), LastStreams(streams, b);
            (r.0 == s.0 || (r.0 == a.0 && s.0 == b.0)) && (r.1 == s.1 || (r.1 == a.1 && s.1 == b.1))
  {
    if streams != [] {
      var s := streams[0];
      StreamsWin(streams[1..],
                 if s.kind == 0x1B then (Some(s.pid), a.1) else if s.kind == 0x0F then (a.0, Some(s.pid)) else a,
                 if s.kind == 0x1B then (Some(s.pid), b.1) else if s.kind == 0x0F then (b.0, Some(s.pid)) else b);
    }
  }

  lemma {:induction false} ContinueIsNoNews(d: Demux, packets: seq<Packet>, pid: nat)
    requires Continue(packets, pid)
    ensures forall p | p in packets :: NoNews(d, p)
  {
    hide OnPacket, Pid;
    if packets != [] { ContinueIsNoNews(d, packets[1..], pid); }
  }

  lemma {:induction false} TableIsNoNews(d: Demux, pid: nat, counter: nat, payload: Bytes)
    requires pid < 0x2000 && counter < 16 && payload != []
    requires SamePids(OnPacket(d, TsPacket(pid, true, counter, First(payload))).0, d)
    ensures forall p | p in Packetise(pid, true, counter, payload) :: NoNews(d, p)
  {
    hide OnPacket, TsPacket, SamePids, Pid, UnitStart;
    var p, next := TsPacket(pid, true, counter, First(payload)), (counter + 1) % 16;
    assert NoNews(d, p);
    if |payload| <= 184 {
      assert First(payload) == payload;
    } else {
      RestContinues(pid, next, payload[184..]);
      ContinueIsNoNews(d, Packetise(pid, false, next, payload[184..]), pid);
    }
  }

  /** A demuxer that has read the announced tables learns nothing from reading them again. */
  lemma {:induction false} RepeatedTablesAreNoNews(a: Announcement, counter: nat)
    requires Announced(a) && counter < 16
    ensures forall p | p in Packetise(0, true, counter, BuildPat(a.programs, a.crc)) :: NoNews(Ready(a), p)
    ensures forall p | p in Packetise(a.pmtPid, true, counter, BuildPmt(a.table)) :: NoNews(Ready(a), p)
  {
    hide BuildPat, BuildPmt, Packetise, OnPacket, NoNews, StreamsRead, Buildable, Listable, LastStreams;
    var d := Ready(a);
    PatPacket(d, a.programs, a.crc, counter);
    ProgramWins(a.programs[..ProgramsRead(|a.programs|)], d.pmtPid, a.pmtPid);
    TableIsNoNews(d, 0, counter, BuildPat(a.programs, a.crc));
    PmtPacket(d, a.table, a.pmtPid, counter);
    StreamsWin(StreamsRead(a.table), (None, None), (d.videoPid, d.audioPid));
    TableIsNoNews(d, a.pmtPid, counter, BuildPmt(a.table));
  }

  /**
   From the first byte on: tables, then a multiplex of two tracks and repeated tables in any order,
   handed over in any aligned pieces, come back as the units of each announced track, up to the one
   still collected.
   */
  lemma {:induction false} StreamRoundTrip(
      a: Announcement, chunks: seq<Bytes>, packets: seq<Packet>, pid: nat, track: TrackKind, streamId: Byte,
      units: seq<Unit>)
    requires Announced(a) && Pieces(chunks, TablePackets(a) + packets)
    requires Multiplexed(Ready(a), packets, pid, track, streamId, units)
    ensures FramesOf(PushAll(NewDemux(), chunks).1, track) == ExpectedAll(track, units[..|units| - 1])
    ensures Collected(PushAll(NewDemux(), chunks).0, track) == BuildPes(streamId, units[|units| - 1])
  {
    hide Aligned, PushPackets, Announced, TablePackets, Concat, PushAll, BuildPes, Only, NoNews, Send, AllSendable;
    ChunksDoNotMatter(NewDemux(), chunks);
    PacketsOneByOne(NewDemux(), TablePackets(a) + packets);
    PushPacketsConcat(NewDemux(), TablePackets(a), packets);
    TablesRead(a);
    MultiplexPackets(Ready(a), packets, pid, track, streamId, units);
    NothingPending(a, track);
    var r := PushPackets(Ready(a), packets);
    assert [] + r.1 == r.1;
    assert [] + ExpectedAll(track, units[..|units| - 1]) == ExpectedAll(track, units[..|units| - 1]);
  }

  lemma {:induction false} NothingPending(a: Announcement, track: TrackKind)
    ensures Pending(Ready(a), track) == []
  {
  }
}
