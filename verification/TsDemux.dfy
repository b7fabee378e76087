/**
 `TsDemuxer`: MPEG-TS packets in, H.264 and AAC frames out (ISO/IEC 13818-1, sections 2.4.3.2 and
 2.4.3.6).  Bit masks and shifts are written as division and remainder by powers of two.
 */
module TsDemux {
  import opened Wrappers
  import opened Segmenter

  type Bytes = seq<Byte>

  const PACKET := 188

  const SYNC: Byte := 0x47

  datatype Demux = Demux(
    videoPid: Option<nat>,
    audioPid: Option<nat>,
    pmtPid: Option<nat>,
    videoPes: Bytes,
    audioPes: Bytes,
    videoDts: nat,
    audioDts: nat)

  function NewDemux(): Demux { Demux(None, None, None, [], [], 0, 0) }

  predicate Bit(b: Byte, mask: nat)
    requires mask > 0
  {
    b as nat / mask % 2 == 1
  }

  /** The low `bits` of the first byte, given as their range, followed by the second byte. */
  function Word(hi: Byte, lo: Byte, range: nat): (r: nat)
    requires range > 0
    ensures r < range * 256
  {
    (hi as nat % range) * 256 + lo as nat
  }

  // ------------------------------------------------------------------------------------------
  // Keyframes.

  /** A three-byte start code at j, followed by a NAL unit of type 5. */
  predicate IdrAt(data: Bytes, j: nat) {
    && j + 3 < |data|
    && data[j] == 0 && data[j + 1] == 0 && data[j + 2] == 1 && data[j + 3] as nat % 32 == 5
  }

  predicate HasIdr(data: Bytes) {
    exists j: nat | j < |data| :: IdrAt(data, j)
  }

  /** `contains_idr_nalu`. */
  method ContainsIdrNalu(data: Bytes) returns (found: bool)
    ensures found <==> HasIdr(data)
  {
    var i := 0;
    while i < |data|
      invariant 0 <= i <= |data|
      invariant forall j: nat | j < i :: !IdrAt(data, j)
    {
      if i + 3 < |data| && data[i] == 0 && data[i + 1] == 0 {
        var nalStart;
        if data[i + 2] == 1 {
          nalStart := i + 3;
        } else if i + 4 < |data| && data[i + 2] == 0 && data[i + 3] == 1 {
          nalStart := i + 4;
        } else {
          i := i + 1;
          continue;
        }
        if nalStart < |data| && data[nalStart] as nat % 32 == 5 {
          assert IdrAt(data, nalStart - 3);
          return true;
        }
        i := nalStart;
      } else {
        i := i + 1;
      }
    }
    found := false;
  }

  // ------------------------------------------------------------------------------------------
  // PES packets.

  /** A 33-bit timestamp spread over five bytes with marker bits. */
  function ParseTimestamp(b: Bytes): (r: nat)
    requires |b| == 5
    ensures r < 0x2_0000_0000
  {
    (b[0] as nat / 2 % 8) * 0x4000_0000 + b[1] as nat * 0x40_0000 + (b[2] as nat / 2) * 0x8000
    + b[3] as nat * 0x80 + b[4] as nat / 2
  }

  predicate PesHeader(pes: Bytes) {
    |pes| >= 9 && pes[0] == 0 && pes[1] == 0 && pes[2] == 1
  }

  function DataStart(pes: Bytes): nat
    requires PesHeader(pes)
  {
    9 + pes[8] as nat
  }

  function TimestampFlags(pes: Bytes): nat
    requires PesHeader(pes)
  {
    pes[7] as nat / 64
  }

  /** Presentation and decoding time; a packet without them takes the time of the one before it. */
  function VideoTimes(pes: Bytes, before: nat): (nat, nat)
    requires PesHeader(pes)
  {
    if TimestampFlags(pes) >= 2 && |pes| >= 14 then
      var pts := ParseTimestamp(pes[9..14]);
      (pts, if TimestampFlags(pes) == 3 && |pes| >= 19 then ParseTimestamp(pes[14..19]) else pts)
    else (before, before)
  }

  function AudioTime(pes: Bytes, before: nat): nat
    requires PesHeader(pes)
  {
    if TimestampFlags(pes) >= 2 && |pes| >= 14 then ParseTimestamp(pes[9..14]) else before
  }

  predicate Extractable(pes: Bytes) {
    PesHeader(pes) && DataStart(pes) < |pes|
  }

  function VideoFrame(pes: Bytes, before: nat): Frame
    requires Extractable(pes)
  {
    var (pts, dts) := VideoTimes(pes, before);
    var data := pes[DataStart(pes)..];
    Frame(Video, data, dts, pts, HasIdr(data))
  }

  function AudioFrame(pes: Bytes, before: nat): Frame
    requires Extractable(pes)
  {
    var dts := AudioTime(pes, before);
    Frame(Audio, pes[DataStart(pes)..], dts, dts, true)
  }

  /** A payload of the video stream: a unit start first hands over what was collected. */
  function OnVideo(d: Demux, start: bool, payload: Bytes): (Demux, seq<Frame>) {
    if !start then (d.(videoPes := d.videoPes + payload), [])
    else if Extractable(d.videoPes) then
      var f := VideoFrame(d.videoPes, d.videoDts);
      (d.(videoPes := payload, videoDts := f.dts), [f])
    else (d.(videoPes := payload), [])
  }

  function OnAudio(d: Demux, start: bool, payload: Bytes): (Demux, seq<Frame>) {
    if !start then (d.(audioPes := d.audioPes + payload), [])
    else if Extractable(d.audioPes) then
      var f := AudioFrame(d.audioPes, d.audioDts);
      (d.(audioPes := payload, audioDts := f.dts), [f])
    else (d.(audioPes := payload), [])
  }

  // ------------------------------------------------------------------------------------------
  // Tables.

  predicate HasSection(payload: Bytes) {
    payload != [] && 1 + payload[0] as nat < |payload|
  }

  function Section(payload: Bytes): Bytes
    requires HasSection(payload)
  {
    payload[1 + payload[0] as nat..]
  }

  /** Where the entries of a section end: its length, or the data at hand, less the CRC. */
  function EntriesEnd(data: Bytes): (r: nat)
    requires |data| >= 3
    ensures r <= |data|
  {
    var length := 3 + Word(data[1], data[2], 16);
    var end := if length < |data| then length else |data|;
    if end < 4 then 0 else end - 4
  }

  function PatEntries(data: Bytes, i: nat, end: nat, pmtPid: Option<nat>): Option<nat>
    requires end <= |data|
    decreases end - i
  {
    if i + 4 > end then pmtPid
    else
      PatEntries(data, i + 4, end,
                 if data[i] == 0 && data[i + 1] == 0 then pmtPid else Some(Word(data[i + 2], data[i + 3], 32)))
  }

  function ParsePat(d: Demux, payload: Bytes): Demux {
    if !HasSection(payload) then d
    else
      var data := Section(payload);
      if |data| < 8 || data[0] != 0 then d
      else d.(pmtPid := PatEntries(data, 8, EntriesEnd(data), d.pmtPid))
  }

  function PmtEntries(data: Bytes, i: nat, end: nat, pids: (Option<nat>, Option<nat>)): (Option<nat>, Option<nat>)
    requires end <= |data|
    decreases end - i
  {
    if i + 5 > end then pids
    else
      var pid := Some(Word(data[i + 1], data[i + 2], 32));
      PmtEntries(data, i + 5 + Word(data[i + 3], data[i + 4], 16), end,
                 if data[i] == 0x1B then (pid, pids.1) else if data[i] == 0x0F then (pids.0, pid) else pids)
  }

  function ParsePmt(d: Demux, payload: Bytes): Demux {
    if !HasSection(payload) then d
    else
      var data := Section(payload);
      if |data| < 12 then d
      else
        var pids := PmtEntries(data, 12 + Word(data[10], data[11], 16), EntriesEnd(data), (d.videoPid, d.audioPid));
        d.(videoPid := pids.0, audioPid := pids.1)
  }

  // ------------------------------------------------------------------------------------------
  // Packets.

  function Pid(p: Bytes): nat
    requires |p| == PACKET
  {
    Word(p[1], p[2], 32)
  }

  predicate UnitStart(p: Bytes)
    requires |p| == PACKET
  {
    Bit(p[1], 64)
  }

  function PayloadOffset(p: Bytes): nat
    requires |p| == PACKET
  {
    if Bit(p[3], 32) then 5 + p[4] as nat else 4
  }

  predicate HasPayload(p: Bytes)
    requires |p| == PACKET
  {
    Bit(p[3], 16) && PayloadOffset(p) < PACKET
  }

  function Payload(p: Bytes): Bytes
    requires |p| == PACKET && HasPayload(p)
  {
    p[PayloadOffset(p)..]
  }

  function OnMedia(d: Demux, pid: nat, start: bool, payload: Bytes): (Demux, seq<Frame>) {
    var (d1, f1) := if d.videoPid == Some(pid) then OnVideo(d, start, payload) else (d, []);
    var (d2, f2) := if d1.audioPid == Some(pid) then OnAudio(d1, start, payload) else (d1, []);
    (d2, f1 + f2)
  }

  function OnPacket(d: Demux, p: Bytes): (Demux, seq<Frame>)
    requires |p| == PACKET
  {
    if !HasPayload(p) then (d, [])
    else if Pid(p) == 0 && UnitStart(p) then (ParsePat(d, Payload(p)), [])
    else if d.pmtPid == Some(Pid(p)) && UnitStart(p) then (ParsePmt(d, Payload(p)), [])
    else OnMedia(d, Pid(p), UnitStart(p), Payload(p))
  }

  /** A whole buffer: bytes that are not a sync byte are skipped, an incomplete packet is dropped. */
  function PushData(d: Demux, data: Bytes): (Demux, seq<Frame>)
    decreases |data|
  {
    if |data| < PACKET then (d, [])
    else if data[0] != SYNC then PushData(d, data[1..])
    else
      var (d1, f1) := OnPacket(d, data[..PACKET]);
      var (d2, f2) := PushData(d1, data[PACKET..]);
      (d2, f1 + f2)
  }

  class TsDemuxer {
    var videoPid: Option<nat>
    var audioPid: Option<nat>
    var pmtPid: Option<nat>
    var videoPes: Bytes
    var audioPes: Bytes
    var videoDts: nat
    var audioDts: nat

    function View(): Demux
      reads this
    {
      Demux(videoPid, audioPid, pmtPid, videoPes, audioPes, videoDts, audioDts)
    }

    constructor ()
      ensures View() == NewDemux()
    {
      videoPid, audioPid, pmtPid := None, None, None;
      videoPes, audioPes, videoDts, audioDts := [], [], 0, 0;
    }

    method ParsePatInPlace(payload: Bytes)
      modifies this
      ensures View() == ParsePat(old(View()), payload)
    {
      if payload == [] || 1 + payload[0] as nat >= |payload| {
        return;
      }
      var data := payload[1 + payload[0] as nat..];
      if |data| < 8 || data[0] != 0 {
        return;
      }
      var i, end := 8, EntriesEnd(data);
      while i + 4 <= end
        invariant PatEntries(data, i, end, pmtPid) == PatEntries(data, 8, end, old(pmtPid))
        invariant View() == old(View()).(pmtPid := pmtPid)
      {
        if data[i] != 0 || data[i + 1] != 0 {
          pmtPid := Some(Word(data[i + 2], data[i + 3], 32));
        }
        i := i + 4;
      }
    }

    method ParsePmtInPlace(payload: Bytes)
      modifies this
      ensures View() == ParsePmt(old(View()), payload)
    {
      if payload == [] || 1 + payload[0] as nat >= |payload| {
        return;
      }
      var data := payload[1 + payload[0] as nat..];
      if |data| < 12 {
        return;
      }
      var first, end := 12 + Word(data[10], data[11], 16), EntriesEnd(data);
      var i := first;
      while i + 5 <= end
        invariant PmtEntries(data, i, end, (videoPid, audioPid))
               == PmtEntries(data, first, end, (old(videoPid), old(audioPid)))
        invariant View() == old(View()).(videoPid := videoPid, audioPid := audioPid)
        decreases end - i
      {
        var pid := Word(data[i + 1], data[i + 2], 32);
        if data[i] == 0x1B {
          videoPid := Some(pid);
        } else if data[i] == 0x0F {
          audioPid := Some(pid);
        }
        i := i + 5 + Word(data[i + 3], data[i + 4], 16);
      }
    }

    method ExtractVideoFrame() returns (frame: Option<Frame>)
      modifies this
      ensures Extractable(old(videoPes)) ==>
                && frame == Some(VideoFrame(old(videoPes), old(videoDts)))
                && View() == old(View()).(videoDts := frame.value.dts)
      ensures !Extractable(old(videoPes)) ==> frame == None && View() == old(View())
    {
      var pes := videoPes;
      if |pes| < 9 || pes[0] != 0 || pes[1] != 0 || pes[2] != 1 {
        return None;
      }
      var flags, dataStart := pes[7] as nat / 64, 9 + pes[8] as nat;
      if dataStart >= |pes| {
        return None;
      }
      var pts, dts := videoDts, videoDts;
      if flags >= 2 && |pes| >= 14 {
        pts := ParseTimestamp(pes[9..14]);
        dts := pts;
        if flags == 3 && |pes| >= 19 {
          dts := ParseTimestamp(pes[14..19]);
        }
      }
      videoDts := dts;
      var keyframe := ContainsIdrNalu(pes[dataStart..]);
      frame := Some(Frame(Video, pes[dataStart..], dts, pts, keyframe));
    }

    method ExtractAudioFrame() returns (frame: Option<Frame>)
      modifies this
      ensures Extractable(old(audioPes)) ==>
                && frame == Some(AudioFrame(old(audioPes), old(audioDts)))
                && View() == old(View()).(audioDts := frame.value.dts)
      ensures !Extractable(old(audioPes)) ==> frame == None && View() == old(View())
    {
      var pes := audioPes;
      if |pes| < 9 || pes[0] != 0 || pes[1] != 0 || pes[2] != 1 {
        return None;
      }
      var flags, dataStart := pes[7] as nat / 64, 9 + pes[8] as nat;
      if dataStart >= |pes| {
        return None;
      }
      var dts := audioDts;
      if flags >= 2 && |pes| >= 14 {
        dts := ParseTimestamp(pes[9..14]);
      }
      audioDts := dts;
      frame := Some(Frame(Audio, pes[dataStart..], dts, dts, true));
    }

    method OnVideoInPlace(start: bool, payload: Bytes) returns (frames: seq<Frame>)
      modifies this
      ensures View() == OnVideo(old(View()), start, payload).0 && frames == OnVideo(old(View()), start, payload).1
    {
      hide Extractable, VideoFrame;
      frames := [];
      if start {
        if videoPes != [] {
          var frame := ExtractVideoFrame();
          if frame.Some? {
            frames := [frame.value];
          }
        } else {
          EmptyIsNotExtractable();
        }
        videoPes := [];
        assert [] + payload == payload;
      }
      videoPes := videoPes + payload;
    }

    method OnAudioInPlace(start: bool, payload: Bytes) returns (frames: seq<Frame>)
      modifies this
      ensures View() == OnAudio(old(View()), start, payload).0 && frames == OnAudio(old(View()), start, payload).1
    {
      hide Extractable, AudioFrame;
      frames := [];
      if start {
        if audioPes != [] {
          var frame := ExtractAudioFrame();
          if frame.Some? {
            frames := [frame.value];
          }
        } else {
          EmptyIsNotExtractable();
        }
        audioPes := [];
        assert [] + payload == payload;
      }
      audioPes := audioPes + payload;
    }

    method OnPacketInPlace(p: Bytes) returns (frames: seq<Frame>)
      requires |p| == PACKET
      modifies this
      ensures View() == OnPacket(old(View()), p).0 && frames == OnPacket(old(View()), p).1
    {
      hide ParsePat, ParsePmt, OnVideo, OnAudio, Word;
      frames := [];
      if !Bit(p[3], 16) {
        return;
      }
      var offset := PayloadOffset(p);
      if offset >= PACKET {
        return;
      }
      var pid, start, payload := Pid(p), UnitStart(p), p[offset..];
      if pid == 0 && start {
        ParsePatInPlace(payload);
        return;
      }
      if pmtPid == Some(pid) && start {
        ParsePmtInPlace(payload);
        return;
      }
      if videoPid == Some(pid) {
        frames := OnVideoInPlace(start, payload);
      }
      if audioPid == Some(pid) {
        var more := OnAudioInPlace(start, payload);
        frames := frames + more;
      }
    }

    /** `push_data`. */
    method PushDataInPlace(data: Bytes) returns (frames: seq<Frame>)
      modifies this
      ensures View() == PushData(old(View()), data).0 && frames == PushData(old(View()), data).1
    {
      hide OnPacket;
      frames := [];
      var offset := 0;
      ghost var all := PushData(View(), data);
      assert data[0..] == data;
      while offset + PACKET <= |data|
        invariant 0 <= offset <= |data|
        invariant all.0 == PushData(View(), data[offset..]).0
        invariant all.1 == frames + PushData(View(), data[offset..]).1
      {
        var rest := data[offset..];
        if data[offset] != SYNC {
          offset := offset + 1;
          assert rest[1..] == data[offset..];
          continue;
        }
        assert rest[..PACKET] == data[offset..offset + PACKET];
        assert rest[PACKET..] == data[offset + PACKET..];
        var more := OnPacketInPlace(data[offset..offset + PACKET]);
        offset := offset + PACKET;
        Associative(frames, more, PushData(View(), data[offset..]).1);
        frames := frames + more;
      }
    }
  }

  lemma {:induction false} EmptyIsNotExtractable()
    ensures !Extractable([])
  {
  }
}
