/**
 What makes a video frame a key frame: of the NAL units it is made of, in the byte stream format of
 Annex B of ISO/IEC 14496-10, one is a coded slice of an IDR picture (type 5).
 */
module NalUnits {
  import opened Wrappers
  import opened TsDemux

  /** A unit and the length of the start code before it: three bytes, or four with a leading zero. */
  datatype Nal = Nal(bytes: Bytes, long: bool)

  ghost predicate StartCodeAt(data: Bytes, j: nat) {
    j + 2 < |data| && data[j] == 0 && data[j + 1] == 0 && data[j + 2] == 1
  }

  /** Emulation prevention keeps start codes out of a unit, and a unit ends with its trailing one bit. */
  ghost predicate WellFormed(u: Nal) {
    u.bytes != [] && u.bytes[|u.bytes| - 1] != 0 && forall j: nat | j < |u.bytes| :: !StartCodeAt(u.bytes, j)
  }

  function StartCode(long: bool): Bytes { if long then [0, 0, 0, 1] else [0, 0, 1] }

  function AnnexB(units: seq<Nal>): Bytes {
    if units == [] then [] else StartCode(units[0].long) + units[0].bytes + AnnexB(units[1..])
  }

  predicate IsIdr(u: Nal) { u.bytes != [] && u.bytes[0] as nat % 32 == 5 }

  /** In a unit behind its start code, IDR start codes are at its front or in what follows it. */
  lemma {:induction false} OnlyAtFront(u: Nal, rest: Bytes, j: nat)
    requires WellFormed(u)
    ensures var code := StartCode(u.long); var data := code + u.bytes + rest;
      IdrAt(data, j) <==> (j == |code| - 3 && IsIdr(u))
                          || (j >= |code| + |u.bytes| && IdrAt(rest, j - |code| - |u.bytes|))
  {
    var code := StartCode(u.long);
    var data, end := code + u.bytes + rest, |code| + |u.bytes|;
    assert data[|code| - 3] == 0 && data[|code| - 2] == 0 && data[|code| - 1] == 1;
    assert data[|code|] == u.bytes[0] && data[end - 1] == u.bytes[|u.bytes| - 1];
    if j >= end {
      assert data[end..] == rest;
    } else if j >= |code| && IdrAt(data, j) && j + 2 < end {
      assert data[j] == u.bytes[j - |code|] && data[j + 1] == u.bytes[j + 1 - |code|];
      assert data[j + 2] == u.bytes[j + 2 - |code|];
      assert StartCodeAt(u.bytes, j - |code|);
    }
  }

  lemma {:induction false} FirstOrRest(u: Nal, rest: Bytes)
    requires WellFormed(u)
    ensures HasIdr(StartCode(u.long) + u.bytes + rest) <==> IsIdr(u) || HasIdr(rest)
  {
    hide IdrAt, IsIdr, WellFormed;
    var code := StartCode(u.long);
    var data, n := code + u.bytes + rest, |code| + |u.bytes|;
    if j: nat :| j < |data| && IdrAt(data, j) { OnlyAtFront(u, rest, j); }
    if IsIdr(u) { OnlyAtFront(u, rest, |code| - 3); }
    if j: nat :| j < |rest| && IdrAt(rest, j) { OnlyAtFront(u, rest, n + j); }
  }

  /** For every sequence of well-formed units, however their start codes are written. */
  lemma {:induction false} KeyframeIffIdr(units: seq<Nal>)
    requires forall i | 0 <= i < |units| :: WellFormed(units[i])
    ensures HasIdr(AnnexB(units)) <==> exists i | 0 <= i < |units| :: IsIdr(units[i])
  {
    hide HasIdr, IsIdr, WellFormed, StartCode;
    if units == [] {
      NothingThere();
    } else {
      var rest := units[1..];
      KeyframeIffIdr(rest);
      FirstOrRest(units[0], AnnexB(rest));
      if i :| 0 <= i < |rest| && IsIdr(rest[i]) { assert units[i + 1] == rest[i]; }
      if i :| 0 <= i < |units| && IsIdr(units[i]) { assert i > 0 ==> rest[i - 1] == units[i]; }
    }
  }

  lemma {:induction false} NothingThere()
    ensures !HasIdr([])
  {
  }
}
