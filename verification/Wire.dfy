/** Bytes on the wire: fixed-width integers in the host's (little-endian) order. */
module Bytes {
  import opened Wrappers

  type byte = x: int | 0 <= x < 256

  const REQ_BUFFER_SIZE := 580
  const MOD_RESTUNE := 0

  function Pow256(n: nat): (p: nat)
    ensures p > 0
  {
    if n == 0 then 1 else 256 * Pow256(n - 1)
  }

  /** The range of a signed integer of `n` bytes. */
  ghost predicate Fits(v: int, n: nat) {
    0 <= 2 * v + Pow256(n) && 2 * v < Pow256(n)
  }

  function LittleEndian(v: nat, n: nat): (b: seq<byte>)
    ensures |b| == n
  {
    if n == 0 then [] else [v % 256] + LittleEndian(v / 256, n - 1)
  }

  function FromLittleEndian(b: seq<byte>): nat {
    if b == [] then 0 else b[0] + 256 * FromLittleEndian(b[1..])
  }

  function Signed(u: nat, n: nat): int {
    if 2 * u < Pow256(n) then u else u - Pow256(n)
  }

  /** A signed or unsigned value as its `n` bytes. */
  function Encode(v: int, n: nat): (b: seq<byte>)
    ensures |b| == n
  {
    LittleEndian(v % Pow256(n), n)
  }

  lemma {:induction false} LittleEndianRoundTrip(v: nat, n: nat)
    requires v < Pow256(n)
    ensures FromLittleEndian(LittleEndian(v, n)) == v
  {
    if n > 0 {
      assert v / 256 < Pow256(n - 1);
      LittleEndianRoundTrip(v / 256, n - 1);
      assert LittleEndian(v, n)[1..] == LittleEndian(v / 256, n - 1);
    }
  }

  lemma ModWraps(v: int, m: int)
    requires m > 0 && -m <= v < m
    ensures v % m == if v >= 0 then v else v + m
  {
    if v < 0 {
      assert (v + m) % m == v + m;
      assert v == (-1) * m + (v + m);
    }
  }

  /** The next `n` bytes as a signed integer, and what follows them. */
  function Take(b: seq<byte>, n: nat): Option<(int, seq<byte>)> {
    if |b| < n then None else Some((Signed(FromLittleEndian(b[..n]), n), b[n..]))
  }

  lemma TakeEncoded(v: int, n: nat, rest: seq<byte>)
    requires Fits(v, n)
    ensures Take(Encode(v, n) + rest, n) == Some((v, rest))
  {
    var p := Pow256(n);
    ModWraps(v, p);
    LittleEndianRoundTrip(v % p, n);
    assert (Encode(v, n) + rest)[..n] == Encode(v, n);
    assert (Encode(v, n) + rest)[n..] == rest;
  }

  /** The same for an unsigned value read back through a signed load. */
  lemma TakeUnsigned(v: nat, n: nat, rest: seq<byte>)
    requires v < Pow256(n)
    ensures Take(Encode(v, n) + rest, n) == Some((Signed(v, n), rest))
    ensures Signed(v, n) % Pow256(n) == v
  {
    ModWraps(v, Pow256(n));
    LittleEndianRoundTrip(v, n);
    assert (Encode(v, n) + rest)[..n] == Encode(v, n);
    assert (Encode(v, n) + rest)[n..] == rest;
    ModWraps(Signed(v, n), Pow256(n));
  }

  lemma PowersSpelledOut()
    ensures Pow256(0) == 1 && Pow256(1) == 0x100 && Pow256(2) == 0x1_0000 && Pow256(3) == 0x100_0000
    ensures Pow256(4) == 0x1_0000_0000 && Pow256(8) == 0x1_0000_0000_0000_0000
  {
    assert Pow256(3) == 256 * Pow256(2) == 256 * 256 * Pow256(1);
    assert Pow256(8) == 256 * Pow256(7) == 256 * 256 * Pow256(6) == 256 * 256 * 256 * Pow256(5);
  }

  /** The signed ranges. */
  lemma RangesSpelledOut(v: int)
    ensures Fits(v, 1) <==> -0x80 <= v < 0x80
    ensures Fits(v, 4) <==> -0x8000_0000 <= v < 0x8000_0000
    ensures Fits(v, 8) <==> -0x8000_0000_0000_0000 <= v < 0x8000_0000_0000_0000
  {
    PowersSpelledOut();
  }

  /** Four bytes as a number, the least significant first. */
  function Word(b0: int, b1: int, b2: int, b3: int): int {
    b0 + 0x100 * b1 + 0x1_0000 * b2 + 0x100_0000 * b3
  }

  /** The least significant byte comes first, and a negative value is stored as its residue. */
  lemma WordSpelledOut(v: int)
    ensures var b := Encode(v, 4); Word(b[0], b[1], b[2], b[3]) == v % 0x1_0000_0000
  {
    PowersSpelledOut();
    WordBytes(v % Pow256(4));
  }

  lemma LongSpelledOut(v: int)
    ensures var b := Encode(v, 8);
      Word(b[0], b[1], b[2], b[3]) + 0x1_0000_0000 * Word(b[4], b[5], b[6], b[7]) == v % 0x1_0000_0000_0000_0000
  {
    PowersSpelledOut();
    LongBytes(v % Pow256(8));
  }

  lemma ByteSpelledOut(v: int)
    ensures Encode(v, 1) == [v % 0x100]
  {
    PowersSpelledOut();
    assert LittleEndian(v % 0x100, 1) == [v % 0x100 % 256] + LittleEndian(v % 0x100 / 256, 0);
  }

  lemma WordBytes(w: nat)
    requires w < 0x1_0000_0000
    ensures var b := LittleEndian(w, 4); Word(b[0], b[1], b[2], b[3]) == w
  {
    FourBytes(w, 0);
    FourBytesLeave(w, 1);
  }

  lemma LongBytes(w: nat)
    requires w < 0x1_0000_0000_0000_0000
    ensures var b := LittleEndian(w, 8);
      Word(b[0], b[1], b[2], b[3]) + 0x1_0000_0000 * Word(b[4], b[5], b[6], b[7]) == w
  {
    var left, b := w / 256 / 256 / 256 / 256, LittleEndian(w, 8);
    FourBytes(w, 4);
    FourBytesLeave(w, 0x1_0000_0000);
    WordBytes(left);
    assert b[4] == b[4..][0] && b[5] == b[4..][1] && b[6] == b[4..][2] && b[7] == b[4..][3];
  }

  /** The first four bytes of a value, and that the rest are those of what is left of it. */
  lemma FourBytes(v: nat, more: nat)
    ensures var b, left := LittleEndian(v, 4 + more), v / 256 / 256 / 256 / 256;
      Word(b[0], b[1], b[2], b[3]) + 0x1_0000_0000 * left == v && b[4..] == LittleEndian(left, more)
  {
    var b := LittleEndian(v, 4 + more);
    assert b[1..] == LittleEndian(v / 256, 3 + more);
    assert b[2..] == b[1..][1..] == LittleEndian(v / 256 / 256, 2 + more);
    assert b[3..] == b[2..][1..] == LittleEndian(v / 256 / 256 / 256, 1 + more);
    assert b[4..] == b[3..][1..] == LittleEndian(v / 256 / 256 / 256 / 256, more);
  }

  lemma FourBytesLeave(v: nat, bound: nat)
    requires v < 0x1_0000_0000 * bound
    ensures v / 256 / 256 / 256 / 256 < bound
  {
    assert v / 256 < 0x100_0000 * bound;
    assert v / 256 / 256 < 0x1_0000 * bound;
    assert v / 256 / 256 / 256 < 0x100 * bound;
  }

  /** A run of 32-bit values. */
  function EncodeValues(values: seq<int>): (b: seq<byte>)
    ensures |b| == 4 * |values|
  {
    if values == [] then [] else EncodeValues(values[..|values| - 1]) + Encode(values[|values| - 1], 4)
  }

  /** The values lie one after the other, four bytes each. */
  lemma {:induction false} ValuesLayout(values: seq<int>, i: nat)
    requires i < |values|
    ensures EncodeValues(values)[4 * i..4 * i + 4] == Encode(values[i], 4)
  {
    var n := |values| - 1;
    if i < n {
      ValuesLayout(values[..n], i);
      assert EncodeValues(values)[4 * i..4 * i + 4] == EncodeValues(values[..n])[4 * i..4 * i + 4];
    }
  }

  /** A loop with a negative count does not run. */
  function NonNegative(n: int): (rounds: nat)
    ensures n <= rounds && (rounds == 0 || rounds == n)
  {
    if n < 0 then 0 else n
  }

  /** DEREF_AND_INCR: load `size` bytes at `ptr`. */
  method Deref(buf: array<byte>, ptr: nat, size: nat) returns (v: int)
    requires ptr + size <= buf.Length
    ensures Take(buf[ptr..], size) == Some((v, buf[ptr + size..]))
  {
    v := Signed(FromLittleEndian(buf[ptr..ptr + size]), size);
    assert buf[ptr..][..size] == buf[ptr..ptr + size] && buf[ptr..][size..] == buf[ptr + size..];
  }
}

/** The request messages: client encoders (client/APIs/UrmAPIs.cpp, FlatBuffEncoder) and
    the server's decoder (modula/Common/Request.cpp). */
module RequestWire {
  import opened Bytes
  import opened Wrappers

  const REQ_RESOURCE_TUNING := 0
  const REQ_RESOURCE_RETUNING := 1
  const REQ_RESOURCE_UNTUNING := 2
  const MAX_RES_PER_REQ := 20

  datatype SysResource = SysResource(mResCode: nat, mResInfo: int, mOptionalInfo: int, mNumValues: int, mValues: seq<int>)

  /** A request as the server sees it. */
  datatype WireRequest = WireRequest(
    mReqType: int, mHandle: int, mDuration: int, mProperties: int, mClientPID: int, mClientTID: int,
    mResources: seq<SysResource>)

  // ----- the format -----------------------------------------------------------------------

  function EncodeResource(r: SysResource): (b: seq<byte>)
    ensures |b| == 16 + 4 * |r.mValues|
  {
    Encode(r.mResCode, 4) + Encode(r.mResInfo, 4) + Encode(r.mOptionalInfo, 4) + Encode(r.mNumValues, 4)
    + EncodeValues(r.mValues)
  }

  function EncodeResources(rs: seq<SysResource>): (b: seq<byte>)
    ensures |b| == ResourceBytes(rs)
  {
    if rs == [] then [] else EncodeResources(rs[..|rs| - 1]) + EncodeResource(rs[|rs| - 1])
  }

  lemma EncodeResourcesStep(rs: seq<SysResource>, i: nat)
    requires i < |rs|
    ensures EncodeResources(rs[..i + 1]) == EncodeResources(rs[..i]) + EncodeResource(rs[i])
  {
    assert rs[..i + 1][..i] == rs[..i];
  }

  /** The sum of 16 + 4 * numValues over the resources. */
  function ResourceBytes(rs: seq<SysResource>): nat {
    if rs == [] then 0 else ResourceBytes(rs[..|rs| - 1]) + 16 + 4 * |rs[|rs| - 1].mValues|
  }

  function EncodeHeader(reqType: int, handle: int, duration: int, count: int, properties: int, pid: int, tid: int): (b: seq<byte>)
    ensures |b| == 34
  {
    Encode(MOD_RESTUNE, 1) + Encode(reqType, 1) + Encode(handle, 8) + Encode(duration, 8) + Encode(count, 4)
    + Encode(properties, 4) + Encode(pid, 4) + Encode(tid, 4)
  }

  /** Where each field of a header lies. */
  lemma HeaderLayout(reqType: int, handle: int, duration: int, count: int, properties: int, pid: int, tid: int)
    ensures var b := EncodeHeader(reqType, handle, duration, count, properties, pid, tid);
      && b[0..1] == Encode(0, 1) && b[1..2] == Encode(reqType, 1) && b[2..10] == Encode(handle, 8) && b[10..18] == Encode(duration, 8)
      && b[18..22] == Encode(count, 4) && b[22..26] == Encode(properties, 4) && b[26..30] == Encode(pid, 4) && b[30..34] == Encode(tid, 4)
  {
  }

  /** And of a resource. */
  lemma ResourceLayout(r: SysResource, i: nat)
    requires i < |r.mValues|
    ensures var b := EncodeResource(r);
      && b[0..4] == Encode(r.mResCode, 4) && b[4..8] == Encode(r.mResInfo, 4) && b[8..12] == Encode(r.mOptionalInfo, 4)
      && b[12..16] == Encode(r.mNumValues, 4) && b[16 + 4 * i..20 + 4 * i] == Encode(r.mValues[i], 4)
  {
    ValuesLayout(r.mValues, i);
    assert EncodeResource(r)[16..] == EncodeValues(r.mValues);
    assert EncodeResource(r)[16 + 4 * i..20 + 4 * i] == EncodeResource(r)[16..][4 * i..4 * i + 4];
  }

  /** The resources follow each other in order. */
  lemma {:induction false} ResourcesLayout(rs: seq<SysResource>, i: nat)
    requires i < |rs|
    ensures ResourceBytes(rs[..i]) + |EncodeResource(rs[i])| <= |EncodeResources(rs)|
    ensures EncodeResources(rs)[ResourceBytes(rs[..i])..ResourceBytes(rs[..i]) + |EncodeResource(rs[i])|] == EncodeResource(rs[i])
  {
    var n := |rs| - 1;
    if i < n {
      ResourcesLayout(rs[..n], i);
      assert rs[..n][..i] == rs[..i];
    }
  }

  // ----- decoding, as a function on the remaining bytes -------------------------------------

  function DecodeValues(b: seq<byte>, count: nat): Option<(seq<int>, seq<byte>)> {
    if count == 0 then Some(([], b))
    else
      match DecodeValues(b, count - 1)
      case None => None
      case Some((values, rest)) =>
        match Take(rest, 4)
        case None => None
        case Some((v, rest)) => Some((values + [v], rest))
  }

  function DecodeResource(b: seq<byte>): Option<(SysResource, seq<byte>)> {
    if |b| < 16 then None
    else
      var code := Take(b, 4).value.0;
      var info := Take(b[4..], 4).value.0;
      var optional := Take(b[8..], 4).value.0;
      var count := Take(b[12..], 4).value.0;
      match DecodeValues(b[16..], NonNegative(count))
      case None => None
      case Some((values, rest)) => Some((SysResource(code % Pow256(4), info, optional, count, values), rest))
  }

  function DecodeResources(b: seq<byte>, count: nat): Option<(seq<SysResource>, seq<byte>)> {
    if count == 0 then Some(([], b))
    else
      match DecodeResources(b, count - 1)
      case None => None
      case Some((rs, rest)) =>
        match DecodeResource(rest)
        case None => None
        case Some((r, rest)) => Some((rs + [r], rest))
  }

  /** Request::deserialize: the request and the bytes it did not look at. */
  function DecodeRequest(b: seq<byte>): Option<(WireRequest, seq<byte>)> {
    if |b| < 34 then None
    else
      var reqType := Take(b[1..], 1).value.0;
      var handle := Take(b[2..], 8).value.0;
      var duration := Take(b[10..], 8).value.0;
      var count := Take(b[18..], 4).value.0;
      var properties := Take(b[22..], 4).value.0;
      var pid := Take(b[26..], 4).value.0;
      var tid := Take(b[30..], 4).value.0;
      match (if reqType == REQ_RESOURCE_TUNING then DecodeResources(b[34..], NonNegative(count)) else Some(([], b[34..])))
      case None => None
      case Some((rs, rest)) => Some((WireRequest(reqType, handle, duration, properties, pid, tid, rs), rest))
  }

  // ----- the round trip ------------------------------------------------------------------------

  ghost predicate Representable(r: SysResource) {
    && 0 < r.mResCode < Pow256(4) && Bytes.Fits(r.mResInfo, 4) && Bytes.Fits(r.mOptionalInfo, 4)
    && Bytes.Fits(r.mNumValues, 4) && r.mNumValues == |r.mValues|
    && forall i :: 0 <= i < |r.mValues| ==> Bytes.Fits(r.mValues[i], 4)
  }

  lemma {:induction false} ValuesRoundTrip(values: seq<int>, rest: seq<byte>)
    requires forall i :: 0 <= i < |values| ==> Bytes.Fits(values[i], 4)
    ensures DecodeValues(EncodeValues(values) + rest, |values|) == Some((values, rest))
  {
    if values == [] {
      assert EncodeValues(values) + rest == rest;
    } else {
      var n := |values| - 1;
      var tail := Encode(values[n], 4) + rest;
      ValuesRoundTrip(values[..n], tail);
      assert EncodeValues(values) + rest == EncodeValues(values[..n]) + tail;
      TakeEncoded(values[n], 4, rest);
      assert values == values[..n] + [values[n]];
    }
  }

  lemma ResourceRoundTrip(r: SysResource, rest: seq<byte>)
    requires Representable(r)
    ensures DecodeResource(EncodeResource(r) + rest) == Some((r, rest))
  {
    var b := EncodeResource(r) + rest;
    var b16 := EncodeValues(r.mValues) + rest;
    var b12 := Encode(r.mNumValues, 4) + b16;
    var b8 := Encode(r.mOptionalInfo, 4) + b12;
    var b4 := Encode(r.mResInfo, 4) + b8;
    assert b == Encode(r.mResCode, 4) + b4 && b[4..] == b4 && b[8..] == b8 && b[12..] == b12 && b[16..] == b16;
    TakeUnsigned(r.mResCode, 4, b4);
    TakeEncoded(r.mResInfo, 4, b8);
    TakeEncoded(r.mOptionalInfo, 4, b12);
    TakeEncoded(r.mNumValues, 4, b16);
    ValuesRoundTrip(r.mValues, rest);
  }

  lemma {:induction false} ResourcesRoundTrip(rs: seq<SysResource>, rest: seq<byte>)
    requires forall i :: 0 <= i < |rs| ==> Representable(rs[i])
    ensures DecodeResources(EncodeResources(rs) + rest, |rs|) == Some((rs, rest))
  {
    if rs == [] {
      assert EncodeResources(rs) + rest == rest;
    } else {
      var n := |rs| - 1;
      var tail := EncodeResource(rs[n]) + rest;
      ResourcesRoundTrip(rs[..n], tail);
      assert EncodeResources(rs) + rest == EncodeResources(rs[..n]) + tail;
      ResourceRoundTrip(rs[n], rest);
      assert rs == rs[..n] + [rs[n]];
    }
  }

  /** The seven fields behind the module byte come back, and the rest follows. */
  lemma HeaderRoundTrip(reqType: int, handle: int, duration: int, count: int, properties: int, pid: int, tid: int, rest: seq<byte>)
    requires Bytes.Fits(reqType, 1) && Bytes.Fits(handle, 8) && Bytes.Fits(duration, 8) && Bytes.Fits(count, 4)
    requires Bytes.Fits(properties, 4) && Bytes.Fits(pid, 4) && Bytes.Fits(tid, 4)
    ensures var b := EncodeHeader(reqType, handle, duration, count, properties, pid, tid) + rest;
      && Take(b[1..], 1).value.0 == reqType && Take(b[2..], 8).value.0 == handle && Take(b[10..], 8).value.0 == duration
      && Take(b[18..], 4).value.0 == count && Take(b[22..], 4).value.0 == properties
      && Take(b[26..], 4).value.0 == pid && Take(b[30..], 4).value.0 == tid && b[34..] == rest
  {
    var b := EncodeHeader(reqType, handle, duration, count, properties, pid, tid) + rest;
    var b30 := Encode(tid, 4) + rest;
    var b26 := Encode(pid, 4) + b30;
    var b22 := Encode(properties, 4) + b26;
    var b18 := Encode(count, 4) + b22;
    var b10 := Encode(duration, 8) + b18;
    var b2 := Encode(handle, 8) + b10;
    var b1 := Encode(reqType, 1) + b2;
    assert b == Encode(MOD_RESTUNE, 1) + b1;
    assert b[1..] == b1 && b[2..] == b2 && b[10..] == b10;
    assert b[18..] == b18 && b[22..] == b22 && b[26..] == b26 && b[30..] == b30;
    TakeEncoded(reqType, 1, b2);
    TakeEncoded(handle, 8, b10);
    TakeEncoded(duration, 8, b18);
    TakeEncoded(count, 4, b22);
    TakeEncoded(properties, 4, b26);
    TakeEncoded(pid, 4, b30);
    TakeEncoded(tid, 4, rest);
  }

  ghost predicate RepresentableRequest(r: WireRequest) {
    && Bytes.Fits(r.mReqType, 1) && Bytes.Fits(r.mHandle, 8) && Bytes.Fits(r.mDuration, 8)
    && Bytes.Fits(r.mProperties, 4) && Bytes.Fits(r.mClientPID, 4) && Bytes.Fits(r.mClientTID, 4)
    && Bytes.Fits(|r.mResources|, 4) && (forall i :: 0 <= i < |r.mResources| ==> Representable(r.mResources[i]))
    && (r.mReqType != REQ_RESOURCE_TUNING ==> r.mResources == [])
  }

  function EncodeRequest(r: WireRequest): seq<byte> {
    EncodeHeader(r.mReqType, r.mHandle, r.mDuration, |r.mResources|, r.mProperties, r.mClientPID, r.mClientTID)
    + EncodeResources(r.mResources)
  }

  lemma RequestLength(r: WireRequest)
    ensures |EncodeRequest(r)| == 34 + ResourceBytes(r.mResources)
  {
  }

  /** Decoding an encoded request gives the request back and consumes exactly the bytes
      that were written, whatever padding follows. */
  lemma RequestRoundTrip(r: WireRequest, padding: seq<byte>)
    requires RepresentableRequest(r)
    ensures |EncodeRequest(r)| == 34 + ResourceBytes(r.mResources)
    ensures DecodeRequest(EncodeRequest(r) + padding) == Some((r, padding))
  {
    var rest := EncodeResources(r.mResources) + padding;
    var header := EncodeHeader(r.mReqType, r.mHandle, r.mDuration, |r.mResources|, r.mProperties, r.mClientPID, r.mClientTID);
    assert EncodeRequest(r) + padding == header + rest;
    HeaderRoundTrip(r.mReqType, r.mHandle, r.mDuration, |r.mResources|, r.mProperties, r.mClientPID, r.mClientTID, rest);
    ResourcesRoundTrip(r.mResources, padding);
    assert r.mReqType != REQ_RESOURCE_TUNING ==> EncodeResources(r.mResources) == [];
  }
}
