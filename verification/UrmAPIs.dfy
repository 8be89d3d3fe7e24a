/** The client's request encoders, writing through FlatBuffEncoder into a 580-byte buffer
    (client/APIs/UrmAPIs.cpp, modula/CoreModules AuxRoutines). */
module ClientAPIs {
  import opened Bytes
  import opened RequestWire
  import opened Wrappers

  class FlatBuffEncoder {
    var mBuffer: array?<byte>
    var mCurPtr: int
    var mRunningIndex: int
    /** Every byte the caller asked to append since the buffer was set. */
    ghost var Asked: seq<byte>

    ghost predicate Valid()
      reads this, mBuffer
    {
      mBuffer != null ==>
        && mBuffer.Length == REQ_BUFFER_SIZE
        && mRunningIndex == (if |Asked| < REQ_BUFFER_SIZE then |Asked| else REQ_BUFFER_SIZE)
        && (|Asked| < REQ_BUFFER_SIZE ==>
              && mCurPtr == |Asked| && mBuffer[..|Asked|] == Asked
              && forall i :: |Asked| <= i < REQ_BUFFER_SIZE ==> mBuffer[i] == 0)
    }

    constructor ()
      ensures Valid() && mBuffer == null
    {
      mBuffer, mCurPtr, mRunningIndex := null, 0, 0;
      Asked := [];
    }

    method SetBuf(buffer: array<byte>)
      requires buffer.Length == REQ_BUFFER_SIZE && forall i :: 0 <= i < buffer.Length ==> buffer[i] == 0
      modifies this
      ensures Valid() && mBuffer == buffer && Asked == []
    {
      mBuffer, mCurPtr, mRunningIndex := buffer, 0, 0;
      Asked := [];
    }

    /** append<T>, where T has `size` bytes.  An item that does not fit strictly inside
        the buffer writes nothing and blocks every later one. */
    method Append(val: int, size: nat)
      requires Valid() && 0 < size <= 8
      modifies this, mBuffer
      ensures Valid() && mBuffer == old(mBuffer)
      ensures mBuffer != null ==> Asked == old(Asked) + Bytes.Encode(val, size)
    {
      if mRunningIndex == -1 || mBuffer == null { return; }
      if mRunningIndex + size < REQ_BUFFER_SIZE {
        var bytes := Bytes.Encode(val, size);
        forall i | 0 <= i < size { mBuffer[mCurPtr + i] := bytes[i]; }
        mRunningIndex := mRunningIndex + size;
        mCurPtr := mCurPtr + size;
        Asked := Asked + bytes;
        assert mBuffer[..|Asked|] == Asked;
      } else {
        mRunningIndex := REQ_BUFFER_SIZE;
        Asked := Asked + Bytes.Encode(val, size);
      }
    }

    method IsBufSane() returns (sane: bool)
      requires Valid()
      ensures sane <==> mBuffer != null && |Asked| < REQ_BUFFER_SIZE
    {
      return !(mRunningIndex >= REQ_BUFFER_SIZE || mBuffer == null);
    }
  }

  /** A zeroed request buffer. */
  method NewBuffer() returns (buf: array<byte>)
    ensures fresh(buf) && buf.Length == REQ_BUFFER_SIZE && forall i :: 0 <= i < buf.Length ==> buf[i] == 0
  {
    buf := new byte[REQ_BUFFER_SIZE](_ => 0);
  }

  method AppendHeader(batch: FlatBuffEncoder, reqType: int, handle: int, duration: int, count: int, properties: int, pid: int, tid: int)
    requires batch.Valid() && batch.mBuffer != null && batch.Asked == []
    modifies batch, batch.mBuffer
    ensures batch.Valid() && batch.mBuffer == old(batch.mBuffer)
    ensures batch.Asked == EncodeHeader(reqType, handle, duration, count, properties, pid, tid)
  {
    batch.Append(MOD_RESTUNE, 1);
    batch.Append(reqType, 1);
    batch.Append(handle, 8);
    batch.Append(duration, 8);
    batch.Append(count, 4);
    batch.Append(properties, 4);
    batch.Append(pid, 4);
    batch.Append(tid, 4);
  }

  ghost predicate ValidResource(r: SysResource) {
    r.mResCode > 0 && r.mResInfo >= 0 && r.mOptionalInfo >= 0 && r.mNumValues > 0
  }

  method AppendValues(batch: FlatBuffEncoder, values: seq<int>)
    requires batch.Valid() && batch.mBuffer != null && values != []
    modifies batch, batch.mBuffer
    ensures batch.Valid() && batch.mBuffer == old(batch.mBuffer)
    ensures batch.Asked == old(batch.Asked) + EncodeValues(values)
  {
    ghost var start := batch.Asked;
    if |values| == 1 {
      batch.Append(values[0], 4);
      assert values[..0] == [] && EncodeValues(values) == Bytes.Encode(values[0], 4);
    } else {
      var j := 0;
      while j < |values|
        invariant 0 <= j <= |values|
        invariant batch.Valid() && batch.mBuffer == old(batch.mBuffer)
        invariant batch.Asked == start + EncodeValues(values[..j])
      {
        batch.Append(values[j], 4);
        assert values[..j + 1][..j] == values[..j];
        j := j + 1;
      }
      assert values[..j] == values;
    }
  }

  /** Append one resource; an invalid field throws before anything is sent. */
  method AppendResource(batch: FlatBuffEncoder, resource: SysResource) returns (thrown: bool)
    requires batch.Valid() && batch.mBuffer != null
    requires resource.mNumValues > 0 ==> resource.mNumValues == |resource.mValues|
    modifies batch, batch.mBuffer
    ensures batch.Valid() && batch.mBuffer == old(batch.mBuffer)
    ensures thrown <==> !ValidResource(resource)
    ensures !thrown ==> batch.Asked == old(batch.Asked) + EncodeResource(resource)
  {
    if resource.mResCode <= 0 { return true; }
    batch.Append(resource.mResCode, 4);
    if resource.mResInfo < 0 { return true; }
    batch.Append(resource.mResInfo, 4);
    if resource.mOptionalInfo < 0 { return true; }
    batch.Append(resource.mOptionalInfo, 4);
    if resource.mNumValues <= 0 { return true; }
    batch.Append(resource.mNumValues, 4);
    AppendValues(batch, resource.mValues);
    return false;
  }

  method AppendResources(batch: FlatBuffEncoder, list: seq<SysResource>) returns (thrown: bool)
    requires batch.Valid() && batch.mBuffer != null
    requires forall r :: r in list && r.mNumValues > 0 ==> r.mNumValues == |r.mValues|
    modifies batch, batch.mBuffer
    ensures batch.Valid() && batch.mBuffer == old(batch.mBuffer)
    ensures thrown <==> exists i :: 0 <= i < |list| && !ValidResource(list[i])
    ensures !thrown ==> batch.Asked == old(batch.Asked) + EncodeResources(list)
  {
    ghost var start := batch.Asked;
    var i := 0;
    while i < |list|
      invariant 0 <= i <= |list|
      invariant batch.Valid() && batch.mBuffer == old(batch.mBuffer)
      invariant batch.Asked == start + EncodeResources(list[..i])
      invariant forall k :: 0 <= k < i ==> ValidResource(list[k])
    {
      thrown := AppendResource(batch, list[i]);
      if thrown { return; }
      EncodeResourcesStep(list, i);
      i := i + 1;
    }
    assert list[..i] == list;
    return false;
  }

  ghost predicate TuneAccepted(duration: int, properties: int, numRes: int, list: Option<seq<SysResource>>)
    requires list.Some? ==> numRes <= |list.value|
  {
    && list.Some? && 0 < numRes <= MAX_RES_PER_REQ && duration != 0 && duration >= -1 && properties >= 0
    && (forall i :: 0 <= i < numRes ==> ValidResource(list.value[i]))
    && 34 + ResourceBytes(list.value[..numRes]) < REQ_BUFFER_SIZE
  }

  /** Write a request into the encoder's buffer. */
  method WriteRequest(batch: FlatBuffEncoder, duration: int, properties: int, list: seq<SysResource>, pid: int, tid: int)
    returns (thrown: bool)
    requires batch.Valid() && batch.mBuffer != null && batch.Asked == []
    requires forall r :: r in list && r.mNumValues > 0 ==> r.mNumValues == |r.mValues|
    modifies batch, batch.mBuffer
    ensures batch.Valid() && batch.mBuffer == old(batch.mBuffer)
    ensures thrown <==> exists i :: 0 <= i < |list| && !ValidResource(list[i])
    ensures !thrown ==>
      batch.Asked == EncodeRequest(WireRequest(REQ_RESOURCE_TUNING, 0, duration, properties, pid, tid, list))
  {
    AppendHeader(batch, REQ_RESOURCE_TUNING, 0, duration, |list|, properties, pid, tid);
    thrown := AppendResources(batch, list);
  }

  /** The buffer tuneResources sends, if it sends one. */
  method TuneResources(batch: FlatBuffEncoder, duration: int, properties: int, numRes: int,
                       resourceList: Option<seq<SysResource>>, pid: int, tid: int) returns (sent: Option<seq<byte>>)
    requires resourceList.Some? ==> numRes <= |resourceList.value|
    requires resourceList.Some? ==> forall r :: r in resourceList.value && r.mNumValues > 0 ==> r.mNumValues == |r.mValues|
    modifies batch
    ensures sent.Some? <==> TuneAccepted(duration, properties, numRes, resourceList)
    ensures sent.Some? <==>
      && resourceList.Some? && 0 < numRes <= 20 && (duration == -1 || 0 < duration) && properties >= 0
      && (forall i {:trigger resourceList.value[i]} :: 0 <= i < numRes ==>
            var r := resourceList.value[i]; r.mResCode > 0 && r.mResInfo >= 0 && r.mOptionalInfo >= 0 && r.mNumValues > 0)
      && 34 + |EncodeResources(resourceList.value[..numRes])| < 580
    ensures sent.Some? ==>
      var request := EncodeRequest(WireRequest(REQ_RESOURCE_TUNING, 0, duration, properties, pid, tid, resourceList.value[..numRes]));
      |sent.value| == REQ_BUFFER_SIZE && request <= sent.value && forall i :: |request| <= i < REQ_BUFFER_SIZE ==> sent.value[i] == 0
  {
    if resourceList.None? || numRes <= 0 || duration == 0 || duration < -1 { return None; }
    if numRes > MAX_RES_PER_REQ { return None; }
    if properties < 0 { return None; }  // VALIDATE_GE throws while the header is built
    var buf := NewBuffer();
    batch.SetBuf(buf);
    var list := resourceList.value[..numRes];
    assert forall i :: 0 <= i < numRes ==> list[i] == resourceList.value[i];
    var thrown := WriteRequest(batch, duration, properties, list, pid, tid);
    if thrown { return None; }
    var sane := batch.IsBufSane();
    RequestLength(WireRequest(REQ_RESOURCE_TUNING, 0, duration, properties, pid, tid, list));
    if !sane { return None; }
    return Some(buf[..]);
  }

  /** retuneResources and untuneResources: a header with no resources. */
  method HandleRequest(batch: FlatBuffEncoder, reqType: int, handle: int, duration: int, pid: int, tid: int) returns (sent: Option<seq<byte>>)
    requires reqType == REQ_RESOURCE_RETUNING || (reqType == REQ_RESOURCE_UNTUNING && duration == -1)
    modifies batch
    ensures sent.Some? <==> handle > 0 && duration != 0 && duration >= -1
    ensures sent.Some? ==>
      var request := EncodeRequest(WireRequest(reqType, handle, duration, 0, pid, tid, []));
      |sent.value| == REQ_BUFFER_SIZE && request <= sent.value && forall i :: |request| <= i < REQ_BUFFER_SIZE ==> sent.value[i] == 0
  {
    if handle <= 0 || duration == 0 || duration < -1 { return None; }
    var buf := NewBuffer();
    batch.SetBuf(buf);
    AppendHeader(batch, reqType, handle, duration, 0, 0, pid, tid);
    var sane := batch.IsBufSane();
    if !sane { return None; }
    assert batch.Asked == EncodeRequest(WireRequest(reqType, handle, duration, 0, pid, tid, []));
    return Some(buf[..]);
  }
}

/** The server's decoder (modula/Common/Request.cpp). */
module RequestDecoder {
  import opened Bytes
  import opened RequestWire
  import opened Wrappers

  class Request {
    var mReqType: int
    var mHandle: int
    var mDuration: int
    var mProperties: int
    var mClientPID: int
    var mClientTID: int
    var mResourceList: seq<SysResource>

    constructor ()
      ensures mResourceList == []
    {
      mReqType, mHandle, mDuration, mProperties, mClientPID, mClientTID := 0, 0, 0, 0, 0, 0;
      mResourceList := [];
    }

    ghost function Value(): WireRequest
      reads this
    {
      WireRequest(mReqType, mHandle, mDuration, mProperties, mClientPID, mClientTID, mResourceList)
    }

    /** The values of one resource from `start` on. */
    static method ReadValues(buf: array<byte>, start: nat, count: int) returns (ok: bool, values: seq<int>, ptr: nat)
      requires start <= buf.Length
      ensures ok <==> DecodeValues(buf[start..], NonNegative(count)).Some?
      ensures ok ==> ptr <= buf.Length && DecodeValues(buf[start..], NonNegative(count)) == Some((values, buf[ptr..]))
    {
      ghost var first := buf[start..];
      values, ptr := [], start;
      var j := 0;
      while j < count
        invariant 0 <= j <= NonNegative(count) && start <= ptr <= buf.Length
        invariant DecodeValues(first, j) == Some((values, buf[ptr..]))
      {
        if DecodeValues(first, NonNegative(count)).Some? { DecodeValuesPrefix(first, j + 1, NonNegative(count)); }
        if ptr + 4 > buf.Length { return false, values, ptr; }
        var v := Deref(buf, ptr, 4);
        ptr := ptr + 4;
        values := values + [v];
        j := j + 1;
      }
      return true, values, ptr;
    }

    static method ReadResource(buf: array<byte>, start: nat) returns (ok: bool, r: SysResource, ptr: nat)
      requires start <= buf.Length
      ensures ok <==> DecodeResource(buf[start..]).Some?
      ensures ok ==> ptr <= buf.Length && DecodeResource(buf[start..]) == Some((r, buf[ptr..]))
    {
      ok, r, ptr := false, SysResource(0, 0, 0, 0, []), start;
      if start + 16 > buf.Length { return; }
      assert buf[ptr..][4..] == buf[ptr + 4..] && buf[ptr..][8..] == buf[ptr + 8..];
      assert buf[ptr..][12..] == buf[ptr + 12..] && buf[ptr..][16..] == buf[ptr + 16..];
      var code := Deref(buf, ptr, 4);
      var info := Deref(buf, ptr + 4, 4);
      var optional := Deref(buf, ptr + 8, 4);
      var count := Deref(buf, ptr + 12, 4);
      var values;
      ok, values, ptr := ReadValues(buf, start + 16, count);
      r := SysResource(code % Pow256(4), info, optional, count, values);
    }

    static method ReadResources(buf: array<byte>, numResources: int) returns (ok: bool, list: seq<SysResource>)
      requires buf.Length >= 34
      ensures ok <==> DecodeResources(buf[34..], NonNegative(numResources)).Some?
      ensures ok ==> DecodeResources(buf[34..], NonNegative(numResources)).value.0 == list
    {
      ghost var first := buf[34..];
      list := [];
      var i, ptr := 0, 34;
      while i < numResources
        invariant 0 <= i <= NonNegative(numResources) && 0 <= ptr <= buf.Length
        invariant DecodeResources(first, i) == Some((list, buf[ptr..]))
      {
        if DecodeResources(first, NonNegative(numResources)).Some? {
          DecodeResourcesNext(first, i, NonNegative(numResources));
        }
        var read, r, next := ReadResource(buf, ptr);
        if !read { return false, list; }
        DecodeResourcesStep(first, i, list, buf[ptr..], r, buf[next..]);
        list := list + [r];
        ptr := next;
        i := i + 1;
      }
      return true, list;
    }

    /** The seven fields in front of the resources. */
    method ReadHeader(buf: array<byte>) returns (numResources: int)
      requires buf.Length >= 34
      modifies this
      ensures mResourceList == old(mResourceList)
      ensures mReqType == Take(buf[1..], 1).value.0 && mHandle == Take(buf[2..], 8).value.0
      ensures mDuration == Take(buf[10..], 8).value.0 && numResources == Take(buf[18..], 4).value.0
      ensures mProperties == Take(buf[22..], 4).value.0
      ensures mClientPID == Take(buf[26..], 4).value.0 && mClientTID == Take(buf[30..], 4).value.0
    {
      mReqType := Deref(buf, 1, 1);
      mHandle := Deref(buf, 2, 8);
      mDuration := Deref(buf, 10, 8);
      numResources := Deref(buf, 18, 4);
      mProperties := Deref(buf, 22, 4);
      mClientPID := Deref(buf, 26, 4);
      mClientTID := Deref(buf, 30, 4);
    }

    /** The source walks on whatever the counts in the buffer say; `ok` tells whether every
        load stayed inside the buffer. */
    method Deserialize(buf: array<byte>) returns (ok: bool)
      requires mResourceList == []
      modifies this
      ensures ok <==> DecodeRequest(buf[..]).Some?
      ensures ok ==> Value() == DecodeRequest(buf[..]).value.0
    {
      if buf.Length < 34 { return false; }
      var numResources := ReadHeader(buf);
      assert buf[..][1..] == buf[1..] && buf[..][2..] == buf[2..] && buf[..][10..] == buf[10..];
      assert buf[..][18..] == buf[18..] && buf[..][22..] == buf[22..] && buf[..][26..] == buf[26..];
      assert buf[..][30..] == buf[30..] && buf[..][34..] == buf[34..];
      ok := true;
      if mReqType == REQ_RESOURCE_TUNING {
        ok, mResourceList := ReadResources(buf, numResources);
      }
    }
  }

  lemma {:induction false} DecodeValuesPrefix(b: seq<byte>, k: nat, n: nat)
    requires k <= n && DecodeValues(b, n).Some?
    ensures DecodeValues(b, k).Some?
    decreases n - k
  {
    if k < n {
      DecodeValuesPrefix(b, k + 1, n);
    }
  }

  lemma {:induction false} DecodeResourcesNext(b: seq<byte>, k: nat, n: nat)
    requires k < n && DecodeResources(b, n).Some?
    ensures DecodeResources(b, k).Some? && DecodeResource(DecodeResources(b, k).value.1).Some?
    decreases n - k
  {
    if k + 1 < n {
      DecodeResourcesNext(b, k + 1, n);
    }
  }

  lemma DecodeResourcesStep(b: seq<byte>, k: nat, rs: seq<SysResource>, rest: seq<byte>, r: SysResource, after: seq<byte>)
    requires DecodeResources(b, k) == Some((rs, rest)) && DecodeResource(rest) == Some((r, after))
    ensures DecodeResources(b, k + 1) == Some((rs + [r], after))
  {
  }

  /** Main result for the wire: the buffer any accepted call sends decodes, on the server,
      to the request that was asked for. */
  lemma SentRequestIsReceived(r: WireRequest, buf: seq<byte>)
    requires RepresentableRequest(r) && EncodeRequest(r) <= buf
    ensures DecodeRequest(buf) == Some((r, buf[34 + ResourceBytes(r.mResources)..]))
  {
    RequestRoundTrip(r, buf[|EncodeRequest(r)|..]);
    assert buf == EncodeRequest(r) + buf[|EncodeRequest(r)|..];
  }
}

/** A call on the client and its arrival on the server. */
module RequestExchange {
  import opened Bytes
  import opened RequestWire
  import opened Wrappers
  import opened ClientAPIs
  import RequestDecoder

  lemma {:induction false} ResourceBytesAt(rs: seq<SysResource>, i: nat)
    requires i < |rs|
    ensures 16 + 4 * |rs[i].mValues| <= ResourceBytes(rs)
  {
    if i < |rs| - 1 { ResourceBytesAt(rs[..|rs| - 1], i); }
  }

  /** The fields of a resource are values of their machine types. */
  ghost predicate MachineResource(r: SysResource) {
    && r.mResCode < Pow256(4) && Bytes.Fits(r.mResInfo, 4) && Bytes.Fits(r.mOptionalInfo, 4)
    && (r.mNumValues > 0 ==> r.mNumValues == |r.mValues|)
    && forall j :: 0 <= j < |r.mValues| ==> Bytes.Fits(r.mValues[j], 4)
  }

  lemma SmallNumbersFit(n: nat)
    requires n < 0x8000_0000
    ensures Bytes.Fits(n, 4)
  {
    assert Pow256(4) == 256 * Pow256(3) == 256 * 256 * Pow256(2) == 256 * 256 * 256 * Pow256(1) == 0x1_0000_0000;
  }

  /** Every call the client accepts is one the wire format can carry. */
  lemma AcceptedIsRepresentable(duration: int, properties: int, numRes: int, list: seq<SysResource>, pid: int, tid: int)
    requires numRes <= |list| && TuneAccepted(duration, properties, numRes, Some(list))
    requires Bytes.Fits(duration, 8) && Bytes.Fits(properties, 4) && Bytes.Fits(pid, 4) && Bytes.Fits(tid, 4)
    requires forall r :: r in list ==> MachineResource(r)
    ensures RepresentableRequest(WireRequest(REQ_RESOURCE_TUNING, 0, duration, properties, pid, tid, list[..numRes]))
  {
    var rs := list[..numRes];
    SmallNumbersFit(numRes);
    ZeroFits();
    forall i | 0 <= i < |rs| ensures Representable(rs[i]) {
      assert rs[i] == list[i] && list[i] in list && MachineResource(list[i]) && ValidResource(list[i]);
      ResourceBytesAt(rs, i);
      SmallNumbersFit(|rs[i].mValues|);
    }
  }

  lemma ZeroFits()
    ensures Bytes.Fits(REQ_RESOURCE_TUNING, 1) && Bytes.Fits(0, 8) && Bytes.Fits(0, 4)
    ensures Bytes.Fits(REQ_RESOURCE_RETUNING, 1) && Bytes.Fits(REQ_RESOURCE_UNTUNING, 1)
  {
    assert Pow256(1) == 256 * Pow256(0);
  }

  /** tuneResources and, if it sends, the server's deserialize: the server holds exactly the
      request the caller asked for. */
  method Tune(batch: FlatBuffEncoder, server: RequestDecoder.Request, duration: int, properties: int, numRes: int,
              list: seq<SysResource>, pid: int, tid: int) returns (sent: bool)
    requires numRes <= |list| && server.mResourceList == []
    requires Bytes.Fits(duration, 8) && Bytes.Fits(properties, 4) && Bytes.Fits(pid, 4) && Bytes.Fits(tid, 4)
    requires forall r :: r in list ==> MachineResource(r)
    modifies batch, server
    ensures sent <==> TuneAccepted(duration, properties, numRes, Some(list))
    ensures sent ==> server.Value() == WireRequest(REQ_RESOURCE_TUNING, 0, duration, properties, pid, tid, list[..numRes])
  {
    var message := TuneResources(batch, duration, properties, numRes, Some(list), pid, tid);
    sent := message.Some?;
    if sent {
      var buf := new byte[|message.value|](i requires 0 <= i < |message.value| => message.value[i]);
      assert buf[..] == message.value;
      AcceptedIsRepresentable(duration, properties, numRes, list, pid, tid);
      RequestDecoder.SentRequestIsReceived(
        WireRequest(REQ_RESOURCE_TUNING, 0, duration, properties, pid, tid, list[..numRes]), buf[..]);
      var ok := server.Deserialize(buf);
    }
  }

  /** The same for retuneResources and untuneResources. */
  method Handle(batch: FlatBuffEncoder, server: RequestDecoder.Request, reqType: int, handle: int, duration: int, pid: int, tid: int)
    returns (sent: bool)
    requires reqType == REQ_RESOURCE_RETUNING || (reqType == REQ_RESOURCE_UNTUNING && duration == -1)
    requires server.mResourceList == []
    requires Bytes.Fits(handle, 8) && Bytes.Fits(duration, 8) && Bytes.Fits(pid, 4) && Bytes.Fits(tid, 4)
    modifies batch, server
    ensures sent <==> handle > 0 && duration != 0 && duration >= -1
    ensures sent ==> server.Value() == WireRequest(reqType, handle, duration, 0, pid, tid, [])
  {
    var message := HandleRequest(batch, reqType, handle, duration, pid, tid);
    sent := message.Some?;
    if sent {
      var buf := new byte[|message.value|](i requires 0 <= i < |message.value| => message.value[i]);
      assert buf[..] == message.value;
      ZeroFits();
      RequestDecoder.SentRequestIsReceived(WireRequest(reqType, handle, duration, 0, pid, tid, []), buf[..]);
      var ok := server.Deserialize(buf);
    }
  }
}
