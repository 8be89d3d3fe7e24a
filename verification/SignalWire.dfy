/** Signal messages: the client encoder tuneSignal and the server's Signal::deserialize
    (client/APIs/UrmAPIs.cpp, modula/Common/Signal.cpp). */
module SignalWire {
  import opened Bytes
  import opened Wrappers

  const CLIENT_BUFFER_SIZE := 1024
  const REQ_SIGNAL_TUNING := 4

  datatype Signal = Signal(
    mReqType: int, mSignalCode: nat, mSignalType: nat, mHandle: int, mDuration: int, mAppName: seq<byte>,
    mScenario: seq<byte>, mProperties: int, mClientPID: int, mClientTID: int, mListArgs: seq<nat>)

  // ----- the format -----------------------------------------------------------------------

  function EncodeFixed(s: Signal): (b: seq<byte>)
    ensures |b| == 26
  {
    Encode(MOD_RESTUNE, 1) + Encode(s.mReqType, 1) + Encode(s.mSignalCode, 4) + Encode(s.mSignalType, 4)
    + Encode(s.mHandle, 8) + Encode(s.mDuration, 8)
  }

  function EncodeIds(s: Signal): (b: seq<byte>)
    ensures |b| == 16
  {
    Encode(|s.mListArgs|, 4) + Encode(s.mProperties, 4) + Encode(s.mClientPID, 4) + Encode(s.mClientTID, 4)
  }

  function EncodeStrings(s: Signal): (b: seq<byte>)
    ensures |b| == |s.mAppName| + |s.mScenario| + 2
  {
    s.mAppName + [0] + s.mScenario + [0]
  }

  function EncodeSignal(s: Signal): (b: seq<byte>)
    ensures |b| == 44 + |s.mAppName| + |s.mScenario| + 4 * |s.mListArgs|
  {
    EncodeFixed(s) + EncodeStrings(s) + EncodeIds(s) + EncodeValues(s.mListArgs)
  }

  /** Where each field of a signal lies; the strings end with a zero byte. */
  lemma SignalLayout(s: Signal, i: nat)
    requires i < |s.mListArgs|
    ensures var b, app, scenario := EncodeSignal(s), |s.mAppName|, |s.mScenario|;
      var ids := 28 + app + scenario;
      && b[0..1] == Encode(0, 1) && b[1..2] == Encode(s.mReqType, 1) && b[2..6] == Encode(s.mSignalCode, 4)
      && b[6..10] == Encode(s.mSignalType, 4) && b[10..18] == Encode(s.mHandle, 8) && b[18..26] == Encode(s.mDuration, 8)
      && b[26..26 + app] == s.mAppName && b[26 + app] == 0 && b[27 + app..27 + app + scenario] == s.mScenario && b[27 + app + scenario] == 0
      && b[ids..ids + 4] == Encode(|s.mListArgs|, 4) && b[ids + 4..ids + 8] == Encode(s.mProperties, 4)
      && b[ids + 8..ids + 12] == Encode(s.mClientPID, 4) && b[ids + 12..ids + 16] == Encode(s.mClientTID, 4)
      && b[ids + 16 + 4 * i..ids + 20 + 4 * i] == Encode(s.mListArgs[i], 4)
  {
    var b, ids := EncodeSignal(s), 28 + |s.mAppName| + |s.mScenario|;
    FixedLayout(s);
    assert b[..26] == EncodeFixed(s) && b[26..ids] == EncodeStrings(s) && b[ids..ids + 16] == EncodeIds(s);
    assert b[ids + 16..] == EncodeValues(s.mListArgs);
    IdsLayout(s);
    ValuesLayout(s.mListArgs, i);
    assert b[ids + 16 + 4 * i..ids + 20 + 4 * i] == b[ids + 16..][4 * i..4 * i + 4];
    SliceOfSlice(b, ids, ids + 16, 0, 4);
    SliceOfSlice(b, ids, ids + 16, 4, 8);
    SliceOfSlice(b, ids, ids + 16, 8, 12);
    SliceOfSlice(b, ids, ids + 16, 12, 16);
  }

  lemma FixedLayout(s: Signal)
    ensures var b := EncodeFixed(s);
      && b[0..1] == Encode(0, 1) && b[1..2] == Encode(s.mReqType, 1) && b[2..6] == Encode(s.mSignalCode, 4)
      && b[6..10] == Encode(s.mSignalType, 4) && b[10..18] == Encode(s.mHandle, 8) && b[18..26] == Encode(s.mDuration, 8)
  {
  }

  lemma IdsLayout(s: Signal)
    ensures var b := EncodeIds(s);
      && b[0..4] == Encode(|s.mListArgs|, 4) && b[4..8] == Encode(s.mProperties, 4)
      && b[8..12] == Encode(s.mClientPID, 4) && b[12..16] == Encode(s.mClientTID, 4)
  {
  }

  lemma SliceOfSlice(b: seq<byte>, m: nat, n: nat, i: nat, j: nat)
    requires m <= n <= |b| && i <= j <= n - m
    ensures b[m..n][i..j] == b[m + i..m + j]
  {
    assert forall k :: 0 <= k < j - i ==> b[m..n][i..j][k] == b[m + i..m + j][k];
  }

  /** A C string and what follows its terminator. */
  function TakeString(b: seq<byte>): Option<(seq<byte>, seq<byte>)> {
    if b == [] then None
    else if b[0] == 0 then Some(([], b[1..]))
    else
      match TakeString(b[1..])
      case None => None
      case Some((s, rest)) => Some(([b[0]] + s, rest))
  }

  function TakeArgs(b: seq<byte>, count: nat): Option<(seq<nat>, seq<byte>)> {
    if count == 0 then Some(([], b))
    else
      match TakeArgs(b, count - 1)
      case None => None
      case Some((args, rest)) =>
        match Take(rest, 4)
        case None => None
        case Some((v, rest)) => Some((args + [v % Pow256(4)], rest))
  }

  function DecodeTail(b: seq<byte>): Option<((seq<nat>, int, int, int), seq<byte>)> {
    if |b| < 16 then None
    else
      var count := Take(b, 4).value.0;
      match TakeArgs(b[16..], NonNegative(count))
      case None => None
      case Some((args, rest)) =>
        Some(((args, Take(b[4..], 4).value.0, Take(b[8..], 4).value.0, Take(b[12..], 4).value.0), rest))
  }

  /** Signal::deserialize. */
  function DecodeSignal(b: seq<byte>): Option<(Signal, seq<byte>)> {
    if |b| < 26 then None
    else
      match TakeString(b[26..])
      case None => None
      case Some((app, afterApp)) =>
        match TakeString(afterApp)
        case None => None
        case Some((scenario, afterScenario)) =>
          match DecodeTail(afterScenario)
          case None => None
          case Some((tail, rest)) =>
            Some((Signal(Take(b[1..], 1).value.0, Take(b[2..], 4).value.0 % Pow256(4), Take(b[6..], 4).value.0 % Pow256(4),
                         Take(b[10..], 8).value.0, Take(b[18..], 8).value.0, app, scenario, tail.1, tail.2, tail.3, tail.0), rest))
  }

  // ----- the round trip -------------------------------------------------------------------------

  ghost predicate Representable(s: Signal) {
    && Bytes.Fits(s.mReqType, 1) && s.mSignalCode < Pow256(4) && s.mSignalType < Pow256(4)
    && Bytes.Fits(s.mHandle, 8) && Bytes.Fits(s.mDuration, 8) && Bytes.Fits(s.mProperties, 4)
    && Bytes.Fits(s.mClientPID, 4) && Bytes.Fits(s.mClientTID, 4) && Bytes.Fits(|s.mListArgs|, 4)
    && (forall i :: 0 <= i < |s.mListArgs| ==> s.mListArgs[i] < Pow256(4))
    && 0 !in s.mAppName && 0 !in s.mScenario
  }

  lemma {:induction false} StringRoundTrip(str: seq<byte>, rest: seq<byte>)
    requires 0 !in str
    ensures TakeString(str + [0] + rest) == Some((str, rest))
  {
    var b := str + [0] + rest;
    if str == [] {
      assert b == [0] + rest;
    } else {
      StringRoundTrip(str[1..], rest);
      assert str == [str[0]] + str[1..];
      assert b[0] == str[0] && b[1..] == str[1..] + [0] + rest;
    }
  }

  lemma {:induction false} ArgsRoundTrip(args: seq<nat>, rest: seq<byte>)
    requires forall i :: 0 <= i < |args| ==> args[i] < Pow256(4)
    ensures TakeArgs(EncodeValues(args) + rest, |args|) == Some((args, rest))
  {
    if args == [] {
      assert EncodeValues(args) + rest == rest;
    } else {
      var n := |args| - 1;
      var tail := Encode(args[n], 4) + rest;
      ArgsRoundTrip(args[..n], tail);
      assert EncodeValues(args) + rest == EncodeValues(args[..n]) + tail;
      TakeUnsigned(args[n], 4, rest);
      assert args == args[..n] + [args[n]];
    }
  }

  lemma TailRoundTrip(s: Signal, rest: seq<byte>)
    requires Representable(s)
    ensures DecodeTail(EncodeIds(s) + EncodeValues(s.mListArgs) + rest)
         == Some(((s.mListArgs, s.mProperties, s.mClientPID, s.mClientTID), rest))
  {
    var b16 := EncodeValues(s.mListArgs) + rest;
    var b12 := Encode(s.mClientTID, 4) + b16;
    var b8 := Encode(s.mClientPID, 4) + b12;
    var b4 := Encode(s.mProperties, 4) + b8;
    var b := EncodeIds(s) + EncodeValues(s.mListArgs) + rest;
    assert b == Encode(|s.mListArgs|, 4) + b4 && b[4..] == b4 && b[8..] == b8 && b[12..] == b12 && b[16..] == b16;
    TakeEncoded(|s.mListArgs|, 4, b4);
    TakeEncoded(s.mProperties, 4, b8);
    TakeEncoded(s.mClientPID, 4, b12);
    TakeEncoded(s.mClientTID, 4, b16);
    ArgsRoundTrip(s.mListArgs, rest);
  }

  lemma FixedRoundTrip(s: Signal, rest: seq<byte>)
    requires Representable(s)
    ensures var b := EncodeFixed(s) + rest;
      && Take(b[1..], 1).value.0 == s.mReqType && Take(b[2..], 4).value.0 % Pow256(4) == s.mSignalCode
      && Take(b[6..], 4).value.0 % Pow256(4) == s.mSignalType && Take(b[10..], 8).value.0 == s.mHandle
      && Take(b[18..], 8).value.0 == s.mDuration && b[26..] == rest
  {
    var b := EncodeFixed(s) + rest;
    var b18 := Encode(s.mDuration, 8) + rest;
    var b10 := Encode(s.mHandle, 8) + b18;
    var b6 := Encode(s.mSignalType, 4) + b10;
    var b2 := Encode(s.mSignalCode, 4) + b6;
    var b1 := Encode(s.mReqType, 1) + b2;
    assert b == Encode(MOD_RESTUNE, 1) + b1;
    assert b[1..] == b1 && b[2..] == b2 && b[6..] == b6 && b[10..] == b10 && b[18..] == b18;
    TakeEncoded(s.mReqType, 1, b2);
    TakeUnsigned(s.mSignalCode, 4, b6);
    TakeUnsigned(s.mSignalType, 4, b10);
    TakeEncoded(s.mHandle, 8, b18);
    TakeEncoded(s.mDuration, 8, rest);
  }

  /** What the server decodes from any buffer that starts with an encoded signal is that
      signal: code, type, duration, both strings, properties, ids and arguments. */
  lemma SignalRoundTrip(s: Signal, buf: seq<byte>)
    requires Representable(s) && EncodeSignal(s) <= buf
    ensures DecodeSignal(buf) == Some((s, buf[|EncodeSignal(s)|..]))
  {
    var rest := buf[|EncodeSignal(s)|..];
    var tail := EncodeIds(s) + EncodeValues(s.mListArgs) + rest;
    var afterApp := s.mScenario + [0] + tail;
    assert buf == EncodeSignal(s) + rest;
    assert buf == EncodeFixed(s) + (s.mAppName + [0] + afterApp);
    FixedRoundTrip(s, s.mAppName + [0] + afterApp);
    StringRoundTrip(s.mAppName, afterApp);
    StringRoundTrip(s.mScenario, tail);
    TailRoundTrip(s, rest);
  }

  // ----- the code --------------------------------------------------------------------------------

  /** A raw store of `size` bytes through a moving pointer; nothing is checked. */
  method Assign(buf: array<byte>, ptr: nat, val: int, size: nat) returns (next: nat)
    requires ptr + size <= buf.Length
    modifies buf
    ensures next == ptr + size && buf[..next] == old(buf[..ptr]) + Encode(val, size)
  {
    var bytes := Encode(val, size);
    forall i | 0 <= i < size { buf[ptr + i] := bytes[i]; }
    next := ptr + size;
  }

  method AssignString(buf: array<byte>, ptr: nat, str: seq<byte>) returns (next: nat)
    requires ptr + |str| + 1 <= buf.Length
    modifies buf
    ensures next == ptr + |str| + 1 && buf[..next] == old(buf[..ptr]) + str + [0]
  {
    next := ptr;
    var k := 0;
    while k < |str|
      invariant 0 <= k <= |str| && next == ptr + k
      invariant buf[..next] == old(buf[..ptr]) + str[..k]
    {
      buf[next] := str[k];
      next := next + 1;
      k := k + 1;
    }
    buf[next] := 0;
    next := next + 1;
  }

  method AssignArgs(buf: array<byte>, ptr: nat, list: seq<nat>) returns (next: nat)
    requires ptr + 4 * |list| <= buf.Length
    modifies buf
    ensures next == ptr + 4 * |list| && buf[..next] == old(buf[..ptr]) + EncodeValues(list)
  {
    next := ptr;
    var i := 0;
    while i < |list|
      invariant 0 <= i <= |list| && next == ptr + 4 * i
      invariant buf[..next] == old(buf[..ptr]) + EncodeValues(list[..i])
    {
      next := Assign(buf, next, list[i], 4);
      assert list[..i + 1][..i] == list[..i];
      i := i + 1;
    }
    assert list[..i] == list;
  }

  method AssignCodes(buf: array<byte>, reqType: int, sigId: nat, sigType: nat) returns (next: nat)
    requires buf.Length >= 10
    modifies buf
    ensures next == 10 && buf[..next] == Encode(MOD_RESTUNE, 1) + Encode(reqType, 1) + Encode(sigId, 4) + Encode(sigType, 4)
  {
    next := Assign(buf, 0, MOD_RESTUNE, 1);
    next := Assign(buf, next, reqType, 1);
    next := Assign(buf, next, sigId, 4);
    next := Assign(buf, next, sigType, 4);
  }

  method AssignFixed(buf: array<byte>, reqType: int, sigId: nat, sigType: nat, duration: int, ghost s: Signal) returns (next: nat)
    requires buf.Length >= 26
    requires s.mReqType == reqType && s.mSignalCode == sigId && s.mSignalType == sigType && s.mHandle == 0 && s.mDuration == duration
    modifies buf
    ensures next == 26 && buf[..next] == EncodeFixed(s)
  {
    next := AssignCodes(buf, reqType, sigId, sigType);
    next := Assign(buf, next, 0, 8);
    next := Assign(buf, next, duration, 8);
  }

  method AssignIds(buf: array<byte>, ptr: nat, count: nat, properties: int, pid: int, tid: int) returns (next: nat)
    requires ptr + 16 <= buf.Length
    modifies buf
    ensures next == ptr + 16
    ensures buf[..next] == old(buf[..ptr]) + (Encode(count, 4) + Encode(properties, 4) + Encode(pid, 4) + Encode(tid, 4))
  {
    next := Assign(buf, ptr, count, 4);
    next := Assign(buf, next, properties, 4);
    next := Assign(buf, next, pid, 4);
    next := Assign(buf, next, tid, 4);
  }

  /** What a call of tuneSignal comes to. The stores are unchecked: `Overrun` stands for a
      store outside the client's 1024 bytes. */
  datatype Sending = Sent(buffer: seq<byte>) | Refused | Overrun

  /** How many bytes tuneSignal stores: it stops in front of a negative argument count, and
      behind the count when the properties are invalid. */
  function Stored(properties: int, appName: nat, scenario: nat, numArgs: int): nat {
    28 + appName + scenario + if numArgs < 0 then 0 else if properties < 0 then 4 else 16 + 4 * numArgs
  }

  /** A valid call stores its encoding. */
  lemma StoredIsEncoded(s: Signal)
    requires s.mProperties >= 0
    ensures Stored(s.mProperties, |s.mAppName|, |s.mScenario|, |s.mListArgs|) == |EncodeSignal(s)|
  {
  }

  /** tuneSignal, up to the send. */
  method TuneSignal(sigId: nat, sigType: nat, duration: int, properties: int, appName: seq<byte>, scenario: seq<byte>,
                    numArgs: int, list: seq<nat>, pid: int, tid: int) returns (result: Sending)
    requires numArgs <= |list|
    ensures var stored := Stored(properties, |appName|, |scenario|, numArgs);
      && (result == Overrun <==> duration >= -1 && stored > CLIENT_BUFFER_SIZE)
      && (result == Refused <==> duration < -1 || ((numArgs < 0 || properties < 0) && stored <= CLIENT_BUFFER_SIZE))
    ensures result.Sent? ==> numArgs >= 0
    ensures result.Sent? ==>
      var s := Signal(REQ_SIGNAL_TUNING, sigId, sigType, 0, duration, appName, scenario, properties, pid, tid, list[..numArgs]);
      |result.buffer| == CLIENT_BUFFER_SIZE && EncodeSignal(s) <= result.buffer
  {
    if duration < -1 { return Refused; }
    var args := if numArgs < 0 then [] else list[..numArgs];
    ghost var s := Signal(REQ_SIGNAL_TUNING, sigId, sigType, 0, duration, appName, scenario, properties, pid, tid, args);
    var buf := new byte[CLIENT_BUFFER_SIZE];
    var ptr := AssignFixed(buf, REQ_SIGNAL_TUNING, sigId, sigType, duration, s);
    if ptr + |appName| + 1 + |scenario| + 1 > CLIENT_BUFFER_SIZE { return Overrun; }
    ptr := AssignString(buf, ptr, appName);
    ptr := AssignString(buf, ptr, scenario);
    if numArgs < 0 { return Refused; }  // VALIDATE_GE throws
    if ptr + 4 > CLIENT_BUFFER_SIZE { return Overrun; }
    if properties < 0 { return Refused; }  // VALIDATE_GE throws after the argument count is stored
    assert buf[..ptr] == EncodeFixed(s) + EncodeStrings(s);
    if ptr + 16 + 4 * |args| > CLIENT_BUFFER_SIZE { return Overrun; }
    ptr := AssignIds(buf, ptr, |args|, properties, pid, tid);
    ptr := AssignArgs(buf, ptr, args);
    assert buf[..ptr] == EncodeSignal(s);
    return Sent(buf[..]);
  }

  /** The pointer walk over a C string; `ok` tells whether a terminator comes. */
  method ReadString(buf: array<byte>, start: nat) returns (ok: bool, str: seq<byte>, next: nat)
    requires start <= buf.Length
    ensures ok <==> TakeString(buf[start..]).Some?
    ensures ok ==> next <= buf.Length && TakeString(buf[start..]) == Some((str, buf[next..]))
  {
    str, next := [], start;
    ghost var first := buf[start..];
    assert TakeString(first).Some? ==> [] + TakeString(first).value.0 == TakeString(first).value.0;
    while next < buf.Length && buf[next] != 0
      invariant start <= next <= buf.Length
      invariant TakeString(first).Some? <==> TakeString(buf[next..]).Some?
      invariant TakeString(first).Some? ==>
        TakeString(first) == Some((str + TakeString(buf[next..]).value.0, TakeString(buf[next..]).value.1))
      decreases buf.Length - next
    {
      assert buf[next..][1..] == buf[next + 1..];
      ghost var rest := TakeString(buf[next + 1..]);
      assert rest.Some? ==> str + ([buf[next]] + rest.value.0) == str + [buf[next]] + rest.value.0;
      str := str + [buf[next]];
      next := next + 1;
    }
    if next == buf.Length { return false, str, next; }
    assert buf[next..][1..] == buf[next + 1..];
    assert str + [] == str;
    return true, str, next + 1;
  }

  /** The next argument is there and extends what was read. */
  lemma TakeArgsNext(b: seq<byte>, k: nat, n: nat)
    requires k < n && TakeArgs(b, n).Some?
    ensures TakeArgs(b, k).Some? && Take(TakeArgs(b, k).value.1, 4).Some?
    ensures var (args, rest) := TakeArgs(b, k).value; var (v, after) := Take(rest, 4).value;
      TakeArgs(b, k + 1) == Some((args + [v % Pow256(4)], after))
  {
    TakeArgsPrefix(b, k + 1, n);
  }

  method ReadTail(buf: array<byte>, start: nat)
    returns (ok: bool, args: seq<nat>, properties: int, pid: int, tid: int)
    requires start <= buf.Length
    ensures ok <==> DecodeTail(buf[start..]).Some?
    ensures ok ==> DecodeTail(buf[start..]).value.0 == (args, properties, pid, tid)
  {
    args, properties, pid, tid := [], 0, 0, 0;
    if start + 16 > buf.Length { return false, args, properties, pid, tid; }
    assert buf[start..][4..] == buf[start + 4..] && buf[start..][8..] == buf[start + 8..];
    assert buf[start..][12..] == buf[start + 12..] && buf[start..][16..] == buf[start + 16..];
    var numArgs := Deref(buf, start, 4);
    properties := Deref(buf, start + 4, 4);
    pid := Deref(buf, start + 8, 4);
    tid := Deref(buf, start + 12, 4);
    ok, args := ReadArgs(buf, start + 16, numArgs);
  }

  method ReadArgs(buf: array<byte>, start: nat, numArgs: int) returns (ok: bool, args: seq<nat>)
    requires start <= buf.Length
    ensures ok <==> TakeArgs(buf[start..], NonNegative(numArgs)).Some?
    ensures ok ==> TakeArgs(buf[start..], NonNegative(numArgs)).value.0 == args
  {
    ghost var first := buf[start..];
    var ptr, i := start, 0;
    args := [];
    while i < numArgs
      invariant 0 <= i <= NonNegative(numArgs) && start <= ptr <= buf.Length
      invariant TakeArgs(first, i) == Some((args, buf[ptr..]))
    {
      if TakeArgs(first, NonNegative(numArgs)).Some? { TakeArgsNext(first, i, NonNegative(numArgs)); }
      if ptr + 4 > buf.Length { return false, args; }
      var arg := Deref(buf, ptr, 4);
      ptr := ptr + 4;
      args := args + [arg % Pow256(4)];
      i := i + 1;
    }
    return true, args;
  }

  lemma {:induction false} TakeArgsPrefix(b: seq<byte>, k: nat, n: nat)
    requires k <= n && TakeArgs(b, n).Some?
    ensures TakeArgs(b, k).Some?
    decreases n - k
  {
    if k < n {
      TakeArgsPrefix(b, k + 1, n);
    }
  }

  /** Signal::deserialize walks on whatever the buffer says; none when a string is not
      terminated or a load would leave the buffer. */
  method Deserialize(buf: array<byte>) returns (signal: Option<Signal>)
    ensures signal.Some? <==> DecodeSignal(buf[..]).Some?
    ensures signal.Some? ==> signal.value == DecodeSignal(buf[..]).value.0
  {
    if buf.Length < 26 { return None; }
    assert buf[..][1..] == buf[1..] && buf[..][2..] == buf[2..] && buf[..][6..] == buf[6..];
    assert buf[..][10..] == buf[10..] && buf[..][18..] == buf[18..] && buf[..][26..] == buf[26..];
    var reqType := Deref(buf, 1, 1);
    var code := Deref(buf, 2, 4);
    var type_ := Deref(buf, 6, 4);
    var handle := Deref(buf, 10, 8);
    var duration := Deref(buf, 18, 8);
    var ok, app, ptr := ReadString(buf, 26);
    if !ok { return None; }
    var ok', scenario, ptr' := ReadString(buf, ptr);
    if !ok' { return None; }
    var read, args, properties, pid, tid := ReadTail(buf, ptr');
    if !read { return None; }
    return Some(Signal(reqType, code % Pow256(4), type_ % Pow256(4), handle, duration, app, scenario, properties, pid, tid, args));
  }

  /** The server receives the first 580 bytes of what tuneSignal sent; an encoding that
      fits there arrives intact. */
  lemma SentSignalIsReceived(s: Signal, sent: seq<byte>)
    requires Representable(s) && |sent| == CLIENT_BUFFER_SIZE && EncodeSignal(s) <= sent && |EncodeSignal(s)| <= REQ_BUFFER_SIZE
    ensures DecodeSignal(sent[..REQ_BUFFER_SIZE]).Some? && DecodeSignal(sent[..REQ_BUFFER_SIZE]).value.0 == s
  {
    SignalRoundTrip(s, sent[..REQ_BUFFER_SIZE]);
  }
}
