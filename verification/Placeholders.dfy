/** Filling the placeholders of a signal's resources (resource-tuner/signals/SignalHandler),
    over the mutable resource objects of modula/Common/Resource. */
module SignalFilling {
  import Data = ResourceData
  import opened Wrappers

  const PLACEHOLDER := -1

  /** An unsigned argument stored in a signed value. */
  function AsInt32(arg: int): int {
    if arg < 0x8000_0000 then arg else arg - 0x1_0000_0000
  }

  /** An argument below 2^31 is stored as it is; any other 32-bit argument as the signed value
      with the same bits. */
  lemma ArgumentIsStored(arg: int)
    requires 0 <= arg < 0x1_0000_0000
    ensures arg < 0x8000_0000 ==> AsInt32(arg) == arg
    ensures -0x8000_0000 <= AsInt32(arg) < 0x8000_0000 && AsInt32(arg) % 0x1_0000_0000 == arg
  {
  }

  /** How many of the first `n` values are placeholders. */
  function Placeholders(vals: seq<int>, n: nat): (k: nat)
    requires n <= |vals|
    ensures k <= n
  {
    if n == 0 then 0 else Placeholders(vals, n - 1) + if vals[n - 1] == PLACEHOLDER then 1 else 0
  }

  lemma {:induction false} PlaceholdersGrow(vals: seq<int>, m: nat, n: nat)
    requires m <= n <= |vals|
    ensures Placeholders(vals, m) <= Placeholders(vals, n)
  {
    if m < n { PlaceholdersGrow(vals, m, n - 1); }
  }

  lemma {:induction false} PlaceholdersConcat(a: seq<int>, b: seq<int>, n: nat)
    requires n <= |a + b|
    ensures Placeholders(a + b, n) ==
      if n <= |a| then Placeholders(a, n) else Placeholders(a, |a|) + Placeholders(b, n - |a|)
  {
    if n > 0 { PlaceholdersConcat(a, b, n - 1); }
  }

  /** The value owed at position `i`: the next unused argument for a placeholder, where
      `base` arguments were used before; any other value as it is. */
  ghost predicate FilledAt(vals: seq<int>, out: seq<int>, args: seq<int>, base: nat, i: nat)
    requires i < |vals| && |out| == |vals|
  {
    if vals[i] == PLACEHOLDER then
      base + Placeholders(vals, i) < |args| && out[i] == AsInt32(args[base + Placeholders(vals, i)])
    else out[i] == vals[i]
  }

  ghost predicate Filled(vals: seq<int>, out: seq<int>, args: seq<int>, base: nat) {
    |out| == |vals| && forall i :: 0 <= i < |vals| ==> FilledAt(vals, out, args, base, i)
  }

  /** The first `j` positions are filled, the others are still the template's. */
  ghost predicate FilledUpTo(vals: seq<int>, out: seq<int>, args: seq<int>, base: nat, j: nat) {
    && |out| == |vals| && j <= |vals|
    && (forall i :: 0 <= i < j ==> FilledAt(vals, out, args, base, i))
    && forall i :: j <= i < |vals| ==> out[i] == vals[i]
  }

  lemma FillStep(vals: seq<int>, out: seq<int>, args: seq<int>, base: nat, j: nat)
    requires FilledUpTo(vals, out, args, base, j) && j < |vals|
    ensures var next := base + Placeholders(vals, j);
      && (vals[j] != PLACEHOLDER ==> FilledUpTo(vals, out, args, base, j + 1))
      && (vals[j] == PLACEHOLDER && next < |args| ==> FilledUpTo(vals, out[j := AsInt32(args[next])], args, base, j + 1))
  {
    var next := base + Placeholders(vals, j);
    if vals[j] == PLACEHOLDER && next < |args| {
      var filled := out[j := AsInt32(args[next])];
      forall i | 0 <= i < j ensures FilledAt(vals, filled, args, base, i) {
        assert FilledAt(vals, out, args, base, i);
      }
    }
  }

  /** Filling `a` and then `b` with what is left is filling both in reading order. */
  lemma FilledConcat(a: seq<int>, aOut: seq<int>, b: seq<int>, bOut: seq<int>, args: seq<int>, base: nat)
    requires Filled(a, aOut, args, 0) && Filled(b, bOut, args, base) && base == Placeholders(a, |a|)
    ensures Filled(a + b, aOut + bOut, args, 0)
  {
    forall i | 0 <= i < |a + b| ensures FilledAt(a + b, aOut + bOut, args, 0, i) {
      PlaceholdersConcat(a, b, i);
      if i < |a| {
        assert FilledAt(a, aOut, args, 0, i);
      } else {
        assert FilledAt(b, bOut, args, base, i - |a|);
      }
    }
  }

  // ----- all resources of a request -----------------------------------------------------

  /** All values of the first `n` resources, in reading order. */
  function Reading(resources: seq<Data.Resource>, n: nat): seq<int>
    requires n <= |resources|
  {
    if n == 0 then [] else Reading(resources, n - 1) + resources[n - 1].mValues
  }

  function PlaceholdersIn(resource: Data.Resource): nat {
    Placeholders(resource.mValues, |resource.mValues|)
  }

  /** How many arguments the first `n` resources use up. */
  function Needed(resources: seq<Data.Resource>, n: nat): nat
    requires n <= |resources|
  {
    if n == 0 then 0 else Needed(resources, n - 1) + PlaceholdersIn(resources[n - 1])
  }

  lemma {:induction false} NeededGrows(resources: seq<Data.Resource>, m: nat, n: nat)
    requires m <= n <= |resources|
    ensures Needed(resources, m) <= Needed(resources, n)
  {
    if m < n { NeededGrows(resources, m, n - 1); }
  }

  lemma {:induction false} NeededIsPlaceholders(resources: seq<Data.Resource>, n: nat)
    requires n <= |resources|
    ensures Needed(resources, n) == Placeholders(Reading(resources, n), |Reading(resources, n)|)
  {
    if n > 0 {
      NeededIsPlaceholders(resources, n - 1);
      PlaceholdersConcat(Reading(resources, n - 1), resources[n - 1].mValues, |Reading(resources, n)|);
    }
  }

  /** The copy agrees with its template in everything but placeholder values, which hold the
      arguments left over by the `base` placeholders before. */
  ghost predicate Instance(template: Data.Resource, copy: Data.Resource, args: seq<int>, base: nat) {
    template.(mValues := copy.mValues) == copy && Filled(template.mValues, copy.mValues, args, base)
  }

  /** The copies are instances of the first templates, each going on where the last stopped. */
  ghost predicate Instances(templates: seq<Data.Resource>, copies: seq<Data.Resource>, args: seq<int>) {
    |copies| <= |templates| && forall k :: 0 <= k < |copies| ==> InstanceAt(templates, copies, args, k)
  }

  ghost predicate InstanceAt(templates: seq<Data.Resource>, copies: seq<Data.Resource>, args: seq<int>, k: nat)
    requires k < |copies| <= |templates|
  {
    Instance(templates[k], copies[k], args, Needed(templates, k))
  }

  lemma InstancesSnoc(templates: seq<Data.Resource>, copies: seq<Data.Resource>, args: seq<int>, copy: Data.Resource)
    requires Instances(templates, copies, args) && |copies| < |templates|
    requires Instance(templates[|copies|], copy, args, Needed(templates, |copies|))
    ensures Instances(templates, copies + [copy], args)
  {
    forall k | 0 <= k < |copies| + 1 ensures InstanceAt(templates, copies + [copy], args, k) {
      assert k < |copies| ==> InstanceAt(templates, copies, args, k);
    }
  }

  lemma ReadingSnoc(a: seq<int>, aOut: seq<int>, args: seq<int>, base: nat, template: Data.Resource, copy: Data.Resource)
    requires Filled(a, aOut, args, 0) && base == Placeholders(a, |a|) && Instance(template, copy, args, base)
    ensures Filled(a + template.mValues, aOut + copy.mValues, args, 0)
  {
    FilledConcat(a, aOut, template.mValues, copy.mValues, args, base);
  }

  /** Read across all resources, the k-th placeholder holds the k-th argument and every
      other value is the template's. */
  lemma InstancesReadInOrder(templates: seq<Data.Resource>, copies: seq<Data.Resource>, args: seq<int>, n: nat)
    requires Instances(templates, copies, args) && n <= |copies|
    ensures Filled(Reading(templates, n), Reading(copies, n), args, 0)
  {
    var vals, out: seq<int> := [], [];
    for k := 0 to n
      invariant vals == Reading(templates, k) && out == Reading(copies, k) && Filled(vals, out, args, 0)
    {
      NeededIsPlaceholders(templates, k);
      assert InstanceAt(templates, copies, args, k);
      ReadingSnoc(vals, out, args, Needed(templates, k), templates[k], copies[k]);
      vals, out := vals + templates[k].mValues, out + copies[k].mValues;
    }
  }

  /** The places of -1 in front of value `j` of resource `k`, in reading order. */
  ghost function HolesBefore(templates: seq<Data.Resource>, k: nat, j: nat): set<(int, int)>
    requires k < |templates|
  {
    set a, b | 0 <= a <= k && 0 <= b < |templates[a].mValues| && (a < k || b < j) && templates[a].mValues[b] == -1 :: (a, b)
  }

  lemma {:induction false} HolesAreCounted(templates: seq<Data.Resource>, k: nat, j: nat)
    requires k < |templates| && j <= |templates[k].mValues|
    ensures |HolesBefore(templates, k, j)| == Needed(templates, k) + Placeholders(templates[k].mValues, j)
    decreases k, j
  {
    if j > 0 {
      HolesAreCounted(templates, k, j - 1);
      if templates[k].mValues[j - 1] == -1 {
        assert HolesBefore(templates, k, j) == HolesBefore(templates, k, j - 1) + {(k as int, j - 1)};
      } else {
        assert HolesBefore(templates, k, j) == HolesBefore(templates, k, j - 1);
      }
    } else if k > 0 {
      HolesAreCounted(templates, k - 1, |templates[k - 1].mValues|);
      assert HolesBefore(templates, k, 0) == HolesBefore(templates, k - 1, |templates[k - 1].mValues|);
    } else {
      assert HolesBefore(templates, 0, 0) == {};
    }
  }

  /** What a request made from templates and arguments below 2^31 holds, value by value: where the
      template has -1, the argument whose number is the count of -1s read before it; any other
      value, and everything else, is the template's. */
  lemma EachHoleTakesItsArgument(templates: seq<Data.Resource>, copies: seq<Data.Resource>, args: seq<int>, k: nat, j: nat)
    requires Instances(templates, copies, args) && k < |copies| && j < |templates[k].mValues|
    requires forall a :: 0 <= a < |args| ==> 0 <= args[a] < 0x8000_0000
    ensures copies[k] == templates[k].(mValues := copies[k].mValues) && |copies[k].mValues| == |templates[k].mValues|
    ensures templates[k].mValues[j] == -1 ==> |HolesBefore(templates, k, j)| < |args|
    ensures copies[k].mValues[j] == if templates[k].mValues[j] == -1 then args[|HolesBefore(templates, k, j)|] else templates[k].mValues[j]
  {
    assert InstanceAt(templates, copies, args, k);
    assert FilledAt(templates[k].mValues, copies[k].mValues, args, Needed(templates, k), j);
    HolesAreCounted(templates, k, j);
    if templates[k].mValues[j] == -1 { ArgumentIsStored(args[|HolesBefore(templates, k, j)|]); }
  }

  /** And how many arguments the templates use up in all. */
  lemma HolesAreNeeded(templates: seq<Data.Resource>)
    ensures templates != [] ==>
      Needed(templates, |templates|) == |HolesBefore(templates, |templates| - 1, |templates[|templates| - 1].mValues|)|
  {
    if templates != [] { HolesAreCounted(templates, |templates| - 1, |templates[|templates| - 1].mValues|); }
  }

  // ----- resource objects ---------------------------------------------------------------

  class Resource {
    var mResCode: int
    var mResInfo: bv32
    var mOptionalInfo: int
    var mNumValues: int
    /** Up to two values are kept inline, more in an allocated array. */
    const values: array<int>
    var valueArr: array?<int>

    ghost predicate Valid()
      reads this
    {
      && values.Length == 2 && 0 <= mNumValues
      && (mNumValues > 2 ==> valueArr != null && valueArr.Length == mNumValues)
    }

    ghost function Values(): seq<int>
      requires Valid()
      reads this, values, valueArr
    {
      if mNumValues <= 2 then values[..mNumValues] else valueArr[..]
    }

    ghost function Value(): Data.Resource
      requires Valid()
      reads this, values, valueArr
    {
      Data.Resource(mResCode, mResInfo, mOptionalInfo, Values())
    }

    method GetValueAt(index: int) returns (value: int)
      requires Valid()
      ensures value == if 0 <= index < mNumValues then Values()[index] else -1
    {
      if index < 0 || index >= mNumValues { return -1; }
      if mNumValues <= 2 { return values[index]; }
      return valueArr[index];
    }

    method SetValueAt(index: int, value: int) returns (ok: bool)
      requires Valid()
      modifies values, valueArr
      ensures ok == (0 <= index < mNumValues)
      ensures Values() == if ok then old(Values())[index := value] else old(Values())
    {
      if index < 0 || index >= mNumValues { return false; }
      if mNumValues > 2 {
        valueArr[index] := value;
      } else {
        values[index] := value;
      }
      return true;
    }

    /** The copy constructor: its own storage, value by value. */
    constructor Copy(resource: Resource)
      requires resource.Valid()
      ensures Valid() && Value() == resource.Value()
      ensures fresh(values) && (valueArr != null ==> fresh(valueArr))
    {
      values := new int[2];
      valueArr := null;
      mResCode := resource.mResCode;
      mNumValues := resource.mNumValues;
      mResInfo := resource.mResInfo;
      mOptionalInfo := resource.mOptionalInfo;
      new;
      if mNumValues > 2 { valueArr := new int[mNumValues]; }
      ghost var target := resource.Values();
      var i := 0;
      while i < mNumValues
        invariant 0 <= i <= mNumValues && Valid() && resource.Values() == target && |target| == mNumValues
        invariant fresh(values) && (valueArr != null ==> fresh(valueArr))
        invariant Values()[..i] == target[..i]
        modifies values, valueArr
      {
        var value := resource.GetValueAt(i);
        var ok := SetValueAt(i, value);
        i := i + 1;
      }
    }
  }

  // ----- createResourceTuningRequest ----------------------------------------------------

  /** The arguments of a signal as the server holds them: a list, or none, and their count. */
  datatype Signal = Signal(mListArgs: Option<seq<int>>, mNumArgs: int)

  ghost predicate SignalOk(signal: Signal) {
    signal.mListArgs.Some? ==> signal.mNumArgs == |signal.mListArgs.value|
  }

  ghost function Args(signal: Signal): seq<int> {
    if signal.mListArgs.Some? then signal.mListArgs.value else []
  }

  /** Placeholders can be served: there are none, or there is a list with enough arguments. */
  predicate Enough(signal: Signal, needed: nat) {
    needed == 0 || (signal.mListArgs.Some? && needed <= signal.mNumArgs)
  }

  /** One value: a placeholder takes the next argument, or fails when there is none. */
  method FillAt(resource: Resource, j: nat, signal: Signal, listIndex: nat) returns (ok: bool, nextIndex: nat)
    requires resource.Valid() && j < resource.mNumValues && SignalOk(signal)
    modifies resource.values, resource.valueArr
    ensures var placeholder := old(resource.Values())[j] == PLACEHOLDER;
      && (ok <==> !placeholder || listIndex < |Args(signal)|)
      && nextIndex == (if ok && placeholder then listIndex + 1 else listIndex)
      && resource.Values() == if ok && placeholder then old(resource.Values())[j := AsInt32(Args(signal)[listIndex])] else old(resource.Values())
  {
    var value := resource.GetValueAt(j);
    if value == PLACEHOLDER {
      if signal.mListArgs.None? { return false, listIndex; }
      if listIndex < signal.mNumArgs {
        var set_ := resource.SetValueAt(j, AsInt32(signal.mListArgs.value[listIndex]));
        return true, listIndex + 1;
      } else {
        return false, listIndex;
      }
    }
    return true, listIndex;
  }

  /** Fill the placeholders of one resource from argument `listIndex` on, until the arguments
      run out. */
  method FillPlaceholders(resource: Resource, signal: Signal, listIndex: nat) returns (ok: bool, nextIndex: nat)
    requires resource.Valid() && SignalOk(signal) && Enough(signal, listIndex)
    modifies resource.values, resource.valueArr
    ensures Enough(signal, nextIndex) && |resource.Values()| == |old(resource.Values())|
    ensures ok <==> Enough(signal, listIndex + Placeholders(old(resource.Values()), |old(resource.Values())|))
    ensures ok ==> nextIndex == listIndex + Placeholders(old(resource.Values()), |old(resource.Values())|)
    ensures ok ==> Filled(old(resource.Values()), resource.Values(), Args(signal), listIndex)
  {
    ghost var vals := resource.Values();
    nextIndex := listIndex;
    var j := 0;
    while j < resource.mNumValues
      invariant 0 <= j <= resource.mNumValues == |vals| && |resource.Values()| == |vals|
      invariant nextIndex == listIndex + Placeholders(vals, j) && Enough(signal, nextIndex)
      invariant FilledUpTo(vals, resource.Values(), Args(signal), listIndex, j)
    {
      PlaceholdersGrow(vals, j + 1, |vals|);
      FillStep(vals, resource.Values(), Args(signal), listIndex, j);
      ok, nextIndex := FillAt(resource, j, signal, nextIndex);
      if !ok { return; }
      j := j + 1;
    }
    return true, nextIndex;
  }

  /** Copy one template and fill the copy; none when the arguments run out. */
  method CopyFilled(template: Resource, signal: Signal, listIndex: nat) returns (resource: Resource?, nextIndex: nat)
    requires template.Valid() && SignalOk(signal) && Enough(signal, listIndex)
    ensures template.Valid() && Enough(signal, nextIndex)
    ensures resource != null <==> Enough(signal, listIndex + PlaceholdersIn(template.Value()))
    ensures resource != null ==> nextIndex == listIndex + PlaceholdersIn(template.Value())
    ensures resource != null ==> fresh(resource) && resource.Valid()
    ensures resource != null ==> Instance(template.Value(), resource.Value(), Args(signal), listIndex)
  {
    var copy := new Resource.Copy(template);
    var ok;
    ok, nextIndex := FillPlaceholders(copy, signal, listIndex);
    resource := if ok then copy else null;
  }

  /** The templates that are there, in order, among the first `n` entries. */
  function Present(entries: seq<Option<Data.Resource>>, n: nat): (templates: seq<Data.Resource>)
    requires n <= |entries|
    ensures |templates| <= n
  {
    if n == 0 then []
    else Present(entries, n - 1) + if entries[n - 1].None? then [] else [entries[n - 1].value]
  }

  lemma {:induction false} PresentIsPrefix(entries: seq<Option<Data.Resource>>, m: nat, n: nat)
    requires m <= n <= |entries|
    ensures Present(entries, m) <= Present(entries, n)
  {
    if m < n { PresentIsPrefix(entries, m, n - 1); }
  }

  /** The next template that is there: its place, and that its needs are part of the whole. */
  lemma NextTemplate(entries: seq<Option<Data.Resource>>, i: nat)
    requires i < |entries| && entries[i].Some?
    ensures var templates, m := Present(entries, |entries|), |Present(entries, i)|;
      && m < |templates| && templates[m] == entries[i].value && |Present(entries, i + 1)| == m + 1
      && Needed(templates, m + 1) <= Needed(templates, |templates|)
  {
    PresentIsPrefix(entries, i + 1, |entries|);
    NeededGrows(Present(entries, |entries|), |Present(entries, i)| + 1, |Present(entries, |entries|)|);
  }

  /** The object holds the value; a missing object stands for a missing entry. */
  ghost predicate Holds(r: Resource?, entry: Option<Data.Resource>)
    reads r, if r == null then {} else {r.values}, if r == null || r.valueArr == null then {} else {r.valueArr}
  {
    if r == null then entry.None? else r.Valid() && entry == Some(r.Value())
  }

  /** The resources hold these values. */
  ghost predicate Hold(resources: seq<Resource>, copies: seq<Data.Resource>)
    reads resources, set r | r in resources :: r.values, set r | r in resources && r.valueArr != null :: r.valueArr
  {
    |resources| == |copies| && forall k :: 0 <= k < |copies| ==> Holds(resources[k], Some(copies[k]))
  }

  /** One round: the next template's instance joins the request. */
  method AddInstance(template: Resource, signal: Signal, listIndex: nat, resources: seq<Resource>,
                     ghost templates: seq<Data.Resource>, ghost copies: seq<Data.Resource>)
    returns (ok: bool, nextIndex: nat, longer: seq<Resource>, ghost longerCopies: seq<Data.Resource>)
    requires template.Valid() && SignalOk(signal) && Enough(signal, listIndex) && Hold(resources, copies)
    requires |copies| < |templates| && templates[|copies|] == template.Value()
    requires Instances(templates, copies, Args(signal)) && listIndex == Needed(templates, |copies|)
    ensures Enough(signal, nextIndex) && (ok <==> Enough(signal, Needed(templates, |copies| + 1)))
    ensures ok ==> nextIndex == Needed(templates, |copies| + 1) && |longerCopies| == |copies| + 1
    ensures ok ==> Hold(longer, longerCopies) && Instances(templates, longerCopies, Args(signal))
    ensures forall r :: r in longer ==> r in resources || fresh(r)
  {
    label before:
    var resource;
    resource, nextIndex := CopyFilled(template, signal, listIndex);
    ok, longer, longerCopies := resource != null, resources, copies;
    if ok {
      longer, longerCopies := resources + [resource], copies + [resource.Value()];
      InstancesSnoc(templates, copies, Args(signal), resource.Value());
      forall k | 0 <= k < |longerCopies| ensures Holds(longer[k], Some(longerCopies[k])) {
        assert k < |copies| ==> old@before(Holds(resources[k], Some(copies[k])));
      }
    }
  }

  /** Where the loop over the templates stands before entry `i`. */
  ghost predicate Progress(entries: seq<Option<Data.Resource>>, i: nat, copies: seq<Data.Resource>, signal: Signal, listIndex: nat)
    requires i <= |entries|
  {
    var templates := Present(entries, |entries|);
    && |copies| == |Present(entries, i)| <= |templates|
    && Instances(templates, copies, Args(signal))
    && Enough(signal, listIndex) && listIndex == Needed(templates, |copies|)
  }

  ghost predicate EnoughForAll(entries: seq<Option<Data.Resource>>, signal: Signal) {
    var templates := Present(entries, |entries|);
    Enough(signal, Needed(templates, |templates|))
  }

  /** One entry: a missing template is skipped, any other is instantiated. */
  method Round(lock: Resource?, signal: Signal, listIndex: nat, resources: seq<Resource>,
               ghost entries: seq<Option<Data.Resource>>, ghost i: nat, ghost copies: seq<Data.Resource>)
    returns (ok: bool, nextIndex: nat, longer: seq<Resource>, ghost longerCopies: seq<Data.Resource>)
    requires i < |entries| && Holds(lock, entries[i]) && SignalOk(signal) && Hold(resources, copies)
    requires Progress(entries, i, copies, signal, listIndex)
    ensures ok ==> Hold(longer, longerCopies) && Progress(entries, i + 1, longerCopies, signal, nextIndex)
    ensures !ok ==> !EnoughForAll(entries, signal)
    ensures forall r :: r in longer ==> r in resources || fresh(r)
  {
    if lock == null { return true, listIndex, resources, copies; }
    NextTemplate(entries, i);
    ghost var templates := Present(entries, |entries|);
    ok, nextIndex, longer, longerCopies := AddInstance(lock, signal, listIndex, resources, templates, copies);
  }

  /** The request made from a signal's templates: a fresh resource for each template that is
      there, the k-th placeholder in reading order replaced by the k-th argument, all else
      unchanged, the templates untouched; none exactly when the arguments do not suffice. */
  method CreateResourceTuningRequest(signalLocks: seq<Resource?>, signal: Signal, ghost entries: seq<Option<Data.Resource>>)
    returns (request: Option<seq<Resource>>, ghost copies: seq<Data.Resource>)
    requires SignalOk(signal) && |signalLocks| == |entries|
    requires forall k :: 0 <= k < |entries| ==> Holds(signalLocks[k], entries[k])
    ensures var templates := Present(entries, |entries|);
      && (request.Some? <==>
            (Needed(templates, |templates|) == 0 || (signal.mListArgs.Some? && Needed(templates, |templates|) <= |signal.mListArgs.value|)))
      && (request.Some? ==> |copies| == |templates| && Instances(templates, copies, Args(signal)))
    ensures request.Some? ==> Hold(request.value, copies) && forall r :: r in request.value ==> fresh(r)
  {
    var resources: seq<Resource> := [];
    var listIndex, i := 0, 0;
    copies := [];
    while i < |signalLocks|
      invariant 0 <= i <= |signalLocks| && Progress(entries, i, copies, signal, listIndex)
      invariant Hold(resources, copies) && forall r :: r in resources ==> fresh(r)
    {
      assert old(Holds(signalLocks[i], entries[i]));
      var ok;
      ok, listIndex, resources, copies := Round(signalLocks[i], signal, listIndex, resources, entries, i, copies);
      if !ok { return None, copies; }
      i := i + 1;
    }
    return Some(resources), copies;
  }
}
