/** The resource registry (resource-tuner/core/ResourceRegistry): configurations in a table,
    an index from resource codes to table rows, overwrites in place. */
module ResourceRegistration {
  import opened ResourceData
  import opened Wrappers

  type UInt8 = x: int | 0 <= x < 0x100
  type UInt16 = x: int | 0 <= x < 0x1_0000
  type UInt32 = x: int | 0 <= x < 0x1_0000_0000

  datatype ResourceConfig = ResourceConfig(mResourceResID: UInt16, mResourceResType: UInt8, info: ResConfInfo)

  /** One call: a configuration or none, from the common file or from a custom one. */
  datatype Registration = Registration(config: Option<ResourceConfig>, isBuSpecified: bool)

  const MSB: UInt32 := 0x8000_0000

  /** The code with its most significant bit set. */
  function Marked(code: UInt32): UInt32 {
    if code < MSB then code + MSB else code
  }

  predicate Malformed(config: Option<ResourceConfig>) {
    config.None? || config.value.mResourceResType == 0
  }

  /** The two fields side by side in one word; they share no bits, so their union is a sum. */
  function Code(config: ResourceConfig): UInt32 {
    config.mResourceResID + config.mResourceResType * 0x1_0000
  }

  /** The key a well-formed registration ends up under. */
  function Key(r: Registration): UInt32
    requires !Malformed(r.config)
  {
    if r.isBuSpecified then Marked(Code(r.config.value)) else Code(r.config.value)
  }

  /** Codes separate resources, marked or not, and a marked code is nobody's plain code. */
  lemma CodesAreDistinct(a: ResourceConfig, b: ResourceConfig)
    ensures Code(a) == Code(b) <==> a.mResourceResID == b.mResourceResID && a.mResourceResType == b.mResourceResType
    ensures Marked(Code(a)) == Marked(Code(b)) <==> Code(a) == Code(b)
    ensures Marked(Code(a)) != Code(b)
  {
  }

  /** The word a resource answers to: its id in bits 0 to 15, its type in bits 16 to 23, and the
      most significant bit for a custom one. */
  lemma CodeSpelledOut(config: ResourceConfig)
    ensures Code(config) % 0x1_0000 == config.mResourceResID && Code(config) / 0x1_0000 == config.mResourceResType
    ensures Marked(Code(config)) == Code(config) + 0x8000_0000
  {
  }

  // ----- the plain map the registry stands for ----------------------------------------

  type Table = map<UInt32, ResourceConfig>

  /** A common configuration takes its code; a custom one takes its marked code and retires
      the common one. */
  function Register(m: Table, r: Registration): Table {
    if Malformed(r.config) then m
    else if r.isBuSpecified then (m - {Code(r.config.value)})[Key(r) := r.config.value]
    else m[Key(r) := r.config.value]
  }

  function RegisterAll(m: Table, rs: seq<Registration>): Table {
    if rs == [] then m else Register(RegisterAll(m, rs[..|rs| - 1]), rs[|rs| - 1])
  }

  function Lookup(m: Table, key: UInt32): Option<ResourceConfig> {
    if key in m then Some(m[key]) else None
  }

  /** What one registration changes for any key. A missing configuration and one of type 0 change
      nothing; a common one answers at its word; a custom one answers at its marked word, and
      nothing answers at the plain word any more. */
  lemma RegistrationSpelledOut(m: Table, config: ResourceConfig, key: UInt32)
    ensures var word := config.mResourceResID + 0x1_0000 * config.mResourceResType;
      && Lookup(m, key) == (if key in m then Some(m[key]) else None)
      && Register(m, Registration(None, true)) == Register(m, Registration(None, false)) == m
      && (config.mResourceResType == 0 ==>
            Register(m, Registration(Some(config), true)) == Register(m, Registration(Some(config), false)) == m)
      && (config.mResourceResType != 0 ==>
            && Lookup(Register(m, Registration(Some(config), false)), key) == (if key == word then Some(config) else Lookup(m, key))
            && Lookup(Register(m, Registration(Some(config), true)), key) ==
                 if key == word + 0x8000_0000 then Some(config) else if key == word then None else Lookup(m, key))
  {
  }

  /** The registration answers for `key`, by writing it or by retiring it. */
  predicate Decides(r: Registration, key: UInt32) {
    !Malformed(r.config) && (key == Key(r) || (r.isBuSpecified && key == Code(r.config.value)))
  }

  /** The position of the last registration that decides `key`, or -1. */
  function LastDecider(rs: seq<Registration>, key: UInt32): (k: int)
    ensures -1 <= k < |rs| && (0 <= k ==> Decides(rs[k], key))
    ensures forall j :: k < j < |rs| ==> !Decides(rs[j], key)
  {
    if rs == [] then -1
    else if Decides(rs[|rs| - 1], key) then |rs| - 1
    else LastDecider(rs[..|rs| - 1], key)
  }

  /** After any sequence of registrations a key answers with the configuration of the last
      registration that decides it, or with nothing if that one retired it. */
  lemma {:induction false} LastDeciderWins(rs: seq<Registration>, key: UInt32)
    ensures var k := LastDecider(rs, key);
      Lookup(RegisterAll(map[], rs), key) == if k >= 0 && key == Key(rs[k]) then rs[k].config else None
  {
    if rs != [] {
      LastDeciderWins(rs[..|rs| - 1], key);
    }
  }

  // ----- the table and its index --------------------------------------------------------

  type Index = map<UInt32, int>

  /** The index leads into the table, and no two keys to the same row. */
  ghost predicate Fits(configs: seq<ResourceConfig>, index: Index) {
    && (forall k :: k in index ==> 0 <= index[k] < |configs|)
    && forall k, l :: k in index && l in index && k != l ==> index[k] != index[l]
  }

  /** The map a table and its index stand for. */
  ghost function View(configs: seq<ResourceConfig>, index: Index): Table
    requires Fits(configs, index)
  {
    map k | k in index :: configs[index[k]]
  }

  lemma OverwriteRefines(configs: seq<ResourceConfig>, index: Index, key: UInt32, config: ResourceConfig)
    requires Fits(configs, index) && key in index
    ensures var rows := configs[index[key] := config];
      Fits(rows, index) && View(rows, index) == View(configs, index)[key := config]
  {
  }

  lemma RekeyRefines(configs: seq<ResourceConfig>, index: Index, key: UInt32, other: UInt32)
    requires Fits(configs, index) && key in index && other != key
    ensures var rekeyed := (index - {key})[other := index[key]];
      && Fits(configs, rekeyed)
      && View(configs, rekeyed) == (View(configs, index) - {key})[other := View(configs, index)[key]]
      && |rekeyed| == if other in index then |index| - 1 else |index|
  {
    var rekeyed := (index - {key})[other := index[key]];
    assert rekeyed.Keys == index.Keys - {key} + {other};
    assert Fits(configs, rekeyed);
  }

  lemma AppendFits(configs: seq<ResourceConfig>, index: Index, key: UInt32, config: ResourceConfig)
    requires Fits(configs, index)
    ensures Fits(configs + [config], index[key := |configs|])
    ensures |index[key := |configs|]| == if key in index then |index| else |index| + 1
  {
    assert index[key := |configs|].Keys == index.Keys + {key};
  }

  lemma AppendRefines(configs: seq<ResourceConfig>, index: Index, key: UInt32, config: ResourceConfig)
    requires Fits(configs, index) && Fits(configs + [config], index[key := |configs|])
    ensures View(configs + [config], index[key := |configs|]) == View(configs, index)[key := config]
  {
  }

  /** Whichever branch is taken, the result is the plain map's. */
  lemma BranchesRefine(m: Table, code: UInt32, marked: UInt32, config: ResourceConfig)
    requires code != marked
    ensures (m[code := config] - {code})[marked := config] == (m - {code})[marked := config]
    ensures code !in m ==> m - {code} == m
  {
    assert m[code := config] - {code} == m - {code};
  }

  class ResourceRegistry {
    var mResourceConfigs: seq<ResourceConfig>
    var mSystemIndependentLayerMappings: Index
    var mTotalResources: int

    ghost predicate Valid()
      reads this
    {
      mTotalResources == |mResourceConfigs| && Fits(mResourceConfigs, mSystemIndependentLayerMappings)
    }

    ghost function Value(): Table
      requires Valid()
      reads this
    {
      View(mResourceConfigs, mSystemIndependentLayerMappings)
    }

    /** Every row of the table is reached by a key. */
    ghost predicate NoOrphans()
      reads this
    {
      |mSystemIndependentLayerMappings| == mTotalResources
    }

    constructor ()
      ensures Valid() && Value() == map[] && NoOrphans()
    {
      mResourceConfigs, mSystemIndependentLayerMappings, mTotalResources := [], map[], 0;
    }

    method GetResourceTableIndex(resourceId: UInt32) returns (index: int)
      requires Valid()
      ensures index == -1 <==> resourceId !in Value()
      ensures index != -1 ==> 0 <= index < |mResourceConfigs| && mResourceConfigs[index] == Value()[resourceId]
    {
      if resourceId !in mSystemIndependentLayerMappings { return -1; }
      index := mSystemIndependentLayerMappings[resourceId];
    }

    method GetResConf(resourceId: UInt32) returns (config: Option<ResourceConfig>)
      requires Valid()
      ensures config == Lookup(Value(), resourceId)
    {
      if resourceId !in mSystemIndependentLayerMappings { return None; }
      var resourceTableIndex := mSystemIndependentLayerMappings[resourceId];
      if resourceTableIndex == -1 { return None; }
      config := Some(mResourceConfigs[resourceTableIndex]);
    }

    /** Refines the plain map. A row is orphaned exactly when a custom configuration lands
        on a key that another custom one already holds. */
    method RegisterResource(r: Registration)
      requires Valid()
      modifies this
      ensures Valid() && Value() == Register(old(Value()), r)
      ensures old(NoOrphans()) ==>
        (NoOrphans() <==> Malformed(r.config) || !r.isBuSpecified || Key(r) !in old(Value()))
    {
      if Malformed(r.config) { return; }
      var resourceConfigInfo := r.config.value;
      var resourceBitmap := Code(resourceConfigInfo);
      CodesAreDistinct(resourceConfigInfo, resourceConfigInfo);
      BranchesRefine(Value(), resourceBitmap, Marked(resourceBitmap), resourceConfigInfo);
      if resourceBitmap in mSystemIndependentLayerMappings {
        var resourceTableIndex := mSystemIndependentLayerMappings[resourceBitmap];
        OverwriteRefines(mResourceConfigs, mSystemIndependentLayerMappings, resourceBitmap, resourceConfigInfo);
        mResourceConfigs := mResourceConfigs[resourceTableIndex := resourceConfigInfo];
        if r.isBuSpecified {
          RekeyRefines(mResourceConfigs, mSystemIndependentLayerMappings, resourceBitmap, Marked(resourceBitmap));
          mSystemIndependentLayerMappings := mSystemIndependentLayerMappings - {resourceBitmap};
          resourceBitmap := Marked(resourceBitmap);
          mSystemIndependentLayerMappings := mSystemIndependentLayerMappings[resourceBitmap := resourceTableIndex];
        }
      } else {
        if r.isBuSpecified {
          resourceBitmap := Marked(resourceBitmap);
        }
        AppendFits(mResourceConfigs, mSystemIndependentLayerMappings, resourceBitmap, resourceConfigInfo);
        AppendRefines(mResourceConfigs, mSystemIndependentLayerMappings, resourceBitmap, resourceConfigInfo);
        mSystemIndependentLayerMappings := mSystemIndependentLayerMappings[resourceBitmap := mTotalResources];
        mResourceConfigs := mResourceConfigs + [resourceConfigInfo];
        mTotalResources := mTotalResources + 1;
      }
    }

    /** Load any sequence of configurations into an empty registry. */
    method RegisterEach(rs: seq<Registration>)
      requires Valid() && Value() == map[]
      modifies this
      ensures Valid() && Value() == RegisterAll(map[], rs)
    {
      for i := 0 to |rs|
        invariant Valid() && Value() == RegisterAll(map[], rs[..i])
      {
        RegisterResource(rs[i]);
        assert rs[..i + 1][..i] == rs[..i];
      }
      assert rs[..|rs|] == rs;
    }
  }
}
