/** The resource record carried by a request, and the configuration it refers to. */
module ResourceData {
  import opened PolicyOrder
  import V = RequestVerification

  /** modula/Common/Resource: code, packed core/cluster info, and the values. */
  datatype Resource = Resource(mResCode: int, mResInfo: bv32, mOptionalInfo: int, mValues: seq<int>)
  {
    function GetCoreValue(): int {
      V.CoreOf(mResInfo) as int
    }

    function GetClusterValue(): int {
      V.ClusterOf(mResInfo) as int
    }

    function GetValuesCount(): nat {
      |mValues|
    }

    function GetValueAt(index: int): int {
      if index < 0 || index >= |mValues| then -1 else mValues[index]
    }
  }

  datatype ResourceApplyType = APPLY_CORE | APPLY_CLUSTER | APPLY_GLOBAL | APPLY_CGROUP

  datatype ResConfInfo = ResConfInfo(mModes: bv8, mApplyType: ResourceApplyType, mPolicy: Policy)

  /** What the translation writes into the packed word is what the getters read. */
  lemma TranslatedReadsBack(res: Resource, info: bv32, core: bv32, cluster: bv32)
    requires core < 256 && cluster < 256 && res.mResInfo == V.WithCluster(V.WithCore(info, core), cluster)
    ensures res.GetCoreValue() == core as int && res.GetClusterValue() == cluster as int
  {
    V.TranslationRewrites(info, core, cluster);
  }

  /** The value the two value policies compare. */
  function ComparedValue(res: Resource): int {
    if res.GetValuesCount() == 1 then res.GetValueAt(0) else res.GetValueAt(1)
  }
}
