/** The packed words of a request: priority and processing modes in its properties
    (modula/Common/Message), core and cluster in a resource (modula/Common/Resource), and the
    header check that rewrites them (resource-tuner/core/RequestHandler). */
module RequestVerification {
  const MODE_RESUME: bv8 := 0x01

  /** Client permissions and the two priorities a client may ask for. */
  const PERMISSION_SYSTEM := 0
  const PERMISSION_THIRD_PARTY := 1
  const REQ_PRIORITY_HIGH: bv8 := 0
  const REQ_PRIORITY_LOW: bv8 := 1

  const SYSTEM_HIGH: bv8 := 0
  const SYSTEM_LOW: bv8 := 1
  const THIRD_PARTY_HIGH: bv8 := 2
  const THIRD_PARTY_LOW: bv8 := 3
  const INVALID: bv8 := 0xFF

  function LowByte(properties: bv32): bv8 {
    (properties & 0xFF) as bv8
  }

  function SecondByte(properties: bv32): bv8 {
    ((properties >> 8) & 0xFF) as bv8
  }

  function UpperHalf(properties: bv32): bv32 {
    properties >> 16
  }

  /** A signed byte widened to a word. */
  function SignExtended(b: bv8): bv32 {
    if b & 0x80 == 0 then b as bv32 else b as bv32 | 0xFFFF_FF00
  }

  function WithPriority(properties: bv32, priority: bv8): bv32 {
    properties | SignExtended(priority)
  }

  /** The word `wide` joins the shifted properties. */
  function Joined(properties: bv32, wide: bv32): bv32 {
    properties | (((properties >> 8) | wide) << 8)
  }

  function WithProcessingMode(properties: bv32, mode: bv8): bv32 {
    Joined(properties, SignExtended(mode))
  }

  /** The properties word is the priority byte, the mode byte and an upper half. */
  lemma WordParts(low: bv8, second: bv8, upper: bv32)
    requires upper < 0x1_0000
    ensures var properties := (upper << 16) | (second as bv32 << 8) | low as bv32;
      LowByte(properties) == low && SecondByte(properties) == second && UpperHalf(properties) == upper
  {
  }

  /** A widened byte keeps its bits and repeats its sign in all others. */
  lemma WideningRepeatsTheSign(b: bv8)
    ensures LowByte(SignExtended(b)) == b
    ensures SignExtended(b) >> 8 == if b < 128 then 0 else 0x00FF_FFFF
  {
  }

  /** Setting a priority adds its bits: it reads back exactly when the old priority has no
      other bits. */
  lemma PriorityReadsBackIff(properties: bv32, priority: bv8)
    ensures LowByte(WithPriority(properties, priority)) == priority <==> LowByte(properties) | priority == priority
    ensures priority < 128 ==> WithPriority(properties, priority) >> 8 == properties >> 8
  {
  }

  /** Adding a mode keeps the modes there are and the priority; it touches the upper half
      exactly when the mode byte is negative and the upper half is not all ones. */
  lemma ModesAccumulate(properties: bv32, mode: bv8)
    ensures SecondByte(WithProcessingMode(properties, mode)) == SecondByte(properties) | mode
    ensures LowByte(WithProcessingMode(properties, mode)) == LowByte(properties)
    ensures UpperHalf(WithProcessingMode(properties, mode)) == UpperHalf(properties) <==> mode < 128 || UpperHalf(properties) == 0xFFFF
  {
  }

  /** The level a request gets from its client's permission and its own wish. */
  function GetRequestPriority(clientPermissions: int, reqSpecifiedPriority: bv8): bv8 {
    if clientPermissions == PERMISSION_SYSTEM then
      if reqSpecifiedPriority == REQ_PRIORITY_HIGH then SYSTEM_HIGH
      else if reqSpecifiedPriority == REQ_PRIORITY_LOW then SYSTEM_LOW
      else INVALID
    else if clientPermissions == PERMISSION_THIRD_PARTY then
      if reqSpecifiedPriority == REQ_PRIORITY_HIGH then THIRD_PARTY_HIGH
      else if reqSpecifiedPriority == REQ_PRIORITY_LOW then THIRD_PARTY_LOW
      else INVALID
    else INVALID
  }

  /** Permission outranks wish: a system request always goes first, and equal permissions
      are told apart by the wish alone. */
  lemma PermissionOutranksWish(clientPermissions: int, wish: bv8, otherPermissions: int, otherWish: bv8)
    requires GetRequestPriority(clientPermissions, wish) != INVALID
    requires GetRequestPriority(otherPermissions, otherWish) != INVALID
    ensures GetRequestPriority(clientPermissions, wish) < GetRequestPriority(otherPermissions, otherWish) <==>
      clientPermissions < otherPermissions || (clientPermissions == otherPermissions && wish < otherWish)
  {
  }

  /** The four levels in order: twice the permission and the wish. */
  lemma LevelsSpelledOut(clientPermissions: int, wish: bv8)
    ensures (clientPermissions == 0 || clientPermissions == 1) && (wish == 0 || wish == 1) ==>
      GetRequestPriority(clientPermissions, wish) as int == 2 * clientPermissions + wish as int
    ensures !((clientPermissions == 0 || clientPermissions == 1) && (wish == 0 || wish == 1)) ==>
      GetRequestPriority(clientPermissions, wish) == 0xFF
  {
  }

  lemma ModeKeepsPriority(properties: bv32)
    ensures LowByte(WithProcessingMode(properties, MODE_RESUME)) == LowByte(properties)
  {
  }

  /** What the header check asks for. */
  predicate Acceptable(duration: int, properties: bv32, currMode: bv8, clientPermissions: int) {
    && (duration == -1 || 0 < duration) && currMode == MODE_RESUME
    && (clientPermissions == PERMISSION_SYSTEM || clientPermissions == PERMISSION_THIRD_PARTY)
    && (LowByte(properties) == REQ_PRIORITY_HIGH || LowByte(properties) == REQ_PRIORITY_LOW)
  }

  /** The properties it leaves: the mode is added first, then the level is. */
  function Accepted(properties: bv32, clientPermissions: int): bv32 {
    WithPriority(WithProcessingMode(properties, MODE_RESUME), GetRequestPriority(clientPermissions, LowByte(properties)))
  }

  lemma LevelPacks(properties: bv32, level: bv8)
    requires level <= THIRD_PARTY_LOW && LowByte(properties) | level == level
    ensures var packed := WithPriority(WithProcessingMode(properties, MODE_RESUME), level);
      LowByte(packed) == level && SecondByte(packed) == SecondByte(properties) | MODE_RESUME && UpperHalf(packed) == UpperHalf(properties)
  {
  }

  lemma LevelCoversWish(clientPermissions: int, wish: bv8)
    requires clientPermissions == PERMISSION_SYSTEM || clientPermissions == PERMISSION_THIRD_PARTY
    requires wish == REQ_PRIORITY_HIGH || wish == REQ_PRIORITY_LOW
    ensures var level := GetRequestPriority(clientPermissions, wish);
      level <= THIRD_PARTY_LOW && wish | level == level
  {
  }

  /** An accepted request carries exactly the level its client's permission and its wish
      give, although the level is only added to the bits of the wish. */
  lemma AcceptedCarriesItsLevel(duration: int, properties: bv32, currMode: bv8, clientPermissions: int)
    requires Acceptable(duration, properties, currMode, clientPermissions)
    ensures var accepted := Accepted(properties, clientPermissions);
      && LowByte(accepted) == GetRequestPriority(clientPermissions, LowByte(properties)) != INVALID
      && SecondByte(accepted) == SecondByte(properties) | MODE_RESUME
      && UpperHalf(accepted) == UpperHalf(properties)
  {
    LevelCoversWish(clientPermissions, LowByte(properties));
    LevelPacks(properties, GetRequestPriority(clientPermissions, LowByte(properties)));
  }

  class Message {
    var mDuration: int
    var mProperties: bv32

    function GetPriority(): bv8
      reads this
    {
      LowByte(mProperties)
    }

    constructor (duration: int, properties: bv32)
      ensures mDuration == duration && mProperties == properties
    {
      mDuration, mProperties := duration, properties;
    }

    method SetPriority(priority: bv8)
      modifies this`mProperties
      ensures mProperties == WithPriority(old(mProperties), priority)
    {
      mProperties := mProperties | SignExtended(priority);
    }

    method AddProcessingMode(processingMode: bv8)
      modifies this`mProperties
      ensures mProperties == WithProcessingMode(old(mProperties), processingMode)
    {
      mProperties := Joined(mProperties, SignExtended(processingMode));
    }

    /** The header part of the verification. */
    method VerifyHeader(currMode: bv8, clientPermissions: int) returns (ok: bool)
      modifies this`mProperties
      ensures ok <==> Acceptable(mDuration, old(mProperties), currMode, clientPermissions)
      ensures ok <==> (mDuration == -1 || 0 < mDuration) && currMode == 1 && (clientPermissions == 0 || clientPermissions == 1)
                      && (LowByte(old(mProperties)) == 0 || LowByte(old(mProperties)) == 1)
      ensures ok ==> mProperties == Accepted(old(mProperties), clientPermissions)
      ensures !ok ==> mProperties == if mDuration == -1 || 0 < mDuration then WithProcessingMode(old(mProperties), MODE_RESUME) else old(mProperties)
    {
      if mDuration < -1 || mDuration == 0 { return false; }
      ModeKeepsPriority(mProperties);
      AddProcessingMode(MODE_RESUME);
      if currMode != MODE_RESUME { return false; }
      if clientPermissions == -1 { return false; }
      var reqSpecifiedPriority := GetPriority();
      // A byte of 128 or more reads as a negative number; it fails the other comparison.
      if reqSpecifiedPriority > REQ_PRIORITY_LOW || reqSpecifiedPriority >= 128 { return false; }
      var allowedPriority := GetRequestPriority(clientPermissions, reqSpecifiedPriority);
      if allowedPriority == INVALID { return false; }
      SetPriority(allowedPriority);
      return true;
    }
  }

  // ----- core and cluster of a resource ---------------------------------------------------

  function CoreOf(resInfo: bv32): bv32 {
    resInfo & 0xFF
  }

  function ClusterOf(resInfo: bv32): bv32 {
    (resInfo >> 8) & 0xFF
  }

  function WithCore(resInfo: bv32, core: bv32): bv32 {
    (resInfo ^ CoreOf(resInfo)) | core
  }

  function WithCluster(resInfo: bv32, cluster: bv32): bv32 {
    (resInfo ^ (ClusterOf(resInfo) << 8)) | (cluster << 8)
  }

  /** The translated core and cluster read back, and the rest of the word is kept, for every
      word exactly when both fit their byte. */
  lemma CorePacksIff(resInfo: bv32, core: bv32)
    ensures core < 256 ==> CoreOf(WithCore(resInfo, core)) == core && WithCore(resInfo, core) >> 8 == resInfo >> 8
    ensures CoreOf(WithCore(resInfo, core)) == core <==> core < 256
  {
  }

  lemma ClusterPacksIff(resInfo: bv32, cluster: bv32)
    ensures cluster < 256 ==> UpperHalf(WithCluster(resInfo, cluster)) == UpperHalf(resInfo)
    ensures CoreOf(WithCluster(resInfo, cluster)) == CoreOf(resInfo)
    ensures ClusterOf(WithCluster(resInfo, cluster)) == cluster <==> cluster < 256
  {
  }

  /** The packed word is the core in its lowest byte and the cluster in the next. */
  lemma FieldsLieSideBySide(upper: bv32, core: bv32, cluster: bv32)
    requires core < 256 && cluster < 256
    ensures CoreOf((upper << 16) | (cluster << 8) | core) == core && ClusterOf((upper << 16) | (cluster << 8) | core) == cluster
  {
  }

  /** Translation rewrites both fields and nothing else. */
  lemma TranslationRewrites(resInfo: bv32, core: bv32, cluster: bv32)
    requires core < 256 && cluster < 256
    ensures var translated := WithCluster(WithCore(resInfo, core), cluster);
      CoreOf(translated) == core && ClusterOf(translated) == cluster && UpperHalf(translated) == UpperHalf(resInfo)
  {
    CorePacksIff(resInfo, core);
    ClusterPacksIff(WithCore(resInfo, core), cluster);
  }
}
