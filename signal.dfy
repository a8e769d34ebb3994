/** Signal-strength classification and the status labels of the stats panel (main.cpp). */
module Signal {

  const INT_MIN: int := -0x8000_0000
  const INT_MAX: int := 0x7FFF_FFFF

  /** The source's `rssi_stage`. */
  datatype Stage = Excellent | Good | Fair | Poor | Unavailable

  function Abs(x: int): nat {
    if x < 0 then -x else x
  }

  /** `rssiToEnum`: the stage of a reading, by its magnitude. `abs` of the most negative
      `int` is undefined behaviour in C++, so that one value is excluded. */
  function RssiToStage(valid: bool, rssi: int): (stage: Stage)
    requires INT_MIN < rssi <= INT_MAX
    ensures stage == Unavailable <==> !valid || rssi == 0
    ensures stage == Excellent <==> valid && 1 <= Abs(rssi) <= 50
    ensures stage == Good <==> valid && 51 <= Abs(rssi) <= 60
    ensures stage == Fair <==> valid && 61 <= Abs(rssi) <= 70
    ensures stage == Poor <==> valid && Abs(rssi) > 70
  {
    if !valid then Unavailable
    else
      var magnitude := Abs(rssi);
      if magnitude <= 0 then Unavailable
      else if magnitude <= 50 then Excellent
      else if magnitude <= 60 then Good
      else if magnitude <= 70 then Fair
      else Poor
  }

  /** Only the magnitude matters: a reading and its negation fall in the same stage. */
  lemma StageDependsOnMagnitude(valid: bool, a: int, b: int)
    requires INT_MIN < a <= INT_MAX && INT_MIN < b <= INT_MAX
    requires Abs(a) == Abs(b)
    ensures RssiToStage(valid, a) == RssiToStage(valid, b)
  {
  }

  /** A weaker (more negative) reading never gets a better stage. */
  function Rank(stage: Stage): nat {
    match stage
    case Excellent => 0
    case Good => 1
    case Fair => 2
    case Poor => 3
    case Unavailable => 4
  }

  lemma StageMonotone(a: int, b: int)
    requires INT_MIN < a <= INT_MAX && INT_MIN < b <= INT_MAX
    requires 0 < Abs(a) <= Abs(b)
    ensures Rank(RssiToStage(true, a)) <= Rank(RssiToStage(true, b))
  {
  }

  /** The cut points: -50 and -51, -60 and -61, -70 and -71 fall on opposite sides. */
  lemma StageBoundaries()
    ensures RssiToStage(true, -45) == Excellent && RssiToStage(true, -50) == Excellent
    ensures RssiToStage(true, -51) == Good && RssiToStage(true, -58) == Good && RssiToStage(true, -60) == Good
    ensures RssiToStage(true, -61) == Fair && RssiToStage(true, -69) == Fair && RssiToStage(true, -70) == Fair
    ensures RssiToStage(true, -71) == Poor && RssiToStage(true, -120) == Poor
    ensures RssiToStage(true, 0) == Unavailable && RssiToStage(false, -45) == Unavailable
  {
  }

  /** `rssiStageToString`. */
  function StageLabel(stage: Stage): string {
    match stage
    case Excellent => "excellent"
    case Good => "good"
    case Fair => "fair"
    case Poor => "poor"
    case Unavailable => "unavailable"
  }

  /** Every stage has its own label, so the label names the stage. */
  lemma StageLabelInjective(a: Stage, b: Stage)
    ensures StageLabel(a) == StageLabel(b) ==> a == b
  {
  }

  /** The driver's `itl_80211_state` values. */
  const ITL80211_S_INIT: nat := 0
  const ITL80211_S_SCAN: nat := 1
  const ITL80211_S_AUTH: nat := 2
  const ITL80211_S_ASSOC: nat := 3
  const ITL80211_S_RUN: nat := 4

  /** `parse80211State` on a `uint32_t` state. */
  function StateLabel(valid: bool, state: nat): (name: string)
    requires state < 0x1_0000_0000
    ensures !valid ==> name == "Unavailable"
    ensures valid && state > ITL80211_S_RUN ==> name == "Unknown"
  {
    if !valid then "Unavailable"
    else if state == ITL80211_S_INIT then "Idle (Default)"
    else if state == ITL80211_S_SCAN then "Scanning..."
    else if state == ITL80211_S_AUTH then "Authenticating..."
    else if state == ITL80211_S_ASSOC then "Associating..."
    else if state == ITL80211_S_RUN then "Running"
    else "Unknown"
  }

  /** The five known states get five distinct labels, none of them "Unknown" or "Unavailable". */
  lemma StateLabelsDistinct(a: nat, b: nat)
    requires a <= ITL80211_S_RUN && b <= ITL80211_S_RUN
    ensures StateLabel(true, a) == StateLabel(true, b) ==> a == b
    ensures StateLabel(true, a) != "Unknown" && StateLabel(true, a) != "Unavailable"
  {
  }

  /** The driver's `itl_phy_mode` values; any other value of the enumeration is `OtherMode`. */
  datatype PhyMode = Mode11A | Mode11B | Mode11G | Mode11N | Mode11AC | Mode11AX | OtherMode

  /** `itlPhyModeToString`, labels as the source spells them. */
  function PhyModeLabel(valid: bool, mode: PhyMode): (name: string)
    ensures !valid ==> name == "Mode Unavailable"
    ensures valid && mode == OtherMode ==> name == "Unknown Mode"
  {
    if !valid then "Mode Unavailable"
    else
      match mode
      case Mode11A => "IEEE 802.11a"
      case Mode11B => "IEEE 802.11ab"
      case Mode11G => "IEEE 802.11ag"
      case Mode11N => "IEEE 802.11an"
      case Mode11AC => "IEEE 802.11ac"
      case Mode11AX => "IEEE 802.11ax"
      case OtherMode => "Unknown Mode"
  }

  lemma PhyModeLabelInjective(a: PhyMode, b: PhyMode)
    ensures PhyModeLabel(true, a) == PhyModeLabel(true, b) ==> a == b
    ensures PhyModeLabel(true, a) != "Mode Unavailable"
  {
  }
}
