/** From the configuration of one interface to the record published for it.
    `NewOp` and `Publish` follow the source's op_state step by step, stale fields
    included; `Derive` is a from-scratch reference that never sees op_state. */
module Derivation {
  import opened Base
  import opened SpeedText
  import opened UserConfig

  datatype Kind = Physical | Internal | VlanSub | Loopback

  datatype Connector =
    | SfpRj45 | SfpSx | SfpSr | SfpLr | SfpEr | SfpLrm | SfpDac | SfpLx | SfpCx | SfpFc
    | Sfp28Sr | Sfp28Lr | Sfp28Cr
    | QsfpCr4 | QsfpSr4 | QsfpLr4
    | Qsfp28Sr4 | Qsfp28Lr4 | Qsfp28Cr4 | Qsfp28Clr4 | Qsfp28Psm4 | Qsfp28Cwdm4
    | Absent | Unknown

  datatype ConnectorStatus = StatusSupported | StatusUnsupported | StatusUnrecognized

  /** The flag combinations get_connector_flags can return. */
  datatype Family = Unsupported | Sfp | SfpPlus10G | Sfp28At25G | QsfpPlus40G | Qsfp28At100G

  function FamilyOf(c: Connector): Family {
    match c
    case SfpRj45 | SfpSx => Sfp
    case SfpSr | SfpLr | SfpEr | SfpLrm | SfpDac => SfpPlus10G
    case Sfp28Sr | Sfp28Lr | Sfp28Cr => Sfp28At25G
    case QsfpCr4 | QsfpSr4 | QsfpLr4 => QsfpPlus40G
    case Qsfp28Sr4 | Qsfp28Lr4 | Qsfp28Cr4 | Qsfp28Clr4 | Qsfp28Psm4 | Qsfp28Cwdm4 => Qsfp28At100G
    case Absent | Unknown | SfpLx | SfpCx | SfpFc => Unsupported
  }

  datatype IfType =
    | TypeUnknown | Base1GSx | Base1GT | Base10GCr | Base10GSr | Base10GLr | Base10GEr
    | Base25GCr | Base25GSr | Base25GLr | Base40GCr4 | Base40GSr4 | Base40GLr4
    | Base100GCr4 | Base100GSr4 | Base100GLr4

  /** get_connector_if_type followed by intfd_get_intf_type_str: the 100G types
      without a name of their own are published as unknown. */
  function PublishedType(c: Connector): IfType {
    match c
    case SfpSx => Base1GSx
    case SfpRj45 => Base1GT
    case SfpDac => Base10GCr
    case SfpSr => Base10GSr
    case SfpLr => Base10GLr
    case SfpEr => Base10GEr
    case QsfpCr4 => Base40GCr4
    case QsfpSr4 => Base40GSr4
    case QsfpLr4 => Base40GLr4
    case Sfp28Cr => Base25GCr
    case Sfp28Sr => Base25GSr
    case Sfp28Lr => Base25GLr
    case Qsfp28Cr4 => Base100GCr4
    case Qsfp28Sr4 => Base100GSr4
    case Qsfp28Lr4 => Base100GLr4
    case Qsfp28Clr4 | Qsfp28Psm4 | Qsfp28Cwdm4 => TypeUnknown
    case SfpLrm | SfpLx | SfpCx | SfpFc | Absent | Unknown => TypeUnknown
  }

  datatype Reason =
    | Uninitialized | LanesSplit | LanesNotSplit | AdminIsDown | ModuleMissing
    | ModuleUnrecognized | ModuleUnsupported | InvalidMtu | InvalidSpeeds
    | AutonegRequired | AutonegNotSupported | PortAdminDown | Ok

  datatype Capability = Unset | CapUnsupported | CapOptional | CapRequired
  datatype AutonegState = AutonegInvalid | AutonegDisabled | AutonegEnabled

  /** struct intf_pm_info: the module, and what was looked up for it. */
  datatype PmInfo = PmInfo(connector: Connector, status: ConnectorStatus, family: Family, ifType: IfType)

  function Module(c: Connector, status: ConnectorStatus): PmInfo {
    PmInfo(c, status, FamilyOf(c), PublishedType(c))
  }

  /* ---------- what gets published ---------- */

  datatype HwDetail = HwDetail(
    autoneg: bool, duplex: DuplexMode, pause: PauseMode, mtu: Option<int>,
    speeds: Option<string>, ifType: IfType)

  /** The hw_intf_config map; None stands for an absent key. */
  datatype HwConfig = HwConfig(enable: Option<bool>, detail: Option<HwDetail>)

  const HW_OFF := HwConfig(Some(false), None)

  datatype Record = Record(error: Option<Reason>, hw: HwConfig)

  predicate IsEnabled(hw: HwConfig) { hw.enable == Some(true) }

  /* ---------- everything the derivation may look at ---------- */

  datatype Inputs = Inputs(
    kind: Kind, settings: Settings, pm: PmInfo, portAdmin: AdminState,
    hasChildren: bool, parentLane: Option<Lane>, hwSpeeds: seq<Speed>)

  /* ---------- autonegotiation ---------- */

  function CapabilityOf(pm: PmInfo): Capability {
    match pm.family
    case SfpPlus10G => CapUnsupported
    case Sfp28At25G => if pm.connector == Sfp28Cr then CapRequired else CapUnsupported
    case Sfp => CapRequired
    case QsfpPlus40G => if pm.connector == QsfpCr4 then CapRequired else CapUnsupported
    case Qsfp28At100G => if pm.connector == Qsfp28Cr4 then CapRequired else CapUnsupported
    case Unsupported => CapRequired
  }

  /** The one speed the module runs at, if it is a known one. */
  function NativeSpeed(f: Family): Option<Speed> {
    match f
    case SfpPlus10G => Some(10000)
    case Sfp28At25G => Some(25000)
    case Sfp => Some(1000)
    case QsfpPlus40G => Some(40000)
    case Qsfp28At100G => Some(100000)
    case Unsupported => None
  }

  function Listed(s: Option<Speed>): seq<Speed> { if s.Some? then [s.value] else [] }

  /** The highest of the listed speeds, 0 when there is none. */
  function Highest(speeds: seq<Speed>): Speed {
    if speeds == [] then 0
    else
      var rest := Highest(speeds[..|speeds| - 1]);
      if rest > speeds[|speeds| - 1] then rest else speeds[|speeds| - 1]
  }

  datatype Negotiated = Rejected(why: Reason) | Agreed(on: bool, speeds: seq<Speed>)

  /** What the user asked for against what the module can do. */
  function Negotiate(wanted: AutonegCfg, user: seq<Speed>, cap: Capability, native: Option<Speed>,
                     hwSpeeds: seq<Speed>): Negotiated
  {
    match wanted
    case AutonegOn =>
      if cap == CapUnsupported || (user != [] && cap == Unset) then Rejected(AutonegNotSupported)
      else Agreed(true, if user == [] then Listed(native) else user)
    case AutonegOff =>
      if cap == CapRequired then Rejected(AutonegRequired)
      else Agreed(false, if user != [] then user[..1]
                         else if cap == CapOptional then [Highest(hwSpeeds)] else Listed(native))
    case AutonegDefault =>
      Agreed(cap != CapUnsupported, if user == [] then Listed(native)
                                    else if cap == CapUnsupported then user[..1] else user)
  }

  function Negotiation(i: Inputs): Negotiated {
    Negotiate(i.settings.autoneg, i.settings.speeds, CapabilityOf(i.pm), NativeSpeed(i.pm.family), i.hwSpeeds)
  }

  /* ---------- op_state, step by step ---------- */

  /** struct intf_oper_state as far as it can be observed: speeds is None when
      n_speeds is -1, and otherwise the first n_speeds entries. */
  datatype OpView = OpView(
    enabled: bool, reason: Reason, autonegReason: Reason, duplex: DuplexMode, pause: PauseMode,
    capability: Capability, autonegState: AutonegState, mtu: int, speeds: Option<seq<Speed>>)

  const FRESH_OP := OpView(false, Uninitialized, Uninitialized, DuplexHalf, PauseNone,
                           Unset, AutonegDisabled, 0, Some([]))

  function OpMtu(userMtu: int): int { if userMtu == 0 then DEFAULT_MTU else userMtu }

  function AfterValidate(op: OpView, i: Inputs): OpView {
    if !i.settings.speedsValid then op.(speeds := None)
    else if i.settings.mtu == -1 then op
    else
      var o := op.(capability := CapabilityOf(i.pm));
      match Negotiation(i)
      case Rejected(why) =>
        o.(autonegState := AutonegInvalid, autonegReason := why, speeds := Some(Listed(NativeSpeed(i.pm.family))))
      case Agreed(on, speeds) =>
        o.(autonegState := if on then AutonegEnabled else AutonegDisabled,
           autonegReason := Uninitialized, speeds := Some(speeds))
  }

  function StateReason(op: OpView, i: Inputs): Reason {
    if i.kind != Physical then
      if i.settings.admin == AdminDown then AdminIsDown
      else if i.portAdmin == AdminDown then PortAdminDown
      else Ok
    else if i.hasChildren && i.settings.lane == Split then LanesSplit
    else if i.parentLane == Some(NoSplit) then LanesNotSplit
    else if i.settings.admin == AdminDown then AdminIsDown
    else if i.pm.connector == Absent then ModuleMissing
    else if i.pm.status == StatusUnrecognized then ModuleUnrecognized
    else if i.pm.status == StatusUnsupported || i.pm.family == Unsupported then ModuleUnsupported
    else if op.mtu == -1 then InvalidMtu
    else if op.speeds == None then InvalidSpeeds
    else if op.autonegState == AutonegInvalid then op.autonegReason
    else if i.portAdmin == AdminDown then PortAdminDown
    else Ok
  }

  function AfterCalc(op: OpView, i: Inputs): OpView {
    var r := StateReason(op, i);
    op.(enabled := r == Ok && (i.kind != Physical || op.autonegState != AutonegInvalid), reason := r)
  }

  /** The decision, and the settings taken over with it. */
  function Decided(op: OpView, i: Inputs): OpView {
    var o := AfterCalc(op, i);
    if o.enabled then o.(pause := i.settings.pause, duplex := i.settings.duplex) else o
  }

  function NewOp(op: OpView, i: Inputs): OpView {
    Decided(AfterValidate(op.(mtu := OpMtu(i.settings.mtu)), i), i)
  }

  function Publish(op: OpView, ifType: IfType): Record {
    if !op.enabled then Record(Some(op.reason), HW_OFF)
    else
      Record(None, HwConfig(Some(true), Some(HwDetail(
        op.autonegState == AutonegEnabled, op.duplex, op.pause,
        if op.mtu >= MIN_MTU then Some(op.mtu) else None,
        if op.speeds.Some? && op.speeds.value != [] then Some(Join(op.speeds.value)) else None,
        ifType))))
  }

  /* ---------- the reference ---------- */

  /** The conditions that disable a physical interface, each on its own. */
  predicate Applies(r: Reason, i: Inputs) {
    match r
    case Uninitialized => false
    case LanesSplit => i.hasChildren && i.settings.lane == Split
    case LanesNotSplit => i.parentLane == Some(NoSplit)
    case AdminIsDown => i.settings.admin == AdminDown
    case ModuleMissing => i.pm.connector == Absent
    case ModuleUnrecognized => i.pm.status == StatusUnrecognized
    case ModuleUnsupported => i.pm.status == StatusUnsupported || i.pm.family == Unsupported
    case InvalidMtu => i.settings.mtu == -1
    case InvalidSpeeds => !i.settings.speedsValid
    case AutonegRequired => Negotiation(i) == Rejected(AutonegRequired)
    case AutonegNotSupported => Negotiation(i) == Rejected(AutonegNotSupported)
    case PortAdminDown => i.portAdmin == AdminDown
    case Ok => true
  }

  /** Priority: the comment at the head of calc_intf_op_state_n_reason, highest first. */
  function Rank(r: Reason): nat {
    match r
    case LanesSplit => 0
    case LanesNotSplit => 1
    case AdminIsDown => 2
    case ModuleMissing => 3
    case ModuleUnrecognized => 4
    case ModuleUnsupported => 5
    case InvalidMtu => 6
    case InvalidSpeeds => 7
    case AutonegRequired => 8
    case AutonegNotSupported => 9
    case PortAdminDown => 10
    case Ok => 11
    case Uninitialized => 12
  }

  /** r is the applicable reason of the highest priority. */
  ghost predicate FirstApplicable(r: Reason, i: Inputs) {
    && Applies(r, i)
    && forall q :: Applies(q, i) ==> Rank(r) <= Rank(q)
  }

  predicate LanesTaken(i: Inputs) { i.hasChildren && i.settings.lane == Split }

  function ModuleReason(pm: PmInfo): Reason {
    if pm.connector == Absent then ModuleMissing
    else if pm.status == StatusUnrecognized then ModuleUnrecognized
    else if pm.status == StatusUnsupported || pm.family == Unsupported then ModuleUnsupported
    else Ok
  }

  function DeriveReason(i: Inputs): Reason {
    if LanesTaken(i) then LanesSplit
    else if i.parentLane == Some(NoSplit) then LanesNotSplit
    else if i.settings.admin == AdminDown then AdminIsDown
    else if ModuleReason(i.pm) != Ok then ModuleReason(i.pm)
    else if i.settings.mtu == -1 then InvalidMtu
    else if !i.settings.speedsValid then InvalidSpeeds
    else if Negotiation(i).Rejected? then Negotiation(i).why
    else if i.portAdmin == AdminDown then PortAdminDown
    else Ok
  }

  /** The chain picks the applicable reason of the highest priority. */
  lemma ReasonIsFirst(i: Inputs)
    ensures FirstApplicable(DeriveReason(i), i)
  {
  }

  /** From scratch: no op_state, no history. */
  function Derive(i: Inputs): Record {
    var r := DeriveReason(i);
    if r != Ok then Record(Some(r), HW_OFF)
    else
      var speeds := Negotiation(i).speeds;
      Record(None, HwConfig(Some(true), Some(HwDetail(
        Negotiation(i).on, i.settings.duplex, i.settings.pause,
        if i.settings.mtu == 0 then Some(DEFAULT_MTU)
        else if i.settings.mtu >= MIN_MTU then Some(i.settings.mtu) else None,
        if speeds == [] then None else Some(Join(speeds)),
        i.pm.ifType))))
  }

  /** History independence: for a physical interface the published record does not
      depend on what earlier derivations left in op_state. */
  lemma PublishedIsDerived(op: OpView, i: Inputs)
    requires i.kind == Physical
    ensures Publish(NewOp(op, i), i.pm.ifType) == Derive(i)
  {
    var o := AfterValidate(op.(mtu := OpMtu(i.settings.mtu)), i);
    assert StateReason(o, i) == DeriveReason(i);
  }

  predicate LogicalUp(i: Inputs) { i.settings.admin == AdminUp && i.portAdmin == AdminUp }

  /** op_state after these derivations of a new interface. */
  function OpAfter(history: seq<Inputs>): OpView {
    if history == [] then FRESH_OP else NewOp(OpAfter(history[..|history| - 1]), history[|history| - 1])
  }

  /** The same unit: what stays for its lifetime. Only where modules are plugged in can
      the module be another one. */
  predicate SameUnit(i: Inputs, j: Inputs, pluggable: bool) {
    j.kind == i.kind && j.hwSpeeds == i.hwSpeeds && (pluggable || j.pm == i.pm)
  }

  ghost predicate HistoryOf(i: Inputs, pluggable: bool, history: seq<Inputs>) {
    forall j <- history :: SameUnit(i, j, pluggable)
  }

  /** What an interface publishes does not depend on how it was configured before. */
  ghost predicate Forgetful(i: Inputs, pluggable: bool) {
    forall h1, h2 :: HistoryOf(i, pluggable, h1) && HistoryOf(i, pluggable, h2) ==>
      Publish(NewOp(OpAfter(h1), i), i.pm.ifType) == Publish(NewOp(OpAfter(h2), i), i.pm.ifType)
  }

  /** Validation has returned early, leaving something that is published. */
  predicate LeavesStale(i: Inputs, pluggable: bool) {
    if i.settings.speedsValid then i.settings.mtu == -1 else pluggable || CapabilityOf(i.pm) != CapUnsupported
  }

  /** A module that cannot negotiate never gets negotiation enabled. */
  lemma {:induction false} NeverNegotiates(i: Inputs, history: seq<Inputs>)
    requires HistoryOf(i, false, history) && CapabilityOf(i.pm) == CapUnsupported
    ensures OpAfter(history).autonegState != AutonegEnabled
  {
    if history != [] {
      NeverNegotiates(i, history[..|history| - 1]);
      assert SameUnit(i, history[|history| - 1], false);
    }
  }

  lemma RefusedSpeedsPublish(op1: OpView, op2: OpView, i: Inputs)
    requires i.kind != Physical && !i.settings.speedsValid
    requires op1.autonegState != AutonegEnabled && op2.autonegState != AutonegEnabled
    ensures Publish(NewOp(op1, i), i.pm.ifType) == Publish(NewOp(op2, i), i.pm.ifType)
  {
  }

  /** The same unit, once configured in a way that validation takes, with a module that
      negotiates. */
  function EarlierInputs(i: Inputs): Inputs {
    var settings := i.settings.(mtu := 0, speedsValid := true, speeds := [1000], autoneg := AutonegDefault);
    var other := !i.settings.speedsValid && CapabilityOf(i.pm) == CapUnsupported;
    i.(settings := settings, pm := if other then Module(SfpRj45, StatusSupported) else i.pm)
  }

  /** A new interface and one with that past, configured as i, publish differently. */
  lemma PastShows(i: Inputs, pluggable: bool)
    requires i.kind != Physical && LogicalUp(i) && LeavesStale(i, pluggable)
    ensures HistoryOf(i, pluggable, [EarlierInputs(i)])
    ensures var past := OpAfter([EarlierInputs(i)]);
      Publish(NewOp(past, i), i.pm.ifType) != Publish(NewOp(FRESH_OP, i), i.pm.ifType)
  {
    var j, past := EarlierInputs(i), OpAfter([EarlierInputs(i)]);
    assert [j][..0] == [];
    assert j.settings.speeds[..1] == j.settings.speeds;
    assert past == NewOp(FRESH_OP, j) && past.speeds == Some(j.settings.speeds);
    if !i.settings.speedsValid {
      assert past.autonegState == AutonegEnabled;
    }
  }

  lemma DownOrFresh(op1: OpView, op2: OpView, i: Inputs)
    requires i.kind != Physical && (!LogicalUp(i) || (i.settings.speedsValid && i.settings.mtu != -1))
    ensures Publish(NewOp(op1, i), i.pm.ifType) == Publish(NewOp(op2, i), i.pm.ifType)
  {
  }

  /** For the logical kinds the published columns depend on earlier configurations exactly
      when the interface is up while validation gives up on its MTU, or on its speeds
      where some module, present or past, negotiates. */
  lemma LogicalHistory(i: Inputs, pluggable: bool)
    requires i.kind != Physical
    ensures Forgetful(i, pluggable) <==> !(LogicalUp(i) && LeavesStale(i, pluggable))
  {
    hide NewOp, Publish, LogicalUp, OpAfter;
    if LogicalUp(i) && LeavesStale(i, pluggable) {
      PastShows(i, pluggable);
      assert HistoryOf(i, pluggable, []) && OpAfter([]) == FRESH_OP by { NoHistory(); }
    } else {
      forall h1, h2 | HistoryOf(i, pluggable, h1) && HistoryOf(i, pluggable, h2)
        ensures Publish(NewOp(OpAfter(h1), i), i.pm.ifType) == Publish(NewOp(OpAfter(h2), i), i.pm.ifType)
      {
        if !LogicalUp(i) || (i.settings.speedsValid && i.settings.mtu != -1) {
          DownOrFresh(OpAfter(h1), OpAfter(h2), i);
        } else {
          NeverNegotiates(i, h1);
          NeverNegotiates(i, h2);
          RefusedSpeedsPublish(OpAfter(h1), OpAfter(h2), i);
        }
      }
    }
  }

  lemma NoHistory()
    ensures OpAfter([]) == FRESH_OP
  {
  }

  /* ---------- soundness of a derived record ---------- */

  predicate SettingsOk(s: Settings, baseMtu: int) {
    && (s.mtu == 0 || s.mtu == -1 || MIN_MTU <= s.mtu <= baseMtu)
    && |s.speeds| <= MAX_SPEEDS
  }

  lemma RowSettingsOk(cfg: ConfigMap, hwSpeeds: string, baseMtu: int)
    ensures SettingsOk(Meaning(ReadCfg(cfg, hwSpeeds, baseMtu).user), baseMtu)
  {
  }

  /** What an enabled physical record always says. */
  ghost predicate SoundEnabled(hw: HwConfig, baseMtu: int) {
    && hw.detail.Some?
    && var d := hw.detail.value;
    && d.speeds.Some? && WellFormed(d.speeds.value)
    && 1 <= |SpeedList(d.speeds.value)|
    && (!d.autoneg ==> |SpeedList(d.speeds.value)| == 1)
    && d.mtu.Some?
    && (d.mtu.value == DEFAULT_MTU || MIN_MTU <= d.mtu.value <= baseMtu)
  }

  ghost predicate SoundRecord(r: Record, baseMtu: int) {
    && (r.error == None <==> IsEnabled(r.hw))
    && r.error != Some(Uninitialized)
    && (if IsEnabled(r.hw) then SoundEnabled(r.hw, baseMtu) else r.hw == HW_OFF)
  }

  lemma DerivedIsSound(i: Inputs, baseMtu: int)
    requires SettingsOk(i.settings, baseMtu)
    ensures SoundRecord(Derive(i), baseMtu)
    ensures forall r :: r != Ok ==> (Derive(i).error == Some(r) <==> FirstApplicable(r, i))
    ensures Derive(i).error == None <==> FirstApplicable(Ok, i)
  {
    ReasonIsFirst(i);
    if DeriveReason(i) == Ok {
      assert !Applies(ModuleUnsupported, i);
      var speeds := Negotiation(i).speeds;
      assert 1 <= |speeds| <= MAX_SPEEDS;
      SpeedTextRoundTrip(speeds);
    }
  }

  /** An enabled derivation always comes from an up port, so two inputs that differ
      in port admin only agree wherever both enable. */
  lemma EnabledMeansPortUp(i: Inputs)
    requires IsEnabled(Derive(i).hw)
    ensures i.portAdmin == AdminUp && i.settings.admin == AdminUp
    ensures !LanesTaken(i) && i.parentLane != Some(NoSplit)
  {
  }
}
