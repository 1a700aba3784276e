/** struct iface: one cached interface, its links, and the derivation of its op_state
    (set_interface_config and what it calls), updated in place. */
module Interface {
  import opened Base
  import opened SpeedText
  import opened UserConfig
  import opened Derivation
  import opened World

  /** struct intf_oper_state. n_speeds is -1 for a list that was refused. */
  datatype OpStateFields = OpState(
    enabled: bool, reason: Reason, autonegReason: Reason, duplex: DuplexMode, pause: PauseMode,
    capability: Capability, autonegState: AutonegState, mtu: int, speeds: seq<Speed>, nSpeeds: int)

  type OpState = o: OpStateFields | BufferOk(o.speeds, o.nSpeeds)
    witness OpState(false, Uninitialized, Uninitialized, DuplexHalf, PauseNone, Unset, AutonegDisabled, 0, ZEROS, 0)

  const ZERO_OP: OpState :=
    OpState(false, Uninitialized, Uninitialized, DuplexHalf, PauseNone, Unset, AutonegDisabled, 0, ZEROS, 0)

  /** op_state as far as it can be observed: not past n_speeds. */
  function Observed(o: OpState): OpView {
    OpView(o.enabled, o.reason, o.autonegReason, o.duplex, o.pause, o.capability, o.autonegState, o.mtu,
           if o.nSpeeds == -1 then None else Some(o.speeds[..o.nSpeeds]))
  }

  /** intfd_highest_speed */
  method HighestSpeed(speeds: seq<Speed>) returns (top: Speed)
    ensures top == Highest(speeds)
  {
    if |speeds| < 1 { return 0; }
    top := speeds[0];
    assert speeds[..1] == [speeds[0]] && Highest(speeds[..1][..0]) == 0;
    var i := 1;
    while i < |speeds|
      invariant 1 <= i <= |speeds| && top == Highest(speeds[..i])
    {
      assert speeds[..i + 1][..i] == speeds[..i];
      if speeds[i] > top { top := speeds[i]; }
      i := i + 1;
    }
    assert speeds[..i] == speeds;
  }

  class Iface {
    const name: Name
    const kind: Kind
    const hw: HwInfo
    var portAdmin: AdminState
    var user: UserCfg
    var pm: PmInfo
    var parent: Iface?
    var children: Option<seq<Iface>>
    var op: OpState

    /** add_new_interface: everything else starts zeroed. */
    constructor (name: Name, kind: Kind, hw: HwInfo, portAdmin: AdminState, user: UserCfg, pm: PmInfo)
      ensures this.name == name && View() == IfaceV(kind, hw, portAdmin, user, pm, None, None)
      ensures parent == null && children == None
      ensures Op() == FRESH_OP
    {
      this.name, this.kind, this.hw := name, kind, hw;
      this.portAdmin, this.user, this.pm := portAdmin, user, pm;
      parent, children := null, None;
      op := ZERO_OP;
    }

    /** The interface as a value; links by name. */
    function View(): IfaceV
      reads this`portAdmin, this`user, this`pm, this`parent, this`children
    {
      IfaceV(kind, hw, portAdmin, user, pm, if parent == null then None else Some(parent.name),
             if children == None then None else Some(NamesOf(children.value)))
    }

    function Op(): OpView
      reads this`op
    {
      Observed(op)
    }

    function Parents(): set<Iface>
      reads this`parent
    {
      if parent == null then {} else {parent}
    }

    /** All a derivation may look at besides op_state; of the parent, its lane setting. */
    function In(): Inputs
      reads this`portAdmin, this`user, this`pm, this`parent, this`children, Parents()`user
    {
      Inputs(kind, Meaning(user), pm, portAdmin, children.Some?,
             if parent == null then None else Some(parent.user.lane), hw.speeds)
    }

    /** set_op_state_mtu */
    method SetOpStateMtu()
      modifies this`op
      ensures op == old(op).(mtu := OpMtu(user.mtu))
    {
      if user.mtu == -1 {
        op := op.(mtu := -1);
      } else if user.mtu == 0 {
        op := op.(mtu := DEFAULT_MTU);
      } else {
        op := op.(mtu := user.mtu);
      }
    }

    /** The first half of validate_n_set_interface_capability: what the module can do. */
    method SetCapability()
      modifies this`op
      ensures 0 <= op.nSpeeds && op.speeds[..op.nSpeeds] == Listed(NativeSpeed(pm.family))
      ensures op == old(op).(capability := CapabilityOf(pm), speeds := op.speeds, nSpeeds := op.nSpeeds)
    {
      if pm.family == SfpPlus10G {
        op := op.(capability := CapUnsupported);
        op := op.(speeds := op.speeds[0 := 10000], nSpeeds := 1);
      } else if pm.family == Sfp28At25G {
        op := op.(capability := if pm.connector == Sfp28Cr then CapRequired else CapUnsupported);
        op := op.(speeds := op.speeds[0 := 25000], nSpeeds := 1);
      } else if pm.family == Sfp {
        op := op.(capability := CapRequired);
        op := op.(speeds := op.speeds[0 := 1000], nSpeeds := 1);
      } else if pm.family == QsfpPlus40G {
        op := op.(capability := if pm.connector == QsfpCr4 then CapRequired else CapUnsupported);
        op := op.(speeds := op.speeds[0 := 40000], nSpeeds := 1);
      } else if pm.family == Qsfp28At100G {
        op := op.(capability := if pm.connector == Qsfp28Cr4 then CapRequired else CapUnsupported);
        op := op.(speeds := op.speeds[0 := 100000], nSpeeds := 1);
      } else {
        op := op.(capability := CapRequired);
        op := op.(speeds := op.speeds[0 := 0], nSpeeds := 0);
      }
    }

    function Outcome(native: Option<Speed>): Negotiated
      reads this`user, this`op
    {
      Negotiate(user.autoneg, Meaning(user).speeds, op.capability, native, hw.speeds)
    }

    /** Its second half: what the user asked for, against that. */
    method OverrideAutoneg(ghost native: Option<Speed>)
      requires 0 <= user.nSpeeds && 0 <= op.nSpeeds && op.speeds[..op.nSpeeds] == Listed(native)
      modifies this`op
      ensures 0 <= op.nSpeeds
      ensures op == old(op).(autonegState := op.autonegState, autonegReason := op.autonegReason,
                             speeds := op.speeds, nSpeeds := op.nSpeeds)
      ensures match old(Outcome(native))
        case Rejected(why) =>
          op.autonegState == AutonegInvalid && op.autonegReason == why && op.speeds[..op.nSpeeds] == Listed(native)
        case Agreed(on, list) =>
          op.autonegState == (if on then AutonegEnabled else AutonegDisabled)
          && op.autonegReason == Uninitialized && op.speeds[..op.nSpeeds] == list
    {
      op := op.(autonegReason := Uninitialized);
      if user.autoneg == AutonegOn && user.nSpeeds == 0 {
        op := op.(autonegState := AutonegEnabled);
        if op.capability == CapUnsupported {
          op := op.(autonegState := AutonegInvalid, autonegReason := AutonegNotSupported);
        }
      } else if user.autoneg == AutonegOff && user.nSpeeds == 0 {
        op := op.(autonegState := AutonegDisabled);
        if op.capability == CapRequired {
          op := op.(autonegState := AutonegInvalid, autonegReason := AutonegRequired);
        } else if op.capability == CapOptional {
          var top := HighestSpeed(hw.speeds);
          op := op.(speeds := op.speeds[0 := top], nSpeeds := 1);
        }
      } else if user.autoneg == AutonegDefault && user.nSpeeds > 0 {
        if op.capability != CapUnsupported {
          op := op.(autonegState := AutonegEnabled, speeds := user.speeds, nSpeeds := user.nSpeeds);
        } else {
          op := op.(autonegState := AutonegDisabled, speeds := op.speeds[0 := user.speeds[0]], nSpeeds := 1);
        }
      } else if user.autoneg == AutonegOn && user.nSpeeds > 0 {
        if op.capability == CapRequired || op.capability == CapOptional {
          op := op.(autonegState := AutonegEnabled, speeds := user.speeds, nSpeeds := user.nSpeeds);
        } else {
          op := op.(autonegState := AutonegInvalid, autonegReason := AutonegNotSupported);
        }
      } else if user.autoneg == AutonegOff && user.nSpeeds > 0 {
        op := op.(autonegState := AutonegDisabled);
        if op.capability == CapRequired {
          op := op.(autonegState := AutonegInvalid, autonegReason := AutonegRequired);
        } else {
          op := op.(speeds := op.speeds[0 := user.speeds[0]], nSpeeds := 1);
        }
      } else {
        op := op.(autonegState := if op.capability == CapUnsupported then AutonegDisabled else AutonegEnabled);
      }
    }

    /** validate_n_set_interface_capability */
    method ValidateNSetInterfaceCapability()
      modifies this`op
      ensures Op() == AfterValidate(old(Op()), In())
    {
      if user.nSpeeds == -1 {
        op := op.(nSpeeds := -1);
        return;
      }
      if user.mtu == -1 { return; }
      SetCapability();
      OverrideAutoneg(NativeSpeed(pm.family));
    }

    /** calc_intf_op_state_n_reason for the logical kinds. */
    method CalcLogical() returns (up: bool, why: Reason)
      requires kind != Physical
      ensures why == StateReason(Op(), In()) && (up <==> why == Ok)
    {
      if user.admin == AdminDown {
        up, why := false, AdminIsDown;
      } else if portAdmin == AdminDown {
        up, why := false, PortAdminDown;
      } else {
        up, why := true, Ok;
      }
    }

    /** And for a physical interface. */
    method CalcPhysical() returns (up: bool, why: Reason)
      requires kind == Physical
      ensures why == StateReason(Op(), In()) && (up <==> why == Ok && op.autonegState != AutonegInvalid)
    {
      up := false;
      if children != None && user.lane == Split {
        why := LanesSplit;
      } else if parent != null && parent.user.lane == NoSplit {
        why := LanesNotSplit;
      } else if user.admin == AdminDown {
        why := AdminIsDown;
      } else if pm.connector == Absent {
        why := ModuleMissing;
      } else if pm.status == StatusUnrecognized {
        why := ModuleUnrecognized;
      } else if pm.status == StatusUnsupported || pm.family == Unsupported {
        why := ModuleUnsupported;
      } else if op.mtu == -1 {
        why := InvalidMtu;
      } else if op.nSpeeds == -1 {
        why := InvalidSpeeds;
      } else if op.autonegState == AutonegInvalid {
        why := op.autonegReason;
      } else if portAdmin == AdminDown {
        why := PortAdminDown;
      } else {
        up, why := true, Ok;
      }
    }

    /** calc_intf_op_state_n_reason */
    method CalcIntfOpStateNReason()
      modifies this`op
      ensures Op() == AfterCalc(old(Op()), In())
    {
      var up, why;
      if kind == Internal || kind == VlanSub || kind == Loopback {
        up, why := CalcLogical();
      } else {
        up, why := CalcPhysical();
      }
      op := op.(enabled := up, reason := why);
    }

    /** The map set_intf_hw_config_in_db builds, and the error text it sets. */
    method HwConfigColumns() returns (r: Record)
      ensures r == Publish(Op(), pm.ifType)
    {
      var error := None;
      if !op.enabled { error := Some(op.reason); }
      var hw := HwConfig(Some(op.enabled), None);
      if op.enabled {
        var an := op.autonegState == AutonegEnabled;
        var dx := if op.duplex == DuplexHalf then DuplexHalf else DuplexFull;
        var mtuKey := if op.mtu >= MIN_MTU then Some(op.mtu) else None;
        var speedsKey := None;
        if op.nSpeeds > 0 {
          var text := PrintSpeeds(op.speeds, op.nSpeeds);
          speedsKey := Some(text);
        }
        hw := hw.(detail := Some(HwDetail(an, dx, op.pause, mtuKey, speedsKey, pm.ifType)));
      }
      r := Record(error, hw);
    }

    /** The decision, then set_op_state_pause and set_op_state_duplex if enabled. */
    method Decide()
      modifies this`op
      ensures Op() == Decided(old(Op()), In())
    {
      CalcIntfOpStateNReason();
      if op.enabled {
        op := op.(pause := user.pause);
        op := op.(duplex := user.duplex);
      }
    }

    /** set_interface_config without its last step. */
    method DeriveOpState()
      modifies this`op
      ensures Op() == NewOp(old(Op()), In())
    {
      SetOpStateMtu();
      assert Op() == old(Op()).(mtu := OpMtu(user.mtu));
      ValidateNSetInterfaceCapability();
      Decide();
    }

    /** set_interface_config, up to the columns to write: what is published depends on
        the inputs and on what op_state shows, never on entries past n_speeds. */
    method SetInterfaceConfig(ghost i: Inputs) returns (r: Record)
      requires i == In()
      modifies this`op
      ensures Op() == NewOp(old(Op()), i)
      ensures r == Publish(NewOp(old(Op()), i), i.pm.ifType)
    {
      DeriveOpState();
      r := HwConfigColumns();
    }

    /** The field-by-field comparison in handle_interfaces_config_mods: user settings. */
    method MergeUser(u: UserCfg) returns (cfgChanged: bool, splitChanged: bool)
      modifies this`user
      ensures user == u
      ensures cfgChanged <==> old(user) != u
      ensures splitChanged <==> old(user).lane != u.lane
    {
      cfgChanged, splitChanged := false, false;
      if user.admin != u.admin {
        cfgChanged := true;
        user := user.(admin := u.admin);
      }
      if user.autoneg != u.autoneg {
        cfgChanged := true;
        user := user.(autoneg := u.autoneg);
      }
      if user.pause != u.pause {
        cfgChanged := true;
        user := user.(pause := u.pause);
      }
      if user.duplex != u.duplex {
        cfgChanged := true;
        user := user.(duplex := u.duplex);
      }
      if user.mtu != u.mtu {
        cfgChanged := true;
        user := user.(mtu := u.mtu);
      }
      var differs := MergeSpeeds(u);
      cfgChanged := cfgChanged || differs;
      if user.nSpeeds != u.nSpeeds {
        cfgChanged := true;
        user := user.(nSpeeds := u.nSpeeds);
      }
      if user.lane != u.lane {
        cfgChanged, splitChanged := true, true;
        user := user.(lane := u.lane);
      }
    }

    /** Its loop over the speeds buffers. */
    method MergeSpeeds(u: UserCfg) returns (differs: bool)
      modifies this`user
      ensures user == old(user).(speeds := u.speeds)
      ensures differs <==> old(user).speeds != u.speeds
    {
      differs := false;
      ghost var before := user;
      var i := 0;
      while i < MAX_SPEEDS
        invariant 0 <= i <= MAX_SPEEDS
        invariant user == before.(speeds := user.speeds)
        invariant forall k :: 0 <= k < i ==> user.speeds[k] == u.speeds[k]
        invariant forall k :: i <= k < MAX_SPEEDS ==> user.speeds[k] == before.speeds[k]
        invariant differs <==> exists k :: 0 <= k < i && u.speeds[k] != before.speeds[k]
      {
        if user.speeds[i] != u.speeds[i] {
          differs := true;
          user := user.(speeds := user.speeds[i := u.speeds[i]]);
        }
        i := i + 1;
      }
      assert user.speeds == u.speeds;
    }

    /** And the module information. */
    method MergePm(p: PmInfo) returns (cfgChanged: bool, pmChanged: bool)
      modifies this`pm
      ensures pm == p
      ensures cfgChanged <==> old(pm) != p
      ensures pmChanged <==> old(pm).connector != p.connector
    {
      cfgChanged, pmChanged := false, false;
      if pm.connector != p.connector {
        cfgChanged, pmChanged := true, true;
        pm := pm.(connector := p.connector);
      }
      if pm.status != p.status {
        cfgChanged := true;
        pm := pm.(status := p.status);
      }
      if pm.ifType != p.ifType {
        cfgChanged := true;
        pm := pm.(ifType := p.ifType);
      }
      if pm.family != p.family {
        cfgChanged := true;
        pm := pm.(family := p.family);
      }
    }
  }

  function NamesOf(cs: seq<Iface>): (r: seq<Name>)
    ensures |r| == |cs| && forall i :: 0 <= i < |cs| ==> r[i] == cs[i].name
  {
    seq(|cs|, i requires 0 <= i < |cs| => cs[i].name)
  }
}
