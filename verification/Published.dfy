/** What the published columns of one interface say, read off the columns themselves. */
module Published {
  import opened Base
  import opened SpeedText
  import opened UserConfig
  import opened Derivation
  import opened World
  import opened Rows

  /* ---------- negotiation, for every capability ---------- */

  ghost predicate IsHighest(x: Speed, speeds: seq<Speed>) {
    (x in speeds || (speeds == [] && x == 0)) && forall y <- speeds :: y <= x
  }

  lemma {:induction false} HighestIsHighest(speeds: seq<Speed>)
    ensures IsHighest(Highest(speeds), speeds)
  {
    if speeds != [] {
      HighestIsHighest(speeds[..|speeds| - 1]);
      assert forall y :: y in speeds <==> y in speeds[..|speeds| - 1] || y == speeds[|speeds| - 1];
    }
  }

  /** Which wish is refused. */
  lemma RefusedExactly(wanted: AutonegCfg, user: seq<Speed>, cap: Capability, native: Option<Speed>,
                       hwSpeeds: seq<Speed>)
    ensures var r := Negotiate(wanted, user, cap, native, hwSpeeds);
      && (r == Rejected(AutonegRequired) <==> wanted == AutonegOff && cap == CapRequired)
      && (r == Rejected(AutonegNotSupported) <==>
            wanted == AutonegOn && (cap == CapUnsupported || (cap == Unset && user != [])))
      && (r.Rejected? ==> r.why == AutonegRequired || r.why == AutonegNotSupported)
  {
  }

  /** What an accepted one comes to: the speeds of the user, all of them or without
      negotiation the first; without any the speed of the module, or where negotiation is
      optional and off the highest of the hardware. */
  lemma AgreedSpeeds(wanted: AutonegCfg, user: seq<Speed>, cap: Capability, native: Option<Speed>, hwSpeeds: seq<Speed>)
    requires Negotiate(wanted, user, cap, native, hwSpeeds).Agreed?
    ensures var r := Negotiate(wanted, user, cap, native, hwSpeeds);
      && (r.on <==> wanted == AutonegOn || (wanted == AutonegDefault && cap != CapUnsupported))
      && (user != [] && r.on ==> r.speeds == user)
      && (user != [] && !r.on ==> r.speeds == [user[0]])
      && (user == [] && wanted == AutonegOff && cap == CapOptional ==>
            |r.speeds| == 1 && IsHighest(r.speeds[0], hwSpeeds))
      && (user == [] && !(wanted == AutonegOff && cap == CapOptional) ==>
            if native == None then r.speeds == [] else r.speeds == [native.value])
  {
    HighestIsHighest(hwSpeeds);
  }

  /* ---------- connectors ---------- */

  /** Copper modules of 25G and more, and all of 1G. */
  predicate Negotiates(c: Connector) {
    c == SfpRj45 || c == SfpSx || c == Sfp28Cr || c == QsfpCr4 || c == Qsfp28Cr4
  }

  /** The rate of the module; 0 for what no interface is enabled with. */
  function Rated(c: Connector): Speed {
    match c
    case SfpRj45 | SfpSx => 1000
    case SfpSr | SfpLr | SfpEr | SfpLrm | SfpDac => 10000
    case Sfp28Sr | Sfp28Lr | Sfp28Cr => 25000
    case QsfpCr4 | QsfpSr4 | QsfpLr4 => 40000
    case Qsfp28Sr4 | Qsfp28Lr4 | Qsfp28Cr4 | Qsfp28Clr4 | Qsfp28Psm4 | Qsfp28Cwdm4 => 100000
    case SfpLx | SfpCx | SfpFc | Absent | Unknown => 0
  }

  predicate Usable(c: Connector) { Rated(c) != 0 }

  /** Modules with four lanes. */
  predicate IsQuad(c: Connector) { Rated(c) == 40000 || Rated(c) == 100000 }

  /** The rate in the name of an interface type; 0 for the unknown one. */
  function RateOfType(t: IfType): Speed {
    match t
    case TypeUnknown => 0
    case Base1GSx | Base1GT => 1000
    case Base10GCr | Base10GSr | Base10GLr | Base10GEr => 10000
    case Base25GCr | Base25GSr | Base25GLr => 25000
    case Base40GCr4 | Base40GSr4 | Base40GLr4 => 40000
    case Base100GCr4 | Base100GSr4 | Base100GLr4 => 100000
  }

  /** A module is let in, runs at its rate and negotiates as its connector says; its type,
      where it has a name, is one of that rate. */
  lemma ConnectorFacts(c: Connector, status: ConnectorStatus)
    ensures var pm := Module(c, status);
      && (ModuleReason(pm) == Ok <==> status == StatusSupported && Usable(c))
      && (ModuleReason(pm) == ModuleMissing <==> c == Absent)
      && (ModuleReason(pm) == ModuleUnrecognized <==> c != Absent && status == StatusUnrecognized)
      && NativeSpeed(pm.family) == (if Usable(c) then Some(Rated(c)) else None)
      && (Usable(c) ==> CapabilityOf(pm) == if Negotiates(c) then CapRequired else CapUnsupported)
      && (pm.ifType != TypeUnknown ==> RateOfType(pm.ifType) == Rated(c))
  {
  }

  /** A published type tells the connector, where it has a name; the 1G ones apart by name. */
  lemma TypesApart(c: Connector, d: Connector)
    requires PublishedType(c) == PublishedType(d) != TypeUnknown
    ensures c == d
    ensures (c == SfpRj45 <==> PublishedType(c) == Base1GT) && (c == SfpSx <==> PublishedType(c) == Base1GSx)
  {
  }

  /* ---------- the columns of an interface ---------- */

  /** The speeds key, parsed. */
  ghost predicate SpeedsRead(d: HwDetail, speeds: seq<Speed>) {
    d.speeds.Some? && WellFormed(d.speeds.value) && SpeedList(d.speeds.value) == speeds
  }

  predicate PublishesOn(s: Settings, c: Connector) {
    s.autoneg == AutonegOn || (s.autoneg == AutonegDefault && Negotiates(c))
  }

  function SpeedsFor(s: Settings, c: Connector): seq<Speed> {
    if s.speeds == [] then [Rated(c)] else if PublishesOn(s, c) then s.speeds else [s.speeds[0]]
  }

  lemma AgreedForModule(i: Inputs, c: Connector, status: ConnectorStatus)
    requires i.pm == Module(c, status) && DeriveReason(i) == Ok
    ensures Negotiation(i) == Agreed(PublishesOn(i.settings, c), SpeedsFor(i.settings, c))
  {
    hide Negotiate, Module, CapabilityOf, NativeSpeed;
    ConnectorFacts(c, status);
    RefusedExactly(i.settings.autoneg, i.settings.speeds, CapabilityOf(i.pm), NativeSpeed(i.pm.family), i.hwSpeeds);
    AgreedSpeeds(i.settings.autoneg, i.settings.speeds, CapabilityOf(i.pm), NativeSpeed(i.pm.family), i.hwSpeeds);
  }

  /** Every key of an enabled interface, by the settings and the connector: whatever an
      earlier derivation left behind. */
  lemma EnabledColumns(op: OpView, i: Inputs, c: Connector, status: ConnectorStatus, baseMtu: int)
    requires i.kind == Physical && i.pm == Module(c, status) && SettingsOk(i.settings, baseMtu)
    requires IsEnabled(Publish(NewOp(op, i), i.pm.ifType).hw)
    ensures var r, s := Publish(NewOp(op, i), i.pm.ifType), i.settings;
      && r.error == None && r.hw.detail.Some?
      && var d := r.hw.detail.value;
         && (d.autoneg <==> PublishesOn(s, c)) && SpeedsRead(d, SpeedsFor(s, c))
         && d.duplex == s.duplex && d.pause == s.pause
         && d.mtu == Some(if s.mtu == 0 then 1500 else s.mtu)
         && d.ifType == i.pm.ifType
  {
    hide Join, SpeedList, Tokens, WellFormed, NewOp, Publish, Negotiation, Module, DeriveReason, SpeedsFor, PublishesOn;
    PublishedIsDerived(op, i);
    EnabledIsOk(i);
    AgreedForModule(i, c, status);
    SpeedCount(i.settings, c);
    SpeedTextRoundTrip(SpeedsFor(i.settings, c));
  }

  lemma EnabledIsOk(i: Inputs)
    requires IsEnabled(Derive(i).hw)
    ensures DeriveReason(i) == Ok && i.settings.mtu != -1
  {
  }

  lemma SpeedCount(s: Settings, c: Connector)
    requires |s.speeds| <= MAX_SPEEDS
    ensures 1 <= |SpeedsFor(s, c)| <= MAX_SPEEDS
  {
  }

  /** The two errors of negotiation, where nothing of a higher priority applies. */
  lemma NegotiationErrors(op: OpView, i: Inputs, c: Connector, status: ConnectorStatus)
    requires i.kind == Physical && i.pm == Module(c, status)
    requires forall r :: Rank(r) < Rank(AutonegRequired) ==> !Applies(r, i)
    ensures var r := Publish(NewOp(op, i), i.pm.ifType);
      && (r.error == Some(AutonegRequired) <==> i.settings.autoneg == AutonegOff && Negotiates(c))
      && (r.error == Some(AutonegNotSupported) <==> i.settings.autoneg == AutonegOn && !Negotiates(c))
  {
    ConnectorFacts(c, status);
    PublishedIsDerived(op, i);
    NoneAhead(i);
    RefusedExactly(i.settings.autoneg, i.settings.speeds, CapabilityOf(i.pm), NativeSpeed(i.pm.family), i.hwSpeeds);
  }

  lemma NoneAhead(i: Inputs)
    requires forall r :: Rank(r) < Rank(AutonegRequired) ==> !Applies(r, i)
    ensures !Applies(LanesSplit, i) && !Applies(LanesNotSplit, i) && !Applies(AdminIsDown, i)
    ensures !Applies(ModuleMissing, i) && !Applies(ModuleUnrecognized, i) && !Applies(ModuleUnsupported, i)
    ensures !Applies(InvalidMtu, i) && !Applies(InvalidSpeeds, i)
  {
    assert Rank(LanesSplit) < 8 && Rank(LanesNotSplit) < 8 && Rank(AdminIsDown) < 8 && Rank(ModuleMissing) < 8;
    assert Rank(ModuleUnrecognized) < 8 && Rank(ModuleUnsupported) < 8;
    assert Rank(InvalidMtu) < 8 && Rank(InvalidSpeeds) < 8;
  }

  /** An interface of a logical kind is enabled exactly when its row and its port are up, and
      otherwise says which is not; where validation accepts its settings, they are
      published like those of a physical one. */
  lemma LogicalColumns(op: OpView, i: Inputs)
    requires i.kind != Physical
    ensures var r := Publish(NewOp(op, i), i.pm.ifType);
      && (IsEnabled(r.hw) <==> i.settings.admin == AdminUp && i.portAdmin == AdminUp)
      && (r.error == Some(AdminIsDown) <==> i.settings.admin == AdminDown)
      && (r.error == Some(PortAdminDown) <==> i.settings.admin == AdminUp && i.portAdmin == AdminDown)
      && (IsEnabled(r.hw) ==> r.error == None && r.hw.detail.Some?)
      && (IsEnabled(r.hw) ==> r.hw.detail.value.duplex == i.settings.duplex)
      && (IsEnabled(r.hw) ==> r.hw.detail.value.pause == i.settings.pause)
      && (!IsEnabled(r.hw) ==> r.hw == HW_OFF)
  {
  }

  /* ---------- from text to settings and modules ---------- */

  /** Only the texts named turn a setting from its default. */
  lemma SettingsByText(cfg: ConfigMap, hwSpeeds: string, baseMtu: int)
    ensures var s := RowSettings(cfg, hwSpeeds, baseMtu);
      && (s.admin == AdminUp <==> Has(cfg, Admin, "up"))
      && (s.autoneg == AutonegOff <==> Has(cfg, Autoneg, "off"))
      && (s.autoneg == AutonegOn <==> Has(cfg, Autoneg, "on"))
      && (s.pause == PauseRx <==> Has(cfg, Pause, "rx")) && (s.pause == PauseTx <==> Has(cfg, Pause, "tx"))
      && (s.pause == PauseRxTx <==> Has(cfg, Pause, "rxtx"))
      && (s.duplex == DuplexHalf <==> Has(cfg, Duplex, "half"))
      && (s.lane == Split <==> Has(cfg, LaneSplit, "split"))
  {
    assert "off"[1] != "on"[1] && |RX| != |RXTX| && |TX| != |RXTX| && RX[0] != TX[0];
  }

  /** Which texts let a module in: a plugged one by its connector and the status supported,
      a fixed one if it is RJ45. */
  lemma ModuleByText(hw: HwInfo, t: PmText)
    ensures ModuleReason(ParsePm(hw, t)) == Ok <==>
      if hw.pluggable then t.status == TextSupported && t.connector.Some? && Usable(t.connector.value) else hw.rj45
    ensures hw.pluggable && t.connector != Some(Absent) ==>
      (ModuleReason(ParsePm(hw, t)) == ModuleUnrecognized <==> t.status == TextOther)
    ensures hw.pluggable ==> (ModuleReason(ParsePm(hw, t)) == ModuleMissing <==> t.connector == Some(Absent))
  {
    if hw.pluggable {
      ConnectorFacts(if t.connector.Some? then t.connector.value else Unknown, StatusOf(t.status));
    }
  }

  /** A lane of a module with four of them runs at a quarter of its rate, but for copper at
      100G whose lanes run at 10G where 40G is all it supports. */
  lemma LaneRate(t: PmText)
    requires t.connector.Some? && IsQuad(t.connector.value)
    ensures NativeSpeed(ParseSplitPm(t).family)
         == Some(if t.connector == Some(Qsfp28Cr4) && t.only40G then 10000 else Rated(t.connector.value) / 4)
  {
  }

  datatype Medium = Copper | ShortReach | LongReach

  /** The medium in the name of a type of module that can be split, or of a lane. */
  function MediumOf(t: IfType): Option<Medium> {
    match t
    case Base10GCr | Base25GCr | Base40GCr4 | Base100GCr4 => Some(Copper)
    case Base10GSr | Base25GSr | Base40GSr4 | Base100GSr4 => Some(ShortReach)
    case Base10GLr | Base25GLr | Base40GLr4 | Base100GLr4 => Some(LongReach)
    case _ => None
  }

  /** And on the same medium; the 100G kinds without a name of their own are long reach. */
  lemma LaneMedium(t: PmText)
    requires t.connector.Some? && IsQuad(t.connector.value)
    ensures var whole := MediumOf(PublishedType(t.connector.value));
      MediumOf(ParseSplitPm(t).ifType) == if whole.Some? then whole else Some(LongReach)
  {
  }

  /** It is let in if the module is; of other modules there are no lanes. */
  lemma LaneByText(t: PmText)
    ensures ModuleReason(ParseSplitPm(t)) == Ok <==>
      t.connector.Some? && IsQuad(t.connector.value) && t.status == TextSupported
    ensures ModuleReason(ParseSplitPm(t)) == ModuleMissing <==> t.connector == Some(Absent)
  {
  }

  /** A port is up unless its admin entry says otherwise; the rest is taken as it is. */
  lemma PortByText(p: RawPort)
    ensures ReadPort(p).admin == AdminDown <==> p.admin.Some? && p.admin.value != "up"
    ensures ReadPort(p).name == p.name && ReadPort(p).members == p.members && ReadPort(p).modified == p.modified
  {
  }

  /** What needs no parsing in an Interface row is taken as it is. */
  lemma RowByText(r: RawRow, baseMtu: int)
    ensures var row := ReadRow(r, baseMtu);
      && row.kind == r.kind && row.splitParent == r.splitParent && row.splitChildren == r.splitChildren
      && row.bondStatus == r.bondStatus && row.inserted == r.inserted && row.modified == r.modified
      && row.hw.pluggable == r.hw.pluggable && row.hw.rj45 == r.hw.rj45
  {
  }
}
