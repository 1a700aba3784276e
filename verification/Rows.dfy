/** The text of Interface and Port rows, and how the daemon reads it. */
module Rows {
  import opened Base
  import opened SpeedText
  import opened UserConfig
  import opened Derivation
  import opened World

  datatype StatusText = TextSupported | TextUnsupported | TextOther

  /** pm_info: the connector text when it names a known connector, the status text,
      and whether supported_speeds is exactly "40000". */
  datatype PmText = PmText(connector: Option<Connector>, status: StatusText, only40G: bool)

  /** hw_intf_info; a text for `speeds` is assumed present. */
  datatype HwText = HwText(pluggable: bool, rj45: bool, speeds: string)

  datatype RawRow = RawRow(
    kind: Kind, userConfig: ConfigMap, hw: HwText, pm: PmText,
    splitParent: Option<Name>, splitChildren: seq<Name>,
    bondStatus: Option<string>, inserted: nat, modified: nat)

  datatype RawPort = RawPort(name: Name, admin: Option<string>, members: seq<Name>, modified: nat)

  function StatusOf(t: StatusText): ConnectorStatus {
    match t
    case TextSupported => StatusSupported
    case TextUnsupported => StatusUnsupported
    case TextOther => StatusUnrecognized
  }

  /** intfd_parse_hw_info; a list that does not parse leaves n_speeds below 1. */
  function ParseHw(t: HwText): HwInfo {
    HwInfo(t.pluggable, t.rj45, if WellFormed(t.speeds) then SpeedList(t.speeds) else [])
  }

  /** intfd_parse_pm_info */
  function ParsePm(hw: HwInfo, t: PmText): PmInfo {
    if !hw.pluggable then
      if hw.rj45 then Module(SfpRj45, StatusSupported) else Module(Unknown, StatusUnrecognized)
    else
      Module(if t.connector.Some? then t.connector.value else Unknown, StatusOf(t.status))
  }

  /** Where nothing is plugged in the module is always the same. */
  lemma FixedModule(hw: HwInfo, a: PmText, b: PmText)
    requires !hw.pluggable
    ensures ParsePm(hw, a) == ParsePm(hw, b)
  {
  }

  /** intfd_parse_split_pm_info: one lane of the parent's module. */
  function ParseSplitPm(t: PmText): PmInfo {
    match t.connector
    case Some(Qsfp28Cwdm4) | Some(Qsfp28Psm4) | Some(Qsfp28Clr4) | Some(Qsfp28Lr4) =>
      Module(Sfp28Lr, StatusOf(t.status))
    case Some(Qsfp28Cr4) => Module(if t.only40G then SfpDac else Sfp28Cr, StatusOf(t.status))
    case Some(Qsfp28Sr4) => Module(Sfp28Sr, StatusOf(t.status))
    case Some(QsfpCr4) => Module(SfpDac, StatusOf(t.status))
    case Some(QsfpLr4) => Module(SfpLr, StatusOf(t.status))
    case Some(QsfpSr4) => Module(SfpSr, StatusOf(t.status))
    case Some(Absent) => Module(Absent, StatusOf(t.status))
    case _ => Module(Unknown, StatusUnsupported)
  }

  /** The row as the derivation sees it. */
  function ReadRow(r: RawRow, baseMtu: int): Row {
    Row(r.kind, ReadCfg(r.userConfig, r.hw.speeds, baseMtu), ParseHw(r.hw),
        ParsePm(ParseHw(r.hw), r.pm), ParseSplitPm(r.pm),
        r.splitParent, r.splitChildren, r.bondStatus, r.inserted, r.modified)
  }

  /** The Interface and Port tables, as text. */
  datatype Tables = Tables(rows: map<Name, RawRow>, ports: seq<RawPort>)

  /** A port without an admin entry is up. */
  function ReadPort(p: RawPort): PortRow {
    PortRow(p.name, if p.admin == None || p.admin == Some(UP) then AdminUp else AdminDown, p.members, p.modified)
  }

  function ReadRows(rows: map<Name, RawRow>, baseMtu: int): map<Name, Row> {
    map n | n in rows :: ReadRow(rows[n], baseMtu)
  }

  function ReadPorts(ports: seq<RawPort>): (r: seq<PortRow>)
    ensures |r| == |ports|
  {
    seq(|ports|, i requires 0 <= i < |ports| => ReadPort(ports[i]))
  }

  /** The database the tables stand for. */
  function ReadDb(tables: Tables, seqno: nat, baseMtu: int): Db {
    Db(ReadRows(tables.rows, baseMtu), ReadPorts(tables.ports), seqno)
  }

  predicate Reads(db: Db, tables: Tables, baseMtu: int) {
    db.rows == ReadRows(tables.rows, baseMtu) && db.ports == ReadPorts(tables.ports)
  }
}
