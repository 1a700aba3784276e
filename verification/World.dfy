/** Rows as read, the interface cache and the published columns, as values. */
module World {
  import opened Base
  import opened SpeedText
  import opened UserConfig
  import opened Derivation

  /* ---------- rows ---------- */

  /** struct intf_hw_info as far as the derivation reads it. */
  datatype HwInfo = HwInfo(pluggable: bool, rj45: bool, speeds: seq<Speed>)

  /** An Interface row as read: `pm` is what the row says of its own module, `lane`
      what each split child takes from it. */
  datatype Row = Row(
    kind: Kind, cfg: RowCfg, hw: HwInfo, pm: PmInfo, lane: PmInfo,
    splitParent: Option<Name>, splitChildren: seq<Name>,
    bondStatus: Option<string>, inserted: nat, modified: nat)

  datatype PortRow = PortRow(name: Name, admin: AdminState, members: seq<Name>, modified: nat)

  /** The columns written by others; `ports` in the order the table is walked. */
  datatype Db = Db(rows: map<Name, Row>, ports: seq<PortRow>, seqno: nat)

  predicate Inserted(r: Row, since: nat) { r.inserted > since }

  /** Modified and not handled as inserted. */
  predicate Modified(r: Row, since: nat) { r.modified > since && !Inserted(r, since) }

  /** get_matching_port_row: the first port that lists the interface. */
  function PortOf(ports: seq<PortRow>, n: Name): Option<PortRow> {
    if ports == [] then None
    else if n in ports[0].members then Some(ports[0])
    else PortOf(ports[1..], n)
  }

  /** port_parse_admin: down when no port lists the interface. */
  function PortAdminOf(ports: seq<PortRow>, n: Name): AdminState {
    match PortOf(ports, n)
    case Some(p) => p.admin
    case None => AdminDown
  }

  /** Module information for the interface of row n: its own, or its parent's lane. */
  function RowPm(db: Db, n: Name): PmInfo
    requires n in db.rows
  {
    var r := db.rows[n];
    if r.splitParent.Some? && r.splitParent.value in db.rows then db.rows[r.splitParent.value].lane else r.pm
  }

  function RowMeaning(db: Db, n: Name): Settings
    requires n in db.rows
  {
    Meaning(db.rows[n].cfg.user)
  }

  function ChildrenOf(r: Row): Option<seq<Name>> {
    if r.splitParent == None && r.splitChildren != [] then Some(r.splitChildren) else None
  }

  /* ---------- split families ---------- */

  /** Families are two levels deep, closed, and inserted together. */
  ghost predicate FamilyOk(rows: map<Name, Row>, since: nat, n: Name)
    requires n in rows
  {
    var r := rows[n];
    && (r.splitParent.Some? ==>
          && r.splitParent.value in rows
          && n in rows[r.splitParent.value].splitChildren
          && rows[r.splitParent.value].splitParent == None
          && r.splitChildren == []
          && (Inserted(r, since) <==> Inserted(rows[r.splitParent.value], since)))
    && (forall c :: c in r.splitChildren ==> c in rows && rows[c].splitParent == Some(n))
  }

  ghost predicate Families(rows: map<Name, Row>, since: nat) {
    forall n {:trigger FamilyOk(rows, since, n)} :: n in rows ==> FamilyOk(rows, since, n)
  }

  /* ---------- cache and published columns ---------- */

  /** struct iface without its op_state, which nothing but its own derivation reads. */
  datatype IfaceV = IfaceV(
    kind: Kind, hw: HwInfo, portAdmin: AdminState, user: UserCfg, pm: PmInfo,
    parent: Option<Name>, children: Option<seq<Name>>)

  /** The cached interfaces, their op_states, the error and hw_intf_config columns of
      their rows, and the number of column writes issued. */
  datatype World = World(ifs: map<Name, IfaceV>, ops: map<Name, OpView>, rec: map<Name, Record>, writes: nat)

  function ParentLane(ifs: map<Name, IfaceV>, v: IfaceV): Option<Lane> {
    if v.parent.Some? && v.parent.value in ifs then Some(ifs[v.parent.value].user.lane) else None
  }

  function InputsOf(ifs: map<Name, IfaceV>, n: Name): Inputs
    requires n in ifs
  {
    var v := ifs[n];
    Inputs(v.kind, Meaning(v.user), v.pm, v.portAdmin, v.children.Some?, ParentLane(ifs, v), v.hw.speeds)
  }

  ghost predicate Fresh(w: World, n: Name)
    requires n in w.ifs && n in w.rec
  {
    w.rec[n] == Derive(InputsOf(w.ifs, n))
  }

  predicate Aligned(w: World) { w.ifs.Keys == w.ops.Keys == w.rec.Keys }

  function NextOp(w: World, n: Name): OpView
    requires n in w.ifs && n in w.ops
  {
    NewOp(w.ops[n], InputsOf(w.ifs, n))
  }

  /** set_interface_config on the cached interface n and its row. */
  function Configure(w: World, n: Name): (w': World)
    ensures w'.ifs == w.ifs && w'.writes >= w.writes
    ensures w'.ops.Keys == w.ops.Keys && w'.rec.Keys == w.rec.Keys
  {
    if n in w.ifs && n in w.ops && n in w.rec then
      var op := NextOp(w, n);
      w.(ops := w.ops[n := op], rec := w.rec[n := Publish(op, w.ifs[n].pm.ifType)], writes := w.writes + 2)
    else w
  }

  function ConfigureAll(w: World, ns: seq<Name>): (w': World)
    ensures w'.ifs == w.ifs && w'.writes >= w.writes
    ensures w'.ops.Keys == w.ops.Keys && w'.rec.Keys == w.rec.Keys
  {
    if ns == [] then w else Configure(ConfigureAll(w, ns[..|ns| - 1]), ns[|ns| - 1])
  }

  /** Configuring touches one record, and makes it fresh. */
  lemma ConfigureFacts(w: World, n: Name)
    requires Aligned(w) && n in w.ifs
    ensures forall m :: m in w.rec && m != n ==> Configure(w, n).rec[m] == w.rec[m]
    ensures w.ifs[n].kind == Physical ==> Fresh(Configure(w, n), n)
  {
    if w.ifs[n].kind == Physical {
      PublishedIsDerived(w.ops[n], InputsOf(w.ifs, n));
    }
  }

  lemma {:induction false} ConfigureAllFacts(w: World, ns: seq<Name>)
    requires Aligned(w) && forall n :: n in ns ==> n in w.ifs
    ensures forall m :: m in w.rec && m !in ns ==> ConfigureAll(w, ns).rec[m] == w.rec[m]
    ensures forall m :: m in ns && w.ifs[m].kind == Physical ==> Fresh(ConfigureAll(w, ns), m)
  {
    if ns != [] {
      var front, n := ns[..|ns| - 1], ns[|ns| - 1];
      ConfigureAllFacts(w, front);
      ConfigureFacts(ConfigureAll(w, front), n);
      assert forall m :: m in ns <==> m in front || m == n;
    }
  }
}
