/** The daemon: what it keeps between turns, and intfd_reconfigure on it. */
module Daemon {
  import opened Base
  import opened SpeedText
  import opened UserConfig
  import opened Derivation
  import opened World
  import opened Batch
  import opened Rows
  import opened PortMembers
  import opened ArbiterSpec
  import opened Reconfigure
  import opened Interface
  import opened Engine
  import opened PortEngine
  import opened Arbiter
  import opened Runs

  /* ---------- names ---------- */

  /** Forget the interfaces without a row. */
  method DelOldInterfaces(c: Cache, rows: map<Name, RawRow>) returns (c': Cache)
    ensures c' == map n | n in c && n in rows :: c[n]
  {
    c' := c;
    var left := c.Keys;
    while left != {}
      invariant left <= c.Keys
      invariant c' == map n | n in c && (n in left || n in rows) :: c[n]
      decreases |left|
    {
      var n :| n in left;
      if n !in rows { c' := c' - {n}; }
      left := left - {n};
    }
  }

  /** add_new_interface */
  method AddNewInterface(ghost db: Db, tables: Tables, baseMtu: int, n: Name) returns (intf: Iface)
    requires Reads(db, tables, baseMtu) && n in tables.rows
    ensures fresh(intf) && intf.name == n && intf.parent == null && intf.children == None
    ensures intf.View() == NewIface(db, n) && intf.Op() == FRESH_OP
  {
    var raw := tables.rows[n];
    var u := IntfdParseUserCfg(raw.userConfig, raw.hw.speeds, baseMtu, ZEROS);
    var admin, found := PortParseAdmin(tables.ports, n);
    var hw := ParseHw(raw.hw);
    intf := new Iface(n, raw.kind, hw, admin, u, ParsePm(hw, raw.pm));
  }

  function Restrict<T>(m: map<Name, T>, rows: set<Name>): map<Name, T> { map n | n in m && n in rows :: m[n] }

  /** The links of the interfaces that stay do not leave them. */
  ghost predicate Closed(ifs: map<Name, IfaceV>, rows: set<Name>) {
    forall n :: n in ifs && n in rows ==>
      && (ifs[n].parent.Some? ==> ifs[n].parent.value in rows)
      && (ifs[n].children.Some? ==> forall x <- ifs[n].children.value :: x in rows)
  }

  lemma Forgotten(c: Cache, ifs: map<Name, IfaceV>, ops: map<Name, OpView>, rows: set<Name>)
    requires Wired(c) && ShowIfs(c, ifs) && ShowOps(c, ops) && Closed(ifs, rows)
    ensures Wired(Restrict(c, rows)) && ShowIfs(Restrict(c, rows), Restrict(ifs, rows))
    ensures ShowOps(Restrict(c, rows), Restrict(ops, rows))
  {
    var c' := Restrict(c, rows);
    forall n | n in c'
      ensures c'[n].parent != null ==> Known(c', c'[n].parent)
      ensures c'[n].children.Some? ==> forall x :: x in c'[n].children.value ==> Known(c', x)
    {
      assert c'[n] == c[n] && c[n].View() == ifs[n];
      if c[n].children.Some? {
        var kids := c[n].children.value;
        forall x | x in kids ensures Known(c', x) {
          var i :| 0 <= i < |kids| && kids[i] == x;
          assert NamesOf(kids)[i] == x.name && x.name in ifs[n].children.value;
        }
      }
    }
  }

  lemma Joined(c: Cache, ifs: map<Name, IfaceV>, ops: map<Name, OpView>, n: Name, x: Iface)
    requires Wired(c) && ShowIfs(c, ifs) && ShowOps(c, ops)
    requires n !in c && x.name == n && x.parent == null && x.children == None
    ensures Wired(c[n := x]) && ShowIfs(c[n := x], ifs[n := x.View()]) && ShowOps(c[n := x], ops[n := x.Op()])
  {
    var c' := c[n := x];
    forall m | m in c' && m != n ensures c'[m] == c[m] && c[m].View() == ifs[m] && c[m].Op() == ops[m] {}
    forall y: Iface | Known(c, y) ensures Known(c', y) {}
  }

  /** The cached interfaces plus a new one for every other row, except those left to do. */
  function GrownIfs(ifs: map<Name, IfaceV>, db: Db, left: set<Name>): map<Name, IfaceV> {
    map n | n in db.rows && (n in ifs || n !in left) :: if n in ifs then ifs[n] else NewIface(db, n)
  }

  function GrownOps(ops: map<Name, OpView>, db: Db, left: set<Name>): map<Name, OpView> {
    map n | n in db.rows && (n in ops || n !in left) :: if n in ops then ops[n] else FRESH_OP
  }

  lemma GrownNext(ifs: map<Name, IfaceV>, ops: map<Name, OpView>, db: Db, left: set<Name>, n: Name)
    requires n in left && n in db.rows && ifs.Keys == ops.Keys
    ensures n in ifs ==> GrownIfs(ifs, db, left - {n}) == GrownIfs(ifs, db, left)
    ensures n in ifs ==> GrownOps(ops, db, left - {n}) == GrownOps(ops, db, left)
    ensures n in ifs <==> n in GrownIfs(ifs, db, left)
    ensures n !in ifs ==> GrownIfs(ifs, db, left - {n}) == GrownIfs(ifs, db, left)[n := NewIface(db, n)]
    ensures n !in ifs ==> GrownOps(ops, db, left - {n}) == GrownOps(ops, db, left)[n := FRESH_OP]
  {
  }

  /** Cache an interface for every row that has none. */
  method AddNewInterfaces(c: Cache, ghost ifs: map<Name, IfaceV>, ghost ops: map<Name, OpView>, ghost db: Db,
                          tables: Tables, baseMtu: int)
    returns (c': Cache)
    requires Wired(c) && ShowIfs(c, ifs) && ShowOps(c, ops) && Reads(db, tables, baseMtu) && c.Keys <= tables.rows.Keys
    ensures Wired(c') && ShowIfs(c', GrownIfs(ifs, db, {})) && ShowOps(c', GrownOps(ops, db, {}))
    ensures fresh(c'.Values - c.Values)
  {
    hide ShowIfs, ShowOps, Wired, ReadRow, NewIface, GrownIfs, GrownOps, ReadPorts;
    c' := c;
    var left := tables.rows.Keys;
    assert left == db.rows.Keys;
    AllLeft(c, ifs, ops, db);
    while left != {}
      invariant left <= tables.rows.Keys
      invariant Wired(c') && ShowIfs(c', GrownIfs(ifs, db, left)) && ShowOps(c', GrownOps(ops, db, left))
      invariant fresh(c'.Values - c.Values) && c'.Keys == GrownIfs(ifs, db, left).Keys && ifs.Keys == ops.Keys
      decreases |left|
    {
      var n :| n in left;
      GrownNext(ifs, ops, db, left, n);
      if n !in c' {
        var x := AddNewInterface(db, tables, baseMtu, n);
        Joined(c', GrownIfs(ifs, db, left), GrownOps(ops, db, left), n, x);
        c' := c'[n := x];
      }
      left := left - {n};
    }
  }

  lemma AllLeft(c: Cache, ifs: map<Name, IfaceV>, ops: map<Name, OpView>, db: Db)
    requires ShowIfs(c, ifs) && ShowOps(c, ops) && c.Keys <= db.rows.Keys
    ensures ifs.Keys == ops.Keys == c.Keys
    ensures GrownIfs(ifs, db, db.rows.Keys) == ifs && GrownOps(ops, db, db.rows.Keys) == ops
  {
  }

  lemma SyncedNames(w: World, db: Db)
    requires w.ifs.Keys == w.ops.Keys
    ensures SyncNames(w, db) == w.(ifs := GrownIfs(Restrict(w.ifs, db.rows.Keys), db, {}),
                                   ops := GrownOps(Restrict(w.ops, db.rows.Keys), db, {}))
  {
  }

  /** The names of the cache are brought up to date with the rows. */
  method SyncCache(c: Cache, ghost w: World, ghost db: Db, tables: Tables, baseMtu: int)
    returns (c': Cache, ghost w': World)
    requires Wired(c) && ShowIfs(c, w.ifs) && ShowOps(c, w.ops) && w.rec.Keys == db.rows.Keys
    requires Reads(db, tables, baseMtu) && Closed(w.ifs, db.rows.Keys)
    ensures w' == SyncNames(w, db) && Mirrors(c', w') && fresh(c'.Values - c.Values)
  {
    hide ShowIfs, ShowOps, Wired, ReadRow, Closed;
    assert tables.rows.Keys == db.rows.Keys;
    ShownKeys(c, w.ifs, w.ops);
    SyncedNames(w, db);
    c' := DelOldInterfaces(c, tables.rows);
    assert c' == Restrict(c, db.rows.Keys);
    Forgotten(c, w.ifs, w.ops, db.rows.Keys);
    c' := AddNewInterfaces(c', Restrict(w.ifs, db.rows.Keys), Restrict(w.ops, db.rows.Keys), db, tables, baseMtu);
    w' := SyncNames(w, db);
    ShownKeys(c', w'.ifs, w'.ops);
  }

  lemma ShownKeys(c: Cache, ifs: map<Name, IfaceV>, ops: map<Name, OpView>)
    requires ShowIfs(c, ifs) && ShowOps(c, ops)
    ensures c.Keys == ifs.Keys == ops.Keys
  {
  }

  /* ---------- ports ---------- */

  lemma UnlistedNext(db: Db, ms: seq<Name>, i: nat)
    requires i < |ms|
    ensures Unlisted(db, ms[..i + 1])
         == if ms[i] in db.rows && PortOf(db.ports, ms[i]) == None then Unlisted(db, ms[..i]) + [ms[i]]
            else Unlisted(db, ms[..i])
  {
    assert ms[..i + 1][..i] == ms[..i];
  }

  lemma SwitchOffLast(w: World, ms: seq<Name>, m: Name)
    ensures SwitchOffAll(w, ms + [m]) == SwitchOff(SwitchOffAll(w, ms), m)
  {
    assert (ms + [m])[..|ms|] == ms;
  }

  /** del_old_port: reset the members no port lists any more. */
  method DelOldPort(ghost w: World, ghost db: Db, tables: Tables, baseMtu: int, ports: map<Name, seq<Name>>, gone: Name,
                    rec: map<Name, Record>)
    returns (rec': map<Name, Record>, ports': map<Name, seq<Name>>)
    requires rec == w.rec && Reads(db, tables, baseMtu) && gone in ports
    ensures rec' == SwitchOffAll(w, Orphans(db, ports, gone)).rec && ports' == ports - {gone}
  {
    hide ReadRow, PortOf, ReadPorts, SwitchOff;
    rec' := rec;
    var members := ports[gone];
    var named := gone in tables.rows;
    var j := 0;
    while j < |members|
      invariant 0 <= j <= |members|
      invariant rec' == SwitchOffAll(w, if named then Unlisted(db, members[..j]) else []).rec
    {
      var m := members[j];
      UnlistedNext(db, members, j);
      if named && m in tables.rows {
        var port := GetMatchingPortRow(tables.ports, m);
        if port == None {
          SwitchOffLast(w, Unlisted(db, members[..j]), m);
          rec' := Reset(SwitchOffAll(w, Unlisted(db, members[..j])), m, rec');
        }
      }
      j := j + 1;
    }
    assert members[..j] == members;
    ports' := ports - {gone};
  }

  /** Write "enable": "false" to a row and nothing else. */
  method Reset(ghost w: World, n: Name, rec: map<Name, Record>) returns (rec': map<Name, Record>)
    requires rec == w.rec
    ensures rec' == SwitchOff(w, n).rec
  {
    rec' := if n in rec then rec[n := rec[n].(hw := HW_OFF)] else rec;
  }

  /** add_new_port for every port that is not cached. */
  method AddNewPorts(cached: map<Name, seq<Name>>, ports: seq<RawPort>) returns (cached': map<Name, seq<Name>>)
    ensures cached' == AddPorts(cached, ReadPorts(ports))
  {
    ghost var ps := ReadPorts(ports);
    cached' := cached;
    var i := 0;
    while i < |ports|
      invariant 0 <= i <= |ports| && cached' == AddPorts(cached, ps[..i])
    {
      assert ps[..i + 1][..i] == ps[..i] && ps[i] == ReadPort(ports[i]);
      if ports[i].name !in cached' { cached' := cached'[ports[i].name := ports[i].members]; }
      i := i + 1;
    }
    assert ps[..i] == ps;
  }

  /** port_reconfigure, its way given. */
  method PortReconfigure(c: Cache, ghost w: World, db: Db, tables: Tables, baseMtu: int, since: nat,
                         ports: map<Name, seq<Name>>, path: PortPath, rec: map<Name, Record>)
    returns (rec': map<Name, Record>, ports': map<Name, seq<Name>>, rc: bool, ghost w': World)
    requires Mirrors(c, w) && rec == w.rec && c.Keys == db.rows.Keys && PortsLive(db, ports)
    requires Reads(db, tables, baseMtu) && (path.PortGone? ==> path.gone in ports)
    modifies c.Values
    ensures Staged(w', ports', rc) == PortStage(w, ports, db, since, path) && rec' == w'.rec
    ensures Mirrors(c, w')
  {
    hide ShowIfs, ShowOps, Wired, PortsTo, PortLive, ReadRow, Orphans;
    rec', ports', rc, w' := rec, ports, false, w;
    match path {
      case PortsQuiet =>
      case VirtualPortGone =>
      case PortGone(gone) =>
        rec', ports' := DelOldPort(w, db, tables, baseMtu, ports, gone, rec);
        rc, w' := true, SwitchOffAll(w, Orphans(db, ports, gone));
      case PortsChanged(added, columns) =>
        if added {
          AddPortsLive(db, ports, db.ports);
          ports' := AddNewPorts(ports, tables.ports);
        }
        if columns {
          rec', ports', rc, w' := HandlePortConfigMods(c, w, db, tables.ports, since, ports', false, rec);
        }
    }
  }

  /* ---------- forwarding ---------- */

  /** The columns while the rows of `left` have not had their turn. */
  function Partly<T>(before: map<Name, T>, after: map<Name, T>, left: set<Name>): map<Name, T>
    requires before.Keys == after.Keys
  {
    map n | n in before :: if n in left then before[n] else after[n]
  }

  lemma PartlyNext<T>(before: map<Name, T>, after: map<Name, T>, left: set<Name>, n: Name)
    requires before.Keys == after.Keys && n in left && n in before
    ensures Partly(before, after, left - {n}) == Partly(before, after, left)[n := after[n]]
    ensures after[n] == before[n] ==> Partly(before, after, left - {n}) == Partly(before, after, left)
    ensures after[n] != before[n] ==> Partly(before, after, left - {n}) != before
  {
    if after[n] != before[n] { assert Partly(before, after, left - {n})[n] == after[n]; }
  }

  lemma PartlyEnds<T>(before: map<Name, T>, after: map<Name, T>)
    requires before.Keys == after.Keys
    ensures Partly(before, after, before.Keys) == before && Partly(before, after, {}) == after
  {
  }

  /** intfd_arbiter_run: the layers' state is shared, yet each row gets its own result,
      whatever the order. */
  method ArbiterRun(head: Layer?, ghost ls: seq<Layer>, ghost footprint: set<Layer>, ghost ps: set<Proto>,
                    ghost w: World, db: Db, rec: map<Name, Record>, fwd: map<Name, FwdMap>)
    returns (fwd': map<Name, FwdMap>, rc: bool)
    requires ArbiterOk(head, ls, footprint, ps) && rec == w.rec
    requires fwd.Keys == db.rows.Keys == rec.Keys
    modifies footprint`blocked, footprint`owner
    ensures ArbiterOk(head, ls, footprint, ps)
    ensures fwd' == ArbiterStage(fwd, LayerViews(ls), w, db)
    ensures rc <==> fwd' != fwd
  {
    hide ArbiterOk, Forwarding, LayerViews, Partly;
    ghost var goal := ArbiterStage(fwd, LayerViews(ls), w, db);
    PartlyEnds(fwd, goal);
    fwd', rc := fwd, false;
    var left := fwd.Keys;
    while left != {}
      invariant left <= fwd.Keys && fwd' == Partly(fwd, goal, left)
      invariant ArbiterOk(head, ls, footprint, ps)
      invariant rc <==> fwd' != fwd
      decreases |left|
    {
      var n :| n in left;
      PartlyNext(fwd, goal, left, n);
      var row := IfRow(rec[n].hw, db.rows[n].bondStatus);
      var state := InterfaceRun(head, ls, footprint, ps, row, fwd[n]);
      if state != fwd[n] {
        fwd', rc := fwd'[n := state], true;
      }
      left := left - {n};
    }
  }

  /* ---------- the whole turn ---------- */

  lemma InvCloses(s: Sys, baseMtu: int)
    requires Inv(s, baseMtu)
    ensures Closed(s.w.ifs, s.db.rows.Keys)
  {
    forall n | n in s.w.ifs && n in s.db.rows
      ensures s.w.ifs[n].parent.Some? ==> s.w.ifs[n].parent.value in s.db.rows
      ensures s.w.ifs[n].children.Some? ==> forall x <- s.w.ifs[n].children.value :: x in s.db.rows
    {
      assert Kept(s, n) && FamilyOk(s.db.rows, s.idl, n);
    }
  }

  /** What the stages need to know of each other. */
  lemma StagesReady(s: Sys, baseMtu: int, t: Chance)
    requires Inv(s, baseMtu) && ChanceOk(s, t)
    ensures Closed(s.w.ifs, s.db.rows.Keys) && s.w.rec.Keys == s.db.rows.Keys == s.fwd.Keys
    ensures PortsLive(s.db, s.ports) && (t.path.PortGone? ==> t.path.gone in s.ports)
    ensures InOrder(AfterPorts(s, t).w, s.db, s.idl, t.order)
    ensures AfterLoop(s, t).w.rec.Keys == s.db.rows.Keys
  {
    InvCloses(s, baseMtu);
    LoopReady(s, baseMtu, t);
    LoopAligned(AfterPorts(s, t).w, s.db, s.idl, t.order, t.junk, |t.order|);
  }

  /** Names and ports. */
  method UpToLoop(c: Cache, ghost s: Sys, db: Db, tables: Tables, baseMtu: int, since: nat,
                  ports: map<Name, seq<Name>>, path: PortPath, rec: map<Name, Record>)
    returns (c': Cache, rec': map<Name, Record>, ports': map<Name, seq<Name>>, rc: bool, ghost w': World)
    requires Wired(c) && ShowIfs(c, s.w.ifs) && ShowOps(c, s.w.ops)
    requires Closed(s.w.ifs, db.rows.Keys) && s.w.rec.Keys == db.rows.Keys && PortsLive(db, ports)
    requires Reads(db, tables, baseMtu) && rec == s.w.rec && (path.PortGone? ==> path.gone in ports)
    modifies c.Values
    ensures Staged(w', ports', rc) == PortStage(SyncNames(s.w, db), ports, db, since, path) && rec' == w'.rec
    ensures Mirrors(c', w') && fresh(c'.Values - c.Values)
  {
    hide ShowIfs, ShowOps, Wired, ReadRow, PortStage, SyncNames, Closed, PortsLive;
    c', w' := SyncCache(c, s.w, db, tables, baseMtu);
    SyncedKeys(c', w', s.w, db);
    rec', ports', rc, w' := PortReconfigure(c', w', db, tables, baseMtu, since, ports, path, rec);
  }

  lemma SyncedKeys(c: Cache, w: World, w0: World, db: Db)
    requires Mirrors(c, w) && w == SyncNames(w0, db)
    ensures c.Keys == db.rows.Keys && w.rec == w0.rec
  {
  }

  /** Everything before the arbiter. */
  method UpToArbiter(c: Cache, ghost s: Sys, db: Db, tables: Tables, baseMtu: int, since: nat,
                     ports: map<Name, seq<Name>>, t: Chance, rec: map<Name, Record>)
    returns (c': Cache, rec': map<Name, Record>, ports': map<Name, seq<Name>>, rc: bool, ghost w': World)
    requires Inv(s, baseMtu) && ChanceOk(s, t) && Wired(c) && ShowIfs(c, s.w.ifs) && ShowOps(c, s.w.ops)
    requires db == s.db && Reads(db, tables, baseMtu) && since == s.idl && ports == s.ports && rec == s.w.rec
    modifies c.Values
    ensures w' == AfterLoop(s, t).w && rec' == w'.rec && ports' == AfterPorts(s, t).ports
    ensures rc == (AfterPorts(s, t).rc || AfterLoop(s, t).rc)
    ensures Mirrors(c', w') && fresh(c'.Values - c.Values)
  {
    hide ShowIfs, ShowOps, Wired, ReadRow, PortStage, Run, SyncNames, Inv, ChanceOk, Closed, PortsLive, InOrder;
    StagesReady(s, baseMtu, t);
    c', rec', ports', rc, w' := UpToLoop(c, s, db, tables, baseMtu, since, ports, t.path, rec);
    assert AfterPorts(s, t) == Staged(w', ports', rc);
    var rcLoop;
    rec', rcLoop, w' := HandleInterfacesConfigMods(c', w', db, tables, baseMtu, since, t.order, t.junk, rec');
    rc := rc || rcLoop;
  }

  class Intfd {
    const baseMtu: int
    /** The registered layers. */
    const head: Layer?
    ghost const ls: seq<Layer>
    ghost const footprint: set<Layer>
    ghost const protos: set<Proto>
    var all: Cache
    var ports: map<Name, seq<Name>>
    var idlSeqno: nat

    constructor (baseMtu: int, head: Layer?, ghost ls: seq<Layer>, ghost footprint: set<Layer>,
                 ghost protos: set<Proto>, seqno: nat)
      ensures this.baseMtu == baseMtu && this.head == head && this.ls == ls
      ensures this.footprint == footprint && this.protos == protos
      ensures all == map[] && ports == map[] && idlSeqno == seqno
    {
      this.baseMtu, this.head, this.ls, this.footprint, this.protos := baseMtu, head, ls, footprint, protos;
      all, ports, idlSeqno := map[], map[], seqno;
    }

    /** What the daemon keeps is what s says it keeps. */
    ghost predicate Holds(s: Sys)
      reads this, all.Values
    {
      && Wired(all) && ShowIfs(all, s.w.ifs) && ShowOps(all, s.w.ops)
      && ports == s.ports && idlSeqno == s.idl
    }

    ghost predicate LayersReady()
      reads footprint, protos`next
    {
      ArbiterOk(head, ls, footprint, protos)
    }

    /** Everything after the check that something changed. */
    method HandleUpdates(ghost s: Sys, tables: Tables, db: Db, t: Chance,
                         rec: map<Name, Record>, fwd: map<Name, FwdMap>)
      returns (c: Cache, rec': map<Name, Record>, fwd': map<Name, FwdMap>, ports': map<Name, seq<Name>>, rc: bool,
               ghost w: World)
      requires Holds(s) && LayersReady() && s.db == db && Reads(db, tables, baseMtu) && rec == s.w.rec && fwd == s.fwd
      requires Inv(s, baseMtu) && ChanceOk(s, t)
      modifies all.Values, footprint`blocked, footprint`owner
      ensures w == AfterLoop(s, t).w && rec' == w.rec && ports' == AfterPorts(s, t).ports
      ensures fwd' == ArbiterStage(s.fwd, LayerViews(ls), w, db)
      ensures rc == (AfterPorts(s, t).rc || AfterLoop(s, t).rc || fwd' != s.fwd)
      ensures LayersReady() && Mirrors(c, w)
    {
      hide ShowIfs, ShowOps, Wired, ReadRow, AfterPorts, AfterLoop, ArbiterOk, Inv, ArbiterStage, ChanceOk, Closed,
        PortsLive, InOrder, LayerViews, ReadRows, ReadPorts, SyncNames, PortStage, Forwarding;
      StagesReady(s, baseMtu, t);
      c, rec', ports', rc, w := UpToArbiter(all, s, db, tables, baseMtu, idlSeqno, ports, t, rec);
      var rcArbiter;
      fwd', rcArbiter := ArbiterRun(head, ls, footprint, protos, w, db, rec', fwd);
      rc := rc || rcArbiter;
    }

    /** intfd_reconfigure: from any state of a run, on pointers, maps and arrays, one turn
        of the specification. */
    method IntfdReconfigure(ghost s: Sys, tables: Tables, seqno: nat, t: Chance,
                            rec: map<Name, Record>, fwd: map<Name, FwdMap>)
      returns (rec': map<Name, Record>, fwd': map<Name, FwdMap>, rc: bool, ghost s': Sys)
      requires Holds(s) && LayersReady() && s.db == ReadDb(tables, seqno, baseMtu) && rec == s.w.rec && fwd == s.fwd
      requires Inv(s, baseMtu) && ChanceOk(s, t)
      modifies this`all, this`ports, this`idlSeqno, all.Values, footprint`blocked, footprint`owner
      ensures Turned(s', rc) == Turn(s, LayerViews(ls), t)
      ensures Holds(s') && LayersReady() && rec' == s'.w.rec && fwd' == s'.fwd
    {
      hide ShowIfs, ShowOps, Wired, ReadRow, AfterPorts, AfterLoop, ArbiterOk, Inv, ArbiterStage, ChanceOk, Closed,
        PortsLive, InOrder, LayerViews, ReadRows;
      rec', fwd', rc, s' := rec, fwd, false, s;
      if seqno == idlSeqno { return; }
      var c, ports1;
      ghost var w;
      c, rec', fwd', ports1, rc, w := HandleUpdates(s, tables, ReadDb(tables, seqno, baseMtu), t, rec, fwd);
      all, ports, idlSeqno := c, ports1, seqno;
      s' := Sys(s.db, w, fwd', ports1, seqno);
    }

    /** intfd_run: nothing without the lock or before configuration; otherwise a turn, whose
        columns reach the database only if it reports a change. Nothing is lost by that. */
    method IntfdRun(ghost s: Sys, hasLock: bool, configured: bool, tables: Tables, seqno: nat,
                    t: Chance, rec: map<Name, Record>, fwd: map<Name, FwdMap>)
      returns (rec': map<Name, Record>, fwd': map<Name, FwdMap>, ghost s': Sys)
      requires Holds(s) && LayersReady() && s.db == ReadDb(tables, seqno, baseMtu) && rec == s.w.rec && fwd == s.fwd
      requires Inv(s, baseMtu) && ChanceOk(s, t)
      modifies this`all, this`ports, this`idlSeqno, all.Values, footprint`blocked, footprint`owner
      ensures s' == if hasLock && configured then Turn(s, LayerViews(ls), t).s else s
      ensures Holds(s') && LayersReady() && Inv(s', baseMtu) && rec' == s'.w.rec && fwd' == s'.fwd
    {
      hide ShowIfs, ShowOps, Wired, Turn, ArbiterOk, Inv, ChanceOk, LayerViews, ReadRows;
      rec', fwd', s' := rec, fwd, s;
      if !hasLock { return; }
      if !configured { return; }
      var newRec, newFwd, rc;
      newRec, newFwd, rc, s' := IntfdReconfigure(s, tables, seqno, t, rec, fwd);
      TurnKeeps(s, LayerViews(ls), baseMtu, t);
      if rc {
        rec', fwd' := newRec, newFwd;
      } else {
        TurnReportsWrites(s, LayerViews(ls), t);
      }
    }
  }
}
