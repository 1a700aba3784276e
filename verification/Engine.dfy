/** The daemon's state and the modification loop, updated in place. */
module Engine {
  import opened Base
  import opened UserConfig
  import opened Derivation
  import opened World
  import opened Batch
  import opened Rows
  import opened Interface

  /** all_interfaces: interfaces filed under their names. */
  type Cache = map<Name, Iface>

  ghost predicate Named(c: Cache) { forall n {:trigger c[n]} :: n in c ==> c[n].name == n }

  /** The cached interfaces are these values. */
  ghost predicate ShowIfs(c: Cache, ifs: map<Name, IfaceV>)
    reads c.Values`portAdmin, c.Values`user, c.Values`pm, c.Values`parent, c.Values`children
  {
    ifs.Keys == c.Keys && forall n {:trigger c[n]} {:trigger ifs[n]} :: n in c ==> c[n].View() == ifs[n]
  }

  ghost predicate ShowOps(c: Cache, ops: map<Name, OpView>)
    reads c.Values`op
  {
    ops.Keys == c.Keys && forall n {:trigger c[n]} {:trigger ops[n]} :: n in c ==> c[n].Op() == ops[n]
  }

  ghost predicate Known(c: Cache, x: Iface) { x.name in c && c[x.name] == x }

  /** Links lead to cached interfaces. */
  ghost predicate Wired(c: Cache)
    reads c.Values`parent, c.Values`children
  {
    && Named(c)
    && forall n {:trigger c[n]} :: n in c ==>
         && (c[n].parent != null ==> Known(c, c[n].parent))
         && (c[n].children.Some? ==> forall x :: x in c[n].children.value ==> Known(c, x))
  }

  lemma InputsAgree(c: Cache, ifs: map<Name, IfaceV>, n: Name)
    requires ShowIfs(c, ifs) && Wired(c) && n in c
    ensures c[n].In() == InputsOf(ifs, n)
  {
    var x := c[n];
    if x.parent != null { assert Known(c, x.parent); }
  }

  /** The cache mirrors the interfaces and the op_states of w. */
  ghost predicate Mirrors(c: Cache, w: World)
    reads c.Values`portAdmin, c.Values`user, c.Values`pm, c.Values`parent, c.Values`children, c.Values`op
  {
    Wired(c) && ShowIfs(c, w.ifs) && ShowOps(c, w.ops) && w.rec.Keys == c.Keys
  }

  /** set_interface_config for the interface filed under n. */
  method DeriveColumns(ghost c: Cache, ghost w: World, n: Name, intf: Iface) returns (columns: Record, ghost op: OpView)
    requires ShowIfs(c, w.ifs) && Wired(c) && ShowOps(c, w.ops) && n in c && c[n] == intf
    modifies intf`op
    ensures n in w.ifs && n in w.ops && op == NextOp(w, n) && columns == Publish(op, w.ifs[n].pm.ifType)
    ensures ShowOps(c, w.ops[n := op])
  {
    InputsAgree(c, w.ifs, n);
    ghost var i := InputsOf(w.ifs, n);
    op := NewOp(w.ops[n], i);
    columns := intf.SetInterfaceConfig(i);
    forall m | m in c ensures c[m].Op() == w.ops[n := op][m] {
      if m != n { assert c[m].name != intf.name; }
    }
  }

  /** And the row it writes. */
  method WriteRow(ghost c: Cache, ghost w: World, rec: map<Name, Record>, n: Name, intf: Iface)
    returns (rec': map<Name, Record>, ghost w': World)
    requires Wired(c) && ShowIfs(c, w.ifs) && ShowOps(c, w.ops) && rec == w.rec && rec.Keys == c.Keys
    requires n in c && c[n] == intf
    modifies intf`op
    ensures w' == Configure(w, n) && rec' == w'.rec
    ensures ShowOps(c, w'.ops)
  {
    hide ShowIfs, ShowOps, Wired, NextOp, Publish;
    var columns;
    ghost var op;
    columns, op := DeriveColumns(c, w, n, intf);
    rec' := rec[n := columns];
    w' := w.(ops := w.ops[n := op], rec := rec', writes := w.writes + 2);
  }

  method SetInterfaceConfig(ghost c: Cache, ghost w: World, rec: map<Name, Record>, n: Name, intf: Iface)
    returns (rec': map<Name, Record>, ghost w': World)
    requires Mirrors(c, w) && rec == w.rec && n in c && c[n] == intf
    modifies intf`op
    ensures w' == Configure(w, n) && rec' == w'.rec
    ensures Mirrors(c, w')
  {
    hide ShowIfs, ShowOps, Wired;
    rec', w' := WriteRow(c, w, rec, n, intf);
  }

  /** get_matching_port_row */
  method GetMatchingPortRow(ports: seq<RawPort>, n: Name) returns (port: Option<RawPort>)
    ensures PortOf(ReadPorts(ports), n) == if port.Some? then Some(ReadPort(port.value)) else None
  {
    ghost var ps := ReadPorts(ports);
    var i := 0;
    assert ps[0..] == ps;
    while i < |ports|
      invariant 0 <= i <= |ports| && PortOf(ps, n) == PortOf(ps[i..], n)
    {
      assert ps[i] == ReadPort(ports[i]) && ps[i..][1..] == ps[i + 1..];
      var members := ports[i].members;
      var j := 0;
      while j < |members|
        invariant 0 <= j <= |members| && n !in members[..j]
      {
        if members[j] == n { return Some(ports[i]); }
        assert members[..j + 1] == members[..j] + [members[j]];
        j := j + 1;
      }
      assert members[..j] == members;
      i := i + 1;
    }
    return None;
  }

  /** port_parse_admin */
  method PortParseAdmin(ports: seq<RawPort>, n: Name) returns (admin: AdminState, found: bool)
    ensures admin == PortAdminOf(ReadPorts(ports), n) && found == PortOf(ReadPorts(ports), n).Some?
  {
    admin, found := AdminDown, false;
    var port := GetMatchingPortRow(ports, n);
    if port != None {
      if port.value.admin == None || port.value.admin == Some(UP) { admin := AdminUp; }
      found := true;
    }
  }

  lemma ConfigureNext(w: World, ns: seq<Name>, i: nat)
    requires i < |ns|
    ensures ConfigureAll(w, ns[..i + 1]) == Configure(ConfigureAll(w, ns[..i]), ns[i])
  {
    assert ns[..i + 1][..i] == ns[..i];
  }

  /** Derive every child of an interface. */
  method ConfigureChildren(ghost c: Cache, ghost w: World, rec: map<Name, Record>, rows: seq<Name>, kids: seq<Iface>)
    returns (rec': map<Name, Record>, ghost w': World)
    requires Mirrors(c, w) && rec == w.rec && rows == NamesOf(kids)
    requires forall k <- kids :: Known(c, k)
    modifies c.Values`op
    ensures w' == ConfigureAll(w, rows) && rec' == w'.rec
    ensures Mirrors(c, w')
  {
    rec', w' := rec, w;
    var i := 0;
    assert rows[..0] == [];
    while i < |kids|
      invariant 0 <= i <= |kids|
      invariant w' == ConfigureAll(w, rows[..i]) && rec' == w'.rec
      invariant Mirrors(c, w')
    {
      ConfigureNext(w, rows, i);
      assert Known(c, kids[i]);
      rec', w' := SetInterfaceConfig(c, w', rec', rows[i], kids[i]);
      i := i + 1;
    }
    assert rows[..i] == rows;
  }

  lemma PushNext(ifs: map<Name, IfaceV>, ns: seq<Name>, pm: PmInfo, i: nat)
    requires i < |ns| && ns[i] in ifs
    ensures PushPm(ifs, ns[..i + 1], pm) == PushPm(ifs, ns[..i], pm)[ns[i] := ifs[ns[i]].(pm := pm)]
  {
    assert forall m :: m in ns[..i + 1] <==> m in ns[..i] || m == ns[i];
  }

  /** intf->pm_info = ... */
  method SetPm(ghost c: Cache, ghost ifs: map<Name, IfaceV>, intf: Iface, pm: PmInfo)
    requires Wired(c) && ShowIfs(c, ifs) && Known(c, intf)
    modifies intf`pm
    ensures ShowIfs(c, ifs[intf.name := ifs[intf.name].(pm := pm)])
  {
    intf.pm := pm;
    forall m | m in c && m != intf.name ensures c[m].View() == ifs[m] { assert c[m].name != intf.name; }
  }

  /** Hand module information on to every child. */
  method PushToChildren(ghost c: Cache, ghost ifs: map<Name, IfaceV>, kids: seq<Iface>, pm: PmInfo)
    requires Wired(c) && ShowIfs(c, ifs) && forall k <- kids :: Known(c, k)
    modifies c.Values`pm
    ensures ShowIfs(c, PushPm(ifs, NamesOf(kids), pm))
  {
    ghost var names := NamesOf(kids);
    var i := 0;
    assert PushPm(ifs, names[..0], pm) == ifs;
    while i < |kids|
      invariant 0 <= i <= |kids|
      invariant ShowIfs(c, PushPm(ifs, names[..i], pm))
    {
      assert Known(c, kids[i]);
      PushNext(ifs, names, pm, i);
      SetPm(c, PushPm(ifs, names[..i], pm), kids[i], pm);
      assert PushPm(ifs, names[..i], pm)[names[i]].(pm := pm) == ifs[names[i]].(pm := pm);
      i := i + 1;
    }
    assert names[..i] == names;
  }

  /* ---------- one iteration of the loop ---------- */

  method SetPortAdmin(ghost c: Cache, ghost ifs: map<Name, IfaceV>, intf: Iface, admin: AdminState)
    requires Named(c) && ShowIfs(c, ifs) && Known(c, intf)
    modifies intf`portAdmin
    ensures ShowIfs(c, ifs[intf.name := ifs[intf.name].(portAdmin := admin)])
  {
    intf.portAdmin := admin;
    forall m | m in c && m != intf.name ensures c[m].View() == ifs[m] { assert c[m].name != intf.name; }
  }

  method TakeUser(ghost c: Cache, ghost ifs: map<Name, IfaceV>, intf: Iface, u: UserCfg)
    returns (cfgChanged: bool, splitChanged: bool)
    requires Named(c) && ShowIfs(c, ifs) && Known(c, intf)
    modifies intf`user
    ensures ShowIfs(c, ifs[intf.name := ifs[intf.name].(user := u)])
    ensures cfgChanged <==> u != ifs[intf.name].user
    ensures splitChanged <==> u.lane != ifs[intf.name].user.lane
  {
    cfgChanged, splitChanged := intf.MergeUser(u);
    forall m | m in c && m != intf.name ensures c[m].View() == ifs[m] { assert c[m].name != intf.name; }
  }

  method TakePm(ghost c: Cache, ghost ifs: map<Name, IfaceV>, intf: Iface, pm: PmInfo)
    returns (cfgChanged: bool, pmChanged: bool)
    requires Named(c) && ShowIfs(c, ifs) && Known(c, intf)
    modifies intf`pm
    ensures ShowIfs(c, ifs[intf.name := ifs[intf.name].(pm := pm)])
    ensures cfgChanged <==> pm != ifs[intf.name].pm
    ensures pmChanged <==> pm.connector != ifs[intf.name].pm.connector
  {
    cfgChanged, pmChanged := intf.MergePm(pm);
    forall m | m in c && m != intf.name ensures c[m].View() == ifs[m] { assert c[m].name != intf.name; }
  }

  lemma UpdateTwice(ifs: map<Name, IfaceV>, n: Name, a: IfaceV, b: IfaceV)
    ensures ifs[n := a][n := b] == ifs[n := b]
  {
  }

  /** The flags a merge reports. */
  datatype News = News(cfg: bool, split: bool, pm: bool)

  function NewsOf(v: IfaceV, v1: IfaceV): News {
    News(v1.user != v.user || v1.pm != v.pm, v1.user.lane != v.user.lane, v1.pm.connector != v.pm.connector)
  }

  /** Take over what a modified row says, noting what is new. */
  method MergeRow(ghost c: Cache, ghost ifs: map<Name, IfaceV>, n: Name, intf: Iface, u: UserCfg, admin: AdminState,
                  pm: PmInfo)
    returns (news: News, ghost v1: IfaceV)
    requires Named(c) && ShowIfs(c, ifs) && n in c && c[n] == intf
    modifies intf`user, intf`portAdmin, intf`pm
    ensures v1 == ifs[n].(user := u, portAdmin := admin, pm := pm) && news == NewsOf(ifs[n], v1)
    ensures ShowIfs(c, ifs[n := v1])
  {
    ghost var v := ifs[n];
    assert Known(c, intf) && intf.name == n;
    SetPortAdmin(c, ifs, intf, admin);
    var cfgChanged, splitChanged := TakeUser(c, ifs[n := v.(portAdmin := admin)], intf, u);
    UpdateTwice(ifs, n, v.(portAdmin := admin), v.(user := u, portAdmin := admin));
    v1 := v.(user := u, portAdmin := admin, pm := pm);
    var pmNew, pmChanged := TakePm(c, ifs[n := v.(user := u, portAdmin := admin)], intf, pm);
    UpdateTwice(ifs, n, v.(user := u, portAdmin := admin), v1);
    news := News(cfgChanged || pmNew, splitChanged, pmChanged);
  }

  /** The cached interfaces of these names. */
  method ChildPointers(c: Cache, names: seq<Name>) returns (kids: seq<Iface>)
    requires Named(c) && forall x <- names :: x in c
    ensures NamesOf(kids) == names && forall k <- kids :: Known(c, k)
  {
    kids := [];
    var i := 0;
    while i < |names|
      invariant 0 <= i <= |names| && |kids| == i
      invariant forall j :: 0 <= j < i ==> kids[j].name == names[j] && Known(c, kids[j])
    {
      kids := kids + [c[names[i]]];
      i := i + 1;
    }
  }

  method SetParent(ghost c: Cache, ghost ifs: map<Name, IfaceV>, intf: Iface, parent: Iface)
    requires Wired(c) && ShowIfs(c, ifs) && Known(c, intf) && Known(c, parent)
    modifies intf`parent
    ensures Wired(c) && ShowIfs(c, ifs[intf.name := ifs[intf.name].(parent := Some(parent.name))])
  {
    intf.parent := parent;
    forall m | m in c && m != intf.name ensures c[m].View() == ifs[m] { assert c[m].name != intf.name; }
  }

  method SetChildren(ghost c: Cache, ghost ifs: map<Name, IfaceV>, intf: Iface, kids: seq<Iface>)
    requires Wired(c) && ShowIfs(c, ifs) && Known(c, intf) && forall k <- kids :: Known(c, k)
    modifies intf`children
    ensures Wired(c) && ShowIfs(c, ifs[intf.name := ifs[intf.name].(children := Some(NamesOf(kids)))])
  {
    intf.children := Some(kids);
    forall m | m in c && m != intf.name ensures c[m].View() == ifs[m] { assert c[m].name != intf.name; }
  }

  /** The whole family of n is cached. */
  ghost predicate FamilyCached(db: Db, n: Name)
    requires n in db.rows
  {
    && (db.rows[n].splitParent.Some? ==> db.rows[n].splitParent.value in db.rows)
    && forall x <- db.rows[n].splitChildren :: x in db.rows
  }

  /** intfd_process_parent_child */
  method IntfdProcessParentChild(c: Cache, ghost ifs: map<Name, IfaceV>, db: Db, n: Name, intf: Iface)
    requires Wired(c) && ShowIfs(c, ifs) && c.Keys == db.rows.Keys && n in c && c[n] == intf && FamilyCached(db, n)
    modifies intf`parent, intf`children, intf`pm
    ensures Wired(c) && ShowIfs(c, ifs[n := Link(ifs[n], db, n)])
  {
    var r := db.rows[n];
    if r.splitParent == None && r.splitChildren == [] {
      assert ifs[n := ifs[n]] == ifs;
    } else if r.splitParent != None {
      ghost var v := ifs[n].(parent := r.splitParent);
      SetParent(c, ifs, intf, c[r.splitParent.value]);
      SetPm(c, ifs[n := v], intf, db.rows[r.splitParent.value].lane);
      UpdateTwice(ifs, n, v, Link(ifs[n], db, n));
    } else {
      var kids := ChildPointers(c, r.splitChildren);
      SetChildren(c, ifs, intf, kids);
    }
  }

  /** The branch for an inserted row. */
  method VisitInserted(c: Cache, ghost w: World, db: Db, n: Name, intf: Iface, rec: map<Name, Record>)
    returns (rec': map<Name, Record>, ghost w': World)
    requires Mirrors(c, w) && rec == w.rec && c.Keys == db.rows.Keys && n in c && c[n] == intf && FamilyCached(db, n)
    modifies intf`parent, intf`children, intf`pm, intf`op
    ensures w' == Configure(w.(ifs := w.ifs[n := Link(w.ifs[n], db, n)]), n) && rec' == w'.rec
    ensures Mirrors(c, w')
  {
    IntfdProcessParentChild(c, w.ifs, db, n, intf);
    ghost var w1 := w.(ifs := w.ifs[n := Link(w.ifs[n], db, n)]);
    assert ShowOps(c, w.ops);
    rec', w' := SetInterfaceConfig(c, w1, rec, n, intf);
  }

  /** Derive and publish n if its configuration changed. */
  method ConfigureIf(ghost c: Cache, ghost w: World, changed: bool, n: Name, intf: Iface, rec: map<Name, Record>)
    returns (rec': map<Name, Record>, ghost w': World)
    requires Mirrors(c, w) && rec == w.rec && n in c && c[n] == intf
    modifies intf`op
    ensures w' == (if changed then Configure(w, n) else w) && rec' == w'.rec
    ensures Mirrors(c, w')
  {
    rec', w' := rec, w;
    if changed { rec', w' := SetInterfaceConfig(c, w, rec, n, intf); }
  }

  /** The split_changed and pm_info_changed part: pass module information on, and derive
      the children. */
  method TellChildren(ghost c: Cache, ghost w: World, push: bool, split: bool, rows: seq<Name>, kids: seq<Iface>,
                      lane: PmInfo, rec: map<Name, Record>)
    returns (rec': map<Name, Record>, ghost w': World)
    requires Mirrors(c, w) && rec == w.rec && rows == NamesOf(kids) && forall k <- kids :: Known(c, k)
    modifies c.Values`pm, c.Values`op
    ensures var w1 := if push then w.(ifs := PushPm(w.ifs, rows, lane)) else w;
      w' == (if split then ConfigureAll(w1, rows) else w1) && rec' == w'.rec
    ensures Mirrors(c, w')
  {
    hide ShowIfs, ShowOps, Wired;
    rec', w' := rec, w;
    if push {
      PushToChildren(c, w.ifs, kids, lane);
      w' := w.(ifs := PushPm(w.ifs, rows, lane));
    }
    if split {
      rec', w' := ConfigureChildren(c, w', rec', rows, kids);
    }
  }

  /** What a modified row says: parsed settings, port state and module information. */
  method ParseRow(tables: Tables, ghost db: Db, baseMtu: int, n: Name, hw: HwInfo, scratch: Buffer)
    returns (u: UserCfg, admin: AdminState, pm: PmInfo)
    requires Reads(db, tables, baseMtu) && n in tables.rows && hw == db.rows[n].hw
    requires db.rows[n].splitParent.Some? ==> db.rows[n].splitParent.value in db.rows
    ensures u == ParseInto(db.rows[n].cfg, scratch) && admin == PortAdminOf(db.ports, n) && pm == RowPm(db, n)
  {
    var raw := tables.rows[n];
    u := IntfdParseUserCfg(raw.userConfig, raw.hw.speeds, baseMtu, scratch);
    var found;
    admin, found := PortParseAdmin(tables.ports, n);
    pm := if raw.splitParent == None then ParsePm(hw, raw.pm) else ParseSplitPm(tables.rows[raw.splitParent.value].pm);
  }

  /** What goes on from one interface to the next besides the cache. */
  datatype Carried = Carried(split: bool, pm: bool, rc: bool, scratch: Buffer)

  predicate Carries(k: Carried, s: LoopState) {
    k.split == s.split && k.pm == s.pm && k.rc == s.rc && k.scratch == s.scratch
  }

  /** What follows the merge. */
  function AfterMerge(w1: World, n: Name, changed: bool, push: bool, split: bool, kids: seq<Name>,
                      lane: PmInfo): World {
    var w2 := if changed then Configure(w1, n) else w1;
    var w3 := if push then w2.(ifs := PushPm(w2.ifs, kids, lane)) else w2;
    if split then ConfigureAll(w3, kids) else w3
  }

  lemma VisitIs(s: LoopState, db: Db, since: nat, n: Name, v1: IfaceV)
    requires n in s.w.ifs && IsMod(db, since, n) && v1 == Merge(s.w.ifs[n], db, n, s.scratch)
    ensures var v, lane := s.w.ifs[n], db.rows[n].lane;
      var news := NewsOf(v, v1);
      var push := (s.pm || news.pm) && db.rows[n].splitChildren != [];
      var split := s.split || news.split || push;
      Visit(s, db, since, n) == LoopState(
        AfterMerge(WithIface(s.w, n, v1), n, news.cfg, push, split, Children(v), lane),
        split, s.pm || news.pm, s.rc || news.cfg, v1.user.speeds)
  {
  }

  /** The pointers of a cached interface are the names the model shows. */
  lemma ChildrenShown(c: Cache, w: World, n: Name)
    requires Mirrors(c, w) && n in c
    ensures c[n].children == None <==> w.ifs[n].children == None
    ensures c[n].children.Some? ==>
      w.ifs[n].children == Some(NamesOf(c[n].children.value)) && forall k <- c[n].children.value :: Known(c, k)
  {
  }

  method FollowMerge(ghost c: Cache, ghost w1: World, n: Name, intf: Iface, changed: bool, push: bool, split: bool,
                     children: seq<Name>, lane: PmInfo, rec: map<Name, Record>)
    returns (rec': map<Name, Record>, ghost w': World)
    requires Mirrors(c, w1) && rec == w1.rec && n in c && c[n] == intf
    requires w1.ifs[n].children.Some? ==> w1.ifs[n].children == Some(children)
    modifies c.Values`pm, c.Values`op
    ensures w' == AfterMerge(w1, n, changed, push, split, Children(w1.ifs[n]), lane) && rec' == w'.rec
    ensures Mirrors(c, w')
  {
    hide ShowIfs, ShowOps, Wired;
    ChildrenShown(c, w1, n);
    ghost var w2;
    rec', w2 := ConfigureIf(c, w1, changed, n, intf, rec);
    if intf.children == None {
      w' := AfterMerge(w1, n, changed, push, split, [], lane);
      assert push ==> PushPm(w2.ifs, [], lane) == w2.ifs;
    } else {
      rec', w' := TellChildren(c, w2, push, split, children, intf.children.value, lane, rec');
    }
  }

  lemma WiredIsNamed(c: Cache)
    requires Wired(c)
    ensures Named(c)
  {
  }

  method MergeShown(ghost c: Cache, ghost w: World, n: Name, intf: Iface, u: UserCfg, admin: AdminState, pm: PmInfo)
    returns (news: News, ghost v1: IfaceV)
    requires Mirrors(c, w) && n in c && c[n] == intf
    modifies intf`user, intf`portAdmin, intf`pm
    ensures v1 == w.ifs[n].(user := u, portAdmin := admin, pm := pm) && news == NewsOf(w.ifs[n], v1)
    ensures Mirrors(c, WithIface(w, n, v1))
  {
    hide ShowIfs, ShowOps, Wired;
    WiredIsNamed(c);
    news, v1 := MergeRow(c, w.ifs, n, intf, u, admin, pm);
  }

  /** The branch for a modified row, once it has been parsed. */
  method VisitModified(ghost c: Cache, ghost w: World, n: Name, intf: Iface, children: seq<Name>, lane: PmInfo,
                       u: UserCfg, admin: AdminState, pm: PmInfo, rec: map<Name, Record>, k: Carried)
    returns (rec': map<Name, Record>, k': Carried, ghost w': World)
    requires Mirrors(c, w) && rec == w.rec && n in c && c[n] == intf
    requires w.ifs[n].children.Some? ==> w.ifs[n].children == Some(children)
    modifies c.Values`user, c.Values`portAdmin, c.Values`pm, c.Values`op
    ensures var v1 := w.ifs[n].(user := u, portAdmin := admin, pm := pm); var news := NewsOf(w.ifs[n], v1);
      var push := (k.pm || news.pm) && children != [];
      && k' == Carried(k.split || news.split || push, k.pm || news.pm, k.rc || news.cfg, u.speeds)
      && w' == AfterMerge(WithIface(w, n, v1), n, news.cfg, push, k'.split, Children(w.ifs[n]), lane)
    ensures Mirrors(c, w') && rec' == w'.rec
  {
    hide ShowIfs, ShowOps, Wired;
    var news;
    ghost var v1;
    news, v1 := MergeShown(c, w, n, intf, u, admin, pm);
    ghost var w1 := WithIface(w, n, v1);
    var push := (k.pm || news.pm) && children != [];
    k' := Carried(k.split || news.split || push, k.pm || news.pm, k.rc || news.cfg, u.speeds);
    rec', w' := FollowMerge(c, w1, n, intf, news.cfg, push, k'.split, children, lane, rec);
  }

  lemma InsertedIs(s: LoopState, db: Db, since: nat, n: Name)
    requires n in s.w.ifs && IsIns(db, since, n)
    ensures Visit(s, db, since, n)
         == s.(w := Configure(s.w.(ifs := s.w.ifs[n := Link(s.w.ifs[n], db, n)]), n), rc := true)
  {
  }

  lemma MirroredKeys(c: Cache, w: World)
    requires Mirrors(c, w)
    ensures c.Keys == w.ifs.Keys == w.ops.Keys == w.rec.Keys
    ensures forall n :: n in c ==> c[n].hw == w.ifs[n].hw
  {
  }

  /** One iteration of handle_interfaces_config_mods. */
  method VisitOne(c: Cache, ghost s: LoopState, db: Db, tables: Tables, baseMtu: int, since: nat, n: Name,
                  rec: map<Name, Record>, k: Carried)
    returns (rec': map<Name, Record>, k': Carried, ghost s': LoopState)
    requires Mirrors(c, s.w) && rec == s.w.rec && Carries(k, s)
    requires Reads(db, tables, baseMtu) && c.Keys == db.rows.Keys && n in c && FamilyCached(db, n)
    requires n in s.w.ifs && (IsMod(db, since, n) ==> Placed(s.w.ifs[n], db, since, n))
    modifies c.Values
    ensures s' == Visit(s, db, since, n) && rec' == s'.w.rec && Carries(k', s')
    ensures Mirrors(c, s'.w)
  {
    hide ShowIfs, ShowOps, Wired, Visit, ReadRow, AfterMerge, Configure;
    MirroredKeys(c, s.w);
    var r := db.rows[n];
    if Inserted(r, since) {
      InsertedIs(s, db, since, n);
      ghost var w';
      rec', w' := VisitInserted(c, s.w, db, n, c[n], rec);
      k', s' := k.(rc := true), s.(w := w', rc := true);
    } else if Modified(r, since) {
      var u, admin, pm := ParseRow(tables, db, baseMtu, n, c[n].hw, k.scratch);
      VisitIs(s, db, since, n, s.w.ifs[n].(user := u, portAdmin := admin, pm := pm));
      ghost var w';
      rec', k', w' := VisitModified(c, s.w, n, c[n], r.splitChildren, r.lane, u, admin, pm, rec, k);
      s' := LoopState(w', k'.split, k'.pm, k'.rc, k'.scratch);
    } else {
      UntouchedIs(s, db, since, n);
      rec', k', s' := rec, k, s;
    }
  }

  lemma UntouchedIs(s: LoopState, db: Db, since: nat, n: Name)
    requires n in db.rows && !Inserted(db.rows[n], since) && !Modified(db.rows[n], since)
    ensures Visit(s, db, since, n) == s
  {
  }

  /** What never changes is still in place when a modified interface is reached. */
  lemma PlacedLater(w0: World, db: Db, since: nat, order: seq<Name>, junk: Buffer, k: nat, n: Name)
    requires InOrder(w0, db, since, order) && k <= |order| && n in w0.ifs
    ensures n in StateAt(w0, db, since, order, junk, k).w.ifs
    ensures IsMod(db, since, n) ==> Placed(StateAt(w0, db, since, order, junk, k).w.ifs[n], db, since, n)
  {
    LoopAligned(w0, db, since, order, junk, k);
    LoopCache(w0, db, since, order, junk, k, n);
    LoopLinks(w0, db, since, order, junk, k);
    assert LinkAfter(CacheAt(w0, db, since, order, junk, k).ifs[n], db, since, order[..k], n);
    assert Placed(w0.ifs[n], db, since, n);
  }

  lemma FamilyIsCached(db: Db, since: nat, n: Name)
    requires Families(db.rows, since) && n in db.rows
    ensures FamilyCached(db, n)
  {
    assert FamilyOk(db.rows, since, n);
  }

  /** handle_interfaces_config_mods: the loop does what the specification of the loop says. */
  method HandleInterfacesConfigMods(c: Cache, ghost w: World, db: Db, tables: Tables, baseMtu: int, since: nat,
                                    order: seq<Name>, junk: Buffer, rec: map<Name, Record>)
    returns (rec': map<Name, Record>, rc: bool, ghost w': World)
    requires Mirrors(c, w) && rec == w.rec && Reads(db, tables, baseMtu) && InOrder(w, db, since, order)
    modifies c.Values
    ensures w' == Run(w, db, since, order, junk).w && rc == Run(w, db, since, order, junk).rc
    ensures rec' == w'.rec && Mirrors(c, w')
  {
    hide ShowIfs, ShowOps, Wired, Visit, ReadRow, InOrder;
    MirroredKeys(c, w);
    ghost var s := Start(w, junk);
    var k := Carried(false, false, false, junk);
    rec' := rec;
    var i := 0;
    while i < |order|
      invariant 0 <= i <= |order|
      invariant s == StateAt(w, db, since, order, junk, i) && rec' == s.w.rec && Carries(k, s)
      invariant Mirrors(c, s.w)
    {
      OrderFacts(w, db, since, order, i);
      PlacedLater(w, db, since, order, junk, i, order[i]);
      rec', k, s := VisitOne(c, s, db, tables, baseMtu, since, order[i], rec', k);
      i := i + 1;
    }
    rc, w' := k.rc, s.w;
  }

  lemma OrderFacts(w: World, db: Db, since: nat, order: seq<Name>, i: nat)
    requires InOrder(w, db, since, order) && i < |order|
    ensures order[i] in w.ifs && w.ifs.Keys == db.rows.Keys && FamilyCached(db, order[i])
  {
    assert order[i] in order;
    FamilyIsCached(db, since, order[i]);
  }
}
