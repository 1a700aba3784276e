/** Port changes, updated in place: add_del_interface_handle_port_config_mods and
    remove_interface_from_port. */
module PortEngine {
  import opened Base
  import opened UserConfig
  import opened Derivation
  import opened World
  import opened Rows
  import opened PortMembers
  import opened Reconfigure
  import opened Interface
  import opened Engine

  method SetAdmin(ghost c: Cache, ghost ifs: map<Name, IfaceV>, intf: Iface, admin: AdminState)
    requires Named(c) && ShowIfs(c, ifs) && Known(c, intf)
    modifies intf`user
    ensures ShowIfs(c, ifs[intf.name := ifs[intf.name].(user := ifs[intf.name].user.(admin := admin))])
  {
    intf.user := intf.user.(admin := admin);
    forall m | m in c && m != intf.name ensures c[m].View() == ifs[m] { assert c[m].name != intf.name; }
  }

  lemma Filed(c: Cache, w: World, n: Name)
    requires Mirrors(c, w) && n in c
    ensures Named(c) && Known(c, c[n]) && c[n].name == n && n in w.ifs && n in w.ops && n in w.rec
  {
  }

  /** Join a port: its admin state, and the admin setting of the row. */
  method JoinPort(ghost c: Cache, ghost w: World, n: Name, intf: Iface, port: AdminState, admin: AdminState)
    returns (ghost w': World)
    requires Mirrors(c, w) && n in c && c[n] == intf
    modifies intf`portAdmin, intf`user
    ensures w' == w.(ifs := w.ifs[n := w.ifs[n].(portAdmin := port, user := w.ifs[n].user.(admin := admin))])
    ensures Mirrors(c, w')
  {
    hide ShowIfs, ShowOps, Wired;
    Filed(c, w, n);
    ghost var v := w.ifs[n];
    SetPortAdmin(c, w.ifs, intf, port);
    SetAdmin(c, w.ifs[n := v.(portAdmin := port)], intf, admin);
    UpdateTwice(w.ifs, n, v.(portAdmin := port), v.(portAdmin := port, user := v.user.(admin := admin)));
    w' := w.(ifs := w.ifs[n := v.(portAdmin := port, user := v.user.(admin := admin))]);
  }

  /** A member of a modified port. */
  method AttachMember(ghost c: Cache, ghost w: World, db: Db, port: RawPort, n: Name, intf: Iface,
                      rec: map<Name, Record>)
    returns (rec': map<Name, Record>, ghost w': World)
    requires Mirrors(c, w) && rec == w.rec && n in c && c[n] == intf && n in db.rows
    modifies intf`portAdmin, intf`user, intf`op
    ensures w' == Attach(w, db, Some(ReadPort(port)), n) && rec' == w'.rec
    ensures Mirrors(c, w')
  {
    hide ShowIfs, ShowOps, Wired, Configure;
    Filed(c, w, n);
    var admin := if port.admin == None || port.admin == Some(UP) then AdminUp else AdminDown;
    w' := JoinPort(c, w, n, intf, admin, db.rows[n].cfg.user.admin);
    rec', w' := SetInterfaceConfig(c, w', rec, n, intf);
  }

  method Leave(ghost c: Cache, ghost w: World, n: Name, intf: Iface, rec: map<Name, Record>)
    returns (rec': map<Name, Record>, ghost w': World)
    requires Mirrors(c, w) && rec == w.rec && n in c && c[n] == intf
    modifies intf`portAdmin
    ensures w' == SwitchOff(w.(ifs := w.ifs[n := w.ifs[n].(portAdmin := AdminDown)]), n) && rec' == w'.rec
    ensures Mirrors(c, w')
  {
    hide ShowIfs, ShowOps, Wired;
    Filed(c, w, n);
    SetPortAdmin(c, w.ifs, intf, AdminDown);
    rec' := rec[n := rec[n].(hw := HW_OFF)];
    w' := SwitchOff(w.(ifs := w.ifs[n := w.ifs[n].(portAdmin := AdminDown)]), n);
  }

  /** A member that is no longer listed: derived with another port, or reset. */
  method ReleaseMember(ghost c: Cache, ghost w: World, db: Db, portRows: seq<RawPort>, n: Name, intf: Iface,
                       rec: map<Name, Record>)
    returns (rec': map<Name, Record>, ghost w': World)
    requires Mirrors(c, w) && rec == w.rec && n in c && c[n] == intf && n in db.rows && db.ports == ReadPorts(portRows)
    modifies intf`portAdmin, intf`user, intf`op
    ensures w' == Attach(w, db, None, n) && rec' == w'.rec
    ensures Mirrors(c, w')
  {
    hide ShowIfs, ShowOps, Wired, Configure;
    Filed(c, w, n);
    var port, found := PortParseAdmin(portRows, n);
    if found {
      w' := JoinPort(c, w, n, intf, port, db.rows[n].cfg.user.admin);
      rec', w' := SetInterfaceConfig(c, w', rec, n, intf);
    } else {
      rec', w' := Leave(c, w, n, intf, rec);
    }
  }

  lemma AttachNext(w: World, db: Db, given: Option<PortRow>, ms: seq<Name>, i: nat)
    requires i < |ms|
    ensures AttachAll(w, db, given, ms[..i + 1]) == Attach(AttachAll(w, db, given, ms[..i]), db, given, ms[i])
  {
    assert ms[..i + 1][..i] == ms[..i];
  }

  lemma DepartedNext(cached: seq<Name>, members: seq<Name>, j: nat)
    requires j < |cached|
    ensures Departed(cached[..j + 1], members)
         == if cached[j] in members then Departed(cached[..j], members)
            else Departed(cached[..j], members) + [cached[j]]
  {
    assert cached[..j + 1][..j] == cached[..j];
  }

  /** One more cached member looked at by the general pass. */
  lemma DepartedStep(w: World, db: Db, cached: seq<Name>, members: seq<Name>, j: nat)
    requires j < |cached|
    ensures var was := AttachAll(w, db, None, Departed(cached[..j], members));
      AttachAll(w, db, None, Departed(cached[..j + 1], members))
      == if cached[j] in members then was else Attach(was, db, None, cached[j])
  {
    hide AttachAll, Attach, Departed;
    DepartedNext(cached, members, j);
    AttachAppended(w, db, None, Departed(cached[..j], members), cached[j]);
  }

  lemma NoneDeparted(w: World, db: Db, cached: seq<Name>, members: seq<Name>)
    ensures AttachAll(w, db, None, Departed(cached[..0], members)) == w
  {
  }

  lemma AttachAppended(w: World, db: Db, given: Option<PortRow>, ms: seq<Name>, m: Name)
    ensures AttachAll(w, db, given, ms + [m]) == Attach(AttachAll(w, db, given, ms), db, given, m)
  {
    assert (ms + [m])[..|ms|] == ms;
  }

  /** The interfaces the row lists, each with this port. */
  method AttachMembers(c: Cache, ghost w: World, db: Db, port: RawPort, rec: map<Name, Record>)
    returns (rec': map<Name, Record>, ghost w': World)
    requires Mirrors(c, w) && rec == w.rec && c.Keys == db.rows.Keys && forall m <- port.members :: m in c
    modifies c.Values
    ensures w' == AttachAll(w, db, Some(ReadPort(port)), port.members) && rec' == w'.rec
    ensures Mirrors(c, w')
  {
    hide ShowIfs, ShowOps, Wired, Attach;
    rec', w' := rec, w;
    var i := 0;
    while i < |port.members|
      invariant 0 <= i <= |port.members|
      invariant w' == AttachAll(w, db, Some(ReadPort(port)), port.members[..i]) && rec' == w'.rec
      invariant Mirrors(c, w')
    {
      AttachNext(w, db, Some(ReadPort(port)), port.members, i);
      rec', w' := AttachMember(c, w', db, port, port.members[i], c[port.members[i]], rec');
      i := i + 1;
    }
    assert port.members[..i] == port.members;
  }

  /** remove_interface_from_port, the pass for an emptied port. */
  method ReleaseAll(c: Cache, ghost w: World, db: Db, portRows: seq<RawPort>, cached: seq<Name>, rec: map<Name, Record>)
    returns (rec': map<Name, Record>, ghost w': World)
    requires Mirrors(c, w) && rec == w.rec && c.Keys == db.rows.Keys && db.ports == ReadPorts(portRows)
    requires forall m <- cached :: m in c
    modifies c.Values
    ensures w' == AttachAll(w, db, None, cached) && rec' == w'.rec
    ensures Mirrors(c, w')
  {
    hide ShowIfs, ShowOps, Wired, Attach;
    rec', w' := rec, w;
    var j := 0;
    while j < |cached|
      invariant 0 <= j <= |cached|
      invariant w' == AttachAll(w, db, None, cached[..j]) && rec' == w'.rec
      invariant Mirrors(c, w')
    {
      AttachNext(w, db, None, cached, j);
      rec', w' := ReleaseMember(c, w', db, portRows, cached[j], c[cached[j]], rec');
      j := j + 1;
    }
    assert cached[..j] == cached;
  }

  method Lists(members: seq<Name>, n: Name) returns (found: bool)
    ensures found <==> n in members
  {
    found := false;
    var i := 0;
    while i < |members|
      invariant 0 <= i <= |members| && n !in members[..i]
    {
      if members[i] == n { return true; }
      assert members[..i + 1] == members[..i] + [members[i]];
      i := i + 1;
    }
    assert members[..i] == members;
  }

  /** Its general pass. */
  method ReleaseDeparted(c: Cache, ghost w: World, db: Db, portRows: seq<RawPort>, cached: seq<Name>,
                         members: seq<Name>, rec: map<Name, Record>)
    returns (rec': map<Name, Record>, ghost w': World)
    requires Mirrors(c, w) && rec == w.rec && c.Keys == db.rows.Keys && db.ports == ReadPorts(portRows)
    requires forall m <- cached :: m in c
    modifies c.Values
    ensures w' == AttachAll(w, db, None, Departed(cached, members)) && rec' == w'.rec
    ensures Mirrors(c, w')
  {
    hide ShowIfs, ShowOps, Wired, Attach, AttachAll, Departed, ReadPorts;
    rec', w' := rec, w;
    NoneDeparted(w, db, cached, members);
    var j := 0;
    while j < |cached|
      invariant 0 <= j <= |cached|
      invariant w' == AttachAll(w, db, None, Departed(cached[..j], members)) && rec' == w'.rec
      invariant Mirrors(c, w')
    {
      DepartedStep(w, db, cached, members, j);
      var found := Lists(members, cached[j]);
      if !found {
        rec', w' := ReleaseMember(c, w', db, portRows, cached[j], c[cached[j]], rec');
      }
      j := j + 1;
    }
    assert cached[..j] == cached;
  }

  /** One modified port. */
  method HandlePort(c: Cache, ghost w: World, db: Db, portRows: seq<RawPort>, port: RawPort, cached: seq<Name>,
                    rec: map<Name, Record>)
    returns (rec': map<Name, Record>, ghost w': World)
    requires Mirrors(c, w) && rec == w.rec && c.Keys == db.rows.Keys && db.ports == ReadPorts(portRows)
    requires forall m :: m in port.members || m in cached ==> m in c
    modifies c.Values
    ensures w' == ProcessPort(w, db, ReadPort(port), cached) && rec' == w'.rec
    ensures Mirrors(c, w')
  {
    hide ShowIfs, ShowOps, Wired, AttachAll;
    rec', w' := AttachMembers(c, w, db, port, rec);
    if |port.members| == 0 {
      rec', w' := ReleaseAll(c, w', db, portRows, cached, rec');
    }
    rec', w' := ReleaseDeparted(c, w', db, portRows, cached, port.members, rec');
  }

  /** add_del_interface_handle_port_config_mods, once the columns have changed. */
  method HandlePortConfigMods(c: Cache, ghost w: World, db: Db, portRows: seq<RawPort>, since: nat,
                              ports: map<Name, seq<Name>>, rc0: bool, rec: map<Name, Record>)
    returns (rec': map<Name, Record>, ports': map<Name, seq<Name>>, rc: bool, ghost w': World)
    requires Mirrors(c, w) && rec == w.rec && c.Keys == db.rows.Keys && PortsLive(db, ports)
    requires db.ports == ReadPorts(portRows)
    modifies c.Values
    ensures Staged(w', ports', rc) == PortsTo(Staged(w, ports, rc0), db, since, |db.ports|) && rec' == w'.rec
    ensures Mirrors(c, w')
  {
    hide ShowIfs, ShowOps, Wired, ProcessPort, PortLive;
    rec', ports', rc, w' := rec, ports, rc0, w;
    var i := 0;
    while i < |portRows|
      invariant 0 <= i <= |portRows| && PortsLive(db, ports')
      invariant Staged(w', ports', rc) == PortsTo(Staged(w, ports, rc0), db, since, i) && rec' == w'.rec
      invariant Mirrors(c, w')
    {
      var port := portRows[i];
      ghost var p := ReadPort(port);
      assert db.ports[i] == p;
      if port.modified > since && port.name in ports' {
        LivePort(db, ports', p);
        CachedMembersLive(db, ports', p);
        rec', w' := HandlePort(c, w', db, portRows, port, ports'[port.name], rec');
        ports', rc := ports'[port.name := port.members], true;
      }
      i := i + 1;
    }
  }

  lemma LivePort(db: Db, ports: map<Name, seq<Name>>, p: PortRow)
    requires PortsLive(db, ports) && p in db.ports && p.name in ports
    ensures forall m :: m in p.members || m in ports[p.name] ==> m in db.rows
  {
    assert PortLive(db, ports, p);
  }
}
