/** What a turn makes of ports and interfaces that are new to the daemon, and what it reports. */
module Arrivals {
  import opened Base
  import opened UserConfig
  import opened Derivation
  import opened World
  import opened Rows
  import opened Batch
  import opened BatchTheorems
  import opened Tracking
  import opened PortMembers
  import opened ArbiterSpec
  import opened Reconfigure
  import opened PortPass
  import opened Published
  import opened Runs
  import opened Agreement

  /* ---------- ports ---------- */

  /** The turn takes up ports it did not know. */
  predicate TakesUp(t: Chance) { t.path.PortsChanged? && t.path.added }

  /** The turn handles the i-th port row, if it knows the port by then. */
  predicate Handles(s: Sys, t: Chance, i: nat)
    requires i < |s.db.ports|
  {
    t.path.PortsChanged? && t.path.columns && s.db.ports[i].modified > s.idl
  }

  lemma {:induction false} AddedList(cached: map<Name, seq<Name>>, ports: seq<PortRow>, i: nat)
    requires i < |ports|
    requires forall j, k {:trigger ports[j].name, ports[k].name} :: 0 <= j < k < |ports| ==>
               ports[j].name != ports[k].name
    ensures var x, c := ports[i].name, AddPorts(cached, ports);
      x in c && c[x] == if x in cached then cached[x] else ports[i].members
  {
    var front, last := ports[..|ports| - 1], ports[|ports| - 1];
    if i < |ports| - 1 {
      AddedList(cached, front, i);
      assert front[i] == ports[i] && last.name != ports[i].name;
    } else {
      AddPortsKeys(cached, front, last.name);
      forall j | 0 <= j < |front| ensures front[j].name != last.name {
        assert ports[j].name != ports[|ports| - 1].name;
      }
      if last.name in cached { KnownKept(cached, front, last.name); }
    }
  }

  lemma {:induction false} KnownKept(cached: map<Name, seq<Name>>, ports: seq<PortRow>, x: Name)
    requires x in cached
    ensures x in AddPorts(cached, ports) && AddPorts(cached, ports)[x] == cached[x]
  {
    if ports != [] { KnownKept(cached, ports[..|ports| - 1], x); }
  }

  lemma {:induction false} RowlessKept(st: Staged, db: Db, since: nat, k: nat, x: Name)
    requires k <= |db.ports| && x in st.ports && !HasRow(db, x)
    ensures x in PortsTo(st, db, since, k).ports && PortsTo(st, db, since, k).ports[x] == st.ports[x]
  {
    hide ProcessPort;
    if k > 0 {
      RowlessKept(st, db, since, k - 1, x);
      assert db.ports[k - 1] in db.ports;
    }
  }

  /** After a turn that ran, a port is cached if and only if it was and is not the gone one
      the turn dealt with, or it has a row and the turn takes up new ports. */
  lemma CachedPorts(s: Sys, layers: seq<LayerV>, t: Chance, x: Name)
    requires s.db.seqno != s.idl
    ensures x in Turn(s, layers, t).s.ports <==>
      (x in s.ports && t.path != PortGone(x)) || (TakesUp(t) && HasRow(s.db, x))
  {
    hide Run, ArbiterStage, SyncNames, PortsTo, AddPorts;
    match t.path
    case PortsChanged(added, columns) =>
      AddPortsKeys(s.ports, s.db.ports, x);
      PortsToKeys(Staged(SyncNames(s.w, s.db), ListsBefore(s, t), false), s.db, s.idl, |s.db.ports|);
    case _ =>
  }

  /** And its member list is the row's if it is new or was handled, and else the old one. */
  lemma CachedMembers(s: Sys, layers: seq<LayerV>, t: Chance, i: nat)
    requires s.db.seqno != s.idl && i < |s.db.ports| && PortNames(s.db)
    ensures var p, ports := s.db.ports[i], Turn(s, layers, t).s.ports;
      p.name in ports ==>
        ports[p.name] == if p.name in s.ports && !Handles(s, t, i) then s.ports[p.name] else p.members
  {
    hide Run, ArbiterStage, SyncNames, PortsTo, AddPorts, Orphans;
    match t.path
    case PortsChanged(added, columns) =>
      if added { AddedList(s.ports, s.db.ports, i); }
      CachedLists(Staged(SyncNames(s.w, s.db), ListsBefore(s, t), false), s.db, s.idl, |s.db.ports|, i);
    case _ =>
  }

  /** The list of a port without a row stays. */
  lemma RowlessMembers(s: Sys, layers: seq<LayerV>, t: Chance, x: Name)
    requires s.db.seqno != s.idl && !HasRow(s.db, x)
    ensures var ports := Turn(s, layers, t).s.ports;
      x in ports ==> x in s.ports && ports[x] == s.ports[x]
  {
    hide Run, ArbiterStage, SyncNames, PortsTo, AddPorts, HasRow;
    CachedPorts(s, layers, t, x);
    match t.path
    case PortsChanged(added, columns) =>
      if x in s.ports {
        if added { KnownKept(s.ports, s.db.ports, x); }
        RowlessKept(Staged(SyncNames(s.w, s.db), ListsBefore(s, t), false), s.db, s.idl, |s.db.ports|, x);
      }
    case _ =>
  }

  /** Over a run, told from the moves: taken up by a turn since, and not forgotten. */
  ghost predicate KnownAt(states: seq<Sys>, moves: seq<Move>, i: nat, x: Name)
    requires i < |states| == |moves| + 1
  {
    i > 0
    && var s := states[i - 1];
       if moves[i - 1].Taken? && s.db.seqno != s.idl then
         || (KnownAt(states, moves, i - 1, x) && moves[i - 1].chance.path != PortGone(x))
         || (TakesUp(moves[i - 1].chance) && HasRow(s.db, x))
       else KnownAt(states, moves, i - 1, x)
  }

  /** In every state of every run these are the cached ports. */
  lemma {:induction false} RunPorts(states: seq<Sys>, moves: seq<Move>, u: Setup, i: nat, x: Name)
    requires IsRun(states, moves, u) && i < |states|
    ensures x in states[i].ports <==> KnownAt(states, moves, i, x)
  {
    hide Inv, ChanceOk, Turn, HasRow, EnvStep;
    if i == 0 {
      NoPortsAtFirst(states[0], u.baseMtu);
    } else {
      var before := states[i - 1];
      RunPorts(states, moves, u, i - 1, x);
      match moves[i - 1]
      case Environment => EnvPorts(before, states[i], u.baseMtu);
      case Skipped =>
      case Taken(t) =>
        if before.db.seqno != before.idl { CachedPorts(before, u.layers, t, x); }
        IdleTurn(before, u.layers, t);
    }
  }

  lemma IdleTurn(s: Sys, layers: seq<LayerV>, t: Chance)
    ensures s.db.seqno == s.idl ==> Turn(s, layers, t) == Turned(s, false)
  {
  }

  lemma NoPortsAtFirst(s: Sys, baseMtu: int)
    requires Initial(s, baseMtu)
    ensures s.ports == map[]
  {
  }

  lemma EnvPorts(s: Sys, s': Sys, baseMtu: int)
    requires EnvStep(s, s', baseMtu)
    ensures s'.ports == s.ports
  {
  }

  /** So a port row can be uncached only as long as no turn took up new ports since it came:
      one such turn, and it is cached for as long as its row stays. */
  lemma {:induction false} StaysKnown(states: seq<Sys>, moves: seq<Move>, u: Setup, j: nat, i: nat, x: Name)
    requires IsRun(states, moves, u) && j < i < |states|
    requires moves[j].Taken? && TakesUp(moves[j].chance) && states[j].db.seqno != states[j].idl
    requires forall k :: j <= k < i ==> HasRow(states[k].db, x)
    ensures x in states[i].ports
  {
    hide HasRow, EnvStep, Turn, Initial;
    if i > j + 1 { StaysKnown(states, moves, u, j, i - 1, x); }
    RunPorts(states, moves, u, i, x);
    RunPorts(states, moves, u, i - 1, x);
    assert Next(states[i - 1], states[i - 1 + 1], u.layers, u.baseMtu, moves[i - 1]);
  }

  /* ---------- interfaces ---------- */

  /** The last port the turn handles that lists n, or did when its members were cached. */
  function LastPort(s: Sys, t: Chance, n: Name): (last: Option<nat>)
    ensures last.Some? ==> last.value < |s.db.ports|
  {
    if t.path.PortsChanged? && t.path.columns then LastReached(s.db, s.idl, ListsBefore(s, t), |s.db.ports|, n)
    else None
  }

  /** The port state a new interface starts with: that of the first port that lists it, but
      where some handled port involves it the state of the last such port if that lists it. */
  function FirstState(s: Sys, t: Chance, n: Name): AdminState {
    match LastPort(s, t, n)
    case None => PortAdminOf(s.db.ports, n)
    case Some(i) => if n in s.db.ports[i].members then s.db.ports[i].admin else PortAdminOf(s.db.ports, n)
  }

  lemma PassedState(w0: World, w: World, db: Db, n: Name, last: Option<nat>)
    requires n in w0.ifs && (last.Some? ==> last.value < |db.ports|) && Passed(w0, w, db, n, last)
    ensures n in w.ifs
    ensures w.ifs[n].portAdmin ==
      match last
      case None => w0.ifs[n].portAdmin
      case Some(i) => if n in db.ports[i].members then db.ports[i].admin else PortAdminOf(db.ports, n)
  {
    hide SameFrame, Fresh, PortOf;
  }

  lemma SyncedState(s: Sys, n: Name)
    requires n in s.db.rows && n !in s.w.ifs
    ensures n in SyncNames(s.w, s.db).ifs
    ensures SyncNames(s.w, s.db).ifs[n].portAdmin == PortAdminOf(s.db.ports, n)
  {
  }

  lemma StateAfterPorts(s: Sys, baseMtu: int, t: Chance, n: Name)
    requires Inv(s, baseMtu) && ChanceOk(s, t) && n in s.db.rows && n !in s.w.ifs && PortNames(s.db)
    ensures var w := AfterPorts(s, t).w;
      n in w.ifs && w.ifs[n].portAdmin == FirstState(s, t, n)
  {
    hide Inv, PortNames, PortsLive, AllHalfway, SyncNames, Passed, LastReached, PortAdminOf, ChanceOk, PortsTo,
      AddPorts, SwitchOffAll;
    var w := SyncNames(s.w, s.db);
    SyncedState(s, n);
    InvPortsLive(s, baseMtu);
    SyncAll(s, baseMtu);
    match t.path
    case PortsChanged(added, columns) =>
      if columns {
        if added { AddPortsLive(s.db, s.ports, s.db.ports); }
        PortsPass(Staged(w, ListsBefore(s, t), false), s.db, s.idl, |s.db.ports|, n);
        PassedState(w, AfterPorts(s, t).w, s.db, n, LastPort(s, t, n));
      }
    case _ =>
  }

  /** After the turn that finds it a new interface is cached with that port state; if it is
      physical it is enabled if and only if that state is up and nothing else disables it. */
  lemma NewInterfaceState(s: Sys, layers: seq<LayerV>, baseMtu: int, t: Chance, n: Name)
    requires Inv(s, baseMtu) && ChanceOk(s, t) && s.db.seqno != s.idl && PortNames(s.db)
    requires n in s.db.rows && n !in s.w.ifs
    ensures var w := Turn(s, layers, t).s.w;
      && n in w.ifs && n in w.rec && w.ifs[n].portAdmin == FirstState(s, t, n)
      && (s.db.rows[n].kind == Physical ==>
            (IsEnabled(w.rec[n].hw) <==> FirstState(s, t, n) == AdminUp && OnlyPortMatters(InputsOf(w.ifs, n))))
  {
    hide Inv, PortNames, ChanceOk, AllHalfway, Ready, Enumerates, LoopTo, FirstState, Derive, OnlyPortMatters, InputsOf,
      PortStage, ArbiterStage;
    OldInterface(s, baseMtu, n);
    var w0 := AfterPorts(s, t).w;
    LoopReady(s, baseMtu, t);
    CachedKind(w0, s.db, s.idl, n);
    StateAfterPorts(s, baseMtu, t, n);
    PortAtEnd(w0, s.db, s.idl, t.order, t.junk, n);
    AfterLoopDone(s, baseMtu, t, n);
    if s.db.rows[n].kind == Physical {
      var w := Turn(s, layers, t).s.w;
      InsertedIsFresh(w0, s.db, s.idl, t.order, t.junk, n);
      InputsPort(w.ifs, n);
      DoneKind(w, s.db, n);
      OwnPort(InputsOf(w.ifs, n));
      HwPortOnly(InputsOf(w.ifs, n), w.ifs[n].portAdmin);
    }
  }

  lemma OwnPort(i: Inputs)
    ensures i.(portAdmin := i.portAdmin) == i
  {
  }

  lemma DoneKind(w: World, db: Db, n: Name)
    requires n in w.ifs && n in db.rows && n in w.rec && Done(w, db, n)
    ensures w.ifs[n].kind == db.rows[n].kind
  {
  }

  /* ---------- what the cache holds after a turn ---------- */

  /** After a turn a new or modified interface holds the module its row names: its parent's
      lane if it is a split child, and its own module if not. */
  lemma TurnModules(s: Sys, layers: seq<LayerV>, baseMtu: int, t: Chance, n: Name)
    requires Inv(s, baseMtu) && ChanceOk(s, t) && s.db.seqno != s.idl && n in s.db.rows
    requires IsIns(s.db, s.idl, n) || IsMod(s.db, s.idl, n)
    ensures var w, parent := Turn(s, layers, t).s.w, s.db.rows[n].splitParent;
      && n in w.ifs && (parent.Some? ==> parent.value in s.db.rows)
      && w.ifs[n].pm == if parent.Some? then s.db.rows[parent.value].lane else s.db.rows[n].pm
  {
    hide Inv, ChanceOk, AllHalfway, Ready, Enumerates, LoopTo, PortStage, ArbiterStage;
    var w0 := AfterPorts(s, t).w;
    LoopReady(s, baseMtu, t);
    CachedKind(w0, s.db, s.idl, n);
    InputsAtEnd(w0, s.db, s.idl, t.order, t.junk, n);
    InputsModule(Turn(s, layers, t).s.w.ifs, n);
    ParentListed(s, baseMtu, n);
  }

  lemma InputsModule(ifs: map<Name, IfaceV>, n: Name)
    requires n in ifs
    ensures InputsOf(ifs, n).pm == ifs[n].pm
  {
  }

  lemma ParentListed(s: Sys, baseMtu: int, n: Name)
    requires Inv(s, baseMtu) && n in s.db.rows
    ensures s.db.rows[n].splitParent.Some? ==> s.db.rows[n].splitParent.value in s.db.rows
  {
    assert FamilyOk(s.db.rows, s.idl, n);
  }

  /** In terms of the text: such a child is let in if its parent's pm_info names a supported
      module of four lanes, any other interface by its own text and hardware. */
  lemma TurnLetsIn(s: Sys, tables: Tables, layers: seq<LayerV>, baseMtu: int, t: Chance, n: Name)
    requires Inv(s, baseMtu) && ChanceOk(s, t) && s.db.seqno != s.idl && n in s.db.rows
    requires Reads(s.db, tables, baseMtu) && (IsIns(s.db, s.idl, n) || IsMod(s.db, s.idl, n))
    ensures var w, raw := Turn(s, layers, t).s.w, tables.rows[n];
      && n in w.ifs && (raw.splitParent.Some? ==> raw.splitParent.value in tables.rows)
      && (ModuleReason(w.ifs[n].pm) == Ok <==>
            if raw.splitParent.Some? then
              var text := tables.rows[raw.splitParent.value].pm;
              text.connector.Some? && IsQuad(text.connector.value) && text.status == TextSupported
            else if raw.hw.pluggable then
              raw.pm.status == TextSupported && raw.pm.connector.Some? && Usable(raw.pm.connector.value)
            else raw.hw.rj45)
  {
    hide Inv, ChanceOk, Turn, ParsePm, ParseSplitPm, ModuleReason, ReadCfg, Usable, IsQuad;
    TurnModules(s, layers, baseMtu, t, n);
    var raw := tables.rows[n];
    if raw.splitParent.Some? {
      LaneByText(tables.rows[raw.splitParent.value].pm);
    } else {
      ModuleByText(ParseHw(raw.hw), raw.pm);
    }
  }

  /** After a turn every interface holds the settings its row asks for in text. */
  lemma TurnSettings(s: Sys, tables: Tables, layers: seq<LayerV>, baseMtu: int, t: Chance, n: Name)
    requires Inv(s, baseMtu) && ChanceOk(s, t) && n in s.db.rows && Reads(s.db, tables, baseMtu)
    ensures var w := Turn(s, layers, t).s.w;
      && n in w.ifs
      && Meaning(w.ifs[n].user) == RowSettings(tables.rows[n].userConfig, tables.rows[n].hw.speeds, baseMtu)
  {
    hide Inv, ChanceOk, Turn, Meaning, RowSettings, ReadCfg;
    CaughtUp(s, layers, baseMtu, t, n);
    ReadMeaning(tables.rows[n].userConfig, tables.rows[n].hw.speeds, baseMtu);
  }

  /** After a turn with the registered layers an interface forwards if and only if it is
      enabled and its bond_status column has no state, or the state up. */
  lemma TurnForwardsByText(s: Sys, tables: Tables, baseMtu: int, t: Chance, n: Name)
    requires Inv(s, baseMtu) && ChanceOk(s, t) && s.db.seqno != s.idl && n in s.db.rows && Reads(s.db, tables, baseMtu)
    ensures var s', bond := Turn(s, [Aggregation()], t).s, tables.rows[n].bondStatus;
      && n in s'.w.rec && n in s'.fwd
      && (PassesTraffic(s'.fwd[n]) <==> IsEnabled(s'.w.rec[n].hw) && (bond.None? || bond.value == "up"))
  {
    hide Inv, ChanceOk, Turn, ReadRow, PassesTraffic;
    ForwardsWithLacp(s, baseMtu, t, n);
    RowByText(tables.rows[n], baseMtu);
  }

  /* ---------- what is published while enabled ---------- */

  /** In every state of every run an enabled physical interface with this module shows the
      settings cached for it, key by key. */
  lemma RunColumns(states: seq<Sys>, moves: seq<Move>, u: Setup, i: nat, n: Name, c: Connector,
                   status: ConnectorStatus)
    requires IsRun(states, moves, u) && i < |states|
    requires Handled(states[i], n) && states[i].db.rows[n].kind == Physical && IsEnabled(states[i].w.rec[n].hw)
    requires states[i].w.ifs[n].pm == Module(c, status)
    ensures var r, s := states[i].w.rec[n], Meaning(states[i].w.ifs[n].user);
      && r.error == None && r.hw.detail.Some?
      && var d := r.hw.detail.value;
         && (d.autoneg <==> PublishesOn(s, c)) && SpeedsRead(d, SpeedsFor(s, c))
         && d.duplex == s.duplex && d.pause == s.pause && d.mtu == Some(if s.mtu == 0 then 1500 else s.mtu)
  {
    hide Inv, IsEnabled, SpeedsRead, SpeedsFor, PublishesOn, Module, Derive, NewOp, Publish, SettingsOk;
    var st := states[i];
    RunKeeps(states, moves, u, i);
    HandledKind(st, u.baseMtu, n);
    HandledHonest(st, u.baseMtu, n);
    var j := InputsOf(st.w.ifs, n).(portAdmin := AdminUp);
    PublishedIsDerived(FRESH_OP, j);
    EnabledColumns(FRESH_OP, j, c, status, u.baseMtu);
  }

  lemma HandledHonest(s: Sys, baseMtu: int, n: Name)
    requires Inv(s, baseMtu) && Handled(s, n) && s.db.rows[n].kind == Physical
    ensures Honest(s.w, n) && s.w.ifs[n].kind == Physical
  {
    assert Kept(s, n);
  }

  /* ---------- what a turn reports ---------- */

  /** The turn handles a port. */
  ghost predicate HandlesSome(s: Sys, t: Chance) {
    t.path.PortsChanged? && t.path.columns
    && exists i :: 0 <= i < |s.db.ports| && Processed(s.db, s.idl, ListsBefore(s, t), i)
  }

  /** The loop finds a new interface, or a modified one that differs. */
  ghost predicate LoopWrites(s: Sys, t: Chance)
    requires InOrder(AfterPorts(s, t).w, s.db, s.idl, t.order)
  {
    var w := AfterPorts(s, t).w;
    exists i :: 0 <= i < |t.order| && t.order[i] in w.ifs && t.order[i] in s.db.rows
      && OwnWrite(w, s.db, s.idl, t.order, t.junk, i)
  }

  /** A turn that ran returns non-zero if and only if it dealt with a gone port, handled a
      port, found a new or a different interface, or changed a forwarding_state column. */
  lemma TurnReportsExactly(s: Sys, layers: seq<LayerV>, baseMtu: int, t: Chance)
    requires Inv(s, baseMtu) && ChanceOk(s, t) && s.db.seqno != s.idl
    ensures InOrder(AfterPorts(s, t).w, s.db, s.idl, t.order)
    ensures Turn(s, layers, t).rc <==>
      t.path.PortGone? || HandlesSome(s, t) || LoopWrites(s, t) || Turn(s, layers, t).s.fwd != s.fwd
  {
    hide Inv, ChanceOk, Ready, Enumerates, OwnWrite, PortsTo, SyncNames, LoopTo, ArbiterStage, AddPorts, Processed;
    LoopReady(s, baseMtu, t);
    var w := AfterPorts(s, t).w;
    LoopReports(w, s.db, s.idl, t.order, t.junk, |t.order|);
    if t.path.PortsChanged? && t.path.columns {
      PassReports(Staged(SyncNames(s.w, s.db), ListsBefore(s, t), false), s.db, s.idl, |s.db.ports|);
    }
  }
}
