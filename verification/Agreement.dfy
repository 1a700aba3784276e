/** Over whole runs: what the record of an interface is derived from, and exactly when it is
    what a full recomputation would publish. */
module Agreement {
  import opened Base
  import opened UserConfig
  import opened Derivation
  import opened World
  import opened Batch
  import opened BatchTheorems
  import opened Tracking
  import opened PortMembers
  import opened ArbiterSpec
  import opened Reconfigure
  import opened PortPass
  import opened Runs

  /** What the published record of an interface rests on: a derivation with this port state,
      or a reset that left the error column alone. */
  datatype Basis = DerivedWith(port: AdminState) | SwitchedOff

  function PortIn(b: Basis): AdminState { if b.SwitchedOff? then AdminDown else b.port }

  /** The record of n is what its present inputs derive, but for the port state. */
  ghost predicate Based(w: World, n: Name, b: Basis)
    requires n in w.ifs && n in w.rec
  {
    match b
    case DerivedWith(port) => w.rec[n] == Derive(InputsOf(w.ifs, n).(portAdmin := port))
    case SwitchedOff => w.rec[n].hw == HW_OFF
  }

  lemma BasedCarries(a: World, b: World, n: Name, basis: Basis)
    requires n in a.ifs && n in a.rec && n in b.ifs && n in b.rec
    requires b.rec[n] == a.rec[n] && SameButPort(InputsOf(a.ifs, n), InputsOf(b.ifs, n)) && Based(a, n, basis)
    ensures Based(b, n, basis)
  {
    hide Derive, InputsOf;
    var i, i' := InputsOf(a.ifs, n), InputsOf(b.ifs, n);
    if basis.DerivedWith? { assert i'.(portAdmin := basis.port) == i.(portAdmin := basis.port); }
  }

  lemma FreshIsBased(w: World, n: Name)
    requires n in w.ifs && n in w.rec && Fresh(w, n)
    ensures Based(w, n, DerivedWith(w.ifs[n].portAdmin))
  {
    hide Derive;
    var i := InputsOf(w.ifs, n);
    assert i.(portAdmin := i.portAdmin) == i;
  }

  /* ---------- the port stage ---------- */

  /** Joining this port, or none. */
  function OwnerBasis(owner: Option<PortRow>): Basis {
    if owner.Some? then DerivedWith(owner.value.admin) else SwitchedOff
  }

  /** After the first k ports of a pass. */
  function PassBasis(st: Staged, db: Db, since: nat, k: nat, n: Name, b: Basis): Basis
    requires k <= |db.ports|
  {
    if k == 0 then b
    else
      var s, p := PortsTo(st, db, since, k - 1), db.ports[k - 1];
      if p.modified > since && p.name in s.ports && (n in p.members || n in s.ports[p.name])
      then OwnerBasis(if n in p.members then Some(p) else PortOf(db.ports, n))
      else PassBasis(st, db, since, k - 1, n, b)
  }

  /** The cached member lists with which the port pass starts. */
  function ListsBefore(s: Sys, t: Chance): map<Name, seq<Name>>
    requires t.path.PortsChanged?
  {
    if t.path.added then AddPorts(s.ports, s.db.ports) else s.ports
  }

  function StageBasis(s: Sys, t: Chance, n: Name, b: Basis): Basis {
    match t.path
    case PortGone(gone) => if n in Orphans(s.db, s.ports, gone) then SwitchedOff else b
    case PortsChanged(_, columns) =>
      if columns then
        PassBasis(Staged(SyncNames(s.w, s.db), ListsBefore(s, t), false), s.db, s.idl, |s.db.ports|, n, b)
      else b
    case _ => b
  }

  lemma {:induction false} SwitchOffAllElsewhere(w: World, ms: seq<Name>, n: Name)
    requires n in w.rec
    ensures SwitchOffAll(w, ms).rec[n] == if n in ms then w.rec[n].(hw := HW_OFF) else w.rec[n]
  {
    if ms != [] { SwitchOffAllElsewhere(w, ms[..|ms| - 1], n); }
  }

  lemma PortBased(w: World, db: Db, port: PortRow, cached: seq<Name>, n: Name, b: Basis)
    requires PortOk(w, db, port, cached) && n in w.ifs && n in w.rec && w.ifs[n].kind == Physical && Based(w, n, b)
    ensures var w' := ProcessPort(w, db, port, cached);
      && n in w'.ifs && n in w'.rec && w'.ifs[n].kind == Physical
      && Based(w', n, if n in port.members || n in cached
                      then OwnerBasis(if n in port.members then Some(port) else PortOf(db.ports, n)) else b)
  {
    hide Derive, PortOk, InputsOf, ProcessPort, PortOf, Fresh;
    var w' := ProcessPort(w, db, port, cached);
    PortMemberDiff(w, db, port, cached, n);
    FixedKind(w, w', n);
    if n in port.members || n in cached {
      var owner := if n in port.members then Some(port) else PortOf(db.ports, n);
      if owner.Some? { FreshIsBased(w', n); }
    } else {
      SameFrameInputs(w, w', n);
      SameInputs(InputsOf(w.ifs, n));
      BasedCarries(w, w', n, b);
    }
  }

  lemma SameInputs(i: Inputs)
    ensures SameButPort(i, i)
  {
  }

  lemma FixedKind(a: World, b: World, n: Name)
    requires SameFrame(a, b) && n in a.ifs
    ensures n in b.ifs && n in b.rec && b.ifs[n].kind == a.ifs[n].kind
  {
    assert SameFixed(a.ifs[n], b.ifs[n]);
  }

  lemma {:induction false} PassBased(st: Staged, db: Db, since: nat, k: nat, n: Name, b: Basis)
    requires AllHalfway(st.w, db, since) && PortsLive(db, st.ports) && k <= |db.ports|
    requires n in st.w.ifs && n in st.w.rec && st.w.ifs[n].kind == Physical && Based(st.w, n, b)
    ensures var w := PortsTo(st, db, since, k).w;
      n in w.ifs && n in w.rec && w.ifs[n].kind == Physical && Based(w, n, PassBasis(st, db, since, k, n, b))
  {
    hide Based, AllHalfway, PortLive, ProcessPort, PortOk, PortOf, OwnerBasis;
    if k > 0 {
      PassBased(st, db, since, k - 1, n, b);
      PortsToHalfway(st, db, since, k - 1);
      var s, p := PortsTo(st, db, since, k - 1), db.ports[k - 1];
      if p.modified > since && p.name in s.ports {
        PortIsOk(s, db, since, p);
        PortBased(s.w, db, p, s.ports[p.name], n, PassBasis(st, db, since, k - 1, n, b));
      }
    }
  }

  lemma ResetBased(w: World, ms: seq<Name>, n: Name, b: Basis)
    requires n in w.ifs && n in w.rec && Based(w, n, b)
    ensures Based(SwitchOffAll(w, ms), n, if n in ms then SwitchedOff else b)
  {
    hide Derive, InputsOf;
    SwitchOffAllElsewhere(w, ms, n);
  }

  lemma StageBased(s: Sys, baseMtu: int, t: Chance, n: Name, b: Basis)
    requires Inv(s, baseMtu) && ChanceOk(s, t) && n in s.w.ifs && n in s.db.rows && n in s.w.rec
    requires s.w.ifs[n].kind == Physical && Based(s.w, n, b)
    ensures var w := AfterPorts(s, t).w;
      n in w.ifs && n in w.rec && Based(w, n, StageBasis(s, t, n, b))
  {
    hide Based, Inv, SyncNames, AllHalfway, PortsLive, InputsOf, PortsTo, PassBasis, Orphans, AddPorts, ChanceOk;
    var w := SyncNames(s.w, s.db);
    SyncedBased(s, baseMtu, n, b);
    SyncAll(s, baseMtu);
    InvPortsLive(s, baseMtu);
    match t.path
    case PortGone(gone) => ResetBased(w, Orphans(s.db, s.ports, gone), n, b);
    case PortsChanged(added, columns) =>
      if added { AddPortsLive(s.db, s.ports, s.db.ports); }
      if columns { PassBased(Staged(w, ListsBefore(s, t), false), s.db, s.idl, |s.db.ports|, n, b); }
    case _ =>
  }

  lemma SyncedBased(s: Sys, baseMtu: int, n: Name, b: Basis)
    requires Inv(s, baseMtu) && n in s.w.ifs && n in s.db.rows && n in s.w.rec && Based(s.w, n, b)
    ensures var w := SyncNames(s.w, s.db);
      n in w.ifs && n in w.rec && w.ifs[n].kind == s.w.ifs[n].kind && Based(w, n, b)
  {
    hide Derive, Inv, InputsOf;
    SyncInputs(s, baseMtu, n);
  }

  lemma InvPortsLive(s: Sys, baseMtu: int)
    requires Inv(s, baseMtu)
    ensures PortsLive(s.db, s.ports)
  {
  }

  /* ---------- the loop ---------- */

  /** After the modification loop. */
  ghost function LoopBasis(w0: World, db: Db, since: nat, order: seq<Name>, junk: Buffer, n: Name, b: Basis): Basis
    requires n in w0.ifs && n in db.rows
  {
    if IsIns(db, since, n) then DerivedWith(w0.ifs[n].portAdmin)
    else
      match TagAt(w0, db, since, order, junk, |order|, n)
      case Untouched => b
      case Derived => DerivedWith(if IsMod(db, since, n) then PortAdminOf(db.ports, n) else w0.ifs[n].portAdmin)
      case Overtaken => DerivedWith(w0.ifs[n].portAdmin)
  }

  lemma LoopBased(w0: World, db: Db, since: nat, order: seq<Name>, junk: Buffer, n: Name, b: Basis)
    requires InOrder(w0, db, since, order) && n in w0.ifs && n in w0.rec && w0.ifs[n].kind == Physical
    requires n in db.rows && (!IsIns(db, since, n) ==> Based(w0, n, b))
    ensures var w := Run(w0, db, since, order, junk).w;
      n in w.ifs && n in w.rec && Based(w, n, LoopBasis(w0, db, since, order, junk, n, b))
  {
    hide Derive, InputsOf, PortAdminOf, Ready, Enumerates, LoopTo, TagAt;
    var w := Run(w0, db, since, order, junk).w;
    PortAtEnd(w0, db, since, order, junk, n);
    if IsIns(db, since, n) {
      InsertedIsFresh(w0, db, since, order, junk, n);
      FreshIsBased(w, n);
    } else {
      LoopTagged(w0, db, since, order, junk, |order|, n);
      match TagAt(w0, db, since, order, junk, |order|, n)
      case Untouched => BasedCarries(w0, w, n, b);
      case Derived => FreshIsBased(w, n);
      case Overtaken =>
    }
  }

  lemma PortAtEnd(w0: World, db: Db, since: nat, order: seq<Name>, junk: Buffer, n: Name)
    requires InOrder(w0, db, since, order) && n in w0.ifs
    ensures var w := Run(w0, db, since, order, junk).w;
      n in db.rows && n in w.ifs
      && w.ifs[n].portAdmin == if IsMod(db, since, n) then PortAdminOf(db.ports, n) else w0.ifs[n].portAdmin
  {
    hide Run, PortAdminOf, Ready, Settled;
    InputsAtEnd(w0, db, since, order, junk, n);
    InputsPort(Run(w0, db, since, order, junk).w.ifs, n);
  }

  /* ---------- a turn ---------- */

  ghost function TurnBasis(s: Sys, t: Chance, n: Name, b: Basis): Basis {
    var w := AfterPorts(s, t).w;
    if s.db.seqno == s.idl || n !in w.ifs || n !in s.db.rows then b
    else LoopBasis(w, s.db, s.idl, t.order, t.junk, n, StageBasis(s, t, n, b))
  }

  lemma OldInterface(s: Sys, baseMtu: int, n: Name)
    requires Inv(s, baseMtu) && n in s.db.rows
    ensures n in s.w.rec
    ensures n in s.w.ifs ==> !IsIns(s.db, s.idl, n) && s.w.ifs[n].kind == s.db.rows[n].kind
    ensures n !in s.w.ifs ==> IsIns(s.db, s.idl, n) && s.db.seqno != s.idl
  {
    if n in s.w.ifs { assert Kept(s, n); }
  }

  lemma CachedKind(w: World, db: Db, since: nat, n: Name)
    requires AllHalfway(w, db, since) && n in db.rows
    ensures n in w.ifs && n in w.rec && w.ifs[n].kind == db.rows[n].kind
  {
    assert Halfway(w, db, since, n);
  }

  /** What the record of n rests on after a turn, from what it rested on before; a new
      interface needs no before. */
  lemma TurnBased(s: Sys, layers: seq<LayerV>, baseMtu: int, t: Chance, n: Name, b: Basis)
    requires Inv(s, baseMtu) && ChanceOk(s, t) && n in s.db.rows && n in s.w.rec && s.db.rows[n].kind == Physical
    requires n in s.w.ifs ==> Based(s.w, n, b)
    ensures var s' := Turn(s, layers, t).s;
      n in s'.w.ifs && n in s'.w.rec && Based(s'.w, n, TurnBasis(s, t, n, b))
  {
    hide Based, Inv, PortStage, SyncNames, Run, PortOf, PortAdminOf, ChanceOk, AllHalfway, InOrder, ArbiterStage,
      StageBasis, LoopBasis;
    OldInterface(s, baseMtu, n);
    if s.db.seqno != s.idl {
      var w0 := AfterPorts(s, t).w;
      LoopReady(s, baseMtu, t);
      CachedKind(w0, s.db, s.idl, n);
      if n in s.w.ifs { StageBased(s, baseMtu, t, n, b); }
      LoopBased(w0, s.db, s.idl, t.order, t.junk, n, StageBasis(s, t, n, b));
    }
  }

  /** The loop derives n with or after its own visit; or it leaves the record alone, which
      rests on the port state of the row; or that state is not new. */
  ghost predicate EndsCurrent(w0: World, db: Db, since: nat, t: Chance, n: Name, b: Basis)
    requires n in w0.ifs && n in db.rows
  {
    var port := if IsMod(db, since, n) then PortAdminOf(db.ports, n) else w0.ifs[n].portAdmin;
    match TagAt(w0, db, since, t.order, t.junk, |t.order|, n)
    case Derived => true
    case Untouched => PortIn(b) == port
    case Overtaken => w0.ifs[n].portAdmin == port
  }

  /** These are the turns after which the record rests on the cached port state, so that a
      turn that derives n anew restores the agreement whatever was before. */
  lemma CurrentExactly(w0: World, db: Db, since: nat, t: Chance, n: Name, b: Basis)
    requires InOrder(w0, db, since, t.order) && n in w0.ifs && n in db.rows && !IsIns(db, since, n)
    ensures var w := Run(w0, db, since, t.order, t.junk).w;
      && n in w.ifs
      && (PortIn(LoopBasis(w0, db, since, t.order, t.junk, n, b)) == w.ifs[n].portAdmin
          <==> EndsCurrent(w0, db, since, t, n, b))
  {
    hide LoopTo, PortAdminOf, Ready, Enumerates, TagAt;
    PortAtEnd(w0, db, since, t.order, t.junk, n);
  }

  /* ---------- runs ---------- */

  /** What the record of n rests on in the i-th state, told from the moves without looking
      at any record. */
  ghost function BasisAt(states: seq<Sys>, moves: seq<Move>, i: nat, n: Name): Basis
    requires i < |states| == |moves| + 1
  {
    if i == 0 then SwitchedOff
    else
      var b := BasisAt(states, moves, i - 1, n);
      if moves[i - 1].Taken? then TurnBasis(states[i - 1], moves[i - 1].chance, n, b) else b
  }

  lemma EnvBased(s: Sys, s': Sys, baseMtu: int, n: Name, b: Basis)
    requires Inv(s, baseMtu) && EnvStep(s, s', baseMtu) && Handled(s', n)
    ensures Handled(s, n) && s.db.rows[n].kind == s'.db.rows[n].kind
    ensures Based(s.w, n, b) ==> Based(s'.w, n, b)
  {
    hide Derive;
    assert n in s.db.rows;
    assert RowStep(s.db.rows[n], s'.db.rows[n], s.db.seqno, s'.db.seqno);
  }

  /** In every state of every run. */
  lemma {:induction false} RunBased(states: seq<Sys>, moves: seq<Move>, u: Setup, i: nat, n: Name)
    requires IsRun(states, moves, u) && i < |states|
    requires Handled(states[i], n) && states[i].db.rows[n].kind == Physical
    ensures Based(states[i].w, n, BasisAt(states, moves, i, n))
  {
    hide Based, Inv, ChanceOk, EnvStep, Turn, Initial, TurnBasis;
    var s := states[i];
    if i == 0 {
      InitHandlesNothing(s, u.baseMtu);
    } else {
      var before := states[i - 1];
      var b := BasisAt(states, moves, i - 1, n);
      RunKeeps(states, moves, u, i - 1);
      match moves[i - 1]
      case Environment =>
        EnvBased(before, s, u.baseMtu, n, b);
        RunBased(states, moves, u, i - 1, n);
      case Skipped =>
        RunBased(states, moves, u, i - 1, n);
      case Taken(t) =>
        TurnSameRows(before, u.layers, t);
        OldInterface(before, u.baseMtu, n);
        if n in before.w.ifs { RunBased(states, moves, u, i - 1, n); }
        TurnBased(before, u.layers, u.baseMtu, t, n, b);
    }
  }

  lemma InitHandlesNothing(s: Sys, baseMtu: int)
    requires Initial(s, baseMtu)
    ensures forall n :: !Handled(s, n)
  {
  }

  lemma TurnSameRows(s: Sys, layers: seq<LayerV>, t: Chance)
    ensures Turn(s, layers, t).s.db == s.db
  {
  }

  lemma HwPortOnly(i: Inputs, p: AdminState)
    requires i.kind == Physical
    ensures Derive(i.(portAdmin := p)).hw == Derive(i).hw <==> p == i.portAdmin || !OnlyPortMatters(i)
    ensures IsEnabled(Derive(i.(portAdmin := p)).hw) <==> p == AdminUp && OnlyPortMatters(i)
    ensures p == AdminDown ==> Derive(i.(portAdmin := p)).hw == HW_OFF
  {
    var j := i.(portAdmin := p);
    assert Negotiation(i) == Negotiation(j);
  }

  /** In every state of every run the hw_intf_config of a handled physical interface is what
      a derivation from scratch would publish if and only if the port state its record
      rests on is the cached one, or something else disables it. It is enabled if and only
      if that port state is up and nothing else disables it. */
  lemma RunAgreement(states: seq<Sys>, moves: seq<Move>, u: Setup, i: nat, n: Name)
    requires IsRun(states, moves, u) && i < |states|
    requires Handled(states[i], n) && states[i].db.rows[n].kind == Physical
    ensures var w, b := states[i].w, BasisAt(states, moves, i, n);
      && (w.rec[n].hw == Derive(InputsOf(w.ifs, n)).hw
          <==> PortIn(b) == w.ifs[n].portAdmin || !OnlyPortMatters(InputsOf(w.ifs, n)))
      && (IsEnabled(w.rec[n].hw) <==> PortIn(b) == AdminUp && OnlyPortMatters(InputsOf(w.ifs, n)))
  {
    hide BasisAt, Derive, OnlyPortMatters, InputsOf;
    var w, b := states[i].w, BasisAt(states, moves, i, n);
    RunBased(states, moves, u, i, n);
    RunKeeps(states, moves, u, i);
    HandledKind(states[i], u.baseMtu, n);
    InputsPort(w.ifs, n);
    HwPortOnly(InputsOf(w.ifs, n), PortIn(b));
  }

  lemma HandledKind(s: Sys, baseMtu: int, n: Name)
    requires Inv(s, baseMtu) && Handled(s, n)
    ensures s.w.ifs[n].kind == s.db.rows[n].kind
    ensures SettingsOk(InputsOf(s.w.ifs, n).settings, baseMtu)
  {
    assert Kept(s, n);
  }

  /** A record that rests on a derivation is sound: error unset exactly when enabled, never
      uninitialized. One that rests on a reset is off, and sound if and only if an error
      had been set. */
  lemma RunSoundness(states: seq<Sys>, moves: seq<Move>, u: Setup, i: nat, n: Name)
    requires IsRun(states, moves, u) && i < |states|
    requires Handled(states[i], n) && states[i].db.rows[n].kind == Physical
    ensures var r := states[i].w.rec[n];
      if BasisAt(states, moves, i, n) == SwitchedOff then
        r.hw == HW_OFF && (SoundRecord(r, u.baseMtu) <==> r.error.Some? && r.error != Some(Uninitialized))
      else SoundRecord(r, u.baseMtu)
  {
    hide BasisAt, InputsOf, Derive;
    var s, b := states[i], BasisAt(states, moves, i, n);
    RunBased(states, moves, u, i, n);
    RunKeeps(states, moves, u, i);
    HandledKind(s, u.baseMtu, n);
    InputsPort(s.w.ifs, n);
    DerivedIsSound(InputsOf(s.w.ifs, n).(portAdmin := PortIn(b)), u.baseMtu);
  }

  /** An interface the port pass reached has its port state current when the loop starts
      exactly when the last port to involve it no longer lists it, or has the admin state
      of the first that does. */
  lemma ReachedIsCurrent(s: Sys, baseMtu: int, t: Chance, n: Name)
    requires Inv(s, baseMtu) && ChanceOk(s, t) && n in s.db.rows && PortNames(s.db)
    requires t.path.PortsChanged? && t.path.columns
    requires LastReached(s.db, s.idl, ListsBefore(s, t), |s.db.ports|, n).Some?
    ensures n in AfterPorts(s, t).w.ifs
    ensures var p := s.db.ports[LastReached(s.db, s.idl, ListsBefore(s, t), |s.db.ports|, n).value];
      AfterPorts(s, t).w.ifs[n].portAdmin == PortAdminOf(s.db.ports, n)
      <==> n !in p.members || p.admin == PortAdminOf(s.db.ports, n)
  {
    hide Inv, PortNames, PortsLive, AllHalfway, SyncNames, Passed, LastReached, PortAdminOf, ChanceOk;
    var w, ports := SyncNames(s.w, s.db), ListsBefore(s, t);
    InvPortsLive(s, baseMtu);
    SyncAll(s, baseMtu);
    HalfwayAligned(w, s.db, s.idl);
    if t.path.added { AddPortsLive(s.db, s.ports, s.db.ports); }
    PortsPass(Staged(w, ports, false), s.db, s.idl, |s.db.ports|, n);
    PassedIsCurrent(w, AfterPorts(s, t).w, s.db, n, LastReached(s.db, s.idl, ports, |s.db.ports|, n).value);
  }
}
