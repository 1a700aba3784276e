/** Whole runs of the daemon: the database changes, turns are skipped or taken. */
module Runs {
  import opened Base
  import opened UserConfig
  import opened Derivation
  import opened World
  import opened Batch
  import opened BatchTheorems
  import opened ArbiterSpec
  import opened Reconfigure

  /* ---------- steps ---------- */

  /** A surviving row keeps its type, hardware and family; any change stamps it. */
  predicate RowStep(r: Row, r': Row, before: nat, now: nat) {
    && r'.kind == r.kind && r'.hw == r.hw && r'.inserted == r.inserted
    && r'.splitParent == r.splitParent && r'.splitChildren == r.splitChildren
    && (r' == r || before < r'.modified <= now)
  }

  /** What others may do between turns: anything but touch the daemon's columns of
      surviving rows, break a split family, or reuse a name the daemon still caches. */
  ghost predicate EnvStep(s: Sys, s': Sys, baseMtu: int) {
    && s'.w.ifs == s.w.ifs && s'.w.ops == s.w.ops && s'.ports == s.ports && s'.idl == s.idl
    && s'.db.seqno > s.db.seqno
    && s'.w.rec.Keys == s'.fwd.Keys == s'.db.rows.Keys
    && Families(s'.db.rows, s'.idl) && PortsLive(s'.db, s'.ports)
    && (forall n :: n in s'.db.rows ==> SettingsOk(RowMeaning(s'.db, n), baseMtu))
    && (forall n :: n in s'.db.rows && n in s.db.rows ==>
          RowStep(s.db.rows[n], s'.db.rows[n], s.db.seqno, s'.db.seqno)
          && (n in s.w.rec ==> s'.w.rec[n] == s.w.rec[n]))
    && (forall n :: n in s'.db.rows && n !in s.db.rows ==>
          n !in s.w.ifs && s.db.seqno < s'.db.rows[n].inserted <= s'.db.seqno && s'.db.rows[n].modified <= s'.db.seqno)
  }

  /** What happens between two states: others change the database, a turn is skipped for
      want of the lock or of a configured system, or a turn takes place. */
  datatype Move = Environment | Skipped | Taken(chance: Chance)

  ghost predicate Next(s: Sys, s': Sys, layers: seq<LayerV>, baseMtu: int, m: Move) {
    match m
    case Environment => EnvStep(s, s', baseMtu)
    case Skipped => s' == s
    case Taken(t) => ChanceOk(s, t) && s' == Turn(s, layers, t).s
  }

  /** The daemon starts with an empty cache, on a database in any state. */
  ghost predicate Initial(s: Sys, baseMtu: int) {
    && s.w.ifs == map[] && s.w.ops == map[] && s.ports == map[] && s.idl <= s.db.seqno
    && s.w.rec.Keys == s.fwd.Keys == s.db.rows.Keys
    && Families(s.db.rows, s.idl) && PortsLive(s.db, s.ports)
    && forall n :: n in s.db.rows ==>
         && SettingsOk(RowMeaning(s.db, n), baseMtu)
         && s.idl < s.db.rows[n].inserted <= s.db.seqno && s.db.rows[n].modified <= s.db.seqno
  }

  /** The daemon's registered layers and the base MTU do not change. */
  datatype Setup = Setup(layers: seq<LayerV>, baseMtu: int)

  ghost predicate IsRun(states: seq<Sys>, moves: seq<Move>, u: Setup) {
    && |states| == |moves| + 1 && Initial(states[0], u.baseMtu)
    && forall i :: 0 <= i < |moves| ==> Next(states[i], states[i + 1], u.layers, u.baseMtu, moves[i])
  }

  /* ---------- the invariant ---------- */

  lemma EnvFramed(s: Sys, s': Sys, baseMtu: int)
    requires Framed(s, baseMtu) && EnvStep(s, s', baseMtu)
    ensures Framed(s', baseMtu)
  {
    forall n | n in s'.db.rows
      ensures s'.db.rows[n].inserted <= s'.db.seqno && s'.db.rows[n].modified <= s'.db.seqno
      ensures n !in s'.w.ifs ==> Inserted(s'.db.rows[n], s'.idl)
    {
      if n in s.db.rows { assert RowStep(s.db.rows[n], s'.db.rows[n], s.db.seqno, s'.db.seqno); }
    }
  }

  lemma EnvKeeps(s: Sys, s': Sys, baseMtu: int)
    requires Inv(s, baseMtu) && EnvStep(s, s', baseMtu)
    ensures Inv(s', baseMtu)
  {
    EnvFramed(s, s', baseMtu);
    forall n | n in s'.w.ifs && n in s'.db.rows ensures Kept(s', n) {
      EnvKept(s, s', baseMtu, n);
    }
  }

  lemma EnvKept(s: Sys, s': Sys, baseMtu: int, n: Name)
    requires Inv(s, baseMtu) && EnvStep(s, s', baseMtu) && n in s'.w.ifs && n in s'.db.rows
    ensures n in s'.w.rec && Kept(s', n)
  {
    assert n in s.db.rows && Kept(s, n);
    assert RowStep(s.db.rows[n], s'.db.rows[n], s.db.seqno, s'.db.seqno);
    if s.w.ifs[n].kind == Physical { HonestCarries(s.w, s'.w, n); }
  }

  lemma HonestCarries(w: World, w': World, n: Name)
    requires n in w.ifs && n in w.rec && n in w'.rec && w'.ifs == w.ifs && w'.rec[n] == w.rec[n]
    requires Honest(w, n)
    ensures Honest(w', n)
  {
  }

  /** No row counts as new any more once idl_seqno has been advanced. */
  lemma FamiliesLater(db: Db, since: nat)
    requires Families(db.rows, since)
    requires forall n :: n in db.rows ==> db.rows[n].inserted <= db.seqno
    ensures Families(db.rows, db.seqno)
  {
    forall n | n in db.rows ensures FamilyOk(db.rows, db.seqno, n) { assert FamilyOk(db.rows, since, n); }
  }

  lemma TurnKept(s: Sys, layers: seq<LayerV>, baseMtu: int, t: Chance, n: Name)
    requires Inv(s, baseMtu) && ChanceOk(s, t) && s.db.seqno != s.idl && n in s.db.rows
    ensures var s' := Turn(s, layers, t).s;
      n in s'.w.ifs && n in s'.w.rec && Done(s'.w, s'.db, n) && Kept(s', n)
  {
    AfterLoopDone(s, baseMtu, t, n);
  }

  lemma TurnNames(s: Sys, layers: seq<LayerV>, baseMtu: int, t: Chance)
    requires Inv(s, baseMtu) && ChanceOk(s, t) && s.db.seqno != s.idl
    ensures var s' := Turn(s, layers, t).s;
      && s'.w.ops.Keys == s'.w.ifs.Keys == s'.w.rec.Keys == s'.fwd.Keys == s'.db.rows.Keys
      && PortsLive(s'.db, s'.ports)
  {
    LoopReady(s, baseMtu, t);
    LoopAligned(AfterPorts(s, t).w, s.db, s.idl, t.order, t.junk, |t.order|);
  }

  lemma TurnKeeps(s: Sys, layers: seq<LayerV>, baseMtu: int, t: Chance)
    requires Inv(s, baseMtu) && ChanceOk(s, t)
    ensures Inv(Turn(s, layers, t).s, baseMtu)
  {
    hide Kept, ChanceOk, AfterPorts, AfterLoop, FamilyOk, PortLive, ArbiterStage, Meaning, SettingsOk, Done;
    if s.db.seqno != s.idl {
      var s' := Turn(s, layers, t).s;
      TurnNames(s, layers, baseMtu, t);
      FamiliesLater(s.db, s.idl);
      forall n | n in s'.w.ifs && n in s'.db.rows
        ensures Kept(s', n) && SettingsOk(Meaning(s'.w.ifs[n].user), baseMtu)
      {
        TurnKept(s, layers, baseMtu, t, n);
      }
    }
  }

  lemma InitKeeps(s: Sys, baseMtu: int)
    requires Initial(s, baseMtu)
    ensures Inv(s, baseMtu)
  {
  }

  lemma StepKeeps(s: Sys, s': Sys, layers: seq<LayerV>, baseMtu: int, m: Move)
    requires Inv(s, baseMtu) && Next(s, s', layers, baseMtu, m)
    ensures Inv(s', baseMtu)
  {
    match m
    case Environment => EnvKeeps(s, s', baseMtu);
    case Skipped =>
    case Taken(t) => TurnKeeps(s, layers, baseMtu, t);
  }

  /** The invariant holds in every state of every run. */
  lemma {:induction false} RunKeeps(states: seq<Sys>, moves: seq<Move>, u: Setup, i: nat)
    requires IsRun(states, moves, u) && i < |states|
    ensures Inv(states[i], u.baseMtu)
  {
    hide Inv, Next, Initial;
    if i == 0 {
      InitKeeps(states[0], u.baseMtu);
    } else {
      RunKeeps(states, moves, u, i - 1);
      StepKeeps(states[i - 1], states[i], u.layers, u.baseMtu, moves[i - 1]);
    }
  }

  /* ---------- what it gives ---------- */

  /** A cached interface whose row exists. */
  predicate Handled(s: Sys, n: Name) { n in s.w.ifs && n in s.db.rows && n in s.w.rec }

  /** In every state of every run no split parent is published enabled together with one
      of its children, both being physical and handled. */
  lemma NeverBothEnabled(states: seq<Sys>, moves: seq<Move>, u: Setup, i: nat, p: Name, c: Name)
    requires IsRun(states, moves, u) && i < |states|
    requires Handled(states[i], p) && Handled(states[i], c)
    requires states[i].db.rows[p].kind == Physical && states[i].db.rows[c].kind == Physical
    requires states[i].db.rows[c].splitParent == Some(p)
    ensures !(IsEnabled(states[i].w.rec[p].hw) && IsEnabled(states[i].w.rec[c].hw))
  {
    RunKeeps(states, moves, u, i);
    InvExclusion(states[i], u.baseMtu, p, c);
  }

  lemma InvExclusion(s: Sys, baseMtu: int, p: Name, c: Name)
    requires Inv(s, baseMtu) && Handled(s, p) && Handled(s, c)
    requires s.db.rows[p].kind == Physical && s.db.rows[c].kind == Physical && s.db.rows[c].splitParent == Some(p)
    ensures !(IsEnabled(s.w.rec[p].hw) && IsEnabled(s.w.rec[c].hw))
  {
    assert Kept(s, p) && Kept(s, c) && FamilyOk(s.db.rows, s.idl, c);
    HonestExclusion(s.w, p, c);
  }

  /** In every state of every run an enabled record of a handled physical interface is
      complete and sound, and one that is not enabled says no more than that. */
  lemma EnabledIsSound(states: seq<Sys>, moves: seq<Move>, u: Setup, i: nat, n: Name)
    requires IsRun(states, moves, u) && i < |states|
    requires Handled(states[i], n) && states[i].db.rows[n].kind == Physical
    ensures var r := states[i].w.rec[n];
      if IsEnabled(r.hw) then r.error == None && SoundEnabled(r.hw, u.baseMtu) else r.hw == HW_OFF
  {
    var s := states[i];
    RunKeeps(states, moves, u, i);
    assert Kept(s, n);
    DerivedIsSound(InputsOf(s.w.ifs, n).(portAdmin := AdminUp), u.baseMtu);
  }

  /** However many turns were skipped, after the next one the cached names are the row
      names, every cached configuration says what its row says, and nothing is left
      marked as changed. */
  lemma CatchUp(states: seq<Sys>, moves: seq<Move>, u: Setup, i: nat, t: Chance)
    requires IsRun(states, moves, u) && i < |states| && ChanceOk(states[i], t)
    ensures var s, s' := states[i], Turn(states[i], u.layers, t).s;
      && s'.db == s.db && s'.idl == s.db.seqno
      && s'.w.ifs.Keys == s.db.rows.Keys
      && forall n :: n in s.db.rows ==>
           && Meaning(s'.w.ifs[n].user) == RowMeaning(s.db, n)
           && Linked(s'.w.ifs[n], s.db.rows[n])
           && !IsIns(s'.db, s'.idl, n) && !IsMod(s'.db, s'.idl, n)
  {
    var s, s' := states[i], Turn(states[i], u.layers, t).s;
    RunKeeps(states, moves, u, i);
    if s.db.seqno != s.idl { TurnNames(s, u.layers, u.baseMtu, t); }
    forall n | n in s.db.rows
      ensures n in s'.w.ifs && Meaning(s'.w.ifs[n].user) == RowMeaning(s.db, n) && Linked(s'.w.ifs[n], s.db.rows[n])
    {
      CaughtUp(s, u.layers, u.baseMtu, t, n);
    }
  }

  lemma CaughtUp(s: Sys, layers: seq<LayerV>, baseMtu: int, t: Chance, n: Name)
    requires Inv(s, baseMtu) && ChanceOk(s, t) && n in s.db.rows
    ensures var s' := Turn(s, layers, t).s;
      n in s'.w.ifs && Meaning(s'.w.ifs[n].user) == RowMeaning(s.db, n) && Linked(s'.w.ifs[n], s.db.rows[n])
  {
    if s.db.seqno != s.idl {
      TurnKept(s, layers, baseMtu, t, n);
    } else {
      assert Kept(s, n);
    }
  }

  /* ---------- no lost write ---------- */

  lemma {:induction false} SilentPorts(st: Staged, db: Db, since: nat, k: nat)
    requires k <= |db.ports| && !PortsTo(st, db, since, k).rc
    ensures PortsTo(st, db, since, k).w == st.w && !st.rc
  {
    if k > 0 { SilentPorts(st, db, since, k - 1); }
  }

  lemma SilentStage(w: World, ports: map<Name, seq<Name>>, db: Db, since: nat, path: PortPath)
    requires !PortStage(w, ports, db, since, path).rc
    ensures PortStage(w, ports, db, since, path).w == w
  {
    if path.PortsChanged? && path.columns {
      SilentPorts(Staged(w, if path.added then AddPorts(ports, db.ports) else ports, false), db, since, |db.ports|);
    }
  }

  /** A turn that reports nothing to commit has written nothing, whatever stage or
      carried flag might have caused a write. */
  lemma TurnReportsWrites(s: Sys, layers: seq<LayerV>, t: Chance)
    requires !Turn(s, layers, t).rc
    ensures var s' := Turn(s, layers, t).s;
      s'.w.rec == s.w.rec && s'.w.writes == s.w.writes && s'.fwd == s.fwd
  {
    if s.db.seqno != s.idl {
      SilentStage(SyncNames(s.w, s.db), s.ports, s.db, s.idl, t.path);
      NoLostWrite(AfterPorts(s, t).w, s.db, s.idl, t.order, t.junk, |t.order|);
    }
  }

  /* ---------- forwarding ---------- */

  /** At the end of a turn whatever forwards is enabled, and its bond is absent or up. */
  lemma ForwardingIsUp(s: Sys, layers: seq<LayerV>, baseMtu: int, t: Chance, n: Name)
    requires Inv(s, baseMtu) && ChanceOk(s, t) && s.db.seqno != s.idl
    requires KeysApart(layers) && Aggregation() in layers
    requires n in s.db.rows && n in s.fwd && PassesTraffic(Turn(s, layers, t).s.fwd[n])
    ensures var s' := Turn(s, layers, t).s;
      && n in s'.w.rec && IsEnabled(s'.w.rec[n].hw)
      && (s.db.rows[n].bondStatus == None || s.db.rows[n].bondStatus == Some(BOND_UP))
  {
    var s' := Turn(s, layers, t).s;
    TurnNames(s, layers, baseMtu, t);
    ForwardingMeansUp(s.fwd[n], layers, ArbiterRow(s'.w, s.db, n));
  }

  /** At the end of a turn an interface forwards if and only if it is published enabled and
      no protocol of any layer says no to its columns. */
  lemma TurnForwards(s: Sys, layers: seq<LayerV>, baseMtu: int, t: Chance, n: Name)
    requires Inv(s, baseMtu) && ChanceOk(s, t) && s.db.seqno != s.idl && KeysApart(layers) && n in s.db.rows
    ensures var s' := Turn(s, layers, t).s;
      && n in s'.w.rec && n in s'.fwd && n in s.fwd
      && var row := IfRow(s'.w.rec[n].hw, s.db.rows[n].bondStatus);
         && s'.fwd[n] == Forwarding(s.fwd[n], layers, row)
         && (PassesTraffic(s'.fwd[n]) <==>
           layers == [] || (IsEnabled(s'.w.rec[n].hw) && forall l :: l in layers ==> !Vetoed(l, row)))
  {
    var s' := Turn(s, layers, t).s;
    TurnNames(s, layers, baseMtu, t);
    ForwardsExactly(s.fwd[n], layers, ArbiterRow(s'.w, s.db, n));
  }

  /** With the layers of the repository: if and only if it is enabled and its bond status is
      absent or up; and LACP owns its layer exactly when an enabled one has another. */
  lemma ForwardsWithLacp(s: Sys, baseMtu: int, t: Chance, n: Name)
    requires Inv(s, baseMtu) && ChanceOk(s, t) && s.db.seqno != s.idl && n in s.db.rows
    ensures var s' := Turn(s, [Aggregation()], t).s;
      var bonded := s.db.rows[n].bondStatus.Some? && s.db.rows[n].bondStatus.value != "up";
      && n in s'.w.rec && n in s'.fwd
      && (PassesTraffic(s'.fwd[n]) <==> IsEnabled(s'.w.rec[n].hw) && !bonded)
      && (OwnerKey(AGGREGATION_ID) in s'.fwd[n] <==> IsEnabled(s'.w.rec[n].hw) && bonded)
  {
    var s' := Turn(s, [Aggregation()], t).s;
    TurnNames(s, [Aggregation()], baseMtu, t);
    AggregationForwards(s.fwd[n], ArbiterRow(s'.w, s.db, n));
  }

  /** After a turn, in any run, a split parent and its child are never both forwarding. */
  lemma NeverBothForwarding(states: seq<Sys>, moves: seq<Move>, u: Setup, i: nat, t: Chance, p: Name, c: Name)
    requires IsRun(states, moves, u) && i < |states| && ChanceOk(states[i], t)
    requires states[i].db.seqno != states[i].idl && KeysApart(u.layers) && Aggregation() in u.layers
    requires p in states[i].db.rows && c in states[i].db.rows && states[i].db.rows[c].splitParent == Some(p)
    requires states[i].db.rows[p].kind == Physical && states[i].db.rows[c].kind == Physical
    ensures var s' := Turn(states[i], u.layers, t).s;
      && p in s'.fwd && c in s'.fwd
      && !(PassesTraffic(s'.fwd[p]) && PassesTraffic(s'.fwd[c]))
  {
    var s := states[i];
    RunKeeps(states, moves, u, i);
    TurnNames(s, u.layers, u.baseMtu, t);
    TurnKeeps(s, u.layers, u.baseMtu, t);
    var s' := Turn(s, u.layers, t).s;
    if PassesTraffic(s'.fwd[p]) && PassesTraffic(s'.fwd[c]) {
      ForwardingIsUp(s, u.layers, u.baseMtu, t, p);
      ForwardingIsUp(s, u.layers, u.baseMtu, t, c);
      InvExclusion(s', u.baseMtu, p, c);
    }
  }

  /** Running the arbiter again on what it wrote writes nothing. */
  lemma ArbiterIsIdle(fwd: map<Name, FwdMap>, layers: seq<LayerV>, w: World, db: Db)
    requires KeysApart(layers)
    ensures ArbiterStage(ArbiterStage(fwd, layers, w, db), layers, w, db) == ArbiterStage(fwd, layers, w, db)
  {
    var once := ArbiterStage(fwd, layers, w, db);
    var twice := ArbiterStage(once, layers, w, db);
    forall n | n in fwd ensures twice[n] == once[n] {
      if n in w.rec && n in db.rows { Quiescent(fwd[n], layers, ArbiterRow(w, db, n)); }
    }
  }
}
