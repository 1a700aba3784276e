/** One reconfiguration (intfd_reconfigure): bring the cache's names up to date, handle
    ports, run the modification loop and then the arbiter. */
module Reconfigure {
  import opened Base
  import opened SpeedText
  import opened UserConfig
  import opened Derivation
  import opened World
  import opened Batch
  import opened BatchTheorems
  import opened PortMembers
  import opened ArbiterSpec

  /** The database together with everything the daemon keeps between turns: the cached
      interfaces, the cached member list of each port, and idl_seqno. The columns the
      daemon writes are w.rec and fwd, one entry per Interface row. */
  datatype Sys = Sys(db: Db, w: World, fwd: map<Name, FwdMap>, ports: map<Name, seq<Name>>, idl: nat)

  /* ---------- names ---------- */

  /** add_new_interface; its links are filled in later, by the loop. */
  function NewIface(db: Db, n: Name): IfaceV
    requires n in db.rows
  {
    var r := db.rows[n];
    IfaceV(r.kind, r.hw, PortAdminOf(db.ports, n), ParseInto(r.cfg, ZEROS), r.pm, None, None)
  }

  /** Forget interfaces without a row, add those whose row is new. */
  function SyncNames(w: World, db: Db): World {
    w.(ifs := map n | n in db.rows :: if n in w.ifs then w.ifs[n] else NewIface(db, n),
       ops := map n | n in db.rows :: if n in w.ifs && n in w.ops then w.ops[n] else FRESH_OP)
  }

  /* ---------- ports ---------- */

  /** Which way port_reconfigure goes. It is decided by counters of the database library,
      so here every way is open in every turn. */
  datatype PortPath =
    | PortsQuiet
    | VirtualPortGone
    | PortGone(gone: Name)
    | PortsChanged(added: bool, columns: bool)

  predicate HasRow(db: Db, x: Name) { exists p :: p in db.ports && p.name == x }

  /** Those of ms that no port lists. */
  function Unlisted(db: Db, ms: seq<Name>): seq<Name> {
    if ms == [] then []
    else
      var rest, m := Unlisted(db, ms[..|ms| - 1]), ms[|ms| - 1];
      if m in db.rows && PortOf(db.ports, m) == None then rest + [m] else rest
  }

  /** The members del_old_port resets: none, unless an interface has the name of the port. */
  function Orphans(db: Db, ports: map<Name, seq<Name>>, gone: Name): seq<Name> {
    if gone in db.rows && gone in ports then Unlisted(db, ports[gone]) else []
  }

  lemma {:induction false} UnlistedExactly(db: Db, ms: seq<Name>, n: Name)
    ensures n in Unlisted(db, ms) <==> n in ms && n in db.rows && PortOf(db.ports, n) == None
  {
    if ms != [] { UnlistedExactly(db, ms[..|ms| - 1], n); }
  }

  /** A cached member of a gone port is reset exactly when it has a row that no port lists
      and some interface bears the name of the port. */
  lemma OrphansExactly(db: Db, ports: map<Name, seq<Name>>, gone: Name, n: Name)
    ensures n in Orphans(db, ports, gone) <==>
      && gone in db.rows && gone in ports && n in ports[gone]
      && n in db.rows && PortOf(db.ports, n) == None
  {
    if gone in ports { UnlistedExactly(db, ports[gone], n); }
  }

  datatype Staged = Staged(w: World, ports: map<Name, seq<Name>>, rc: bool)

  function SwitchOffAll(w: World, ms: seq<Name>): (w': World)
    ensures w'.ifs == w.ifs && w'.ops == w.ops && w'.rec.Keys == w.rec.Keys
  {
    if ms == [] then w else SwitchOff(SwitchOffAll(w, ms[..|ms| - 1]), ms[|ms| - 1])
  }

  /** add_new_port for every port that is not cached yet. */
  function AddPorts(cached: map<Name, seq<Name>>, ports: seq<PortRow>): map<Name, seq<Name>> {
    if ports == [] then cached
    else
      var c, p := AddPorts(cached, ports[..|ports| - 1]), ports[|ports| - 1];
      if p.name in c then c else c[p.name := p.members]
  }

  /** add_del_interface_handle_port_config_mods over the first k port rows. */
  function PortsTo(st: Staged, db: Db, since: nat, k: nat): (st': Staged)
    requires k <= |db.ports|
    ensures st'.w.ifs.Keys == st.w.ifs.Keys && st'.w.ops.Keys == st.w.ops.Keys && st'.w.rec.Keys == st.w.rec.Keys
  {
    if k == 0 then st
    else
      var s, p := PortsTo(st, db, since, k - 1), db.ports[k - 1];
      if p.modified > since && p.name in s.ports then
        Staged(ProcessPort(s.w, db, p, s.ports[p.name]), s.ports[p.name := p.members], true)
      else s
  }

  function PortStage(w: World, ports: map<Name, seq<Name>>, db: Db, since: nat, path: PortPath): (st: Staged)
    ensures st.w.ifs.Keys == w.ifs.Keys && st.w.ops.Keys == w.ops.Keys && st.w.rec.Keys == w.rec.Keys
  {
    match path
    case PortsQuiet | VirtualPortGone => Staged(w, ports, false)
    case PortGone(gone) => Staged(SwitchOffAll(w, Orphans(db, ports, gone)), ports - {gone}, true)
    case PortsChanged(added, columns) =>
      var st := Staged(w, if added then AddPorts(ports, db.ports) else ports, false);
      if columns then PortsTo(st, db, since, |db.ports|) else st
  }

  /* ---------- forwarding ---------- */

  function ArbiterRow(w: World, db: Db, n: Name): IfRow
    requires n in w.rec && n in db.rows
  {
    IfRow(w.rec[n].hw, db.rows[n].bondStatus)
  }

  /** intfd_arbiter_run: row by row, each from its own columns. */
  function ArbiterStage(fwd: map<Name, FwdMap>, layers: seq<LayerV>, w: World, db: Db): (r: map<Name, FwdMap>)
    ensures r.Keys == fwd.Keys
  {
    map n | n in fwd :: if n in w.rec && n in db.rows then Forwarding(fwd[n], layers, ArbiterRow(w, db, n)) else fwd[n]
  }

  /* ---------- the whole turn ---------- */

  /** What one turn happens on: the port path, the hash order, and what the parse buffer
      on the stack holds at first. */
  datatype Chance = Chance(path: PortPath, order: seq<Name>, junk: Buffer)

  function AfterPorts(s: Sys, t: Chance): Staged {
    PortStage(SyncNames(s.w, s.db), s.ports, s.db, s.idl, t.path)
  }

  function AfterLoop(s: Sys, t: Chance): LoopState {
    Run(AfterPorts(s, t).w, s.db, s.idl, t.order, t.junk)
  }

  datatype Turned = Turned(s: Sys, rc: bool)

  function Turn(s: Sys, layers: seq<LayerV>, t: Chance): Turned {
    if s.db.seqno == s.idl then Turned(s, false)
    else
      var w := AfterLoop(s, t).w;
      var fwd := ArbiterStage(s.fwd, layers, w, s.db);
      Turned(Sys(s.db, w, fwd, AfterPorts(s, t).ports, s.db.seqno),
             AfterPorts(s, t).rc || AfterLoop(s, t).rc || fwd != s.fwd)
  }

  /* ---------- when a turn may happen ---------- */

  /** Port rows list live interfaces, each once, now and when they were cached. The cached
      lists of ports that are gone may name interfaces that are gone too. */
  ghost predicate PortLive(db: Db, ports: map<Name, seq<Name>>, p: PortRow) {
    && Distinct(p.members) && (forall m :: m in p.members ==> m in db.rows)
    && (p.name in ports ==> Distinct(ports[p.name]) && forall m :: m in ports[p.name] ==> m in db.rows)
  }

  ghost predicate PortsLive(db: Db, ports: map<Name, seq<Name>>) {
    forall p {:trigger PortLive(db, ports, p)} :: p in db.ports ==> PortLive(db, ports, p)
  }

  ghost predicate ChanceOk(s: Sys, t: Chance) {
    && Enumerates(t.order, s.db.rows.Keys)
    && (t.path.PortGone? ==> t.path.gone in s.ports && !HasRow(s.db, t.path.gone))
  }

  /* ---------- what every state keeps ---------- */

  /** A cached interface whose row is still there agrees with it on what never changes,
      is linked as the row says, holds the row's settings unless the row was modified
      since the last turn, and has an honest record. */
  ghost predicate Kept(s: Sys, n: Name)
    requires n in s.w.ifs && n in s.db.rows && n in s.w.rec
  {
    var v, r := s.w.ifs[n], s.db.rows[n];
    && !Inserted(r, s.idl)
    && v.kind == r.kind && v.hw == r.hw && Linked(v, r)
    && (Meaning(v.user) == RowMeaning(s.db, n) || r.modified > s.idl)
    && (v.kind == Physical ==> Honest(s.w, n))
  }

  /** Columns, stamps, families and settings, all at once. */
  ghost predicate Framed(s: Sys, baseMtu: int) {
    && s.w.ops.Keys == s.w.ifs.Keys && s.w.rec.Keys == s.fwd.Keys == s.db.rows.Keys
    && Families(s.db.rows, s.idl) && PortsLive(s.db, s.ports)
    && s.idl <= s.db.seqno && (s.idl == s.db.seqno ==> s.w.ifs.Keys <= s.db.rows.Keys)
    && (forall n :: n in s.db.rows ==> s.db.rows[n].inserted <= s.db.seqno && s.db.rows[n].modified <= s.db.seqno)
    && (forall n :: n in s.db.rows && n !in s.w.ifs ==> Inserted(s.db.rows[n], s.idl))
    && (forall n :: n in s.db.rows ==> SettingsOk(RowMeaning(s.db, n), baseMtu))
    && (forall n :: n in s.w.ifs ==> SettingsOk(Meaning(s.w.ifs[n].user), baseMtu))
  }

  ghost predicate Inv(s: Sys, baseMtu: int) {
    && Framed(s, baseMtu)
    && forall n {:trigger Kept(s, n)} :: n in s.w.ifs && n in s.db.rows ==> Kept(s, n)
  }

  /* ---------- stage by stage ---------- */

  /** The conditions on an interface halfway through a turn. */
  ghost predicate Halfway(w: World, db: Db, since: nat, n: Name)
    requires n in w.ifs && n in db.rows && n in w.rec
  {
    && Placed(w.ifs[n], db, since, n)
    && (Meaning(w.ifs[n].user) == RowMeaning(db, n) || IsMod(db, since, n))
    && (w.ifs[n].kind == Physical && !IsIns(db, since, n) ==> Honest(w, n))
  }

  ghost predicate AllHalfway(w: World, db: Db, since: nat) {
    && Aligned(w) && w.ifs.Keys == db.rows.Keys
    && forall n {:trigger Halfway(w, db, since, n)} :: n in w.ifs ==> Halfway(w, db, since, n)
  }

  lemma SyncInputs(s: Sys, baseMtu: int, n: Name)
    requires Inv(s, baseMtu) && n in s.w.ifs && n in s.db.rows
    ensures InputsOf(SyncNames(s.w, s.db).ifs, n) == InputsOf(s.w.ifs, n)
  {
    assert Kept(s, n);
    var p := s.w.ifs[n].parent;
    if p.Some? {
      assert FamilyOk(s.db.rows, s.idl, n);
      assert p.value in s.w.ifs;
    }
  }

  lemma SyncOld(s: Sys, baseMtu: int, n: Name)
    requires Inv(s, baseMtu) && n in s.w.ifs && n in s.db.rows
    ensures var w := SyncNames(s.w, s.db);
      n in w.ifs && n in w.rec && Halfway(w, s.db, s.idl, n)
  {
    assert Kept(s, n);
    SyncInputs(s, baseMtu, n);
  }

  lemma SyncNew(w: World, db: Db, since: nat, n: Name)
    requires n in db.rows && n !in w.ifs && Inserted(db.rows[n], since) && n in w.rec
    ensures n in SyncNames(w, db).ifs && Halfway(SyncNames(w, db), db, since, n)
  {
    ParseMeaning(db.rows[n].cfg, ZEROS);
  }

  lemma SyncHalfway(s: Sys, baseMtu: int, n: Name)
    requires Inv(s, baseMtu) && n in s.db.rows
    ensures var w := SyncNames(s.w, s.db);
      n in w.ifs && n in w.rec && Halfway(w, s.db, s.idl, n)
  {
    if n in s.w.ifs { SyncOld(s, baseMtu, n); } else { SyncNew(s.w, s.db, s.idl, n); }
  }

  lemma SyncAll(s: Sys, baseMtu: int)
    requires Inv(s, baseMtu)
    ensures AllHalfway(SyncNames(s.w, s.db), s.db, s.idl)
  {
    hide Halfway, Kept, NewIface, FamilyOk, PortLive, Meaning, SettingsOk;
    var w := SyncNames(s.w, s.db);
    forall n | n in w.ifs ensures Halfway(w, s.db, s.idl, n) { SyncHalfway(s, baseMtu, n); }
  }

  lemma {:induction false} SwitchOffAllAt(w: World, ms: seq<Name>, n: Name)
    requires n in w.rec
    ensures SwitchOffAll(w, ms).rec[n] == w.rec[n] || SwitchOffAll(w, ms).rec[n].hw == HW_OFF
  {
    if ms != [] { SwitchOffAllAt(w, ms[..|ms| - 1], n); }
  }

  lemma SwitchedOffHalfway(w: World, db: Db, since: nat, ms: seq<Name>)
    requires AllHalfway(w, db, since)
    ensures AllHalfway(SwitchOffAll(w, ms), db, since)
  {
    var w' := SwitchOffAll(w, ms);
    forall n | n in w'.ifs ensures Halfway(w', db, since, n) {
      assert Halfway(w, db, since, n);
      SwitchOffAllAt(w, ms, n);
    }
  }

  /** Attaching takes the admin setting of the row, if it takes anything. */
  predicate UserFollows(a: UserCfg, b: UserCfg, r: Row) { b == a || b == a.(admin := r.cfg.user.admin) }

  lemma AttachAllUser(w: World, db: Db, given: Option<PortRow>, ms: seq<Name>, n: Name)
    requires Aligned(w) && Distinct(ms) && (forall x :: x in ms ==> x in w.ifs && x in db.rows)
    requires n in w.ifs && n in db.rows
    ensures UserFollows(w.ifs[n].user, AttachAll(w, db, given, ms).ifs[n].user, db.rows[n])
  {
    AttachAllAt(w, db, given, ms, n);
  }

  lemma ProcessPortUser(w: World, db: Db, port: PortRow, cached: seq<Name>, n: Name)
    requires PortOk(w, db, port, cached) && n in w.ifs
    ensures UserFollows(w.ifs[n].user, ProcessPort(w, db, port, cached).ifs[n].user, db.rows[n])
  {
    var departed := Departed(cached, port.members);
    DepartedDistinct(cached, port.members);
    var w1 := AttachAll(w, db, Some(port), port.members);
    AttachAllUser(w, db, Some(port), port.members, n);
    AttachAllFrame(w, db, Some(port), port.members);
    var emptied := if port.members == [] then cached else [];
    AttachAllUser(w1, db, None, emptied, n);
    AttachAllFrame(w1, db, None, emptied);
    AttachAllUser(AttachAll(w1, db, None, emptied), db, None, departed, n);
  }

  lemma PortHalfway(w: World, db: Db, since: nat, port: PortRow, cached: seq<Name>, n: Name)
    requires AllHalfway(w, db, since) && PortOk(w, db, port, cached) && n in w.ifs
    ensures var w' := ProcessPort(w, db, port, cached);
      n in w'.ifs && n in w'.rec && Halfway(w', db, since, n)
  {
    var w' := ProcessPort(w, db, port, cached);
    assert Halfway(w, db, since, n);
    PortMemberDiff(w, db, port, cached, n);
    assert SameFixed(w.ifs[n], w'.ifs[n]);
    ProcessPortUser(w, db, port, cached, n);
    if w.ifs[n].kind == Physical && !IsIns(db, since, n) { PortKeepsHonest(w, db, port, cached, n); }
  }

  lemma PortAllHalfway(w: World, db: Db, since: nat, port: PortRow, cached: seq<Name>)
    requires AllHalfway(w, db, since) && PortOk(w, db, port, cached)
    ensures AllHalfway(ProcessPort(w, db, port, cached), db, since)
  {
    var w' := ProcessPort(w, db, port, cached);
    forall n | n in w'.ifs ensures Halfway(w', db, since, n) { PortHalfway(w, db, since, port, cached, n); }
  }

  lemma CachedMembersLive(db: Db, ports: map<Name, seq<Name>>, p: PortRow)
    requires PortsLive(db, ports) && p in db.ports
    ensures PortsLive(db, ports[p.name := p.members])
  {
    assert PortLive(db, ports, p);
    forall q | q in db.ports ensures PortLive(db, ports[p.name := p.members], q) { assert PortLive(db, ports, q); }
  }

  lemma {:induction false} PortsToHalfway(st: Staged, db: Db, since: nat, k: nat)
    requires AllHalfway(st.w, db, since) && PortsLive(db, st.ports) && k <= |db.ports|
    ensures AllHalfway(PortsTo(st, db, since, k).w, db, since) && PortsLive(db, PortsTo(st, db, since, k).ports)
  {
    if k > 0 {
      PortsToHalfway(st, db, since, k - 1);
      var s, p := PortsTo(st, db, since, k - 1), db.ports[k - 1];
      assert p in db.ports;
      if p.modified > since && p.name in s.ports {
        assert PortLive(db, s.ports, p);
        PortAllHalfway(s.w, db, since, p, s.ports[p.name]);
        CachedMembersLive(db, s.ports, p);
      }
    }
  }

  lemma {:induction false} AddPortsLive(db: Db, cached: map<Name, seq<Name>>, ports: seq<PortRow>)
    requires PortsLive(db, cached) && (forall p :: p in ports ==> p in db.ports)
    ensures PortsLive(db, AddPorts(cached, ports))
  {
    if ports != [] {
      AddPortsLive(db, cached, ports[..|ports| - 1]);
      CachedMembersLive(db, AddPorts(cached, ports[..|ports| - 1]), ports[|ports| - 1]);
    }
  }

  lemma ForgottenPortLive(db: Db, ports: map<Name, seq<Name>>, gone: Name)
    requires PortsLive(db, ports)
    ensures PortsLive(db, ports - {gone})
  {
    forall q | q in db.ports ensures PortLive(db, ports - {gone}, q) { assert PortLive(db, ports, q); }
  }

  /** Whatever way the port stage goes, what holds halfway still holds after it. */
  lemma PortStageHalfway(w: World, ports: map<Name, seq<Name>>, db: Db, since: nat, path: PortPath)
    requires AllHalfway(w, db, since) && PortsLive(db, ports)
    ensures var st := PortStage(w, ports, db, since, path);
      AllHalfway(st.w, db, since) && PortsLive(db, st.ports)
  {
    match path
    case PortGone(gone) =>
      SwitchedOffHalfway(w, db, since, Orphans(db, ports, gone));
      ForgottenPortLive(db, ports, gone);
    case PortsChanged(added, columns) =>
      if added { AddPortsLive(db, ports, db.ports); }
      var cached := if added then AddPorts(ports, db.ports) else ports;
      if columns { PortsToHalfway(Staged(w, cached, false), db, since, |db.ports|); }
    case _ =>
  }

  /** The loop is ready to run, from every state that keeps the invariant. */
  lemma LoopReady(s: Sys, baseMtu: int, t: Chance)
    requires Inv(s, baseMtu) && ChanceOk(s, t)
    ensures AllHalfway(AfterPorts(s, t).w, s.db, s.idl) && PortsLive(s.db, AfterPorts(s, t).ports)
    ensures InOrder(AfterPorts(s, t).w, s.db, s.idl, t.order)
  {
    SyncAll(s, baseMtu);
    PortStageHalfway(SyncNames(s.w, s.db), s.ports, s.db, s.idl, t.path);
    var w := AfterPorts(s, t).w;
    forall n | n in w.ifs ensures Placed(w.ifs[n], s.db, s.idl, n) { assert Halfway(w, s.db, s.idl, n); }
  }

  /** An interface once the loop is over: linked, holding its row's settings, honest. */
  ghost predicate Done(w: World, db: Db, n: Name)
    requires n in w.ifs && n in db.rows && n in w.rec
  {
    var v, r := w.ifs[n], db.rows[n];
    && v.kind == r.kind && v.hw == r.hw && Linked(v, r)
    && Meaning(v.user) == RowMeaning(db, n)
    && (v.kind == Physical ==> Honest(w, n))
  }

  lemma LoopDone(w0: World, db: Db, since: nat, order: seq<Name>, junk: Buffer, n: Name)
    requires InOrder(w0, db, since, order) && n in w0.ifs && n in w0.rec && Halfway(w0, db, since, n)
    ensures var w := Run(w0, db, since, order, junk).w;
      n in w.ifs && n in w.rec && Done(w, db, n)
  {
    assert n in order && order[..|order|] == order;
    RunFacts(w0, db, since, order, junk, n);
    if w0.ifs[n].kind == Physical { BatchHonest(w0, db, since, order, junk, n); }
  }

  lemma AfterLoopDone(s: Sys, baseMtu: int, t: Chance, n: Name)
    requires Inv(s, baseMtu) && ChanceOk(s, t) && n in s.db.rows
    ensures var w := AfterLoop(s, t).w;
      n in w.ifs && n in w.rec && Done(w, s.db, n)
  {
    LoopReady(s, baseMtu, t);
    assert Halfway(AfterPorts(s, t).w, s.db, s.idl, n);
    LoopDone(AfterPorts(s, t).w, s.db, s.idl, t.order, t.junk, n);
  }

  /* ---------- gone ports ---------- */

  /** No port is cached that has no row any more. */
  ghost predicate NoGonePort(db: Db, ports: map<Name, seq<Name>>) {
    forall x :: x in ports ==> HasRow(db, x)
  }

  lemma {:induction false} AddPortsKeys(cached: map<Name, seq<Name>>, ports: seq<PortRow>, x: Name)
    ensures x in AddPorts(cached, ports) <==> x in cached || exists p :: p in ports && p.name == x
  {
    if ports != [] {
      var front, last := ports[..|ports| - 1], ports[|ports| - 1];
      AddPortsKeys(cached, front, x);
      assert forall p :: p in ports <==> p in front || p == last;
    }
  }

  lemma {:induction false} PortsToKeys(st: Staged, db: Db, since: nat, k: nat)
    requires k <= |db.ports|
    ensures PortsTo(st, db, since, k).ports.Keys == st.ports.Keys
  {
    hide ProcessPort;
    if k > 0 { PortsToKeys(st, db, since, k - 1); }
  }

  /** What a turn does with a cached port that has no row: it is forgotten exactly when the
      turn goes the way of gone ports and meets this one first. */
  lemma GonePortStays(s: Sys, layers: seq<LayerV>, t: Chance, x: Name)
    requires s.db.seqno != s.idl && x in s.ports && !HasRow(s.db, x)
    ensures x in Turn(s, layers, t).s.ports <==> t.path != PortGone(x)
  {
    hide Run, ArbiterStage, SyncNames, PortsTo, AddPorts;
    match t.path
    case PortsChanged(added, columns) =>
      AddPortsKeys(s.ports, s.db.ports, x);
      var cached := if added then AddPorts(s.ports, s.db.ports) else s.ports;
      PortsToKeys(Staged(SyncNames(s.w, s.db), cached, false), s.db, s.idl, |s.db.ports|);
    case _ =>
  }

  lemma GonePortWasCached(s: Sys, layers: seq<LayerV>, t: Chance, x: Name)
    requires s.db.seqno != s.idl && x in Turn(s, layers, t).s.ports && !HasRow(s.db, x)
    ensures x in s.ports
  {
    hide Run, ArbiterStage, SyncNames, PortsTo, AddPorts;
    match t.path
    case PortsChanged(added, columns) =>
      AddPortsKeys(s.ports, s.db.ports, x);
      var cached := if added then AddPorts(s.ports, s.db.ports) else s.ports;
      PortsToKeys(Staged(SyncNames(s.w, s.db), cached, false), s.db, s.idl, |s.db.ports|);
    case _ =>
  }

  /** After a turn no gone port is cached if and only if the turn went the way of gone ports
      and there was no other, or there was none. The rest stays, although idl_seqno moves
      on. */
  lemma GonePortsExactly(s: Sys, layers: seq<LayerV>, t: Chance)
    requires s.db.seqno != s.idl
    ensures var s' := Turn(s, layers, t).s;
      && s'.idl == s.db.seqno && s'.db == s.db
      && (NoGonePort(s'.db, s'.ports) <==> forall x :: x in s.ports && !HasRow(s.db, x) ==> t.path == PortGone(x))
  {
    hide AfterPorts, AfterLoop, ArbiterStage, HasRow;
    var s' := Turn(s, layers, t).s;
    forall x | x in s.ports && !HasRow(s.db, x) ensures x in s'.ports <==> t.path != PortGone(x) {
      GonePortStays(s, layers, t, x);
    }
    forall x | x in s'.ports && !HasRow(s.db, x) ensures x in s.ports { GonePortWasCached(s, layers, t, x); }
  }
}
