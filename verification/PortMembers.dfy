/** Changes of port membership and port admin state
    (add_del_interface_handle_port_config_mods, remove_interface_from_port, del_old_port). */
module PortMembers {
  import opened Base
  import opened UserConfig
  import opened Derivation
  import opened World
  import opened BatchTheorems

  /** Switch a row off without touching its interface or its error column. */
  function SwitchOff(w: World, m: Name): World {
    if m in w.rec then w.(rec := w.rec[m := w.rec[m].(hw := HW_OFF)], writes := w.writes + 1) else w
  }

  /** The port an interface ends up with: the given one, or else whichever lists it. */
  function Owner(db: Db, given: Option<PortRow>, m: Name): Option<PortRow> {
    if given.Some? then given else PortOf(db.ports, m)
  }

  /** What joining port p, or none, does to the cached interface. */
  function Assigned(v: IfaceV, db: Db, p: Option<PortRow>, m: Name): IfaceV
    requires m in db.rows
  {
    match p
    case Some(port) => v.(portAdmin := port.admin, user := v.user.(admin := db.rows[m].cfg.user.admin))
    case None => v.(portAdmin := AdminDown)
  }

  /** Derive m with the port it belongs to, or switch it off if it has none. */
  function Attach(w: World, db: Db, given: Option<PortRow>, m: Name): (w': World)
    ensures w'.ifs.Keys == w.ifs.Keys && w'.ops.Keys == w.ops.Keys && w'.rec.Keys == w.rec.Keys
    ensures w'.writes >= w.writes
  {
    if m !in w.ifs || m !in db.rows then w
    else
      var p := Owner(db, given, m);
      var w1 := w.(ifs := w.ifs[m := Assigned(w.ifs[m], db, p, m)]);
      if p.Some? then Configure(w1, m) else SwitchOff(w1, m)
  }

  function AttachAll(w: World, db: Db, given: Option<PortRow>, ms: seq<Name>): (w': World)
    ensures w'.ifs.Keys == w.ifs.Keys && w'.ops.Keys == w.ops.Keys && w'.rec.Keys == w.rec.Keys
    ensures w'.writes >= w.writes
  {
    if ms == [] then w else Attach(AttachAll(w, db, given, ms[..|ms| - 1]), db, given, ms[|ms| - 1])
  }

  /** The cached members that the row no longer lists, in order. */
  function Departed(cached: seq<Name>, members: seq<Name>): (r: seq<Name>)
    ensures forall m :: m in r <==> m in cached && m !in members
  {
    if cached == [] then []
    else
      var rest, last := Departed(cached[..|cached| - 1], members), cached[|cached| - 1];
      if last in members then rest else rest + [last]
  }

  /** One modified port whose cached member list is `cached`. An emptied port releases
      its members in a pass of its own before the general one. */
  function ProcessPort(w: World, db: Db, port: PortRow, cached: seq<Name>): (w': World)
    ensures w'.ifs.Keys == w.ifs.Keys && w'.ops.Keys == w.ops.Keys && w'.rec.Keys == w.rec.Keys
    ensures w'.writes >= w.writes
  {
    var w1 := AttachAll(w, db, Some(port), port.members);
    var w2 := if port.members == [] then AttachAll(w1, db, None, cached) else w1;
    AttachAll(w2, db, None, Departed(cached, port.members))
  }

  /* ---------- attaching, one interface at a time ---------- */

  predicate SameAt(a: World, b: World, m: Name) {
    && m in a.ifs && m in b.ifs && m in a.ops && m in b.ops && m in a.rec && m in b.rec
    && a.ifs[m] == b.ifs[m] && a.ops[m] == b.ops[m] && a.rec[m] == b.rec[m]
  }

  /** Alike but for the port state and the user's admin setting. */
  predicate SameFixed(a: IfaceV, b: IfaceV) {
    b == a.(portAdmin := b.portAdmin, user := a.user.(admin := b.user.admin))
  }

  /** Lanes and links, which attaching never touches. */
  ghost predicate SameFrame(a: World, b: World) {
    && Aligned(a) && Aligned(b) && a.ifs.Keys == b.ifs.Keys
    && forall n {:trigger SameFixed(a.ifs[n], b.ifs[n])} :: n in a.ifs ==> SameFixed(a.ifs[n], b.ifs[n])
  }

  lemma SameFrameInputs(a: World, b: World, m: Name)
    requires SameFrame(a, b) && m in a.ifs && a.ifs[m] == b.ifs[m]
    ensures InputsOf(a.ifs, m) == InputsOf(b.ifs, m)
  {
    var p := a.ifs[m].parent;
    if p.Some? && p.value in a.ifs { assert SameFixed(a.ifs[p.value], b.ifs[p.value]); }
  }

  lemma AttachFrame(w: World, db: Db, given: Option<PortRow>, m: Name)
    requires Aligned(w) && m in w.ifs && m in db.rows
    ensures SameFrame(w, Attach(w, db, given, m))
  {
    var v := Assigned(w.ifs[m], db, Owner(db, given, m), m);
    var w' := Attach(w, db, given, m);
    assert w'.ifs == w.ifs[m := v];
    assert SameFixed(w.ifs[m], v);
    forall n | n in w.ifs ensures SameFixed(w.ifs[n], w'.ifs[n]) {
      if n != m { SameFixedReflexive(w.ifs[n]); }
    }
  }

  lemma SameFixedReflexive(v: IfaceV)
    ensures SameFixed(v, v)
  {
  }

  lemma AttachElsewhere(w: World, db: Db, given: Option<PortRow>, m: Name, n: Name)
    requires Aligned(w) && n in w.ifs && n != m
    ensures SameAt(w, Attach(w, db, given, m), n)
  {
  }

  /** What attaching does at m depends on m alone and on lanes and links. */
  lemma AttachLocal(a: World, b: World, db: Db, given: Option<PortRow>, m: Name)
    requires SameFrame(a, b) && SameAt(a, b, m) && m in db.rows
    ensures SameAt(Attach(a, db, given, m), Attach(b, db, given, m), m)
  {
    var v := Assigned(a.ifs[m], db, Owner(db, given, m), m);
    AssignedInputs(a, b, m, v);
  }

  lemma AssignedInputs(a: World, b: World, m: Name, v: IfaceV)
    requires SameFrame(a, b) && m in a.ifs && a.ifs[m] == b.ifs[m]
    requires v.parent == a.ifs[m].parent && v.user.lane == a.ifs[m].user.lane
    ensures InputsOf(a.ifs[m := v], m) == InputsOf(b.ifs[m := v], m)
  {
    var p := a.ifs[m].parent;
    if p.Some? && p.value in a.ifs { assert SameFixed(a.ifs[p.value], b.ifs[p.value]); }
  }

  lemma SameFrameTransitive(a: World, b: World, c: World)
    requires SameFrame(a, b) && SameFrame(b, c)
    ensures SameFrame(a, c)
  {
    forall n | n in a.ifs ensures SameFixed(a.ifs[n], c.ifs[n]) {
      assert SameFixed(a.ifs[n], b.ifs[n]) && SameFixed(b.ifs[n], c.ifs[n]);
    }
  }

  lemma SameFrameSymmetric(a: World, b: World)
    requires SameFrame(a, b)
    ensures SameFrame(b, a)
  {
    forall n | n in a.ifs ensures SameFixed(b.ifs[n], a.ifs[n]) {
      assert SameFixed(a.ifs[n], b.ifs[n]);
    }
  }

  lemma {:induction false} AttachAllFrame(w: World, db: Db, given: Option<PortRow>, ms: seq<Name>)
    requires Aligned(w) && (forall x :: x in ms ==> x in w.ifs && x in db.rows)
    ensures SameFrame(w, AttachAll(w, db, given, ms))
  {
    if ms == [] {
      forall n | n in w.ifs ensures SameFixed(w.ifs[n], w.ifs[n]) { SameFixedReflexive(w.ifs[n]); }
    } else {
      var w1 := AttachAll(w, db, given, ms[..|ms| - 1]);
      AttachAllFrame(w, db, given, ms[..|ms| - 1]);
      AttachFrame(w1, db, given, ms[|ms| - 1]);
      SameFrameTransitive(w, w1, Attach(w1, db, given, ms[|ms| - 1]));
    }
  }

  /** Attaching a list: each listed interface as if it were attached alone. */
  lemma {:induction false} AttachAllAt(w: World, db: Db, given: Option<PortRow>, ms: seq<Name>, m: Name)
    requires Aligned(w) && Distinct(ms) && (forall x :: x in ms ==> x in w.ifs && x in db.rows) && m in w.ifs
    ensures m !in ms ==> SameAt(w, AttachAll(w, db, given, ms), m)
    ensures m in ms ==> SameAt(Attach(w, db, given, m), AttachAll(w, db, given, ms), m)
  {
    if ms != [] {
      var front, x := ms[..|ms| - 1], ms[|ms| - 1];
      AttachAllAt(w, db, given, front, m);
      AttachAllFrame(w, db, given, front);
      AttachLast(w, AttachAll(w, db, given, front), db, given, ms, m);
    }
  }

  lemma AttachLast(w: World, w1: World, db: Db, given: Option<PortRow>, ms: seq<Name>, m: Name)
    requires ms != [] && Distinct(ms) && m in w.ifs && SameFrame(w, w1)
    requires ms[|ms| - 1] in w.ifs && ms[|ms| - 1] in db.rows
    requires m !in ms[..|ms| - 1] ==> SameAt(w, w1, m)
    requires m in ms[..|ms| - 1] ==> SameAt(Attach(w, db, given, m), w1, m)
    ensures m !in ms ==> SameAt(w, Attach(w1, db, given, ms[|ms| - 1]), m)
    ensures m in ms ==> SameAt(Attach(w, db, given, m), Attach(w1, db, given, ms[|ms| - 1]), m)
  {
    var x := ms[|ms| - 1];
    assert m in ms <==> m in ms[..|ms| - 1] || m == x;
    if m == x {
      AttachLocal(w, w1, db, given, x);
    } else {
      AttachElsewhere(w1, db, given, x, m);
    }
  }

  /** What an interface looks like once attached: derived with its port, or off. */
  ghost predicate AttachedTo(w: World, m: Name, p: Option<PortRow>)
    requires m in w.ifs && m in w.rec
  {
    match p
    case Some(port) => w.ifs[m].portAdmin == port.admin && (w.ifs[m].kind == Physical ==> Fresh(w, m))
    case None => w.ifs[m].portAdmin == AdminDown && w.rec[m].hw == HW_OFF
  }

  lemma AttachOutcome(w: World, db: Db, given: Option<PortRow>, m: Name)
    requires Aligned(w) && m in w.ifs && m in db.rows
    ensures AttachedTo(Attach(w, db, given, m), m, Owner(db, given, m))
  {
    var w1 := w.(ifs := w.ifs[m := Assigned(w.ifs[m], db, Owner(db, given, m), m)]);
    ConfigureFacts(w1, m);
  }

  lemma AttachedCarries(a: World, b: World, m: Name, p: Option<PortRow>)
    requires SameFrame(a, b) && SameAt(a, b, m) && AttachedTo(a, m, p)
    ensures AttachedTo(b, m, p)
  {
    SameFrameInputs(a, b, m);
  }

  lemma AttachAllOutcome(w: World, db: Db, given: Option<PortRow>, ms: seq<Name>, m: Name)
    requires Aligned(w) && Distinct(ms) && (forall x :: x in ms ==> x in w.ifs && x in db.rows) && m in ms
    ensures SameFrame(w, AttachAll(w, db, given, ms))
    ensures AttachedTo(AttachAll(w, db, given, ms), m, Owner(db, given, m))
  {
    AttachAllAt(w, db, given, ms, m);
    AttachAllFrame(w, db, given, ms);
    AttachFrame(w, db, given, m);
    AttachOutcome(w, db, given, m);
    SameFrameSymmetric(w, Attach(w, db, given, m));
    SameFrameTransitive(Attach(w, db, given, m), w, AttachAll(w, db, given, ms));
    AttachedCarries(Attach(w, db, given, m), AttachAll(w, db, given, ms), m, Owner(db, given, m));
  }

  lemma {:induction false} DepartedDistinct(cached: seq<Name>, members: seq<Name>)
    requires Distinct(cached)
    ensures Distinct(Departed(cached, members))
  {
    if cached != [] {
      DepartedDistinct(cached[..|cached| - 1], members);
    }
  }

  /* ---------- the member diff ---------- */

  ghost predicate PortOk(w: World, db: Db, port: PortRow, cached: seq<Name>) {
    && Aligned(w) && w.ifs.Keys == db.rows.Keys
    && Distinct(port.members) && Distinct(cached)
    && (forall m :: m in port.members || m in cached ==> m in w.ifs)
  }

  /** After a modified port has been processed, every current member is derived with that
      port's admin state, every departed one is switched off unless another port still
      lists it, in which case it is derived with that port's, and nobody else changed. */
  lemma PortMemberDiff(w: World, db: Db, port: PortRow, cached: seq<Name>, m: Name)
    requires PortOk(w, db, port, cached) && m in w.ifs
    ensures var w' := ProcessPort(w, db, port, cached);
      && SameFrame(w, w')
      && (m in port.members ==> AttachedTo(w', m, Some(port)))
      && (m in cached && m !in port.members ==> AttachedTo(w', m, PortOf(db.ports, m)))
      && (m !in cached && m !in port.members ==> SameAt(w, w', m))
  {
    var departed := Departed(cached, port.members);
    DepartedDistinct(cached, port.members);
    var w1 := AttachAll(w, db, Some(port), port.members);
    AttachAllAt(w, db, Some(port), port.members, m);
    AttachAllFrame(w, db, Some(port), port.members);
    var emptied := if port.members == [] then cached else [];
    var w2 := AttachAll(w1, db, None, emptied);
    AttachAllAt(w1, db, None, emptied, m);
    AttachAllFrame(w1, db, None, emptied);
    var w3 := AttachAll(w2, db, None, departed);
    AttachAllAt(w2, db, None, departed, m);
    AttachAllFrame(w2, db, None, departed);
    SameFrameTransitive(w, w1, w2);
    SameFrameTransitive(w, w2, w3);
    if m in port.members {
      AttachAllOutcome(w, db, Some(port), port.members, m);
      AttachedCarries(w2, w3, m, Some(port));
    } else if m in cached {
      AttachAllOutcome(w2, db, None, departed, m);
    }
  }

  function UserWith(u: UserCfg, db: Db, m: Name, attached: bool): UserCfg
    requires m in db.rows
  {
    if attached then u.(admin := db.rows[m].cfg.user.admin) else u
  }

  lemma AttachedUser(w: World, db: Db, given: Option<PortRow>, ms: seq<Name>, m: Name)
    requires Aligned(w) && Distinct(ms) && (forall x :: x in ms ==> x in w.ifs && x in db.rows)
    requires m in w.ifs && m in db.rows
    ensures var w' := AttachAll(w, db, given, ms);
      m in w'.ifs && w'.ifs[m].user == UserWith(w.ifs[m].user, db, m, m in ms && Owner(db, given, m).Some?)
  {
    hide Configure, PortOf;
    AttachAllAt(w, db, given, ms, m);
  }

  /** What a port does to the cached settings: whoever is attached to it, or to another one
      instead, takes the admin setting of its row and keeps the rest; nobody else changes. */
  lemma PortMemberUser(w: World, db: Db, port: PortRow, cached: seq<Name>, m: Name)
    requires PortOk(w, db, port, cached) && m in w.ifs
    ensures ProcessPort(w, db, port, cached).ifs[m].user
         == UserWith(w.ifs[m].user, db, m, m in port.members || (m in cached && PortOf(db.ports, m).Some?))
  {
    hide Configure, PortOf, Attach, AttachAll;
    var departed := Departed(cached, port.members);
    DepartedDistinct(cached, port.members);
    var w1 := AttachAll(w, db, Some(port), port.members);
    AttachedUser(w, db, Some(port), port.members, m);
    AttachAllFrame(w, db, Some(port), port.members);
    var emptied := if port.members == [] then cached else [];
    var w2 := AttachAll(w1, db, None, emptied);
    AttachedUser(w1, db, None, emptied, m);
    AttachAllFrame(w1, db, None, emptied);
    AttachedUser(w2, db, None, departed, m);
    NothingAttached(w1, db);
  }

  lemma NothingAttached(w: World, db: Db)
    ensures AttachAll(w, db, None, []) == w
  {
  }

  /* ---------- the second pass of an emptied port ---------- */

  lemma NewOpTwice(op: OpView, i: Inputs)
    ensures NewOp(NewOp(op, i), i) == NewOp(op, i)
  {
  }

  lemma AttachTwice(w: World, db: Db, m: Name)
    requires Aligned(w) && m in w.ifs && m in db.rows
    ensures SameAt(Attach(w, db, None, m), Attach(Attach(w, db, None, m), db, None, m), m)
  {
    var p := Owner(db, None, m);
    var v := Assigned(w.ifs[m], db, p, m);
    assert Assigned(v, db, p, m) == v;
    if p.Some? {
      var w1 := w.(ifs := w.ifs[m := v]);
      NewOpTwice(w.ops[m], InputsOf(w1.ifs, m));
      assert Configure(w1, m).ifs[m := v] == w1.ifs;
    }
  }

  /** For an emptied port the general pass finds nothing left to do. */
  lemma SecondPassIsIdle(w: World, db: Db, port: PortRow, cached: seq<Name>, m: Name)
    requires PortOk(w, db, port, cached) && port.members == [] && m in w.ifs
    ensures SameAt(AttachAll(w, db, None, cached), ProcessPort(w, db, port, cached), m)
  {
    var w2 := AttachAll(w, db, None, cached);
    assert AttachAll(w, db, Some(port), port.members) == w;
    DepartedDistinct(cached, []);
    AttachAllAt(w, db, None, cached, m);
    AttachAllFrame(w, db, None, cached);
    AttachAllAt(w2, db, None, Departed(cached, []), m);
    if m in cached {
      AttachFrame(w, db, None, m);
      AttachTwice(w, db, m);
      SameFrameSymmetric(w, Attach(w, db, None, m));
      SameFrameTransitive(Attach(w, db, None, m), w, w2);
      AttachLocal(Attach(w, db, None, m), w2, db, None, m);
    }
  }

  /* ---------- records that were switched off ---------- */

  /** Switching off leaves the error column alone, so the record it leaves is sound
      exactly when an error was already set; for an interface that was enabled it is not. */
  lemma SwitchedOffRecord(w: World, m: Name, baseMtu: int)
    requires m in w.rec && w.rec[m].error != Some(Uninitialized)
    ensures SoundRecord(SwitchOff(w, m).rec[m], baseMtu) <==> w.rec[m].error.Some?
    ensures SoundRecord(w.rec[m], baseMtu) && IsEnabled(w.rec[m].hw) ==> !SoundRecord(SwitchOff(w, m).rec[m], baseMtu)
  {
  }

  /** A departed member that no port lists keeps its error column as well, whichever
      passes handled it. */
  lemma DepartedRecord(w: World, db: Db, port: PortRow, cached: seq<Name>, m: Name)
    requires PortOk(w, db, port, cached) && m in w.ifs
    requires m in cached && m !in port.members && PortOf(db.ports, m) == None
    ensures m in w.rec && ProcessPort(w, db, port, cached).rec[m] == w.rec[m].(hw := HW_OFF)
  {
    hide Configure;
    var departed := Departed(cached, port.members);
    DepartedDistinct(cached, port.members);
    var w1 := AttachAll(w, db, Some(port), port.members);
    AttachAllAt(w, db, Some(port), port.members, m);
    AttachAllFrame(w, db, Some(port), port.members);
    var emptied := if port.members == [] then cached else [];
    var w2 := AttachAll(w1, db, None, emptied);
    AttachAllAt(w1, db, None, emptied, m);
    AttachAllFrame(w1, db, None, emptied);
    AttachAllAt(w2, db, None, departed, m);
  }

  /* ---------- the invariants of other stages ---------- */

  lemma AttachedIsHonest(w: World, m: Name, p: Option<PortRow>)
    requires m in w.ifs && m in w.rec && AttachedTo(w, m, p) && w.ifs[m].kind == Physical
    ensures Honest(w, m)
  {
    if p.Some? {
      var i := InputsOf(w.ifs, m);
      DerivedIsHonest(i, i.portAdmin);
      assert i.(portAdmin := i.portAdmin) == i;
    }
  }

  lemma PortKeepsHonest(w: World, db: Db, port: PortRow, cached: seq<Name>, m: Name)
    requires PortOk(w, db, port, cached) && m in w.ifs && w.ifs[m].kind == Physical && Honest(w, m)
    ensures var w' := ProcessPort(w, db, port, cached);
      m in w'.ifs && m in w'.rec && Honest(w', m)
  {
    var w' := ProcessPort(w, db, port, cached);
    PortMemberDiff(w, db, port, cached, m);
    assert SameFixed(w.ifs[m], w'.ifs[m]);
    if m in port.members {
      AttachedIsHonest(w', m, Some(port));
    } else if m in cached {
      AttachedIsHonest(w', m, PortOf(db.ports, m));
    } else {
      SameFrameInputs(w, w', m);
    }
  }
}
