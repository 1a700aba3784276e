/** What a whole run of the modification loop guarantees, for every hash order. */
module BatchTheorems {
  import opened Base
  import opened SpeedText
  import opened UserConfig
  import opened Derivation
  import opened World
  import opened Batch

  /** Everything the loop's last state is known to satisfy, in one place. */
  lemma RunFacts(w0: World, db: Db, since: nat, order: seq<Name>, junk: Buffer, m: Name)
    requires InOrder(w0, db, since, order) && m in w0.ifs
    ensures var w := Run(w0, db, since, order, junk).w;
      && Aligned(w) && w.ifs.Keys == w0.ifs.Keys
      && CacheAfter(w0, w.ifs[m], db, since, order, |order|, m)
      && Linked(w.ifs[m], db.rows[m])
      && (w0.ifs[m].kind == Physical ==> Settled(w0, w, m))
  {
    assert m in order && order[..|order|] == order;
    LoopAligned(w0, db, since, order, junk, |order|);
    LoopCache(w0, db, since, order, junk, |order|, m);
    LoopLinks(w0, db, since, order, junk, |order|);
    assert LinkAfter(CacheAt(w0, db, since, order, junk, |order|).ifs[m], db, since, order[..|order|], m);
    if w0.ifs[m].kind == Physical {
      LoopSettled(w0, db, since, order, junk, |order|, m);
    }
  }

  /* ---------- agreement with a full recomputation ---------- */

  /** What interface n needs at the start to end in agreement: it is new, or it agrees and
      no visit of its own brings a new port state. */
  ghost predicate CleanStart(w0: World, db: Db, since: nat, n: Name)
    requires n in w0.ifs && n in w0.rec
  {
    IsIns(db, since, n)
    || (Fresh(w0, n) && (IsMod(db, since, n) ==> PortAdminOf(db.ports, n) == w0.ifs[n].portAdmin))
  }

  lemma SettledIsFresh(w0: World, w: World, n: Name)
    requires n in w0.ifs && n in w0.rec && n in w.ifs && n in w.rec
    requires Settled(w0, w, n) && Fresh(w0, n) && w.ifs[n].portAdmin == w0.ifs[n].portAdmin
    ensures Fresh(w, n)
  {
    var i0, i := InputsOf(w0.ifs, n), InputsOf(w.ifs, n);
    assert i.(portAdmin := i0.portAdmin) == i;
  }

  /** Whatever the order, and although children may be derived before their parent was
      merged, the record of every physical interface with a clean start ends up as a
      from-scratch derivation of the cache. */
  lemma BatchAgreement(w0: World, db: Db, since: nat, order: seq<Name>, junk: Buffer, n: Name)
    requires InOrder(w0, db, since, order) && n in w0.ifs && w0.ifs[n].kind == Physical
    requires n in w0.rec && CleanStart(w0, db, since, n)
    ensures var w := Run(w0, db, since, order, junk).w;
      n in w.ifs && n in w.rec && Fresh(w, n)
  {
    if IsIns(db, since, n) {
      InsertedIsFresh(w0, db, since, order, junk, n);
    } else {
      RunFacts(w0, db, since, order, junk, n);
      SettledIsFresh(w0, Run(w0, db, since, order, junk).w, n);
    }
  }

  /** Once visited, an inserted interface is visited no more, so its record stays fresh. */
  lemma {:induction false} InsertedStaysFresh(w0: World, db: Db, since: nat, order: seq<Name>, junk: Buffer, k: nat,
                                              n: Name)
    requires InOrder(w0, db, since, order) && k <= |order|
    requires n in order[..k] && n in w0.ifs && w0.ifs[n].kind == Physical && IsIns(db, since, n)
    ensures var s := StateAt(w0, db, since, order, junk, k);
      n in s.w.ifs && n in s.w.rec && Fresh(s.w, n)
  {
    SeenStep(order, k - 1, n);
    StateRecordStep(w0, db, since, order, junk, k, n);
    if order[k - 1] != n {
      InsertedStaysFresh(w0, db, since, order, junk, k - 1, n);
      FreshStep(StateAt(w0, db, since, order, junk, k - 1).w, StateAt(w0, db, since, order, junk, k).w, n);
    }
  }

  lemma FreshStep(w: World, w': World, n: Name)
    requires n in w.ifs && n in w.rec && n in w'.ifs && n in w'.rec
    requires StepFact(w, w', n, false) && Fresh(w, n)
    ensures Fresh(w', n)
  {
  }

  lemma InsertedIsFresh(w0: World, db: Db, since: nat, order: seq<Name>, junk: Buffer, n: Name)
    requires InOrder(w0, db, since, order)
    requires n in w0.ifs && w0.ifs[n].kind == Physical && IsIns(db, since, n)
    ensures var w := Run(w0, db, since, order, junk).w;
      n in w.ifs && n in w.rec && Fresh(w, n)
  {
    assert n in order && order[..|order|] == order;
    InsertedStaysFresh(w0, db, since, order, junk, |order|, n);
  }

  /* ---------- the refreshed port state ---------- */

  /** Everything but the port state lets the interface be enabled. */
  predicate OnlyPortMatters(i: Inputs) { DeriveReason(i.(portAdmin := AdminUp)) == Ok }

  lemma PortStateOnly(i: Inputs, p: AdminState)
    requires i.kind == Physical
    ensures Derive(i) == Derive(i.(portAdmin := p)) <==> p == i.portAdmin || !OnlyPortMatters(i)
  {
    var j := i.(portAdmin := p);
    assert Negotiation(i) == Negotiation(j);
  }

  /* ---------- soundness of records, whatever the port states ---------- */

  /** An enabled record is exactly what the cache derives with its port up; any other
      record is plainly off. */
  ghost predicate Honest(w: World, n: Name)
    requires n in w.ifs && n in w.rec
  {
    if IsEnabled(w.rec[n].hw) then w.rec[n] == Derive(InputsOf(w.ifs, n).(portAdmin := AdminUp))
    else w.rec[n].hw == HW_OFF
  }

  lemma DerivedIsHonest(i: Inputs, p: AdminState)
    ensures var r := Derive(i.(portAdmin := p));
      if IsEnabled(r.hw) then r == Derive(i.(portAdmin := AdminUp)) else r.hw == HW_OFF
  {
    if IsEnabled(Derive(i.(portAdmin := p)).hw) { EnabledMeansPortUp(i.(portAdmin := p)); }
  }

  lemma SettledIsHonest(w0: World, w: World, n: Name)
    requires n in w0.ifs && n in w0.rec && n in w.ifs && n in w.rec
    requires Settled(w0, w, n)
    requires Honest(w0, n)
    ensures Honest(w, n)
  {
    var i0, i := InputsOf(w0.ifs, n), InputsOf(w.ifs, n);
    DerivedIsHonest(i, i.portAdmin);
    DerivedIsHonest(i, i0.portAdmin);
    assert i.(portAdmin := i.portAdmin) == i;
    if i.(portAdmin := i0.portAdmin) == i0 {
      assert i0.(portAdmin := AdminUp) == i.(portAdmin := AdminUp);
    }
  }

  lemma BatchHonest(w0: World, db: Db, since: nat, order: seq<Name>, junk: Buffer, n: Name)
    requires InOrder(w0, db, since, order) && n in w0.ifs && w0.ifs[n].kind == Physical
    requires !IsIns(db, since, n) ==> Honest(w0, n)
    ensures var w := Run(w0, db, since, order, junk).w;
      n in w.ifs && n in w.rec && Honest(w, n)
  {
    var w := Run(w0, db, since, order, junk).w;
    RunFacts(w0, db, since, order, junk, n);
    if IsIns(db, since, n) {
      InsertedIsFresh(w0, db, since, order, junk, n);
      DerivedIsHonest(InputsOf(w.ifs, n), w.ifs[n].portAdmin);
      assert InputsOf(w.ifs, n).(portAdmin := w.ifs[n].portAdmin) == InputsOf(w.ifs, n);
    } else {
      SettledIsHonest(w0, w, n);
    }
  }

  /** A split parent and its child, both honest, are never both enabled. */
  lemma HonestExclusion(w: World, p: Name, c: Name)
    requires p in w.ifs && c in w.ifs && p in w.rec && c in w.rec
    requires w.ifs[c].parent == Some(p) && w.ifs[p].children.Some?
    requires Honest(w, p) && Honest(w, c)
    ensures !(IsEnabled(w.rec[p].hw) && IsEnabled(w.rec[c].hw))
  {
    if IsEnabled(w.rec[p].hw) && IsEnabled(w.rec[c].hw) {
      EnabledMeansPortUp(InputsOf(w.ifs, p).(portAdmin := AdminUp));
      EnabledMeansPortUp(InputsOf(w.ifs, c).(portAdmin := AdminUp));
    }
  }

  /** Between two visits a family that is not new is never enabled twice. */
  lemma ExclusiveBetweenVisits(w0: World, db: Db, since: nat, order: seq<Name>, junk: Buffer, k: nat, p: Name, c: Name)
    requires InOrder(w0, db, since, order) && k <= |order| && p in w0.ifs && c in w0.ifs
    requires w0.ifs[p].kind == Physical && w0.ifs[c].kind == Physical
    requires db.rows[c].splitParent == Some(p) && !IsIns(db, since, c)
    requires Honest(w0, p) && Honest(w0, c)
    ensures var w := StateAt(w0, db, since, order, junk, k).w;
      p in w.rec && c in w.rec && !(IsEnabled(w.rec[p].hw) && IsEnabled(w.rec[c].hw))
  {
    var s := StateAt(w0, db, since, order, junk, k);
    assert FamilyOk(db.rows, since, c);
    LoopAligned(w0, db, since, order, junk, k);
    LoopSettled(w0, db, since, order, junk, k, p);
    LoopSettled(w0, db, since, order, junk, k, c);
    SettledIsHonest(w0, s.w, p);
    SettledIsHonest(w0, s.w, c);
    FamilyLinks(w0, db, since, order, junk, k, p, c);
    HonestExclusion(s.w, p, c);
  }

  lemma FamilyLinks(w0: World, db: Db, since: nat, order: seq<Name>, junk: Buffer, k: nat, p: Name, c: Name)
    requires InOrder(w0, db, since, order) && k <= |order| && p in w0.ifs && c in w0.ifs
    requires db.rows[c].splitParent == Some(p) && !IsIns(db, since, c)
    ensures var ifs := CacheAt(w0, db, since, order, junk, k).ifs;
      p in ifs && c in ifs && ifs[c].parent == Some(p) && ifs[p].children.Some?
  {
    var ifs := CacheAt(w0, db, since, order, junk, k).ifs;
    LoopLinks(w0, db, since, order, junk, k);
    assert FamilyOk(db.rows, since, c);
    assert LinkAfter(ifs[p], db, since, order[..k], p) && LinkAfter(ifs[c], db, since, order[..k], c);
  }

  /** The visit of a modified n when its own record has been published and its children's
      not yet. */
  function MidVisit(s: LoopState, db: Db, n: Name): World
    requires n in s.w.ifs && n in db.rows
  {
    var w1 := WithIface(s.w, n, Merge(s.w.ifs[n], db, n, s.scratch));
    if CfgChanged(s.w.ifs[n], db, n, s.scratch) then Configure(w1, n) else w1
  }

  /** What its row and its port say of a split parent besides lanes lets it be enabled. */
  predicate OtherwiseFine(db: Db, n: Name, v: IfaceV)
    requires n in db.rows
  {
    var r := RowMeaning(db, n);
    && r.admin == AdminUp && r.mtu != -1 && r.speedsValid
    && ModuleReason(RowPm(db, n)) == Ok && PortAdminOf(db.ports, n) == AdminUp
    && Negotiate(r.autoneg, r.speeds, CapabilityOf(RowPm(db, n)), NativeSpeed(RowPm(db, n).family), v.hw.speeds).Agreed?
  }

  /** Within a visit a linked parent n and child c are both enabled exactly when the child
      was, and the row now gives the lanes back to a parent that is otherwise fine. Until
      then the lanes were the child's. */
  lemma EnabledTwiceWithinVisit(s: LoopState, db: Db, since: nat, seen: seq<Name>, n: Name, c: Name)
    requires Aligned(s.w) && LinksAfter(s.w.ifs, db, since, seen) && Families(db.rows, since)
    requires n in s.w.ifs && IsMod(db, since, n) && c in Children(s.w.ifs[n]) && c in s.w.ifs
    requires s.w.ifs[n].kind == Physical && s.w.ifs[c].kind == Physical
    requires Honest(s.w, n) && Honest(s.w, c)
    ensures n in s.w.rec && c in s.w.rec
    ensures var mid := MidVisit(s, db, n);
      IsEnabled(mid.rec[n].hw) && IsEnabled(mid.rec[c].hw)
      <==> IsEnabled(s.w.rec[c].hw) && db.rows[n].cfg.user.lane == NoSplit && OtherwiseFine(db, n, s.w.ifs[n])
    ensures IsEnabled(s.w.rec[c].hw) ==> s.w.ifs[n].user.lane == Split
  {
    hide Derive, Families, LinksAfter, PortAdminOf;
    FamilyHolds(s.w.ifs, db, since, seen, n);
    var v1 := Merge(s.w.ifs[n], db, n, s.scratch);
    if IsEnabled(s.w.rec[c].hw) {
      EnabledMeansPortUp(InputsOf(s.w.ifs, c).(portAdmin := AdminUp));
      HonestExclusion(s.w, n, c);
    }
    ParseMeaning(db.rows[n].cfg, s.scratch);
    ConfigureFacts(WithIface(s.w, n, v1), n);
    ParentHasNoParent(s.w.ifs, db, since, seen, n);
    EnabledParent(s.w.ifs[n := v1], db, n);
  }

  lemma ParentHasNoParent(ifs: map<Name, IfaceV>, db: Db, since: nat, seen: seq<Name>, n: Name)
    requires LinksAfter(ifs, db, since, seen) && Families(db.rows, since)
    requires n in ifs && !IsIns(db, since, n) && Children(ifs[n]) != []
    ensures ifs[n].parent == None && ifs[n].children.Some?
  {
    assert LinkAfter(ifs[n], db, since, seen, n) && FamilyOk(db.rows, since, n);
  }

  /** When a split parent that holds what its row says is derived as enabled. */
  lemma EnabledParent(ifs: map<Name, IfaceV>, db: Db, n: Name)
    requires n in ifs && n in db.rows && ifs[n].parent == None && ifs[n].children.Some?
    requires Meaning(ifs[n].user) == RowMeaning(db, n) && ifs[n].pm == RowPm(db, n)
    requires ifs[n].portAdmin == PortAdminOf(db.ports, n)
    ensures IsEnabled(Derive(InputsOf(ifs, n)).hw)
       <==> db.rows[n].cfg.user.lane == NoSplit && OtherwiseFine(db, n, ifs[n])
  {
    hide PortAdminOf;
  }

  /* ---------- no lost write ---------- */

  /** The carried flags never outrun rc: without it nothing has been written. */
  ghost predicate WritesReported(w0: World, s: LoopState) {
    && (s.split || s.pm ==> s.rc)
    && (!s.rc ==> s.w.writes == w0.writes && s.w.rec == w0.rec && s.w.ops == w0.ops)
  }

  lemma WritesStep(w0: World, s: LoopState, db: Db, since: nat, n: Name)
    requires WritesReported(w0, s)
    ensures WritesReported(w0, Visit(s, db, since, n))
  {
  }

  lemma {:induction false} NoLostWrite(w0: World, db: Db, since: nat, order: seq<Name>, junk: Buffer, k: nat)
    requires k <= |order|
    ensures WritesReported(w0, StateAt(w0, db, since, order, junk, k))
  {
    if k > 0 {
      NoLostWrite(w0, db, since, order, junk, k - 1);
      WritesStep(w0, StateAt(w0, db, since, order, junk, k - 1), db, since, order[k - 1]);
    }
  }

  /* ---------- visiting order ---------- */

  /** Equal for every later purpose: buffers are compared by what they mean. */
  predicate SameIface(a: IfaceV, b: IfaceV) {
    ValuesOf(a) == ValuesOf(b) && a.parent == b.parent && a.children == b.children
  }

  ghost predicate SameCache(a: map<Name, IfaceV>, b: map<Name, IfaceV>) {
    a.Keys == b.Keys && forall n :: n in a ==> SameIface(a[n], b[n])
  }

  /** An unmodified child whose cached module information is not the one in its parent's
      row, while the parent is modified with its connector unchanged. */
  predicate OutOfStep(w0: World, db: Db, since: nat, c: Name) {
    && c in w0.ifs && c in db.rows && !IsMod(db, since, c) && !IsIns(db, since, c)
    && db.rows[c].splitParent.Some?
    && IsMod(db, since, db.rows[c].splitParent.value)
    && !ConnectorChanged(w0, db, since, db.rows[c].splitParent.value)
    && w0.ifs[c].pm != RowPm(db, c)
  }

  ghost predicate OrderSensitive(w0: World, db: Db, since: nat) {
    && (exists x :: x in w0.ifs && ConnectorChanged(w0, db, since, x))
    && (exists c :: c in w0.ifs && OutOfStep(w0, db, since, c))
  }

  lemma PushedInAnyOrder(w0: World, db: Db, since: nat, order: seq<Name>, c: Name)
    requires InOrder(w0, db, since, order) && c in w0.ifs && !IsMod(db, since, c) && !IsIns(db, since, c)
    requires !OutOfStep(w0, db, since, c) || forall x :: x in w0.ifs ==> !ConnectorChanged(w0, db, since, x)
    requires w0.ifs[c].pm != RowPm(db, c)
    ensures Pushed(w0, db, since, order, |order|, c)
       <==> db.rows[c].splitParent.Some? && ConnectorChanged(w0, db, since, db.rows[c].splitParent.value)
  {
    assert FamilyOk(db.rows, since, c);
    if db.rows[c].splitParent.Some? && ConnectorChanged(w0, db, since, db.rows[c].splitParent.value) {
      var p := db.rows[c].splitParent.value;
      assert p in order;
      var j :| 0 <= j < |order| && order[j] == p;
      assert ConnectorChanged(w0, db, since, order[j]);
      assert PmFlag(w0, db, since, order, j + 1);
    }
    if Pushed(w0, db, since, order, |order|, c) {
      var j :| 0 <= j < |order| && order[j] == db.rows[c].splitParent.value
               && IsMod(db, since, order[j]) && PmFlag(w0, db, since, order, j + 1);
      var i :| 0 <= i < j + 1 && ConnectorChanged(w0, db, since, order[i]);
      assert order[i] in order;
    }
  }

  lemma SameValues(w0: World, db: Db, since: nat, o1: seq<Name>, o2: seq<Name>, n: Name)
    requires InOrder(w0, db, since, o1) && InOrder(w0, db, since, o2) && !OrderSensitive(w0, db, since) && n in w0.ifs
    ensures ValuesAfter(w0, db, since, o1, |o1|, n) == ValuesAfter(w0, db, since, o2, |o2|, n)
  {
    assert n in o1 && n in o2 && o1[..|o1|] == o1 && o2[..|o2|] == o2;
    if !IsMod(db, since, n) && !IsIns(db, since, n) && w0.ifs[n].pm != RowPm(db, n) {
      PushedInAnyOrder(w0, db, since, o1, n);
      PushedInAnyOrder(w0, db, since, o2, n);
    }
  }

  lemma SameWhateverOrder(w0: World, db: Db, since: nat, o1: seq<Name>, o2: seq<Name>, j1: Buffer, j2: Buffer, n: Name)
    requires InOrder(w0, db, since, o1) && InOrder(w0, db, since, o2) && !OrderSensitive(w0, db, since) && n in w0.ifs
    ensures var a, b := Run(w0, db, since, o1, j1).w.ifs, Run(w0, db, since, o2, j2).w.ifs;
      n in a && n in b && SameIface(a[n], b[n])
  {
    RunFacts(w0, db, since, o1, j1, n);
    RunFacts(w0, db, since, o2, j2, n);
    SameValues(w0, db, since, o1, o2, n);
  }

  ghost predicate OrderIrrelevant(w0: World, db: Db, since: nat) {
    forall o1, o2, j1, j2 :: InOrder(w0, db, since, o1) && InOrder(w0, db, since, o2) ==>
      SameCache(Run(w0, db, since, o1, j1).w.ifs, Run(w0, db, since, o2, j2).w.ifs)
  }

  /** Two orders of which only the first hands the parent's module on to the child. */
  lemma OrdersThatDiffer(w0: World, db: Db, since: nat, x: Name, c: Name) returns (o1: seq<Name>, o2: seq<Name>)
    requires Ready(w0, db, since) && x in w0.ifs && ConnectorChanged(w0, db, since, x) && OutOfStep(w0, db, since, c)
    ensures InOrder(w0, db, since, o1) && InOrder(w0, db, since, o2)
    ensures Pushed(w0, db, since, o1, |o1|, c) && !Pushed(w0, db, since, o2, |o2|, c)
  {
    var p := db.rows[c].splitParent.value;
    assert FamilyOk(db.rows, since, c);
    o1 := EnumerationWithPrefix([x, p], w0.ifs.Keys);
    o2 := EnumerationWithPrefix([p, x], w0.ifs.Keys);
    assert o1[0] == o1[..2][0] == x && o1[1] == o1[..2][1] == p;
    assert o2[0] == o2[..2][0] == p;
    assert PmFlag(w0, db, since, o1, 2) by { assert ConnectorChanged(w0, db, since, o1[0]); }
    assert !PmFlag(w0, db, since, o2, 1);
  }

  /** Such a child ends with its parent's module information or with its own old one. */
  lemma OutcomeForChild(w0: World, db: Db, since: nat, order: seq<Name>, junk: Buffer, c: Name)
    requires InOrder(w0, db, since, order) && OutOfStep(w0, db, since, c)
    ensures var w := Run(w0, db, since, order, junk).w;
      c in w.ifs && w.ifs[c].pm == (if Pushed(w0, db, since, order, |order|, c) then RowPm(db, c) else w0.ifs[c].pm)
  {
    RunFacts(w0, db, since, order, junk, c);
  }

  /** The hash order matters exactly when some connector changed in the batch while an
      unmodified child is out of step with its modified parent: the never-cleared flag
      then reaches that child or not, depending on who is visited first. */
  lemma OrderMattersExactly(w0: World, db: Db, since: nat)
    requires Ready(w0, db, since)
    ensures OrderIrrelevant(w0, db, since) <==> !OrderSensitive(w0, db, since)
  {
    if OrderSensitive(w0, db, since) {
      var x :| x in w0.ifs && ConnectorChanged(w0, db, since, x);
      var c :| c in w0.ifs && OutOfStep(w0, db, since, c);
      var o1, o2 := OrdersThatDiffer(w0, db, since, x, c);
      OutcomeForChild(w0, db, since, o1, ZEROS, c);
      OutcomeForChild(w0, db, since, o2, ZEROS, c);
      assert !SameIface(Run(w0, db, since, o1, ZEROS).w.ifs[c], Run(w0, db, since, o2, ZEROS).w.ifs[c]);
    } else {
      forall o1, o2, j1, j2 | InOrder(w0, db, since, o1) && InOrder(w0, db, since, o2)
        ensures SameCache(Run(w0, db, since, o1, j1).w.ifs, Run(w0, db, since, o2, j2).w.ifs)
      {
        SameCacheAtEnd(w0, db, since, o1, o2, j1, j2);
      }
    }
  }

  lemma SameCacheSameInputs(a: map<Name, IfaceV>, b: map<Name, IfaceV>, n: Name)
    requires SameCache(a, b) && n in a
    ensures InputsOf(a, n) == InputsOf(b, n)
  {
    assert SameIface(a[n], b[n]);
    if a[n].parent.Some? && a[n].parent.value in a {
      assert SameIface(a[a[n].parent.value], b[a[n].parent.value]);
    }
  }

  /** Outside that case every physical record with a clean start is the same for every
      order; Outcomes.OneRecordExactly says when it is in general. */
  lemma RecordsWhateverOrder(w0: World, db: Db, since: nat, o1: seq<Name>, o2: seq<Name>, j1: Buffer, j2: Buffer,
                             n: Name)
    requires InOrder(w0, db, since, o1) && InOrder(w0, db, since, o2) && !OrderSensitive(w0, db, since)
    requires n in w0.ifs && w0.ifs[n].kind == Physical && n in w0.rec && CleanStart(w0, db, since, n)
    ensures var a, b := Run(w0, db, since, o1, j1).w, Run(w0, db, since, o2, j2).w;
      n in a.rec && n in b.rec && a.rec[n] == b.rec[n]
  {
    BatchAgreement(w0, db, since, o1, j1, n);
    BatchAgreement(w0, db, since, o2, j2, n);
    SameCacheAtEnd(w0, db, since, o1, o2, j1, j2);
    SameCacheSameInputs(Run(w0, db, since, o1, j1).w.ifs, Run(w0, db, since, o2, j2).w.ifs, n);
  }

  lemma SameCacheAtEnd(w0: World, db: Db, since: nat, o1: seq<Name>, o2: seq<Name>, j1: Buffer, j2: Buffer)
    requires InOrder(w0, db, since, o1) && InOrder(w0, db, since, o2) && !OrderSensitive(w0, db, since)
    ensures SameCache(Run(w0, db, since, o1, j1).w.ifs, Run(w0, db, since, o2, j2).w.ifs)
  {
    LoopAligned(w0, db, since, o1, j1, |o1|);
    LoopAligned(w0, db, since, o2, j2, |o2|);
    forall n | n in w0.ifs
      ensures SameIface(Run(w0, db, since, o1, j1).w.ifs[n], Run(w0, db, since, o2, j2).w.ifs[n])
    {
      SameWhateverOrder(w0, db, since, o1, o2, j1, j2, n);
    }
  }
}
