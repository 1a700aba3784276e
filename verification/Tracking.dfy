/** The record of one interface followed through the modification loop: whether it has been
    derived, from which inputs, and what it ends with, all told without the loop. */
module Tracking {
  import opened Base
  import opened UserConfig
  import opened Derivation
  import opened World
  import opened Batch
  import opened BatchTheorems

  /* ---------- what the loop carries, told without it ---------- */

  predicate LaneChanged(w0: World, db: Db, since: nat, x: Name) {
    IsMod(db, since, x) && x in w0.ifs && w0.ifs[x].user.lane != db.rows[x].cfg.user.lane
  }

  /** split_changed once the first k interfaces have been visited. */
  ghost predicate SplitFlag(w0: World, db: Db, since: nat, order: seq<Name>, k: nat)
    requires k <= |order|
  {
    exists i :: 0 <= i < k && (LaneChanged(w0, db, since, order[i])
      || (IsMod(db, since, order[i]) && db.rows[order[i]].splitChildren != [] && PmFlag(w0, db, since, order, i + 1)))
  }

  /** A modified row that fills the parse buffer. */
  predicate Given(db: Db, since: nat, x: Name) { IsMod(db, since, x) && db.rows[x].cfg.speedsGiven }

  /** The parse buffer once the first k interfaces have been visited. */
  function ScratchAt(db: Db, since: nat, order: seq<Name>, junk: Buffer, k: nat): Buffer
    requires k <= |order|
  {
    if k == 0 then junk
    else if Given(db, since, order[k - 1]) then db.rows[order[k - 1]].cfg.user.speeds
    else ScratchAt(db, since, order, junk, k - 1)
  }

  /** Visited after the first k interfaces, a modified n counts as changed. */
  ghost predicate OwnChange(w0: World, db: Db, since: nat, order: seq<Name>, junk: Buffer, k: nat, n: Name)
    requires k <= |order| && n in w0.ifs && n in db.rows
  {
    || ParseInto(db.rows[n].cfg, ScratchAt(db, since, order, junk, k)) != w0.ifs[n].user
    || (!Pushed(w0, db, since, order, k, n) && w0.ifs[n].pm != RowPm(db, n))
  }

  lemma SplitStep(w0: World, db: Db, since: nat, order: seq<Name>, k: nat)
    requires k < |order|
    ensures SplitFlag(w0, db, since, order, k + 1) <==>
      SplitFlag(w0, db, since, order, k) || LaneChanged(w0, db, since, order[k])
      || (IsMod(db, since, order[k]) && db.rows[order[k]].splitChildren != [] && PmFlag(w0, db, since, order, k + 1))
  {
  }

  /** Until its own visit an interface keeps its cached configuration, buffer included. */
  lemma {:induction false} UserKept(w0: World, db: Db, since: nat, order: seq<Name>, junk: Buffer, k: nat, n: Name)
    requires k <= |order| && n in w0.ifs && n !in order[..k]
    ensures var c := CacheAt(w0, db, since, order, junk, k); n in c.ifs && c.ifs[n].user == w0.ifs[n].user
  {
    if k > 0 {
      SeenStep(order, k - 1, n);
      UserKept(w0, db, since, order, junk, k - 1, n);
      CacheNext(w0, db, since, order, junk, k - 1);
      VisitKeepsUser(CacheAt(w0, db, since, order, junk, k - 1), db, since, order[k - 1], n);
    }
  }

  lemma VisitKeepsUser(c: CacheState, db: Db, since: nat, x: Name, n: Name)
    requires n in c.ifs && x != n
    ensures CacheVisit(c, db, since, x).ifs[n].user == c.ifs[n].user
  {
  }

  lemma VisitCarries(c: CacheState, db: Db, since: nat, x: Name)
    requires x in c.ifs && x in db.rows
    ensures var c' := CacheVisit(c, db, since, x);
      && c'.scratch == (if Given(db, since, x) then db.rows[x].cfg.user.speeds else c.scratch)
      && c'.split == (c.split || (IsMod(db, since, x) && (c.ifs[x].user.lane != db.rows[x].cfg.user.lane
                                                          || (c'.pm && db.rows[x].splitChildren != []))))
  {
  }

  /** The carried flag split_changed and the parse buffer after k visits. */
  lemma {:induction false} LoopCarries(w0: World, db: Db, since: nat, order: seq<Name>, junk: Buffer, k: nat)
    requires InOrder(w0, db, since, order) && k <= |order|
    ensures var c := CacheAt(w0, db, since, order, junk, k);
      c.split == SplitFlag(w0, db, since, order, k) && c.scratch == ScratchAt(db, since, order, junk, k)
  {
    hide CacheVisit, Ready, PmFlag;
    if k > 0 {
      var x := order[k - 1];
      assert x in order && x !in order[..k - 1];
      RowsCached(w0, db, since);
      LoopCarries(w0, db, since, order, junk, k - 1);
      LoopFlag(w0, db, since, order, junk, k);
      UserKept(w0, db, since, order, junk, k - 1, x);
      CacheNext(w0, db, since, order, junk, k - 1);
      VisitCarries(CacheAt(w0, db, since, order, junk, k - 1), db, since, x);
      SplitStep(w0, db, since, order, k - 1);
    }
  }

  lemma RowsCached(w0: World, db: Db, since: nat)
    requires Ready(w0, db, since)
    ensures Aligned(w0) && w0.ifs.Keys == db.rows.Keys && Families(db.rows, since)
  {
  }

  /** Whether the visit of n finds a change. */
  lemma OwnVisit(w0: World, db: Db, since: nat, order: seq<Name>, junk: Buffer, k: nat)
    requires InOrder(w0, db, since, order) && k < |order| && IsMod(db, since, order[k])
    ensures var s, n := StateAt(w0, db, since, order, junk, k), order[k];
      && n in w0.ifs && n in s.w.ifs
      && (CfgChanged(s.w.ifs[n], db, n, s.scratch) <==> OwnChange(w0, db, since, order, junk, k, n))
      && s.w.ifs[n].portAdmin == w0.ifs[n].portAdmin
  {
    hide CacheVisit, Ready, PmFlag, Pushed;
    var n := order[k];
    assert n in order && n !in order[..k];
    RowsCached(w0, db, since);
    LoopAligned(w0, db, since, order, junk, k);
    LoopCarries(w0, db, since, order, junk, k);
    UserKept(w0, db, since, order, junk, k, n);
    LoopCache(w0, db, since, order, junk, k, n);
  }

  /** The i-th visit writes on its own account. */
  ghost predicate OwnWrite(w0: World, db: Db, since: nat, order: seq<Name>, junk: Buffer, i: nat)
    requires i < |order| && order[i] in w0.ifs && order[i] in db.rows
  {
    IsIns(db, since, order[i])
    || (IsMod(db, since, order[i]) && OwnChange(w0, db, since, order, junk, i, order[i]))
  }

  lemma VisitReports(s: LoopState, db: Db, since: nat, n: Name)
    requires n in s.w.ifs && n in db.rows
    ensures Visit(s, db, since, n).rc <==>
      s.rc || IsIns(db, since, n) || (IsMod(db, since, n) && CfgChanged(s.w.ifs[n], db, n, s.scratch))
  {
    hide VisitWorld, CacheVisit, Configure, CfgChanged;
  }

  /** rc is set once some visit wrote on its own account; carried flags do not set it. */
  lemma {:induction false} LoopReports(w0: World, db: Db, since: nat, order: seq<Name>, junk: Buffer, k: nat)
    requires InOrder(w0, db, since, order) && k <= |order|
    ensures forall i :: 0 <= i < |order| ==> order[i] in w0.ifs && order[i] in db.rows
    ensures StateAt(w0, db, since, order, junk, k).rc <==>
      exists i :: 0 <= i < k && OwnWrite(w0, db, since, order, junk, i)
  {
    hide Ready, Enumerates, OwnChange, CfgChanged, Visit, CacheVisit;
    OrderCached(w0, db, since, order);
    if k > 0 {
      LoopReports(w0, db, since, order, junk, k - 1);
      var s, n := StateAt(w0, db, since, order, junk, k - 1), order[k - 1];
      StateKeys(w0, db, since, order, junk, k - 1);
      VisitReports(s, db, since, n);
      if IsMod(db, since, n) { OwnVisit(w0, db, since, order, junk, k - 1); }
      assert StateAt(w0, db, since, order, junk, k).rc <==>
        s.rc || OwnWrite(w0, db, since, order, junk, k - 1);
    }
  }

  lemma StateKeys(w0: World, db: Db, since: nat, order: seq<Name>, junk: Buffer, k: nat)
    requires InOrder(w0, db, since, order) && k <= |order|
    ensures StateAt(w0, db, since, order, junk, k).w.ifs.Keys == w0.ifs.Keys
  {
    LoopAligned(w0, db, since, order, junk, k);
  }

  lemma OrderCached(w0: World, db: Db, since: nat, order: seq<Name>)
    requires InOrder(w0, db, since, order)
    ensures forall i :: 0 <= i < |order| ==> order[i] in w0.ifs && order[i] in db.rows
  {
    RowsCached(w0, db, since);
    forall i | 0 <= i < |order| ensures order[i] in w0.ifs { assert order[i] in order; }
  }

  /* ---------- one visit, exactly ---------- */

  /** The inputs of m after an event that at most refreshed its port state. */
  predicate SameButPort(i: Inputs, i': Inputs) { i'.(portAdmin := i.portAdmin) == i }

  /** What one visit does to the record of an old interface m and to its inputs. */
  ghost predicate VisitEffect(s: LoopState, s': LoopState, db: Db, since: nat, n: Name, m: Name)
    requires m in s.w.ifs && m in s.w.rec && m in s'.w.ifs && m in s'.w.rec && m in db.rows && n in db.rows
    requires n in s.w.ifs
  {
    var i, i' := InputsOf(s.w.ifs, m), InputsOf(s'.w.ifs, m);
    if m == n && IsMod(db, since, n) then
      if CfgChanged(s.w.ifs[n], db, n, s.scratch) then s'.w.rec[m] == Derive(i')
      else s'.w.rec[m] == s.w.rec[m] && SameButPort(i, i')
    else if IsMod(db, since, n) && db.rows[m].splitParent == Some(n) && s'.split then s'.w.rec[m] == Derive(i')
    else s'.w.rec[m] == s.w.rec[m] && i' == i
  }

  lemma VisitExactly(s: LoopState, db: Db, since: nat, seen: seq<Name>, n: Name, m: Name)
    requires Aligned(s.w) && LinksAfter(s.w.ifs, db, since, seen) && Families(db.rows, since)
    requires n in s.w.ifs && m in s.w.ifs && s.w.ifs[m].kind == Physical && !IsIns(db, since, m)
    ensures var s' := Visit(s, db, since, n);
      && m in s.w.rec && m in s'.w.ifs && m in s'.w.rec
      && VisitEffect(s, s', db, since, n, m)
  {
    if IsMod(db, since, n) {
      VisitModifiedExactly(s, db, since, seen, n, m);
    } else {
      VisitOtherExactly(s, db, since, n, m);
    }
  }

  lemma VisitOtherExactly(s: LoopState, db: Db, since: nat, n: Name, m: Name)
    requires Aligned(s.w) && s.w.ifs.Keys == db.rows.Keys && !IsMod(db, since, n)
    requires n in s.w.ifs && m in s.w.ifs && !IsIns(db, since, m)
    ensures var s' := Visit(s, db, since, n);
      && m in s.w.rec && m in s'.w.ifs && m in s'.w.rec
      && VisitEffect(s, s', db, since, n, m)
  {
    hide Derive, CfgChanged, Configure;
    if IsIns(db, since, n) {
      assert m != n;
      ConfigureFacts(s.w.(ifs := CacheVisit(CacheOf(s), db, since, n).ifs), n);
    }
  }

  lemma VisitModifiedExactly(s: LoopState, db: Db, since: nat, seen: seq<Name>, n: Name, m: Name)
    requires Aligned(s.w) && LinksAfter(s.w.ifs, db, since, seen) && Families(db.rows, since)
    requires n in s.w.ifs && m in s.w.ifs && s.w.ifs[m].kind == Physical && IsMod(db, since, n)
    ensures var s' := Visit(s, db, since, n);
      && m in s.w.rec && m in s'.w.ifs && m in s'.w.rec
      && VisitEffect(s, s', db, since, n, m)
  {
    hide Derive, LinksAfter, Families, Configure, Merge, VisitWorld, VisitIfs, InputsOf, CfgChanged;
    FamilyHolds(s.w.ifs, db, since, seen, n);
    var c, v1 := CacheVisit(CacheOf(s), db, since, n), Merge(s.w.ifs[n], db, n, s.scratch);
    var changed, push := CfgChanged(s.w.ifs[n], db, n, s.scratch), c.pm && db.rows[n].splitChildren != [];
    MergeKeeps(s.w.ifs[n], db, n, s.scratch);
    VisitKinds(s.w.ifs, n, v1, push, db.rows[n].lane);
    VisitWorldRecord(s.w, n, v1, changed, c, m);
    VisitInputs(s.w.ifs, n, v1, changed, push, db.rows[n].lane, m);
  }

  lemma VisitKinds(ifs: map<Name, IfaceV>, n: Name, v1: IfaceV, push: bool, pm: PmInfo)
    requires n in ifs && v1.kind == ifs[n].kind
    ensures forall i :: i in ifs ==> VisitIfs(ifs, n, v1, push, pm)[i].kind == ifs[i].kind
  {
  }

  lemma MergeKeeps(v: IfaceV, db: Db, n: Name, scratch: Buffer)
    requires n in db.rows
    ensures var v1 := Merge(v, db, n, scratch); MergeOf(v, v1, CfgChanged(v, db, n, scratch)) && v1.kind == v.kind
  {
  }

  /* ---------- the record of one interface over the loop ---------- */

  /** Not derived in this batch, nor changed but for the port state; derived last from
      all its present inputs; derived, after which its own visit refreshed the port state
      and found no change. */
  datatype Tag = Untouched | Derived | Overtaken

  ghost function TagAt(w0: World, db: Db, since: nat, order: seq<Name>, junk: Buffer, k: nat, n: Name): Tag
    requires k <= |order| && n in w0.ifs && n in db.rows
  {
    if k == 0 then Untouched
    else TagNext(w0, db, since, order, junk, k - 1, n, TagAt(w0, db, since, order, junk, k - 1, n))
  }

  ghost function TagNext(w0: World, db: Db, since: nat, order: seq<Name>, junk: Buffer, k: nat, n: Name, t: Tag): Tag
    requires k < |order| && n in w0.ifs && n in db.rows
  {
    if !IsMod(db, since, order[k]) then t
    else if order[k] == n then
      if OwnChange(w0, db, since, order, junk, k, n) then Derived else if t == Derived then Overtaken else t
    else if db.rows[n].splitParent == Some(order[k]) && SplitFlag(w0, db, since, order, k + 1) then Derived
    else t
  }

  ghost predicate Tagged(w0: World, w: World, n: Name, t: Tag)
    requires n in w0.ifs && n in w0.rec && n in w.ifs && n in w.rec
  {
    match t
    case Untouched => w.rec[n] == w0.rec[n] && SameButPort(InputsOf(w0.ifs, n), InputsOf(w.ifs, n))
    case Derived => w.rec[n] == Derive(InputsOf(w.ifs, n))
    case Overtaken => w.rec[n] == Derive(InputsOf(w.ifs, n).(portAdmin := w0.ifs[n].portAdmin))
  }

  lemma TagStep(w0: World, s: LoopState, s': LoopState, db: Db, since: nat, order: seq<Name>, junk: Buffer, k: nat,
                n: Name, t: Tag)
    requires k < |order| && n in w0.ifs && n in w0.rec && n in db.rows && order[k] in db.rows && order[k] in s.w.ifs
    requires n in s.w.ifs && n in s.w.rec && n in s'.w.ifs && n in s'.w.rec
    requires VisitEffect(s, s', db, since, order[k], n) && Tagged(w0, s.w, n, t)
    requires s'.split == SplitFlag(w0, db, since, order, k + 1)
    requires IsMod(db, since, order[k]) && order[k] == n ==>
      (CfgChanged(s.w.ifs[n], db, n, s.scratch) <==> OwnChange(w0, db, since, order, junk, k, n))
      && s.w.ifs[n].portAdmin == w0.ifs[n].portAdmin
    ensures Tagged(w0, s'.w, n, TagNext(w0, db, since, order, junk, k, n, t))
  {
    hide Derive, CfgChanged, OwnChange, SplitFlag, InputsOf;
    var i, i' := InputsOf(s.w.ifs, n), InputsOf(s'.w.ifs, n);
    InputsPort(s.w.ifs, n);
    InputsPort(s'.w.ifs, n);
    if t == Untouched && SameButPort(i, i') { StillSameButPort(InputsOf(w0.ifs, n), i, i'); }
    if order[k] == n && SameButPort(i, i') {
      assert i'.(portAdmin := w0.ifs[n].portAdmin) == i.(portAdmin := w0.ifs[n].portAdmin);
      if i.portAdmin == w0.ifs[n].portAdmin { assert i.(portAdmin := w0.ifs[n].portAdmin) == i; }
    }
  }

  lemma StillSameButPort(a: Inputs, b: Inputs, c: Inputs)
    requires SameButPort(a, b) && SameButPort(b, c)
    ensures SameButPort(a, c)
  {
    assert c.(portAdmin := a.portAdmin) == b.(portAdmin := a.portAdmin);
  }

  lemma InputsPort(ifs: map<Name, IfaceV>, n: Name)
    requires n in ifs
    ensures InputsOf(ifs, n).portAdmin == ifs[n].portAdmin && InputsOf(ifs, n).kind == ifs[n].kind
  {
  }

  /** Loop invariant: the tag says what the record is. */
  lemma {:induction false} LoopTagged(w0: World, db: Db, since: nat, order: seq<Name>, junk: Buffer, k: nat, n: Name)
    requires InOrder(w0, db, since, order) && k <= |order|
    requires n in w0.ifs && w0.ifs[n].kind == Physical && !IsIns(db, since, n)
    ensures var w := StateAt(w0, db, since, order, junk, k).w;
      n in db.rows && n in w0.rec && n in w.ifs && n in w.rec
      && Tagged(w0, w, n, TagAt(w0, db, since, order, junk, k, n))
  {
    hide Derive, VisitEffect, TagNext, Ready, Enumerates, LinksAfter;
    RowsCached(w0, db, since);
    if k > 0 {
      LoopTagged(w0, db, since, order, junk, k - 1, n);
      TagVisit(w0, db, since, order, junk, k, n, TagAt(w0, db, since, order, junk, k - 1, n));
    }
  }

  lemma TagVisit(w0: World, db: Db, since: nat, order: seq<Name>, junk: Buffer, k: nat, n: Name, t: Tag)
    requires InOrder(w0, db, since, order) && 0 < k <= |order|
    requires n in w0.ifs && w0.ifs[n].kind == Physical && !IsIns(db, since, n) && n in w0.rec && n in db.rows
    requires var w := StateAt(w0, db, since, order, junk, k - 1).w; n in w.ifs && n in w.rec && Tagged(w0, w, n, t)
    ensures var w := StateAt(w0, db, since, order, junk, k).w;
      n in w.ifs && n in w.rec && Tagged(w0, w, n, TagNext(w0, db, since, order, junk, k - 1, n, t))
  {
    hide Derive, VisitEffect, TagNext, Ready, Enumerates, Tagged, OwnChange, SplitFlag, CfgChanged, InputsOf, StateAt;
    VisitAt(w0, db, since, order, junk, k, n);
    SplitAt(w0, db, since, order, junk, k);
    if IsMod(db, since, order[k - 1]) { OwnVisit(w0, db, since, order, junk, k - 1); }
    TagStep(w0, StateAt(w0, db, since, order, junk, k - 1), StateAt(w0, db, since, order, junk, k), db, since, order,
            junk, k - 1, n, t);
  }

  lemma SplitAt(w0: World, db: Db, since: nat, order: seq<Name>, junk: Buffer, k: nat)
    requires InOrder(w0, db, since, order) && k <= |order|
    ensures StateAt(w0, db, since, order, junk, k).split == SplitFlag(w0, db, since, order, k)
  {
    hide Ready, Enumerates, SplitFlag, LoopTo, CacheTo;
    RowsCached(w0, db, since);
    LoopAligned(w0, db, since, order, junk, k);
    LoopCarries(w0, db, since, order, junk, k);
  }

  lemma VisitAt(w0: World, db: Db, since: nat, order: seq<Name>, junk: Buffer, k: nat, n: Name)
    requires InOrder(w0, db, since, order) && 0 < k <= |order|
    requires n in w0.ifs && w0.ifs[n].kind == Physical && !IsIns(db, since, n)
    ensures var s, s' := StateAt(w0, db, since, order, junk, k - 1), StateAt(w0, db, since, order, junk, k);
      && n in s.w.ifs && n in s.w.rec && n in s'.w.ifs && n in s'.w.rec && n in db.rows
      && order[k - 1] in db.rows && order[k - 1] in s.w.ifs
      && VisitEffect(s, s', db, since, order[k - 1], n)
  {
    hide VisitEffect, Ready, Enumerates, Visit, LinksAfter, Aligned, Families;
    VisitReady(w0, db, since, order, junk, k - 1, n);
    VisitExactly(StateAt(w0, db, since, order, junk, k - 1), db, since, order[..k - 1], order[k - 1], n);
  }

  /** The state in which the k-th interface is visited. */
  lemma VisitReady(w0: World, db: Db, since: nat, order: seq<Name>, junk: Buffer, k: nat, n: Name)
    requires InOrder(w0, db, since, order) && k < |order| && n in w0.ifs
    ensures var s := StateAt(w0, db, since, order, junk, k);
      && Aligned(s.w) && LinksAfter(s.w.ifs, db, since, order[..k]) && Families(db.rows, since)
      && n in s.w.ifs && s.w.ifs[n].kind == w0.ifs[n].kind && n in db.rows
      && order[k] in s.w.ifs && order[k] in db.rows
  {
    hide Ready, LinksAfter, Families, LoopTo, CacheTo;
    assert order[k] in order;
    RowsCached(w0, db, since);
    LoopAligned(w0, db, since, order, junk, k);
    LoopLinks(w0, db, since, order, junk, k);
    KindKept(w0, db, since, order, junk, k, n);
  }

  lemma KindKept(w0: World, db: Db, since: nat, order: seq<Name>, junk: Buffer, k: nat, n: Name)
    requires InOrder(w0, db, since, order) && k <= |order| && n in w0.ifs
    ensures var ifs := CacheAt(w0, db, since, order, junk, k).ifs; n in ifs && ifs[n].kind == w0.ifs[n].kind
  {
    LoopCache(w0, db, since, order, junk, k, n);
  }

  /* ---------- the tag at the end ---------- */

  predicate ParentModified(db: Db, since: nat, n: Name) {
    n in db.rows && db.rows[n].splitParent.Some? && IsMod(db, since, db.rows[n].splitParent.value)
  }

  /** own: its own visit found a change; parent: its parent's visit derived it; parentFirst:
      in that order, and its own visit took place. */
  function EndTag(own: bool, parent: bool, parentFirst: bool): Tag {
    if own then Derived else if parent then (if parentFirst then Overtaken else Derived) else Untouched
  }

  /** x is where the tag of n may change. */
  predicate Concerns(db: Db, since: nat, n: Name, x: Name) {
    IsMod(db, since, x) && n in db.rows && (x == n || db.rows[n].splitParent == Some(x))
  }

  lemma {:induction false} TagFlat(w0: World, db: Db, since: nat, order: seq<Name>, junk: Buffer, a: nat, b: nat,
                                   n: Name)
    requires a <= b <= |order| && n in w0.ifs && n in db.rows
    requires forall i :: a <= i < b ==> !Concerns(db, since, n, order[i])
    ensures TagAt(w0, db, since, order, junk, b, n) == TagAt(w0, db, since, order, junk, a, n)
    decreases b - a
  {
    if a < b {
      TagFlat(w0, db, since, order, junk, a, b - 1, n);
      assert !Concerns(db, since, n, order[b - 1]);
    }
  }

  /** Where n and its parent stand in the order; without a parent jp is any position. */
  predicate Stands(db: Db, order: seq<Name>, n: Name, kn: nat, jp: nat) {
    && kn < |order| && order[kn] == n && n in db.rows && jp < |order|
    && (db.rows[n].splitParent.Some? ==> order[jp] == db.rows[n].splitParent.value && jp != kn)
  }

  lemma TagEnd(w0: World, db: Db, since: nat, order: seq<Name>, junk: Buffer, n: Name, kn: nat, jp: nat)
    requires Distinct(order) && n in w0.ifs && Stands(db, order, n, kn, jp)
    ensures TagAt(w0, db, since, order, junk, |order|, n)
         == EndTag(IsMod(db, since, n) && OwnChange(w0, db, since, order, junk, kn, n),
                   ParentModified(db, since, n) && SplitFlag(w0, db, since, order, jp + 1),
                   IsMod(db, since, n) && jp < kn)
  {
    hide OwnChange, SplitFlag, IsMod;
    forall i | 0 <= i < |order| && Concerns(db, since, n, order[i])
      ensures i == kn || (ParentModified(db, since, n) && i == jp)
    {}
    var first, last := if jp < kn then jp else kn, if jp < kn then kn else jp;
    TagFlat(w0, db, since, order, junk, 0, first, n);
    TagFlat(w0, db, since, order, junk, first + 1, if last > first then last else first + 1, n);
    TagFlat(w0, db, since, order, junk, last + 1, |order|, n);
  }

  lemma Standing(w0: World, db: Db, since: nat, order: seq<Name>, n: Name) returns (kn: nat, jp: nat)
    requires InOrder(w0, db, since, order) && n in w0.ifs
    ensures Stands(db, order, n, kn, jp)
  {
    RowsCached(w0, db, since);
    assert n in order;
    kn :| 0 <= kn < |order| && order[kn] == n;
    jp := kn;
    assert FamilyOk(db.rows, since, n);
    if db.rows[n].splitParent.Some? {
      assert FamilyOk(db.rows, since, db.rows[n].splitParent.value);
      assert db.rows[n].splitParent.value in order;
      jp :| 0 <= jp < |order| && order[jp] == db.rows[n].splitParent.value;
    }
  }

  /* ---------- the cache at the end ---------- */

  function ParentLaneAfter(w0: World, db: Db, since: nat, n: Name): Option<Lane>
    requires n in db.rows
  {
    match db.rows[n].splitParent
    case None => None
    case Some(p) =>
      if IsMod(db, since, p) then Some(db.rows[p].cfg.user.lane)
      else if p in w0.ifs then Some(w0.ifs[p].user.lane) else None
  }

  /** The inputs of n when the loop is over, but for its module information. */
  function EndInputs(w0: World, db: Db, since: nat, n: Name, pm: PmInfo): Inputs
    requires n in w0.ifs && n in db.rows
  {
    var v0, merged := w0.ifs[n], IsMod(db, since, n);
    Inputs(v0.kind, if merged then RowMeaning(db, n) else Meaning(v0.user), pm,
           if merged then PortAdminOf(db.ports, n) else v0.portAdmin,
           ChildrenOf(db.rows[n]).Some?, ParentLaneAfter(w0, db, since, n), v0.hw.speeds)
  }

  ghost function EndPm(w0: World, db: Db, since: nat, order: seq<Name>, n: Name): PmInfo
    requires n in w0.ifs && n in db.rows
  {
    if IsMod(db, since, n) || IsIns(db, since, n) || Pushed(w0, db, since, order, |order|, n) then RowPm(db, n)
    else w0.ifs[n].pm
  }

  lemma InputsAtEnd(w0: World, db: Db, since: nat, order: seq<Name>, junk: Buffer, n: Name)
    requires InOrder(w0, db, since, order) && n in w0.ifs
    ensures var w := Run(w0, db, since, order, junk).w;
      n in db.rows && n in w.ifs
      && InputsOf(w.ifs, n) == EndInputs(w0, db, since, n, EndPm(w0, db, since, order, n))
  {
    hide Run, Ready, Pushed, Settled, PortAdminOf;
    RowsCached(w0, db, since);
    assert n in order && order[..|order|] == order;
    RunFacts(w0, db, since, order, junk, n);
    assert FamilyOk(db.rows, since, n);
    if db.rows[n].splitParent.Some? {
      var p := db.rows[n].splitParent.value;
      assert p in order;
      RunFacts(w0, db, since, order, junk, p);
    }
  }
}
