/** The modification loop, handle_interfaces_config_mods, over cached values:
    one visit per cached interface, in whatever order the hash yields. */
module Batch {
  import opened Base
  import opened UserConfig
  import opened Derivation
  import opened World

  /** What the loop carries from one interface to the next: the two change flags that
      are never cleared, whether rc is non-zero, and the reused parse buffer. */
  datatype LoopState = LoopState(w: World, split: bool, pm: bool, rc: bool, scratch: Buffer)

  /** intfd_process_parent_child */
  function Link(v: IfaceV, db: Db, n: Name): IfaceV
    requires n in db.rows
  {
    var r := db.rows[n];
    if r.splitParent.Some? then v.(parent := r.splitParent, pm := RowPm(db, n))
    else if r.splitChildren != [] then v.(children := ChildrenOf(r))
    else v
  }

  function Merge(v: IfaceV, db: Db, n: Name, scratch: Buffer): IfaceV
    requires n in db.rows
  {
    var r := db.rows[n];
    v.(user := ParseInto(r.cfg, scratch),
       portAdmin := PortAdminOf(db.ports, n),
       pm := RowPm(db, n))
  }

  function Children(v: IfaceV): seq<Name> { if v.children.Some? then v.children.value else [] }

  function WithIface(w: World, n: Name, v: IfaceV): World { w.(ifs := w.ifs[n := v]) }

  /** Every listed child gets the module information `pm`. */
  function PushPm(ifs: map<Name, IfaceV>, cs: seq<Name>, pm: PmInfo): (r: map<Name, IfaceV>)
    ensures r.Keys == ifs.Keys
  {
    map n | n in ifs :: if n in cs then ifs[n].(pm := pm) else ifs[n]
  }

  /* ---------- the cache, which evolves on its own ---------- */

  datatype CacheState = CacheState(ifs: map<Name, IfaceV>, split: bool, pm: bool, scratch: Buffer)

  function VisitIfs(ifs: map<Name, IfaceV>, n: Name, v1: IfaceV, push: bool, pm: PmInfo): (r: map<Name, IfaceV>)
    requires n in ifs
    ensures r.Keys == ifs.Keys
  {
    if push then PushPm(ifs[n := v1], Children(ifs[n]), pm) else ifs[n := v1]
  }

  /** What one iteration does to the cached interfaces and the carried flags. */
  function CacheVisit(c: CacheState, db: Db, since: nat, n: Name): (c': CacheState)
    ensures c'.ifs.Keys == c.ifs.Keys
  {
    if n !in c.ifs || n !in db.rows then c
    else
      var r, v := db.rows[n], c.ifs[n];
      if Inserted(r, since) then c.(ifs := c.ifs[n := Link(v, db, n)])
      else if Modified(r, since) then
        var v1 := Merge(v, db, n, c.scratch);
        var pm := c.pm || v1.pm.connector != v.pm.connector;
        var push := pm && r.splitChildren != [];
        var split := c.split || v1.user.lane != v.user.lane || push;
        CacheState(VisitIfs(c.ifs, n, v1, push, r.lane), split, pm, v1.user.speeds)
      else c
  }

  function CacheTo(c: CacheState, db: Db, since: nat, order: seq<Name>, k: nat): (c': CacheState)
    requires k <= |order|
    ensures c'.ifs.Keys == c.ifs.Keys
  {
    if k == 0 then c else CacheVisit(CacheTo(c, db, since, order, k - 1), db, since, order[k - 1])
  }

  /* ---------- the loop ---------- */

  function CacheOf(s: LoopState): CacheState { CacheState(s.w.ifs, s.split, s.pm, s.scratch) }

  /** The user configuration or module information of n differs from its row. */
  predicate CfgChanged(v: IfaceV, db: Db, n: Name, scratch: Buffer)
    requires n in db.rows
  {
    Merge(v, db, n, scratch).user != v.user || Merge(v, db, n, scratch).pm != v.pm
  }

  /** One iteration of the loop. */
  function Visit(s: LoopState, db: Db, since: nat, n: Name): LoopState {
    if n !in s.w.ifs || n !in db.rows then s
    else
      var c := CacheVisit(CacheOf(s), db, since, n);
      if Inserted(db.rows[n], since) then
        s.(w := Configure(s.w.(ifs := c.ifs), n), rc := true)
      else if Modified(db.rows[n], since) then
        var v1 := Merge(s.w.ifs[n], db, n, s.scratch);
        var changed := CfgChanged(s.w.ifs[n], db, n, s.scratch);
        LoopState(VisitWorld(s.w, n, v1, changed, c), c.split, c.pm, s.rc || changed, c.scratch)
      else s
  }

  /** A modified interface: merge, derive it if it changed, then pass its module
      information on and derive its children if the flags say so. */
  function VisitWorld(w: World, n: Name, v1: IfaceV, changed: bool, c: CacheState): (w': World)
    requires n in w.ifs
    ensures w'.ifs == c.ifs
    ensures w'.ops.Keys == w.ops.Keys && w'.rec.Keys == w.rec.Keys && w'.writes >= w.writes
  {
    var w1 := WithIface(w, n, v1);
    var w2 := if changed then Configure(w1, n) else w1;
    var w3 := w2.(ifs := c.ifs);
    if c.split then ConfigureAll(w3, Children(w.ifs[n])) else w3
  }

  /** The state after the first k interfaces of the order. */
  function LoopTo(s: LoopState, db: Db, since: nat, order: seq<Name>, k: nat): LoopState
    requires k <= |order|
  {
    if k == 0 then s else Visit(LoopTo(s, db, since, order, k - 1), db, since, order[k - 1])
  }

  function Start(w: World, junk: Buffer): LoopState { LoopState(w, false, false, false, junk) }

  function Run(w: World, db: Db, since: nat, order: seq<Name>, junk: Buffer): LoopState {
    LoopTo(Start(w, junk), db, since, order, |order|)
  }

  lemma VisitCache(s: LoopState, db: Db, since: nat, n: Name)
    ensures CacheOf(Visit(s, db, since, n)) == CacheVisit(CacheOf(s), db, since, n)
  {
  }

  lemma {:induction false} LoopCacheOf(s: LoopState, db: Db, since: nat, order: seq<Name>, k: nat)
    requires k <= |order|
    ensures CacheOf(LoopTo(s, db, since, order, k)) == CacheTo(CacheOf(s), db, since, order, k)
  {
    if k > 0 {
      LoopCacheOf(s, db, since, order, k - 1);
      VisitCache(LoopTo(s, db, since, order, k - 1), db, since, order[k - 1]);
    }
  }

  /* ---------- the situation in which the loop runs ---------- */

  predicate Linked(v: IfaceV, r: Row) { v.parent == r.splitParent && v.children == ChildrenOf(r) }

  predicate Unlinked(v: IfaceV) { v.parent == None && v.children == None }

  predicate IsIns(db: Db, since: nat, n: Name) { n in db.rows && Inserted(db.rows[n], since) }
  predicate IsMod(db: Db, since: nat, n: Name) { n in db.rows && Modified(db.rows[n], since) }

  /** Cached and database interface agree on what never changes, and the links of a
      row not inserted since the last batch are in place. */
  predicate Placed(v: IfaceV, db: Db, since: nat, n: Name)
    requires n in db.rows
  {
    var r := db.rows[n];
    && v.kind == r.kind && v.hw == r.hw
    && (if Inserted(r, since) then Unlinked(v) && (r.splitParent == None ==> v.pm == RowPm(db, n)) else Linked(v, r))
  }

  ghost predicate Ready(w: World, db: Db, since: nat) {
    && Aligned(w) && w.ifs.Keys == db.rows.Keys
    && Families(db.rows, since)
    && forall n {:trigger Placed(w.ifs[n], db, since, n)} :: n in w.ifs ==> Placed(w.ifs[n], db, since, n)
  }

  predicate ConnectorChanged(w0: World, db: Db, since: nat, n: Name) {
    IsMod(db, since, n) && n in w0.ifs && w0.ifs[n].pm.connector != RowPm(db, n).connector
  }

  /** pm_info_changed is set once the first k interfaces have been visited. */
  ghost predicate PmFlag(w0: World, db: Db, since: nat, order: seq<Name>, k: nat)
    requires k <= |order|
  {
    exists i :: 0 <= i < k && ConnectorChanged(w0, db, since, order[i])
  }

  /** By then, the parent of n has been visited with the flag already set, so it has
      handed its module information to n. */
  ghost predicate Pushed(w0: World, db: Db, since: nat, order: seq<Name>, k: nat, n: Name)
    requires k <= |order|
  {
    n in db.rows && db.rows[n].splitParent.Some?
    && exists j :: 0 <= j < k && order[j] == db.rows[n].splitParent.value
         && IsMod(db, since, order[j]) && PmFlag(w0, db, since, order, j + 1)
  }

  /** A cached interface without its links; buffers by what they mean. */
  datatype Values = Values(kind: Kind, hw: HwInfo, settings: Settings, portAdmin: AdminState, pm: PmInfo)

  function ValuesOf(v: IfaceV): Values { Values(v.kind, v.hw, Meaning(v.user), v.portAdmin, v.pm) }

  /** The cached values of interface n after k visits, told without the loop. */
  ghost function ValuesAfter(w0: World, db: Db, since: nat, order: seq<Name>, k: nat, n: Name): Values
    requires k <= |order| && n in w0.ifs && n in db.rows
  {
    var v0, seen := w0.ifs[n], n in order[..k];
    var merged := seen && IsMod(db, since, n);
    Values(v0.kind, v0.hw,
           if merged then RowMeaning(db, n) else Meaning(v0.user),
           if merged then PortAdminOf(db.ports, n) else v0.portAdmin,
           if merged || (seen && IsIns(db, since, n)) || Pushed(w0, db, since, order, k, n)
           then RowPm(db, n) else v0.pm)
  }

  ghost predicate CacheAfter(w0: World, v: IfaceV, db: Db, since: nat, order: seq<Name>, k: nat, n: Name)
    requires k <= |order| && n in w0.ifs && n in db.rows
  {
    ValuesOf(v) == ValuesAfter(w0, db, since, order, k, n)
  }

  /** How the published record of n relates to the start of the loop: derived from the
      present cache, or from it with the port state of the start, or untouched along
      with everything it depends on. */
  ghost predicate Settled(w0: World, w: World, n: Name)
    requires n in w0.ifs && n in w0.rec && n in w.ifs && n in w.rec
  {
    var i0, i := InputsOf(w0.ifs, n), InputsOf(w.ifs, n);
    || w.rec[n] == Derive(i)
    || w.rec[n] == Derive(i.(portAdmin := i0.portAdmin))
    || (w.rec[n] == w0.rec[n] && i.(portAdmin := i0.portAdmin) == i0)
  }

  /* ---------- one visit ---------- */

  /** What one visit does to the record of m: derive it, or leave it and its inputs. */
  ghost predicate StepFact(w: World, w': World, m: Name, portToo: bool)
    requires m in w.ifs && m in w.rec && m in w'.ifs && m in w'.rec
  {
    var i, i' := InputsOf(w.ifs, m), InputsOf(w'.ifs, m);
    || w'.rec[m] == Derive(i')
    || (w'.rec[m] == w.rec[m] && (i' == i || (portToo && i'.(portAdmin := i.portAdmin) == i)))
  }

  lemma SettledStep(w0: World, w: World, w': World, m: Name, portToo: bool)
    requires m in w0.ifs && m in w0.rec && m in w.ifs && m in w.rec && m in w'.ifs && m in w'.rec
    requires Settled(w0, w, m) && StepFact(w, w', m, portToo)
    requires portToo ==> w.ifs[m].portAdmin == w0.ifs[m].portAdmin
    ensures Settled(w0, w', m)
  {
    var i0, i, i' := InputsOf(w0.ifs, m), InputsOf(w.ifs, m), InputsOf(w'.ifs, m);
    if portToo && i'.(portAdmin := i.portAdmin) == i {
      assert i.(portAdmin := i0.portAdmin) == i;
      assert i'.(portAdmin := i0.portAdmin) == i;
    }
  }

  lemma InsertedStep(s: LoopState, db: Db, since: nat, n: Name, m: Name)
    requires Aligned(s.w) && s.w.ifs.Keys == db.rows.Keys && n in s.w.ifs && IsIns(db, since, n)
    requires m in s.w.ifs && s.w.ifs[m].kind == Physical
    ensures m in s.w.rec && m in Visit(s, db, since, n).w.rec
    ensures StepFact(s.w, Visit(s, db, since, n).w, m, false)
    ensures m == n ==> Fresh(Visit(s, db, since, n).w, n)
  {
    ConfigureFacts(s.w.(ifs := CacheVisit(CacheOf(s), db, since, n).ifs), n);
  }

  /** n has exactly the children that name it as their parent. */
  ghost predicate OwnChildren(ifs: map<Name, IfaceV>, n: Name)
    requires n in ifs
  {
    && ifs[n].parent != Some(n)
    && (forall m :: m in Children(ifs[n]) ==> m in ifs && m != n)
    && (forall m :: m in ifs ==> (ifs[m].parent == Some(n) <==> m in Children(ifs[n])))
  }

  /** The interface after its merge: what its row cannot change stays. */
  predicate MergeOf(v: IfaceV, v1: IfaceV, changed: bool) {
    && v1.kind == v.kind && v1.hw == v.hw && v1.parent == v.parent && v1.children == v.children
    && (!changed ==> v1.user == v.user && v1.pm == v.pm)
  }

  lemma VisitInputs(ifs: map<Name, IfaceV>, n: Name, v1: IfaceV, changed: bool, push: bool, pm: PmInfo, m: Name)
    requires n in ifs && m in ifs && OwnChildren(ifs, n) && MergeOf(ifs[n], v1, changed)
    ensures var ifs' := VisitIfs(ifs, n, v1, push, pm);
      && (m == n ==> InputsOf(ifs', m) == InputsOf(ifs[n := v1], m))
      && (m == n && !changed ==> InputsOf(ifs', m).(portAdmin := ifs[m].portAdmin) == InputsOf(ifs, m))
      && (m != n && m !in Children(ifs[n]) ==> InputsOf(ifs', m) == InputsOf(ifs, m))
      && (m in Children(ifs[n]) && !push && v1.user.lane == ifs[n].user.lane ==> InputsOf(ifs', m) == InputsOf(ifs, m))
  {
    var p := ifs[m].parent;
    if p.Some? && p.value in ifs && m !in Children(ifs[n]) {
      assert p.value != n;
      assert VisitIfs(ifs, n, v1, push, pm)[p.value].user == ifs[p.value].user;
    }
  }

  lemma VisitWorldRecord(w: World, n: Name, v1: IfaceV, changed: bool, c: CacheState, m: Name)
    requires Aligned(w) && n in w.ifs && m in w.ifs && c.ifs.Keys == w.ifs.Keys
    requires forall i :: i in w.ifs ==> c.ifs[i].kind == w.ifs[i].kind
    requires forall i :: i in Children(w.ifs[n]) ==> i in w.ifs && i != n
    ensures var w' := VisitWorld(w, n, v1, changed, c); var cs := Children(w.ifs[n]);
      && (m !in cs && (m != n || !changed) ==> w'.rec[m] == w.rec[m])
      && (m in cs && !c.split ==> w'.rec[m] == w.rec[m])
      && (m in cs && c.split && w.ifs[m].kind == Physical ==> Fresh(w', m))
      && (m == n && changed && v1.kind == Physical ==> w'.rec[n] == Derive(InputsOf(w.ifs[n := v1], n)))
  {
    var w1 := WithIface(w, n, v1);
    var w2 := if changed then Configure(w1, n) else w1;
    ConfigureFacts(w1, n);
    ConfigureAllFacts(w2.(ifs := c.ifs), Children(w.ifs[n]));
  }

  lemma VisitRecord(w: World, n: Name, v1: IfaceV, changed: bool, c: CacheState, push: bool, pm: PmInfo, m: Name)
    requires Aligned(w) && n in w.ifs && OwnChildren(w.ifs, n) && MergeOf(w.ifs[n], v1, changed)
    requires c.ifs == VisitIfs(w.ifs, n, v1, push, pm)
    requires v1.user.lane != w.ifs[n].user.lane || push ==> c.split
    requires m in w.ifs && w.ifs[m].kind == Physical
    ensures m in w.rec && StepFact(w, VisitWorld(w, n, v1, changed, c), m, m == n)
  {
    VisitWorldRecord(w, n, v1, changed, c, m);
    VisitInputs(w.ifs, n, v1, changed, push, pm, m);
  }

  /* ---------- any number of visits ---------- */

  lemma SeenStep(order: seq<Name>, k: nat, m: Name)
    requires k < |order|
    ensures m in order[..k + 1] <==> m in order[..k] || m == order[k]
  {
    assert order[..k + 1] == order[..k] + [order[k]];
  }

  lemma PushedStep(w0: World, db: Db, since: nat, order: seq<Name>, k: nat, m: Name)
    requires k < |order|
    ensures PmFlag(w0, db, since, order, k + 1)
       <==> PmFlag(w0, db, since, order, k) || ConnectorChanged(w0, db, since, order[k])
    ensures Pushed(w0, db, since, order, k + 1, m)
       <==> Pushed(w0, db, since, order, k, m)
            || (m in db.rows && db.rows[m].splitParent == Some(order[k]) && IsMod(db, since, order[k])
                && PmFlag(w0, db, since, order, k + 1))
    ensures Pushed(w0, db, since, order, k, m) ==> PmFlag(w0, db, since, order, k)
  {
  }

  /** Interface m is linked to its family, unless it is new and not visited yet. */
  predicate LinkAfter(v: IfaceV, db: Db, since: nat, seen: seq<Name>, m: Name)
    requires m in db.rows
  {
    if m in seen || !IsIns(db, since, m) then Linked(v, db.rows[m]) else Unlinked(v)
  }

  ghost predicate LinksAfter(ifs: map<Name, IfaceV>, db: Db, since: nat, seen: seq<Name>) {
    && ifs.Keys == db.rows.Keys
    && forall m {:trigger LinkAfter(ifs[m], db, since, seen, m)} :: m in ifs ==> LinkAfter(ifs[m], db, since, seen, m)
  }

  lemma FamilyHolds(ifs: map<Name, IfaceV>, db: Db, since: nat, seen: seq<Name>, n: Name)
    requires LinksAfter(ifs, db, since, seen) && Families(db.rows, since)
    requires n in ifs && !IsIns(db, since, n)
    ensures OwnChildren(ifs, n)
    ensures forall m :: m in Children(ifs[n]) ==> db.rows[m].splitParent == Some(n)
    ensures forall m :: m in ifs && db.rows[m].splitParent == Some(n) ==> m in Children(ifs[n])
    ensures Children(ifs[n]) != [] ==> db.rows[n].splitChildren != []
  {
    assert FamilyOk(db.rows, since, n);
    assert LinkAfter(ifs[n], db, since, seen, n);
    forall m | m in ifs
      ensures ifs[m].parent == Some(n) <==> m in Children(ifs[n])
      ensures m in Children(ifs[n]) <==> db.rows[m].splitParent == Some(n)
    {
      assert FamilyOk(db.rows, since, m);
      assert LinkAfter(ifs[m], db, since, seen, m);
    }
  }

  lemma VisitLinks(c: CacheState, db: Db, since: nat, n: Name, m: Name)
    requires c.ifs.Keys == db.rows.Keys && n in c.ifs && m in c.ifs
    ensures var v, v' := c.ifs[m], CacheVisit(c, db, since, n).ifs[m];
      if m == n && IsIns(db, since, n) then Unlinked(v) ==> Linked(v', db.rows[n])
      else v'.parent == v.parent && v'.children == v.children
  {
  }

  ghost predicate InOrder(w0: World, db: Db, since: nat, order: seq<Name>) {
    Ready(w0, db, since) && Enumerates(order, w0.ifs.Keys)
  }

  function CacheAt(w0: World, db: Db, since: nat, order: seq<Name>, junk: Buffer, k: nat): CacheState
    requires k <= |order|
  {
    CacheTo(CacheState(w0.ifs, false, false, junk), db, since, order, k)
  }

  lemma CacheNext(w0: World, db: Db, since: nat, order: seq<Name>, junk: Buffer, k: nat)
    requires k < |order|
    ensures CacheAt(w0, db, since, order, junk, k + 1)
         == CacheVisit(CacheAt(w0, db, since, order, junk, k), db, since, order[k])
  {
  }

  lemma LinksStep(c: CacheState, c': CacheState, db: Db, since: nat, order: seq<Name>, k: nat)
    requires k < |order| && order[k] in c.ifs && order[k] !in order[..k]
    requires c' == CacheVisit(c, db, since, order[k])
    requires LinksAfter(c.ifs, db, since, order[..k])
    ensures LinksAfter(c'.ifs, db, since, order[..k + 1])
  {
    forall m | m in c.ifs ensures LinkAfter(c'.ifs[m], db, since, order[..k + 1], m) {
      SeenStep(order, k, m);
      assert LinkAfter(c.ifs[m], db, since, order[..k], m);
      VisitLinks(c, db, since, order[k], m);
    }
  }

  lemma LinksAtStart(w0: World, db: Db, since: nat)
    requires Ready(w0, db, since)
    ensures LinksAfter(w0.ifs, db, since, [])
  {
    forall m | m in w0.ifs ensures LinkAfter(w0.ifs[m], db, since, [], m) {
      assert Placed(w0.ifs[m], db, since, m);
    }
  }

  lemma LinksNext(w0: World, db: Db, since: nat, order: seq<Name>, junk: Buffer, k: nat)
    requires Enumerates(order, w0.ifs.Keys) && 0 < k <= |order|
    requires LinksAfter(CacheAt(w0, db, since, order, junk, k - 1).ifs, db, since, order[..k - 1])
    ensures LinksAfter(CacheAt(w0, db, since, order, junk, k).ifs, db, since, order[..k])
  {
    assert order[k - 1] in order && order[k - 1] !in order[..k - 1];
    CacheNext(w0, db, since, order, junk, k - 1);
    LinksStep(CacheAt(w0, db, since, order, junk, k - 1), CacheAt(w0, db, since, order, junk, k), db, since, order,
              k - 1);
  }

  lemma {:induction false} LinksFrom(w0: World, db: Db, since: nat, order: seq<Name>, junk: Buffer, k: nat)
    requires Enumerates(order, w0.ifs.Keys) && LinksAfter(w0.ifs, db, since, []) && k <= |order|
    ensures LinksAfter(CacheAt(w0, db, since, order, junk, k).ifs, db, since, order[..k])
  {
    if k == 0 {
      assert order[..k] == [];
    } else {
      LinksFrom(w0, db, since, order, junk, k - 1);
      LinksNext(w0, db, since, order, junk, k);
    }
  }

  lemma LoopLinks(w0: World, db: Db, since: nat, order: seq<Name>, junk: Buffer, k: nat)
    requires InOrder(w0, db, since, order) && k <= |order|
    ensures LinksAfter(CacheAt(w0, db, since, order, junk, k).ifs, db, since, order[..k])
  {
    LinksAtStart(w0, db, since);
    LinksFrom(w0, db, since, order, junk, k);
  }

  lemma FlagStep(w0: World, c: CacheState, c': CacheState, db: Db, since: nat, order: seq<Name>, k: nat)
    requires k < |order| && order[k] in w0.ifs && order[k] in db.rows && order[k] !in order[..k]
    requires c' == CacheVisit(c, db, since, order[k])
    requires c.pm == PmFlag(w0, db, since, order, k)
    requires order[k] in c.ifs && CacheAfter(w0, c.ifs[order[k]], db, since, order, k, order[k])
    ensures c'.pm == PmFlag(w0, db, since, order, k + 1)
  {
    PushedStep(w0, db, since, order, k, order[k]);
  }

  /** The flag pm_info_changed after k visits. */
  lemma {:induction false} LoopFlag(w0: World, db: Db, since: nat, order: seq<Name>, junk: Buffer, k: nat)
    requires InOrder(w0, db, since, order) && k <= |order|
    ensures CacheAt(w0, db, since, order, junk, k).pm == PmFlag(w0, db, since, order, k)
    decreases k, 0
  {
    if k > 0 {
      assert order[k - 1] in order && order[k - 1] !in order[..k - 1];
      LoopFlag(w0, db, since, order, junk, k - 1);
      LoopCache(w0, db, since, order, junk, k - 1, order[k - 1]);
      CacheNext(w0, db, since, order, junk, k - 1);
      FlagStep(w0, CacheAt(w0, db, since, order, junk, k - 1), CacheAt(w0, db, since, order, junk, k),
               db, since, order, k - 1);
    }
  }

  lemma CacheAfterNone(w0: World, db: Db, since: nat, order: seq<Name>, junk: Buffer, k: nat, m: Name)
    requires k == 0 && m in w0.ifs && m in db.rows
    ensures CacheAfter(w0, CacheAt(w0, db, since, order, junk, k).ifs[m], db, since, order, k, m)
  {
    assert CacheAt(w0, db, since, order, junk, k).ifs == w0.ifs;
  }

  lemma CacheAfterNext(w0: World, db: Db, since: nat, order: seq<Name>, junk: Buffer, k: nat, m: Name)
    requires InOrder(w0, db, since, order) && 0 < k <= |order| && m in w0.ifs
    requires LinksAfter(CacheAt(w0, db, since, order, junk, k - 1).ifs, db, since, order[..k - 1])
    requires CacheAfter(w0, CacheAt(w0, db, since, order, junk, k - 1).ifs[m], db, since, order, k - 1, m)
    requires CacheAt(w0, db, since, order, junk, k).pm == PmFlag(w0, db, since, order, k)
    ensures CacheAfter(w0, CacheAt(w0, db, since, order, junk, k).ifs[m], db, since, order, k, m)
  {
    assert order[k - 1] in order;
    CacheNext(w0, db, since, order, junk, k - 1);
    CacheStep(w0, CacheAt(w0, db, since, order, junk, k - 1), CacheAt(w0, db, since, order, junk, k),
              db, since, order, k - 1, m);
  }

  /** The cached values of m after k visits. */
  lemma {:induction false} LoopCache(w0: World, db: Db, since: nat, order: seq<Name>, junk: Buffer, k: nat, m: Name)
    requires InOrder(w0, db, since, order) && k <= |order| && m in w0.ifs
    ensures CacheAfter(w0, CacheAt(w0, db, since, order, junk, k).ifs[m], db, since, order, k, m)
    decreases k, 1
  {
    if k == 0 {
      CacheAfterNone(w0, db, since, order, junk, k, m);
    } else {
      LoopLinks(w0, db, since, order, junk, k - 1);
      LoopCache(w0, db, since, order, junk, k - 1, m);
      LoopFlag(w0, db, since, order, junk, k);
      CacheAfterNext(w0, db, since, order, junk, k, m);
    }
  }

  lemma CacheStep(w0: World, c: CacheState, c': CacheState, db: Db, since: nat, order: seq<Name>, k: nat, m: Name)
    requires Ready(w0, db, since) && k < |order| && LinksAfter(c.ifs, db, since, order[..k])
    requires order[k] in w0.ifs && m in w0.ifs && CacheAfter(w0, c.ifs[m], db, since, order, k, m)
    requires c' == CacheVisit(c, db, since, order[k])
    requires c'.pm == PmFlag(w0, db, since, order, k + 1)
    ensures CacheAfter(w0, c'.ifs[m], db, since, order, k + 1, m)
  {
    if IsMod(db, since, order[k]) {
      CacheStepModified(w0, c, c', db, since, order, k, m);
    } else {
      CacheStepOther(w0, c, c', db, since, order, k, m);
    }
  }

  lemma CacheStepOther(w0: World, c: CacheState, c': CacheState, db: Db, since: nat, order: seq<Name>, k: nat, m: Name)
    requires Ready(w0, db, since) && k < |order| && c.ifs.Keys == db.rows.Keys
    requires order[k] in w0.ifs && m in w0.ifs && CacheAfter(w0, c.ifs[m], db, since, order, k, m)
    requires c' == CacheVisit(c, db, since, order[k]) && !IsMod(db, since, order[k])
    ensures CacheAfter(w0, c'.ifs[m], db, since, order, k + 1, m)
  {
    SeenStep(order, k, m);
    PushedStep(w0, db, since, order, k, m);
    assert Placed(w0.ifs[m], db, since, m);
    assert FamilyOk(db.rows, since, m);
  }

  lemma CacheStepModified(w0: World, c: CacheState, c': CacheState, db: Db, since: nat, order: seq<Name>, k: nat,
                          m: Name)
    requires Ready(w0, db, since) && k < |order| && LinksAfter(c.ifs, db, since, order[..k])
    requires order[k] in w0.ifs && m in w0.ifs && CacheAfter(w0, c.ifs[m], db, since, order, k, m)
    requires c' == CacheVisit(c, db, since, order[k]) && IsMod(db, since, order[k])
    requires c'.pm == PmFlag(w0, db, since, order, k + 1)
    ensures CacheAfter(w0, c'.ifs[m], db, since, order, k + 1, m)
  {
    SeenStep(order, k, m);
    PushedStep(w0, db, since, order, k, m);
    FamilyHolds(c.ifs, db, since, order[..k], order[k]);
    ParseMeaning(db.rows[order[k]].cfg, c.scratch);
  }

  /* ---------- the published records ---------- */

  function StateAt(w0: World, db: Db, since: nat, order: seq<Name>, junk: Buffer, k: nat): LoopState
    requires k <= |order|
  {
    LoopTo(Start(w0, junk), db, since, order, k)
  }

  lemma {:induction false} LoopAligned(w0: World, db: Db, since: nat, order: seq<Name>, junk: Buffer, k: nat)
    requires Aligned(w0) && k <= |order|
    ensures var s := StateAt(w0, db, since, order, junk, k);
      && Aligned(s.w) && s.w.ifs.Keys == w0.ifs.Keys
      && CacheOf(s) == CacheAt(w0, db, since, order, junk, k)
  {
    LoopCacheOf(Start(w0, junk), db, since, order, k);
    if k > 0 {
      LoopAligned(w0, db, since, order, junk, k - 1);
    }
  }

  /** One visit and the record of m, once the cache is known. */
  lemma RecordStep(s: LoopState, db: Db, since: nat, seen: seq<Name>, n: Name, m: Name)
    requires Aligned(s.w) && LinksAfter(s.w.ifs, db, since, seen) && Families(db.rows, since)
    requires n in s.w.ifs && m in s.w.ifs && s.w.ifs[m].kind == Physical
    ensures m in s.w.rec && m in Visit(s, db, since, n).w.ifs && m in Visit(s, db, since, n).w.rec
    ensures StepFact(s.w, Visit(s, db, since, n).w, m, m == n && IsMod(db, since, n))
    ensures m == n && IsIns(db, since, n) ==> Fresh(Visit(s, db, since, n).w, n)
  {
    if IsIns(db, since, n) {
      InsertedStep(s, db, since, n, m);
    } else if IsMod(db, since, n) {
      FamilyHolds(s.w.ifs, db, since, seen, n);
      var c := CacheVisit(CacheOf(s), db, since, n);
      VisitRecord(s.w, n, Merge(s.w.ifs[n], db, n, s.scratch), CfgChanged(s.w.ifs[n], db, n, s.scratch), c,
                  c.pm && db.rows[n].splitChildren != [], db.rows[n].lane, m);
    }
  }

  lemma StateRecordStep(w0: World, db: Db, since: nat, order: seq<Name>, junk: Buffer, k: nat, m: Name)
    requires InOrder(w0, db, since, order) && 0 < k <= |order|
    requires m in w0.ifs && w0.ifs[m].kind == Physical
    ensures var s, s' := StateAt(w0, db, since, order, junk, k - 1), StateAt(w0, db, since, order, junk, k);
      var n := order[k - 1];
      && m in s.w.ifs && m in s.w.rec && m in s'.w.ifs && m in s'.w.rec
      && StepFact(s.w, s'.w, m, m == n && IsMod(db, since, n))
      && (m == n && IsIns(db, since, n) ==> Fresh(s'.w, n))
      && (m == n ==> s.w.ifs[m].portAdmin == w0.ifs[m].portAdmin)
  {
    var s, n := StateAt(w0, db, since, order, junk, k - 1), order[k - 1];
    assert n in order && n !in order[..k - 1];
    LoopAligned(w0, db, since, order, junk, k - 1);
    LoopLinks(w0, db, since, order, junk, k - 1);
    LoopCache(w0, db, since, order, junk, k - 1, m);
    RecordStep(s, db, since, order[..k - 1], n, m);
  }

  lemma ReadyIsAligned(w: World, db: Db, since: nat)
    requires Ready(w, db, since)
    ensures Aligned(w) && Families(db.rows, since)
  {
  }

  lemma SettledAtFirst(w: World, w': World, n: Name)
    requires n in w.ifs && n in w.rec && n in w'.ifs && n in w'.rec && (w' == w || Fresh(w', n))
    ensures Settled(w, w', n)
  {
  }

  lemma StepSettled(w0: World, db: Db, since: nat, order: seq<Name>, junk: Buffer, k: nat, m: Name)
    requires InOrder(w0, db, since, order) && 0 < k <= |order|
    requires m in w0.ifs && m in w0.rec && w0.ifs[m].kind == Physical
    requires var s := StateAt(w0, db, since, order, junk, k - 1);
      m in s.w.ifs && m in s.w.rec && Settled(w0, s.w, m)
    ensures var s := StateAt(w0, db, since, order, junk, k);
      m in s.w.ifs && m in s.w.rec && Settled(w0, s.w, m)
  {
    hide StepFact, Settled, Ready, Enumerates, Fresh, StateAt;
    StateRecordStep(w0, db, since, order, junk, k, m);
    SettledStep(w0, StateAt(w0, db, since, order, junk, k - 1).w, StateAt(w0, db, since, order, junk, k).w, m,
                m == order[k - 1] && IsMod(db, since, order[k - 1]));
  }

  /** Loop invariant on records: whatever has been settled once stays settled. */
  lemma {:induction false} LoopSettled(w0: World, db: Db, since: nat, order: seq<Name>, junk: Buffer, k: nat, m: Name)
    requires InOrder(w0, db, since, order) && k <= |order|
    requires m in w0.ifs && w0.ifs[m].kind == Physical && (IsIns(db, since, m) ==> m in order[..k])
    ensures var s := StateAt(w0, db, since, order, junk, k);
      m in w0.rec && m in s.w.ifs && m in s.w.rec && Settled(w0, s.w, m)
  {
    hide StepFact, Settled, Ready, Enumerates, Fresh, StateAt;
    ReadyIsAligned(w0, db, since);
    StateAtFirst(w0, db, since, order, junk);
    if k == 0 {
      SettledAtFirst(w0, w0, m);
    } else {
      SeenStep(order, k - 1, m);
      StateRecordStep(w0, db, since, order, junk, k, m);
      if m == order[k - 1] && IsIns(db, since, m) {
        SettledAtFirst(w0, StateAt(w0, db, since, order, junk, k).w, m);
      } else {
        LoopSettled(w0, db, since, order, junk, k - 1, m);
        StepSettled(w0, db, since, order, junk, k, m);
      }
    }
  }

  lemma StateAtFirst(w0: World, db: Db, since: nat, order: seq<Name>, junk: Buffer)
    ensures StateAt(w0, db, since, order, junk, 0).w == w0
  {
  }
}
