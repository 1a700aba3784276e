/** What the forwarding arbiter computes for one interface, told without its list walk. */
module ArbiterSpec {
  import opened Base
  import opened Derivation

  /** The columns the arbiter and its protocols look at. */
  datatype IfRow = IfRow(hw: HwConfig, bond: Option<string>)

  /** A protocol: its id, whether it has a run callback, and its view, if it has one. */
  datatype ProtoV = ProtoV(id: nat, runs: bool, view: Option<IfRow -> bool>)

  datatype LayerV = LayerV(id: nat, protos: seq<ProtoV>)

  /** The keys of the forwarding_state map: the overall one, a layer's own two, others'. */
  datatype FwdKey = Overall | LayerKey(layer: nat) | OwnerKey(layer: nat) | OtherKey(name: string)

  /** Its values: "true" or "false", the name of a protocol, other text. */
  datatype FwdVal = Flag(on: bool) | ProtoName(id: nat) | OtherText(text: string)

  type FwdMap = map<FwdKey, FwdVal>

  predicate OperUp(row: IfRow) { IsEnabled(row.hw) }

  predicate Blocks(p: ProtoV, row: IfRow) { p.runs && p.view.Some? && p.view.value(row) }

  /** The number of protocols ahead of the first one that blocks. */
  function Quiet(ps: seq<ProtoV>, row: IfRow): (k: nat)
    ensures k <= |ps|
    ensures forall i :: 0 <= i < k ==> !Blocks(ps[i], row)
    ensures k < |ps| ==> Blocks(ps[k], row)
  {
    if ps == [] || Blocks(ps[0], row) then 0 else 1 + Quiet(ps[1..], row)
  }

  /** The first protocol that blocks, told by recursion along the list. */
  function Blocker(ps: seq<ProtoV>, row: IfRow): Option<nat> {
    if ps == [] then None else if Blocks(ps[0], row) then Some(ps[0].id) else Blocker(ps[1..], row)
  }

  lemma {:induction false} BlockerIsFirst(ps: seq<ProtoV>, row: IfRow)
    ensures Blocker(ps, row) == if Quiet(ps, row) < |ps| then Some(ps[Quiet(ps, row)].id) else None
  {
    if ps != [] && !Blocks(ps[0], row) { BlockerIsFirst(ps[1..], row); }
  }

  predicate LayerBlocks(l: LayerV, row: IfRow) { Quiet(l.protos, row) < |l.protos| }

  /** The number of layers ahead of the first one some protocol blocks. */
  function OpenLayers(ls: seq<LayerV>, row: IfRow): (k: nat)
    ensures k <= |ls|
    ensures forall i :: 0 <= i < k ==> !LayerBlocks(ls[i], row)
    ensures k < |ls| ==> LayerBlocks(ls[k], row)
  {
    if ls == [] || LayerBlocks(ls[0], row) then 0 else 1 + OpenLayers(ls[1..], row)
  }

  /** What a layer has to say: it forwards, a protocol blocks it, or it has no say
      because the interface is down or an earlier layer is blocked. */
  datatype Verdict = Forwards | BlockedBy(id: nat) | Silent

  function VerdictAt(ls: seq<LayerV>, row: IfRow, i: nat): Verdict
    requires i < |ls|
  {
    if !OperUp(row) || OpenLayers(ls, row) < i then Silent
    else if OpenLayers(ls, row) == i then BlockedBy(ls[i].protos[Quiet(ls[i].protos, row)].id)
    else Forwards
  }

  function WriteLayer(m: FwdMap, l: LayerV, v: Verdict): FwdMap {
    match v
    case Forwards => m[LayerKey(l.id) := Flag(true)] - {OwnerKey(l.id)}
    case BlockedBy(id) => m[LayerKey(l.id) := Flag(false)][OwnerKey(l.id) := ProtoName(id)]
    case Silent => m - {LayerKey(l.id)} - {OwnerKey(l.id)}
  }

  function Verdicts(ls: seq<LayerV>, row: IfRow): (r: seq<Verdict>)
    ensures |r| == |ls| && forall i :: 0 <= i < |ls| ==> r[i] == VerdictAt(ls, row, i)
  {
    seq(|ls|, i requires 0 <= i < |ls| => VerdictAt(ls, row, i))
  }

  function WriteLayers(m: FwdMap, ls: seq<LayerV>, vd: seq<Verdict>, k: nat): FwdMap
    requires k <= |ls| == |vd|
  {
    if k == 0 then m else WriteLayer(WriteLayers(m, ls, vd, k - 1), ls[k - 1], vd[k - 1])
  }

  predicate Passes(vd: seq<Verdict>) { vd == [] || vd[|vd| - 1] == Forwards }

  function WriteAll(m: FwdMap, ls: seq<LayerV>, vd: seq<Verdict>): FwdMap
    requires |ls| == |vd|
  {
    WriteLayers(m, ls, vd, |ls|)[Overall := Flag(Passes(vd))]
  }

  function Forwarding(m: FwdMap, ls: seq<LayerV>, row: IfRow): FwdMap {
    WriteAll(m, ls, Verdicts(ls, row))
  }

  /* ---------- what the result says ---------- */

  ghost predicate OwnKey(ls: seq<LayerV>, x: FwdKey) {
    x == Overall || exists i :: 0 <= i < |ls| && (x == LayerKey(ls[i].id) || x == OwnerKey(ls[i].id))
  }

  /** No two layers share their keys. */
  ghost predicate KeysApart(ls: seq<LayerV>) {
    forall i, j {:trigger ls[i].id, ls[j].id} :: 0 <= i < j < |ls| ==> ls[i].id != ls[j].id
  }

  /** The two keys of a layer show its verdict. */
  predicate Shows(m: FwdMap, l: LayerV, v: Verdict) {
    match v
    case Forwards => LayerKey(l.id) in m && m[LayerKey(l.id)] == Flag(true) && OwnerKey(l.id) !in m
    case BlockedBy(id) => LayerKey(l.id) in m && m[LayerKey(l.id)] == Flag(false)
                          && OwnerKey(l.id) in m && m[OwnerKey(l.id)] == ProtoName(id)
    case Silent => LayerKey(l.id) !in m && OwnerKey(l.id) !in m
  }

  lemma WriteShows(m: FwdMap, l: LayerV, v: Verdict)
    ensures Shows(WriteLayer(m, l, v), l, v)
  {
  }

  lemma WriteElsewhere(m: FwdMap, l: LayerV, v: Verdict, o: LayerV, w: Verdict)
    requires Shows(m, o, w)
    requires l.id != o.id
    ensures Shows(WriteLayer(m, l, v), o, w)
  {
  }

  lemma {:induction false} LayersShown(m: FwdMap, ls: seq<LayerV>, vd: seq<Verdict>, k: nat, i: nat)
    requires i < k <= |ls| == |vd| && KeysApart(ls)
    ensures Shows(WriteLayers(m, ls, vd, k), ls[i], vd[i])
  {
    var before := WriteLayers(m, ls, vd, k - 1);
    if i < k - 1 {
      LayersShown(m, ls, vd, k - 1, i);
      WriteElsewhere(before, ls[k - 1], vd[k - 1], ls[i], vd[i]);
    } else {
      WriteShows(before, ls[i], vd[i]);
    }
  }

  lemma {:induction false} OthersKept(m: FwdMap, ls: seq<LayerV>, vd: seq<Verdict>, k: nat, x: FwdKey)
    requires k <= |ls| == |vd| && !OwnKey(ls, x)
    ensures var m' := WriteLayers(m, ls, vd, k);
      (x in m' <==> x in m) && (x in m ==> m'[x] == m[x])
  {
    if k > 0 {
      OthersKept(m, ls, vd, k - 1, x);
    }
  }

  /** Every layer's keys show its verdict, the overall key is false exactly when some
      layer does not forward, and keys of others are not touched. */
  lemma ForwardingMeaning(m: FwdMap, ls: seq<LayerV>, row: IfRow)
    requires KeysApart(ls)
    ensures var m' := Forwarding(m, ls, row);
      && (forall i :: 0 <= i < |ls| ==> Shows(m', ls[i], VerdictAt(ls, row, i)))
      && Overall in m'
      && m'[Overall] == Flag(!exists i :: 0 <= i < |ls| && VerdictAt(ls, row, i) != Forwards)
      && (forall x :: !OwnKey(ls, x) ==> (x in m' <==> x in m) && (x in m ==> m'[x] == m[x]))
  {
    var m', vd := Forwarding(m, ls, row), Verdicts(ls, row);
    forall i | 0 <= i < |ls| ensures Shows(m', ls[i], VerdictAt(ls, row, i)) {
      LayersShown(m, ls, vd, |ls|, i);
    }
    forall x | !OwnKey(ls, x) ensures (x in m' <==> x in m) && (x in m ==> m'[x] == m[x]) {
      OthersKept(m, ls, vd, |ls|, x);
    }
    if !Passes(vd) { assert VerdictAt(ls, row, |ls| - 1) != Forwards; }
  }

  /** Layers ahead of the first blocked one forward, that one names the earliest blocking
      protocol, later ones are silent; so at most one layer has an owner. */
  lemma VerdictShape(ls: seq<LayerV>, row: IfRow, i: nat, j: nat)
    requires i < j < |ls|
    ensures VerdictAt(ls, row, i).BlockedBy? ==> VerdictAt(ls, row, j) == Silent
    ensures VerdictAt(ls, row, i) == Silent ==> VerdictAt(ls, row, j) == Silent
    ensures OperUp(row) ==>
      (VerdictAt(ls, row, i) == Forwards <==> forall k :: 0 <= k <= i ==> !LayerBlocks(ls[k], row))
  {
  }

  /** The j-th protocol has a run callback and a view that says no, and nobody ahead of it. */
  ghost predicate FirstToBlock(ps: seq<ProtoV>, row: IfRow, j: nat) {
    && j < |ps| && SaysNo(ps[j], row) && forall k :: 0 <= k < j ==> !SaysNo(ps[k], row)
  }

  predicate SaysNo(p: ProtoV, row: IfRow) {
    p.runs && match p.view case None => false case Some(view) => view(row)
  }

  /** Some protocol of the layer says no. */
  ghost predicate Vetoed(l: LayerV, row: IfRow) { exists p :: p in l.protos && SaysNo(p, row) }

  lemma VetoedExactly(l: LayerV, row: IfRow)
    ensures Vetoed(l, row) <==> LayerBlocks(l, row)
    ensures LayerBlocks(l, row) ==> FirstToBlock(l.protos, row, Quiet(l.protos, row))
  {
    forall p ensures SaysNo(p, row) <==> Blocks(p, row) {}
    var k := Quiet(l.protos, row);
    if k < |l.protos| { assert l.protos[k] in l.protos; }
    forall p | p in l.protos && SaysNo(p, row) ensures k < |l.protos| {
      var i :| 0 <= i < |l.protos| && l.protos[i] == p;
    }
  }

  /** What each layer says, in terms of the protocols' views: silent below a disabled
      interface or behind a vetoed layer, otherwise blocked by the first protocol to say
      no, or forwarding. */
  lemma VerdictExactly(ls: seq<LayerV>, row: IfRow, i: nat)
    requires i < |ls|
    ensures var v := VerdictAt(ls, row, i);
      && (v == Silent <==> !IsEnabled(row.hw) || exists k :: 0 <= k < i && Vetoed(ls[k], row))
      && (v.BlockedBy? ==> exists j: nat :: FirstToBlock(ls[i].protos, row, j) && ls[i].protos[j].id == v.id)
      && (v.BlockedBy? ==> Vetoed(ls[i], row))
      && (v == Forwards ==> !Vetoed(ls[i], row))
  {
    forall l ensures Vetoed(l, row) <==> LayerBlocks(l, row) { VetoedExactly(l, row); }
    VetoedExactly(ls[i], row);
    if OpenLayers(ls, row) < i { assert Vetoed(ls[OpenLayers(ls, row)], row); }
  }

  predicate PassesTraffic(m: FwdMap) { Overall in m && m[Overall] == Flag(true) }

  /** An interface forwards if and only if it is enabled and no protocol of any layer says no;
      without layers it always does. */
  lemma ForwardsExactly(m: FwdMap, ls: seq<LayerV>, row: IfRow)
    requires KeysApart(ls)
    ensures PassesTraffic(Forwarding(m, ls, row)) <==>
      ls == [] || (IsEnabled(row.hw) && forall l :: l in ls ==> !Vetoed(l, row))
  {
    ForwardingMeaning(m, ls, row);
    forall i | 0 <= i < |ls|
      ensures VerdictAt(ls, row, i) == Forwards <==>
        IsEnabled(row.hw) && forall k :: 0 <= k <= i ==> !Vetoed(ls[k], row)
    {
      VerdictExactly(ls, row, i);
    }
    if ls != [] {
      forall l | l in ls && Vetoed(l, row) ensures !PassesTraffic(Forwarding(m, ls, row)) {
        var i :| 0 <= i < |ls| && ls[i] == l;
        assert VerdictAt(ls, row, i) != Forwards;
      }
      assert VerdictAt(ls, row, 0) == Forwards ==> IsEnabled(row.hw);
    }
  }

  /** Running again on the map already written changes nothing. */
  lemma {:induction false} WriteAgain(m: FwdMap, ls: seq<LayerV>, vd: seq<Verdict>, k: nat)
    requires k <= |ls| == |vd|
    requires forall i :: 0 <= i < |ls| ==> Shows(m, ls[i], vd[i])
    ensures WriteLayers(m, ls, vd, k) == m
  {
    if k > 0 {
      WriteAgain(m, ls, vd, k - 1);
      assert Shows(m, ls[k - 1], vd[k - 1]);
    }
  }

  lemma Quiescent(m: FwdMap, ls: seq<LayerV>, row: IfRow)
    requires KeysApart(ls)
    ensures Forwarding(Forwarding(m, ls, row), ls, row) == Forwarding(m, ls, row)
  {
    ForwardingMeaning(m, ls, row);
    WriteAgain(Forwarding(m, ls, row), ls, Verdicts(ls, row), |ls|);
  }

  /* ---------- stopping at the first blocking protocol ---------- */

  datatype LayerState = LayerState(blocked: bool, owner: Option<nat>)

  /** intfd_arbiter_proto_run as a step of the layer's state. */
  function ProtoStep(s: LayerState, p: ProtoV, row: IfRow): LayerState {
    if !p.runs then s
    else if Blocks(p, row) then
      if s.blocked && s.owner.Some? && s.owner.value <= p.id then s else LayerState(true, Some(p.id))
    else if s.blocked && s.owner == Some(p.id) then LayerState(false, None)
    else s
  }

  /** What the flow chart of the design asks for: every protocol has its turn. */
  function RunEvery(ps: seq<ProtoV>, s: LayerState, row: IfRow): LayerState {
    if ps == [] then s else RunEvery(ps[1..], ProtoStep(s, ps[0], row), row)
  }

  ghost predicate Rising(ps: seq<ProtoV>) {
    forall i, j {:trigger ps[i].id, ps[j].id} :: 0 <= i < j < |ps| ==> ps[i].id < ps[j].id
  }

  lemma {:induction false} OwnerStays(ps: seq<ProtoV>, s: LayerState, row: IfRow)
    requires s.blocked && s.owner.Some? && forall i :: 0 <= i < |ps| ==> s.owner.value < ps[i].id
    ensures RunEvery(ps, s, row) == s
  {
    if ps != [] { OwnerStays(ps[1..], s, row); }
  }

  /** Going on after the first blocking protocol would change nothing, whatever state an
      earlier interface left: the owner is that protocol either way, and without one no
      owner survives. */
  lemma {:induction false} FirstBlockerIsEnough(ps: seq<ProtoV>, s: LayerState, row: IfRow)
    requires Rising(ps)
    requires s.owner.Some? ==> s.blocked && exists i :: 0 <= i < |ps| && ps[i].runs && ps[i].id == s.owner.value
    ensures var b := Blocker(ps, row); var t := RunEvery(ps, s, row);
      if b.Some? then t == LayerState(true, b) else t.owner == None
  {
    if ps != [] {
      var s1 := ProtoStep(s, ps[0], row);
      forall i | 0 < i < |ps| ensures ps[0].id < ps[i].id {}
      if Blocks(ps[0], row) {
        OwnerStays(ps[1..], s1, row);
      } else {
        if s1.owner.Some? {
          var i :| 0 <= i < |ps| && ps[i].runs && ps[i].id == s.owner.value;
          assert ps[1..][i - 1] == ps[i];
        }
        FirstBlockerIsEnough(ps[1..], s1, row);
      }
    }
  }

  /* ---------- the layer the repository registers ---------- */

  const BOND_UP := "up"

  /** intfd_arbiter_lacp_state */
  function LacpBlocks(row: IfRow): bool { row.bond.Some? && row.bond.value != BOND_UP }

  const LACP_ID: nat := 0
  const AGGREGATION_ID: nat := 0

  function Aggregation(): LayerV {
    LayerV(AGGREGATION_ID, [ProtoV(LACP_ID, true, Some(LacpBlocks))])
  }

  lemma LacpVetoes(row: IfRow)
    ensures Vetoed(Aggregation(), row) <==> row.bond.Some? && row.bond.value != "up"
  {
    var p := Aggregation().protos[0];
    assert SaysNo(p, row) <==> row.bond.Some? && row.bond.value != "up";
    assert p in Aggregation().protos;
  }

  /** As the repository registers them: an interface forwards if and only if it is enabled
      and has no bond status, or the status up. Otherwise its layer names LACP as the
      owner, unless it is disabled, when the layer says nothing. */
  lemma AggregationForwards(m: FwdMap, row: IfRow)
    ensures var m' := Forwarding(m, [Aggregation()], row);
      var bonded := row.bond.Some? && row.bond.value != "up";
      && (PassesTraffic(m') <==> IsEnabled(row.hw) && !bonded)
      && (OwnerKey(AGGREGATION_ID) in m' <==> IsEnabled(row.hw) && bonded)
      && (OwnerKey(AGGREGATION_ID) in m' ==> m'[OwnerKey(AGGREGATION_ID)] == ProtoName(LACP_ID))
      && (LayerKey(AGGREGATION_ID) in m' <==> IsEnabled(row.hw))
  {
    hide Forwarding, VerdictAt, Vetoed;
    var ls := [Aggregation()];
    ForwardingMeaning(m, ls, row);
    ForwardsExactly(m, ls, row);
    VerdictExactly(ls, row, 0);
    LacpVetoes(row);
    var v := VerdictAt(ls, row, 0);
    assert Shows(Forwarding(m, ls, row), ls[0], v);
    if v.BlockedBy? {
      var j: nat :| FirstToBlock(ls[0].protos, row, j) && ls[0].protos[j].id == v.id;
      assert j == 0;
    }
  }

  /** With a layer registered, only enabled interfaces forward; with aggregation among
      them, only those whose bond status is absent or up. */
  lemma ForwardingMeansUp(m: FwdMap, ls: seq<LayerV>, row: IfRow)
    requires ls != [] && KeysApart(ls)
    requires PassesTraffic(Forwarding(m, ls, row))
    ensures IsEnabled(row.hw)
    ensures Aggregation() in ls ==> row.bond == None || row.bond == Some(BOND_UP)
  {
    ForwardingMeaning(m, ls, row);
    assert VerdictAt(ls, row, |ls| - 1) == Forwards;
    if Aggregation() in ls {
      var i :| 0 <= i < |ls| && ls[i] == Aggregation();
      assert !LayerBlocks(ls[i], row);
      assert !Blocks(ls[i].protos[0], row);
    }
  }

  /** Without any layer every interface forwards, even a disabled one. */
  lemma NoLayersForwardAll(m: FwdMap, row: IfRow)
    ensures Forwarding(m, [], row) == m[Overall := Flag(true)]
  {
  }
}
