/** The arbiter's linked lists of layers and protocols, and the walks over them. */
module Arbiter {
  import opened Base
  import opened ArbiterSpec

  class Proto {
    const id: nat
    const runs: bool
    const view: Option<IfRow -> bool>
    var next: Proto?

    constructor (id: nat, runs: bool, view: Option<IfRow -> bool>)
      ensures this.id == id && this.runs == runs && this.view == view && next == null
    {
      this.id := id;
      this.runs := runs;
      this.view := view;
      next := null;
    }

    function View(): ProtoV { ProtoV(id, runs, view) }
  }

  /** PROTO_NONE, here None, ranks after every protocol. */
  predicate Precedes(id: nat, owner: Option<nat>) { owner == None || id < owner.value }

  /** From node on the list holds exactly ps, by increasing id, and then ends. */
  ghost predicate ProtoChain(node: Proto?, ps: seq<Proto>, footprint: set<Proto>)
    reads footprint`next
  {
    if ps == [] then node == null
    else
      && node == ps[0] && node in footprint
      && (|ps| > 1 ==> node.id < ps[1].id)
      && ProtoChain(node.next, ps[1..], footprint)
  }

  /** The ids of the protocols that have a run callback. */
  function RunIds(ps: seq<Proto>): set<nat> {
    if ps == [] then {} else RunIds(ps[1..]) + if ps[0].runs then {ps[0].id} else {}
  }

  function Views(ps: seq<Proto>): (r: seq<ProtoV>)
    ensures |r| == |ps|
  {
    if ps == [] then [] else [ps[0].View()] + Views(ps[1..])
  }

  ghost function ProtoAt(ps: seq<Proto>, i: nat): Proto? { if i < |ps| then ps[i] else null }

  /** The list told node by node. */
  ghost predicate ProtoLinks(ps: seq<Proto>, footprint: set<Proto>)
    reads footprint`next
  {
    && (forall i :: 0 <= i < |ps| ==> ps[i] in footprint)
    && (forall i {:trigger ps[i].next} :: 0 <= i < |ps| ==> ps[i].next == ProtoAt(ps, i + 1))
    && (forall i, j {:trigger ps[i].id, ps[j].id} :: 0 <= i < j < |ps| ==> ps[i].id < ps[j].id)
  }

  lemma {:induction false} ChainLinks(node: Proto?, ps: seq<Proto>, footprint: set<Proto>)
    requires ProtoChain(node, ps, footprint)
    ensures node == ProtoAt(ps, 0) && ProtoLinks(ps, footprint)
  {
    if ps != [] {
      var rest := ps[1..];
      ChainLinks(node.next, rest, footprint);
      forall i | 0 <= i < |ps| ensures ps[i] in footprint && ps[i].next == ProtoAt(ps, i + 1) {
        if i > 0 { assert ps[i] == rest[i - 1] && rest[i - 1].next == ProtoAt(rest, i); }
      }
      forall i, j | 0 <= i < j < |ps| ensures ps[i].id < ps[j].id {
        if i > 0 { assert rest[i - 1].id < rest[j - 1].id; } else if j > 1 { assert rest[0].id < rest[j - 1].id; }
      }
    }
  }

  lemma {:induction false} LinksChain(ps: seq<Proto>, k: nat, footprint: set<Proto>)
    requires k <= |ps| && ProtoLinks(ps, footprint)
    ensures ProtoChain(ProtoAt(ps, k), ps[k..], footprint)
    decreases |ps| - k
  {
    if k < |ps| {
      LinksChain(ps, k + 1, footprint);
      assert ps[k..][1..] == ps[k + 1..] && ps[k].next == ProtoAt(ps, k + 1);
      if k + 1 < |ps| { assert ps[k].id < ps[k + 1].id; }
    }
  }

  /** intfd_arbiter_attach_proto on a list given by its head. */
  method AttachProto(head: Proto?, proto: Proto, ghost ps: seq<Proto>, ghost footprint: set<Proto>)
    returns (head': Proto?)
    requires ProtoChain(head, ps, footprint) && proto.next == null
    requires forall i :: 0 <= i < |ps| ==> ps[i].id < proto.id
    modifies footprint`next
    ensures ProtoChain(head', ps + [proto], footprint + {proto})
    ensures forall i {:trigger ps[i]} :: 0 <= i < |ps| - 1 ==> ps[i].next == old(ps[i].next)
  {
    ChainLinks(head, ps, footprint);
    ghost var all := ps + [proto];
    if head == null {
      head' := proto;
    } else {
      head' := head;
      var node := head;
      ghost var k := 0;
      while node.next != null
        invariant 0 <= k < |ps| && node == ps[k]
        decreases |ps| - k
      {
        node := node.next;
        k := k + 1;
      }
      forall i | 0 <= i < |ps| ensures ps[i] != proto && (i < k ==> ps[i] != ps[k]) {
        assert ps[i].id < proto.id && (i < k ==> ps[i].id < ps[k].id);
      }
      node.next := proto;
    }
    forall i | 0 <= i < |all| ensures all[i] in footprint + {proto} && all[i].next == ProtoAt(all, i + 1) {}
    LinksChain(all, 0, footprint + {proto});
    assert all[0..] == all;
  }

  class Layer {
    const id: nat
    const protos: Proto?
    var blocked: bool
    var owner: Option<nat>
    var prev: Layer?
    var next: Layer?
    ghost const list: seq<Proto>
    ghost const repr: set<Proto>

    constructor (id: nat, protos: Proto?, ghost list: seq<Proto>, ghost repr: set<Proto>)
      ensures this.id == id && this.protos == protos && this.list == list && this.repr == repr
      ensures !blocked && owner == None && prev == null && next == null
    {
      this.id := id;
      this.protos := protos;
      this.list := list;
      this.repr := repr;
      blocked := false;
      owner := None;
      prev := null;
      next := null;
    }

    ghost function View(): LayerV { LayerV(id, Views(list)) }

    ghost predicate ListOk()
      reads repr`next
    {
      ProtoChain(protos, list, repr)
    }

    /** What an earlier interface may have left behind: no owner, or one of the running
        protocols in rest. */
    ghost predicate Leftover(rest: seq<Proto>)
      reads this`blocked, this`owner
    {
      owner.Some? ==> blocked && owner.value in RunIds(rest)
    }

    /** intfd_arbiter_proto_run for a protocol of this layer. */
    method ProtoRun(proto: Proto, row: IfRow) returns (block: bool)
      modifies this`blocked, this`owner
      ensures block == (proto.view.Some? && proto.view.value(row))
      ensures block ==> blocked
      ensures block ==>
        owner == (if old(blocked) && !Precedes(proto.id, old(owner)) then old(owner) else Some(proto.id))
      ensures !block && old(blocked) && old(owner) == Some(proto.id) ==> !blocked && owner == None
      ensures !block && !(old(blocked) && old(owner) == Some(proto.id)) ==>
        blocked == old(blocked) && owner == old(owner)
    {
      block := false;
      if proto.view.Some? { block := proto.view.value(row); }
      if block {
        if blocked {
          if Precedes(proto.id, owner) { owner := Some(proto.id); }
        } else {
          blocked := true;
          owner := Some(proto.id);
        }
      } else if blocked && owner == Some(proto.id) {
        owner := None;
        blocked := false;
      }
    }

    /** The walk over the protocols in intfd_arbiter_layer_run. */
    method ProtosRun(row: IfRow) returns (block: bool)
      requires ListOk() && Leftover(list)
      modifies this`blocked, this`owner
      ensures block == Blocker(Views(list), row).Some?
      ensures block ==> blocked && owner == Blocker(Views(list), row)
    {
      var proto := protos;
      ghost var rest := list;
      while proto != null
        invariant ProtoChain(proto, rest, repr) && Leftover(rest)
        invariant Blocker(Views(rest), row) == Blocker(Views(list), row)
        decreases |rest|
      {
        RankedFirst(proto, rest, repr);
        if proto.runs {
          block := ProtoRun(proto, row);
          if block { return true; }
        }
        proto := proto.next;
        rest := rest[1..];
      }
      return false;
    }

    /** intfd_arbiter_layer_run: the state it leaves depends on the previous layer, the
        row and the protocols, not on the state it found. */
    method LayerRun(row: IfRow) returns (block: bool)
      requires ListOk() && Leftover(list) && prev != this
      modifies this`blocked, this`owner
      ensures block == blocked && Leftover(list)
      ensures Reflects(blocked, owner, NextVerdict(prev != null && prev.blocked, View(), row))
    {
      if prev != null && prev.blocked {
        blocked, owner := true, None;
        return true;
      }
      if row.hw.enable != Some(true) {
        blocked, owner := true, None;
        return true;
      }
      BlockerRuns(list, row);
      block := ProtosRun(row);
      if !block {
        blocked, owner := false, None;
      }
    }

    /** What intfd_arbiter_interface_run writes for this layer. */
    method WriteState(m: FwdMap, ghost v: Verdict) returns (m': FwdMap)
      requires Reflects(blocked, owner, v)
      ensures m' == WriteLayer(m, View(), v)
    {
      if owner != None {
        m' := m[LayerKey(id) := StateValue(blocked)];
        m' := m'[OwnerKey(id) := ProtoName(owner.value)];
      } else if blocked {
        m' := m - {LayerKey(id)};
        m' := m' - {OwnerKey(id)};
      } else {
        m' := m[LayerKey(id) := StateValue(blocked)];
        m' := m' - {OwnerKey(id)};
      }
    }
  }

  /** Ids increase, so what can still own a layer does not come before its first protocol. */
  lemma {:induction false} RankedFirst(node: Proto?, ps: seq<Proto>, footprint: set<Proto>)
    requires ProtoChain(node, ps, footprint) && ps != []
    ensures forall x :: x in RunIds(ps) ==> ps[0].id <= x
    ensures forall x :: x in RunIds(ps[1..]) ==> ps[0].id < x
  {
    if |ps| > 1 {
      RankedFirst(node.next, ps[1..], footprint);
    }
  }

  lemma {:induction false} BlockerRuns(ps: seq<Proto>, row: IfRow)
    ensures var b := Blocker(Views(ps), row); b.Some? ==> b.value in RunIds(ps)
  {
    if ps != [] {
      assert Views(ps)[1..] == Views(ps[1..]);
      BlockerRuns(ps[1..], row);
    }
  }

  /** intfd_arbiter_get_state_value */
  function StateValue(blocked: bool): FwdVal { Flag(!blocked) }

  /** The state a layer is left in shows its verdict. */
  predicate Reflects(blocked: bool, owner: Option<nat>, v: Verdict) {
    match v
    case Forwards => !blocked && owner == None
    case BlockedBy(id) => blocked && owner == Some(id)
    case Silent => blocked && owner == None
  }

  /** The verdict of a layer from its predecessor's and from its own protocols. */
  function NextVerdict(prevBlocked: bool, l: LayerV, row: IfRow): Verdict {
    if prevBlocked || !OperUp(row) then Silent
    else match Blocker(l.protos, row) case None => Forwards case Some(id) => BlockedBy(id)
  }

  predicate PrevBlocked(vd: seq<Verdict>, i: nat)
    requires i <= |vd|
  {
    i > 0 && vd[i - 1] != Forwards
  }

  ghost function LayerViews(ls: seq<Layer>): (r: seq<LayerV>)
    ensures |r| == |ls| && forall i :: 0 <= i < |ls| ==> r[i] == ls[i].View()
  {
    seq(|ls|, i requires 0 <= i < |ls| => ls[i].View())
  }

  /** Each verdict follows from the one before it. */
  ghost predicate Chained(vd: seq<Verdict>, ls: seq<Layer>, row: IfRow) {
    && |vd| == |ls|
    && forall i {:trigger vd[i]} :: 0 <= i < |ls| ==> vd[i] == NextVerdict(PrevBlocked(vd, i), ls[i].View(), row)
  }

  lemma VerdictsChained(ls: seq<Layer>, row: IfRow)
    ensures Chained(Verdicts(LayerViews(ls), row), ls, row)
  {
    var vs := LayerViews(ls);
    var vd := Verdicts(vs, row);
    forall i | 0 <= i < |ls| ensures vd[i] == NextVerdict(PrevBlocked(vd, i), ls[i].View(), row) {
      assert vd[i] == VerdictAt(vs, row, i);
      if i > 0 { assert vd[i - 1] == VerdictAt(vs, row, i - 1); }
      BlockerIsFirst(vs[i].protos, row);
    }
  }

  /* ---------- the list of layers ---------- */

  /** From node on the list holds exactly ls and then ends; prev leads back. */
  ghost predicate LayerChain(prev: Layer?, node: Layer?, ls: seq<Layer>, footprint: set<Layer>)
    reads footprint`next, footprint`prev
    decreases ls
  {
    if ls == [] then node == null
    else
      && node == ls[0] && node in footprint
      && node.prev == prev
      && LayerChain(node, node.next, ls[1..], footprint)
  }

  ghost predicate IdsApart(ls: seq<Layer>) {
    forall i, j {:trigger ls[i].id, ls[j].id} :: 0 <= i < j < |ls| ==> ls[i].id != ls[j].id
  }

  ghost function LayerAt(ls: seq<Layer>, i: int): Layer? { if 0 <= i < |ls| then ls[i] else null }

  /** The list told node by node: next and prev are inverse. */
  ghost predicate LayerLinks(ls: seq<Layer>, before: Layer?, footprint: set<Layer>)
    reads footprint`next, footprint`prev
  {
    && (forall i :: 0 <= i < |ls| ==> ls[i] in footprint)
    && (forall i {:trigger ls[i].next} :: 0 <= i < |ls| ==> ls[i].next == LayerAt(ls, i + 1))
    && (forall i {:trigger ls[i].prev} :: 0 <= i < |ls| ==> ls[i].prev == if i == 0 then before else ls[i - 1])
  }

  lemma {:induction false} LayerChainLinks(prev: Layer?, node: Layer?, ls: seq<Layer>, footprint: set<Layer>)
    requires LayerChain(prev, node, ls, footprint)
    ensures node == LayerAt(ls, 0) && LayerLinks(ls, prev, footprint)
    decreases ls
  {
    if ls != [] {
      var rest := ls[1..];
      LayerChainLinks(node, node.next, rest, footprint);
      forall i | 0 <= i < |ls|
        ensures ls[i] in footprint && ls[i].next == LayerAt(ls, i + 1)
        ensures ls[i].prev == if i == 0 then prev else ls[i - 1]
      {
        if i > 0 {
          assert ls[i] == rest[i - 1] && rest[i - 1].next == LayerAt(rest, i) && rest[i - 1].prev == ls[i - 1];
        }
      }
    }
  }

  lemma {:induction false} LayerLinksChain(ls: seq<Layer>, k: nat, footprint: set<Layer>)
    requires k <= |ls| && LayerLinks(ls, null, footprint)
    ensures LayerChain(LayerAt(ls, k - 1), LayerAt(ls, k), ls[k..], footprint)
    decreases |ls| - k
  {
    if k < |ls| {
      LayerLinksChain(ls, k + 1, footprint);
      assert ls[k..][1..] == ls[k + 1..] && ls[k].next == LayerAt(ls, k + 1) && ls[k].prev == LayerAt(ls, k - 1);
    }
  }

  /** intfd_arbiter_attach_layer */
  method AttachLayer(head: Layer?, layer: Layer, ghost ls: seq<Layer>, ghost footprint: set<Layer>)
    returns (head': Layer)
    requires LayerChain(null, head, ls, footprint) && IdsApart(ls + [layer])
    requires layer.prev == null && layer.next == null
    modifies footprint`next, layer`prev
    ensures LayerChain(null, head', ls + [layer], footprint + {layer})
    ensures forall i {:trigger ls[i]} :: 0 <= i < |ls| - 1 ==> ls[i].next == old(ls[i].next)
  {
    LayerChainLinks(null, head, ls, footprint);
    ghost var all := ls + [layer];
    forall i | 0 <= i < |ls| ensures ls[i] != layer { assert all[i].id != all[|ls|].id; }
    if head == null {
      head' := layer;
    } else {
      head' := head;
      var node := head;
      ghost var k := 0;
      while node.next != null
        invariant 0 <= k < |ls| && node == ls[k]
        decreases |ls| - k
      {
        node := node.next;
        k := k + 1;
      }
      forall i | 0 <= i < k ensures ls[i] != ls[k] { assert all[i].id != all[k].id; }
      node.next := layer;
      layer.prev := node;
    }
    forall i | 0 <= i < |all|
      ensures all[i] in footprint + {layer} && all[i].next == LayerAt(all, i + 1)
      ensures all[i].prev == if i == 0 then null else all[i - 1]
    {}
    LayerLinksChain(all, 0, footprint + {layer});
    assert all[0..] == all;
  }

  /** Every layer has a well-formed protocol list, over the protocols ps, and a state some
      interface may have left it in. */
  ghost predicate LayersOk(footprint: set<Layer>, ps: set<Proto>)
    reads ps`next, footprint`blocked, footprint`owner
  {
    forall l <- footprint :: l.repr <= ps && l.ListOk() && l.Leftover(l.list)
  }

  /** struct intfd_arbiter_class: the head of a well-formed list of layers whose key
      names do not clash. */
  ghost predicate ArbiterOk(head: Layer?, ls: seq<Layer>, footprint: set<Layer>, ps: set<Proto>)
    reads footprint, ps`next
  {
    LayerChain(null, head, ls, footprint) && IdsApart(ls) && LayersOk(footprint, ps)
  }

  /** Attach a new layer at the end of the hierarchy. */
  method AddLayer(head: Layer?, layer: Layer, ghost ls: seq<Layer>, ghost footprint: set<Layer>, ghost ps: set<Proto>)
    returns (head': Layer)
    requires ArbiterOk(head, ls, footprint, ps) && IdsApart(ls + [layer])
    requires layer.prev == null && layer.next == null
    requires layer.ListOk() && layer.Leftover(layer.list)
    modifies footprint`next, layer`prev
    ensures ArbiterOk(head', ls + [layer], footprint + {layer}, ps + layer.repr)
    ensures LayerViews(ls + [layer]) == LayerViews(ls) + [layer.View()]
  {
    head' := AttachLayer(head, layer, ls, footprint);
  }

  /* ---------- running the arbiter for one interface ---------- */

  /** One turn of the walk: run the layer, write its keys. */
  method RunAndWrite(layer: Layer, row: IfRow, m: FwdMap, ghost v: Verdict)
    returns (m': FwdMap)
    requires layer.ListOk() && layer.Leftover(layer.list) && layer.prev != layer
    requires v == NextVerdict(layer.prev != null && layer.prev.blocked, layer.View(), row)
    modifies layer`blocked, layer`owner
    ensures layer.Leftover(layer.list) && Reflects(layer.blocked, layer.owner, v)
    ensures m' == WriteLayer(m, layer.View(), v)
  {
    var _ := layer.LayerRun(row);
    m' := layer.WriteState(m, v);
  }

  /** The verdicts passed so far, layer by layer. */
  ghost predicate Says(said: map<Layer, Verdict>, ls: seq<Layer>, vd: seq<Verdict>, k: nat)
    requires k <= |ls| == |vd|
  {
    forall j {:trigger ls[j]} :: 0 <= j < k ==> ls[j] in said && said[ls[j]] == vd[j]
  }

  lemma SaysNext(said: map<Layer, Verdict>, ls: seq<Layer>, vd: seq<Verdict>, k: nat)
    requires k < |ls| == |vd| && IdsApart(ls) && Says(said, ls, vd, k)
    ensures Says(said[ls[k] := vd[k]], ls, vd, k + 1)
    ensures k > 0 ==> ls[k - 1] != ls[k]
  {
    forall j | 0 <= j < k ensures ls[j] != ls[k] { assert ls[j].id != ls[k].id; }
  }

  /** The body of the walk's loop. */
  method VisitLayer(layer: Layer, ghost prev: Layer?, ghost rest: seq<Layer>, ghost footprint: set<Layer>,
                    ghost ps: set<Proto>, row: IfRow, m: FwdMap, ghost v: Verdict)
    returns (m': FwdMap, next: Layer?)
    requires rest != [] && LayerChain(prev, layer, rest, footprint) && prev != layer && LayersOk(footprint, ps)
    requires v == NextVerdict(prev != null && prev.blocked, layer.View(), row)
    modifies layer`blocked, layer`owner
    ensures LayerChain(layer, next, rest[1..], footprint) && LayersOk(footprint, ps)
    ensures Reflects(layer.blocked, layer.owner, v)
    ensures m' == WriteLayer(m, layer.View(), v)
  {
    m' := RunAndWrite(layer, row, m, v);
    next := layer.next;
  }

  /** The first i layers have passed their verdicts, and the layers show them. */
  ghost predicate Walked(said: map<Layer, Verdict>, ls: seq<Layer>, vd: seq<Verdict>, i: nat)
    requires i <= |ls| == |vd|
    reads said.Keys`blocked, said.Keys`owner
  {
    Says(said, ls, vd, i) && forall l <- said :: Reflects(l.blocked, l.owner, said[l])
  }

  lemma LastVerdict(said: map<Layer, Verdict>, ls: seq<Layer>, vd: seq<Verdict>, i: nat, last: Layer?)
    requires i <= |ls| == |vd| && Walked(said, ls, vd, i) && last == LayerAt(ls, i - 1)
    ensures (last != null && last.blocked) == PrevBlocked(vd, i)
  {
    if i > 0 { assert ls[i - 1] in said; }
  }

  /** One round of the walk, from the i-th layer to the next. */
  method WalkStep(layer: Layer, last: Layer?, ghost ls: seq<Layer>, ghost footprint: set<Layer>, ghost ps: set<Proto>,
                  row: IfRow, m: FwdMap, ghost vd: seq<Verdict>, ghost i: nat, ghost said: map<Layer, Verdict>)
    returns (m': FwdMap, next: Layer?, ghost said': map<Layer, Verdict>)
    requires IdsApart(ls) && LayersOk(footprint, ps) && Chained(vd, ls, row) && i < |ls| && last == LayerAt(ls, i - 1)
    requires LayerChain(last, layer, ls[i..], footprint) && Walked(said, ls, vd, i)
    modifies layer`blocked, layer`owner
    ensures LayersOk(footprint, ps) && LayerChain(layer, next, ls[i + 1..], footprint) && layer == LayerAt(ls, i)
    ensures Walked(said', ls, vd, i + 1)
    ensures m' == WriteLayer(m, layer.View(), vd[i])
  {
    hide LayersOk, IdsApart, WriteLayer;
    SaysNext(said, ls, vd, i);
    assert ls[i..][1..] == ls[i + 1..];
    LastVerdict(said, ls, vd, i, last);
    m', next := VisitLayer(layer, last, ls[i..], footprint, ps, row, m, vd[i]);
    said' := said[layer := vd[i]];
  }

  /** The walk of intfd_arbiter_interface_run. */
  method Walk(head: Layer?, ghost ls: seq<Layer>, ghost footprint: set<Layer>, ghost ps: set<Proto>, row: IfRow,
              m: FwdMap, ghost vs: seq<LayerV>, ghost vd: seq<Verdict>)
    returns (m': FwdMap, last: Layer?, ghost said: map<Layer, Verdict>)
    requires LayerChain(null, head, ls, footprint) && IdsApart(ls) && LayersOk(footprint, ps)
    requires |vs| == |ls| && (forall i :: 0 <= i < |ls| ==> vs[i] == ls[i].View()) && Chained(vd, ls, row)
    modifies footprint`blocked, footprint`owner
    ensures LayersOk(footprint, ps) && Walked(said, ls, vd, |ls|)
    ensures m' == WriteLayers(m, vs, vd, |ls|)
    ensures last == LayerAt(ls, |ls| - 1)
  {
    hide LayersOk, IdsApart, Walked, WriteLayer;
    var layer := head;
    last := null;
    m' := m;
    ghost var i := 0;
    said := map[];
    NothingWalked(ls, vd);
    while layer != null
      invariant 0 <= i <= |ls| && last == LayerAt(ls, i - 1)
      invariant LayerChain(last, layer, ls[i..], footprint)
      invariant LayersOk(footprint, ps) && Walked(said, ls, vd, i)
      invariant m' == WriteLayers(m, vs, vd, i)
      decreases |ls| - i
    {
      var next;
      m', next, said := WalkStep(layer, last, ls, footprint, ps, row, m', vd, i, said);
      last := layer;
      layer := next;
      i := i + 1;
    }
  }

  lemma NothingWalked(ls: seq<Layer>, vd: seq<Verdict>)
    requires |ls| == |vd|
    ensures Walked(map[], ls, vd, 0)
  {
  }

  /** The verdicts of the specification are the ones the walk reaches. */
  method WalkAll(head: Layer?, ghost ls: seq<Layer>, ghost footprint: set<Layer>, ghost ps: set<Proto>, row: IfRow,
                 m: FwdMap, ghost vs: seq<LayerV>, ghost vd: seq<Verdict>)
    returns (m': FwdMap, last: Layer?, ghost said: map<Layer, Verdict>)
    requires ArbiterOk(head, ls, footprint, ps) && vs == LayerViews(ls) && vd == Verdicts(vs, row)
    modifies footprint`blocked, footprint`owner
    ensures ArbiterOk(head, ls, footprint, ps) && Walked(said, ls, vd, |ls|)
    ensures m' == WriteLayers(m, vs, vd, |ls|)
    ensures last == LayerAt(ls, |ls| - 1)
  {
    VerdictsChained(ls, row);
    m', last, said := Walk(head, ls, footprint, ps, row, m, vs, vd);
  }

  /** intfd_arbiter_interface_run: the map and the layer states it leaves are functions of
      the row and of the map given, whatever earlier interfaces left in the layers. */
  method InterfaceRun(head: Layer?, ghost ls: seq<Layer>, ghost footprint: set<Layer>, ghost ps: set<Proto>,
                      row: IfRow, m: FwdMap)
    returns (m': FwdMap)
    requires ArbiterOk(head, ls, footprint, ps)
    modifies footprint`blocked, footprint`owner
    ensures ArbiterOk(head, ls, footprint, ps)
    ensures m' == Forwarding(m, LayerViews(ls), row)
    ensures forall i {:trigger ls[i]} :: 0 <= i < |ls| ==>
      Reflects(ls[i].blocked, ls[i].owner, Verdicts(LayerViews(ls), row)[i])
  {
    var last;
    ghost var said;
    m', last, said := WalkAll(head, ls, footprint, ps, row, m, LayerViews(ls), Verdicts(LayerViews(ls), row));
    if last != null {
      m' := m'[Overall := StateValue(last.blocked)];
    } else {
      m' := m'[Overall := Flag(true)];
    }
  }

  /** intfd_arbiter_init: the aggregation layer with LACP on it. */
  method Init() returns (head: Layer, ghost ls: seq<Layer>, ghost footprint: set<Layer>, ghost ps: set<Proto>)
    ensures fresh(footprint) && fresh(ps) && ArbiterOk(head, ls, footprint, ps)
    ensures LayerViews(ls) == [Aggregation()]
  {
    var lacp := new Proto(LACP_ID, true, Some(LacpBlocks));
    var protos := AttachProto(null, lacp, [], {});
    assert [] + [lacp] == [lacp];
    var aggregation := new Layer(AGGREGATION_ID, protos, [lacp], {} + {lacp});
    assert Views([lacp]) == [lacp.View()];
    assert LayerViews([]) + [aggregation.View()] == [Aggregation()];
    head := AddLayer(null, aggregation, [], {}, {});
    ls, footprint, ps := [] + [aggregation], {} + {aggregation}, {} + aggregation.repr;
  }
}
