/** The whole pass over the port table: where every interface ends up. */
module PortPass {
  import opened Base
  import opened UserConfig
  import opened World
  import opened PortMembers
  import opened Reconfigure

  /** The i-th port row is one the pass handles. */
  predicate Processed(db: Db, since: nat, ports: map<Name, seq<Name>>, i: nat)
    requires i < |db.ports|
  {
    db.ports[i].modified > since && db.ports[i].name in ports
  }

  /** It lists n, or did when its members were cached. */
  predicate Involves(db: Db, ports: map<Name, seq<Name>>, i: nat, n: Name)
    requires i < |db.ports| && db.ports[i].name in ports
  {
    n in db.ports[i].members || n in ports[db.ports[i].name]
  }

  /** The last of the first k ports that is handled and involves n. */
  function LastReached(db: Db, since: nat, ports: map<Name, seq<Name>>, k: nat, n: Name): (last: Option<nat>)
    requires k <= |db.ports|
    ensures last.Some? ==> last.value < k
  {
    if k == 0 then None
    else if Processed(db, since, ports, k - 1) && Involves(db, ports, k - 1, n) then Some(k - 1)
    else LastReached(db, since, ports, k - 1, n)
  }

  /** The port n belongs to once the i-th has been handled, the last to involve it: that
      one if it lists n, or else the first in the table that does. */
  function EndPort(db: Db, i: nat, n: Name): Option<PortRow>
    requires i < |db.ports|
  {
    if n in db.ports[i].members then Some(db.ports[i]) else PortOf(db.ports, n)
  }

  ghost predicate PortNames(db: Db) {
    forall i, j {:trigger db.ports[i].name, db.ports[j].name} :: 0 <= i < j < |db.ports| ==>
      db.ports[i].name != db.ports[j].name
  }

  /** The member lists of ports that have not had their turn are still the cached ones,
      those of handled ports are the rows'. */
  lemma {:induction false} CachedLists(st: Staged, db: Db, since: nat, k: nat, i: nat)
    requires k <= |db.ports| && i < |db.ports| && PortNames(db)
    ensures var x, p := db.ports[i].name, PortsTo(st, db, since, k).ports;
      && (x in p <==> x in st.ports)
      && (x in p ==> p[x] == if i < k && Processed(db, since, st.ports, i) then db.ports[i].members else st.ports[x])
  {
    hide ProcessPort;
    if k > 0 {
      CachedLists(st, db, since, k - 1, i);
      CachedLists(st, db, since, k - 1, k - 1);
      if i != k - 1 { assert db.ports[k - 1].name != db.ports[i].name; }
    }
  }

  /** Interface n after some ports, the last to involve it being the one given. */
  ghost predicate Passed(w0: World, w: World, db: Db, n: Name, last: Option<nat>)
    requires n in w0.ifs && (last.Some? ==> last.value < |db.ports|)
  {
    && SameFrame(w0, w) && n in w.ifs && n in w.rec
    && (if last.Some? then AttachedTo(w, n, EndPort(db, last.value, n)) else SameAt(w0, w, n))
  }

  lemma NothingPassed(w: World, db: Db, n: Name)
    requires Aligned(w) && n in w.ifs
    ensures Passed(w, w, db, n, None)
  {
    forall m | m in w.ifs ensures SameFixed(w.ifs[m], w.ifs[m]) { SameFixedReflexive(w.ifs[m]); }
  }

  /** One more port, for interface n. */
  lemma PassStep(w0: World, w: World, db: Db, i: nat, cached: seq<Name>, n: Name, last: Option<nat>)
    requires i < |db.ports| && PortOk(w, db, db.ports[i], cached) && n in w0.ifs
    requires (last.Some? ==> last.value < |db.ports|) && Passed(w0, w, db, n, last)
    ensures Passed(w0, ProcessPort(w, db, db.ports[i], cached), db, n,
                   if n in db.ports[i].members || n in cached then Some(i) else last)
  {
    hide PortOk, AttachedTo, SameFrame, ProcessPort;
    var port := db.ports[i];
    var w' := ProcessPort(w, db, port, cached);
    PortMemberDiff(w, db, port, cached, n);
    SameFrameTransitive(w0, w, w');
    FramedKeys(w, w');
    if last.Some? && n !in port.members && n !in cached { AttachedCarries(w, w', n, EndPort(db, last.value, n)); }
  }

  lemma FramedKeys(a: World, b: World)
    requires SameFrame(a, b)
    ensures a.ifs.Keys == b.ifs.Keys == a.rec.Keys == b.rec.Keys
  {
  }

  /** The whole pass: an interface that some handled port lists, or listed when its members
      were cached, ends attached to the last such port if that one lists it now, or else
      to the first in the table that does, or off if none does. Any other is untouched. */
  lemma {:induction false} PortsPass(st: Staged, db: Db, since: nat, k: nat, n: Name)
    requires AllHalfway(st.w, db, since) && PortsLive(db, st.ports) && k <= |db.ports|
    requires PortNames(db) && n in st.w.ifs
    ensures Passed(st.w, PortsTo(st, db, since, k).w, db, n, LastReached(db, since, st.ports, k, n))
  {
    hide AllHalfway, Passed, PortsLive, ProcessPort, PortOk, PortNames, PortOf;
    HalfwayAligned(st.w, db, since);
    if k == 0 {
      NothingPassed(st.w, db, n);
    } else {
      PortsPass(st, db, since, k - 1, n);
      PortsToHalfway(st, db, since, k - 1);
      PassNext(st, db, since, k, n);
    }
  }

  lemma PassNext(st: Staged, db: Db, since: nat, k: nat, n: Name)
    requires 0 < k <= |db.ports| && PortNames(db) && n in st.w.ifs
    requires var s := PortsTo(st, db, since, k - 1); AllHalfway(s.w, db, since) && PortsLive(db, s.ports)
    requires Passed(st.w, PortsTo(st, db, since, k - 1).w, db, n, LastReached(db, since, st.ports, k - 1, n))
    ensures Passed(st.w, PortsTo(st, db, since, k).w, db, n, LastReached(db, since, st.ports, k, n))
  {
    hide AllHalfway, Passed, PortsLive, ProcessPort, PortOk, PortNames, PortOf;
    CachedLists(st, db, since, k - 1, k - 1);
    var s, p := PortsTo(st, db, since, k - 1), db.ports[k - 1];
    if Processed(db, since, st.ports, k - 1) {
      PortIsOk(s, db, since, p);
      PassStep(st.w, s.w, db, k - 1, s.ports[p.name], n, LastReached(db, since, st.ports, k - 1, n));
    }
  }

  lemma HalfwayAligned(w: World, db: Db, since: nat)
    requires AllHalfway(w, db, since)
    ensures Aligned(w) && w.ifs.Keys == db.rows.Keys
  {
  }

  lemma PortIsOk(s: Staged, db: Db, since: nat, p: PortRow)
    requires AllHalfway(s.w, db, since) && PortsLive(db, s.ports) && p in db.ports && p.name in s.ports
    ensures PortOk(s.w, db, p, s.ports[p.name])
  {
    assert PortLive(db, s.ports, p);
  }

  /** An interface the pass reached has the port state port_parse_admin finds exactly when
      the last port to involve it no longer lists it, or has that admin state. */
  lemma PassedIsCurrent(w0: World, w: World, db: Db, n: Name, i: nat)
    requires n in w0.ifs && i < |db.ports| && Passed(w0, w, db, n, Some(i))
    ensures w.ifs[n].portAdmin == PortAdminOf(db.ports, n)
       <==> n !in db.ports[i].members || db.ports[i].admin == PortAdminOf(db.ports, n)
  {
    hide SameFrame, Fresh, PortOf;
  }

  lemma {:induction false} FirstOwner(ports: seq<PortRow>, i: nat, n: Name)
    requires i < |ports| && n in ports[i].members && forall j :: 0 <= j < i ==> n !in ports[j].members
    ensures PortOf(ports, n) == Some(ports[i])
  {
    if i > 0 {
      assert n !in ports[0].members && ports[1..][i - 1] == ports[i];
      forall j | 0 <= j < i - 1 ensures n !in ports[1..][j].members { assert ports[1..][j] == ports[j + 1]; }
      FirstOwner(ports[1..], i - 1, n);
    }
  }

  /** Where no other port lists n, that is always so. */
  lemma SoleOwner(db: Db, i: nat, n: Name)
    requires i < |db.ports| && n in db.ports[i].members
    requires forall j :: 0 <= j < |db.ports| && j != i ==> n !in db.ports[j].members
    ensures PortOf(db.ports, n) == Some(db.ports[i]) && db.ports[i].admin == PortAdminOf(db.ports, n)
  {
    FirstOwner(db.ports, i, n);
  }

  lemma {:induction false} NoOwner(ports: seq<PortRow>, n: Name)
    ensures PortOf(ports, n) == None <==> forall i :: 0 <= i < |ports| ==> n !in ports[i].members
  {
    if ports != [] {
      NoOwner(ports[1..], n);
      assert forall i :: 0 < i < |ports| ==> ports[i] == ports[1..][i - 1];
    }
  }

  /** What port_parse_admin finds is up exactly when the first port that lists n is. */
  lemma PortAdminExactly(ports: seq<PortRow>, n: Name)
    ensures PortAdminOf(ports, n) == AdminUp <==>
      exists i :: 0 <= i < |ports| && n in ports[i].members && ports[i].admin == AdminUp
        && forall j :: 0 <= j < i ==> n !in ports[j].members
  {
    NoOwner(ports, n);
    forall i | 0 <= i < |ports| && n in ports[i].members && forall j :: 0 <= j < i ==> n !in ports[j].members
      ensures PortOf(ports, n) == Some(ports[i])
    {
      FirstOwner(ports, i, n);
    }
    if PortOf(ports, n).Some? { var i := FirstListing(ports, n); }
  }

  lemma {:induction false} FirstListing(ports: seq<PortRow>, n: Name) returns (i: nat)
    requires PortOf(ports, n).Some?
    ensures i < |ports| && n in ports[i].members && forall j :: 0 <= j < i ==> n !in ports[j].members
  {
    if n in ports[0].members {
      i := 0;
    } else {
      var k := FirstListing(ports[1..], n);
      i := k + 1;
      forall j | 0 <= j < i ensures n !in ports[j].members { if j > 0 { assert ports[j] == ports[1..][j - 1]; } }
    }
  }

  /** Whether a pass reports anything: exactly when it handles some port. */
  lemma {:induction false} PassReports(st: Staged, db: Db, since: nat, k: nat)
    requires k <= |db.ports|
    ensures PortsTo(st, db, since, k).rc <==> st.rc || exists i :: 0 <= i < k && Processed(db, since, st.ports, i)
  {
    hide ProcessPort;
    if k > 0 {
      PassReports(st, db, since, k - 1);
      PortsToKeys(st, db, since, k - 1);
      var s, p := PortsTo(st, db, since, k - 1), db.ports[k - 1];
      assert Processed(db, since, st.ports, k - 1) <==> p.modified > since && p.name in s.ports;
      assert PortsTo(st, db, since, k).rc <==> s.rc || Processed(db, since, st.ports, k - 1);
    }
  }
}
