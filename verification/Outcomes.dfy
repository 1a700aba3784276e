/** How a run of the modification loop can end for one interface: which records are
    possible over all hash orders and all contents of the parse buffer, and when there is
    only one. */
module Outcomes {
  import opened Base
  import opened UserConfig
  import opened Derivation
  import opened World
  import opened Batch
  import opened BatchTheorems
  import opened Tracking

  /* ---------- the possible outcomes ---------- */

  /** How the record of an interface can come out: as it was; derived from the cache the
      batch leaves, with this module information; derived with the port state of before. */
  datatype Outcome = AsBefore | Anew(pm: PmInfo) | OldPort

  function RecordFor(w0: World, db: Db, since: nat, n: Name, o: Outcome): Record
    requires n in w0.ifs && n in w0.rec && n in db.rows
  {
    match o
    case AsBefore => w0.rec[n]
    case Anew(pm) => Derive(EndInputs(w0, db, since, n, pm))
    case OldPort => Derive(EndInputs(w0, db, since, n, RowPm(db, n)).(portAdmin := w0.ifs[n].portAdmin))
  }

  /** The row differs from the cached configuration whatever the parse buffer holds. */
  predicate AlwaysChanged(w0: World, db: Db, n: Name)
    requires n in w0.ifs && n in db.rows
  {
    ParseInto(db.rows[n].cfg, w0.ifs[n].user.speeds) != w0.ifs[n].user
  }

  predicate NewModule(w0: World, db: Db, n: Name)
    requires n in w0.ifs && n in db.rows
  {
    w0.ifs[n].pm != RowPm(db, n)
  }

  /** The visit of x sets one of the flags that reach other families. */
  predicate Alarms(w0: World, db: Db, since: nat, x: Name) {
    LaneChanged(w0, db, since, x) || ConnectorChanged(w0, db, since, x)
  }

  predicate CanStay(w0: World, db: Db, since: nat, n: Name)
    requires n in w0.ifs && n in db.rows
  {
    && (IsMod(db, since, n) ==> !AlwaysChanged(w0, db, n) && !NewModule(w0, db, n))
    && (ParentModified(db, since, n) ==> !Alarms(w0, db, since, db.rows[n].splitParent.value))
  }

  ghost predicate CanBeAnew(w0: World, db: Db, since: nat, n: Name, pm: PmInfo)
    requires n in w0.ifs && n in db.rows
  {
    if IsMod(db, since, n) then
      && pm == RowPm(db, n)
      && (AlwaysChanged(w0, db, n) || NewModule(w0, db, n) || !db.rows[n].cfg.speedsGiven
          || (ParentModified(db, since, n) && exists x :: Alarms(w0, db, since, x)))
    else
      && ParentModified(db, since, n)
      && ((pm == RowPm(db, n) && exists x :: ConnectorChanged(w0, db, since, x))
          || (pm == w0.ifs[n].pm && !ConnectorChanged(w0, db, since, db.rows[n].splitParent.value)
              && exists x :: LaneChanged(w0, db, since, x) && !ConnectorChanged(w0, db, since, x)))
  }

  /** With x visited first, then the parent p, the parse buffer can afterwards hold what
      n has cached: n does not need it, or neither x nor p fills it, or some other row
      (y) can leave it so. */
  predicate BufferFits(w0: World, db: Db, since: nat, n: Name, x: Name, y: Name)
    requires ParentModified(db, since, n) && n in w0.ifs
  {
    var p := db.rows[n].splitParent.value;
    || db.rows[n].cfg.speedsGiven
    || (!Given(db, since, p) && !Given(db, since, x))
    || (Given(db, since, y) && y != n && db.rows[y].cfg.user.speeds == w0.ifs[n].user.speeds
        && (y == p || y != x || !Given(db, since, p)))
  }

  ghost predicate CanHaveOldPort(w0: World, db: Db, since: nat, n: Name)
    requires n in w0.ifs && n in db.rows
  {
    && IsMod(db, since, n) && ParentModified(db, since, n) && !AlwaysChanged(w0, db, n)
    && exists x, y :: x != n && BufferFits(w0, db, since, n, x, y)
         && (ConnectorChanged(w0, db, since, x) || (!NewModule(w0, db, n) && LaneChanged(w0, db, since, x)))
  }

  ghost predicate Possible(w0: World, db: Db, since: nat, n: Name, o: Outcome)
    requires n in w0.ifs && n in db.rows
  {
    match o
    case AsBefore => CanStay(w0, db, since, n)
    case Anew(pm) => CanBeAnew(w0, db, since, n, pm)
    case OldPort => CanHaveOldPort(w0, db, since, n)
  }

  /* ---------- every run has a possible outcome ---------- */

  ghost function OutcomeOf(w0: World, db: Db, since: nat, order: seq<Name>, junk: Buffer, n: Name): Outcome
    requires n in w0.ifs && n in db.rows
  {
    match TagAt(w0, db, since, order, junk, |order|, n)
    case Untouched => AsBefore
    case Derived => Anew(EndPm(w0, db, since, order, n))
    case Overtaken => OldPort
  }

  lemma RecordAtEnd(w0: World, db: Db, since: nat, order: seq<Name>, junk: Buffer, n: Name)
    requires InOrder(w0, db, since, order) && n in w0.ifs && w0.ifs[n].kind == Physical && !IsIns(db, since, n)
    ensures var w := Run(w0, db, since, order, junk).w;
      n in db.rows && n in w0.rec && n in w.rec
      && w.rec[n] == RecordFor(w0, db, since, n, OutcomeOf(w0, db, since, order, junk, n))
  {
    hide Derive, InOrder, EndInputs, OwnChange, SplitFlag, LoopTo, TagAt, InputsOf;
    LoopTagged(w0, db, since, order, junk, |order|, n);
    InputsAtEnd(w0, db, since, order, junk, n);
    OvertakenIsModified(w0, db, since, order, junk, n);
  }

  lemma OvertakenIsModified(w0: World, db: Db, since: nat, order: seq<Name>, junk: Buffer, n: Name)
    requires InOrder(w0, db, since, order) && n in w0.ifs
    ensures n in db.rows && (TagAt(w0, db, since, order, junk, |order|, n) == Overtaken ==> IsMod(db, since, n))
  {
    var kn, jp := Standing(w0, db, since, order, n);
    TagEnd(w0, db, since, order, junk, n, kn, jp);
  }

  /** The parse buffer holds its first content or what some given row put there, no later
      row having filled it again. */
  lemma {:induction false} ScratchSource(db: Db, since: nat, order: seq<Name>, junk: Buffer, k: nat) returns (i: int)
    requires k <= |order|
    ensures -1 <= i < k && (forall l :: i < l < k ==> !Given(db, since, order[l]))
    ensures i >= 0 ==> Given(db, since, order[i])
    ensures i >= 0 ==> ScratchAt(db, since, order, junk, k) == db.rows[order[i]].cfg.user.speeds
    ensures i == -1 ==> ScratchAt(db, since, order, junk, k) == junk
  {
    if k == 0 {
      i := -1;
    } else if Given(db, since, order[k - 1]) {
      i := k - 1;
    } else {
      i := ScratchSource(db, since, order, junk, k - 1);
    }
  }

  /** A set split flag goes back to a lane or connector change visited by then. */
  lemma FlagSource(w0: World, db: Db, since: nat, order: seq<Name>, k: nat) returns (i: nat)
    requires k <= |order| && SplitFlag(w0, db, since, order, k)
    ensures i < k && Alarms(w0, db, since, order[i])
    ensures !PmFlag(w0, db, since, order, k) ==> LaneChanged(w0, db, since, order[i])
  {
    i :| 0 <= i < k && (LaneChanged(w0, db, since, order[i])
      || (IsMod(db, since, order[i]) && db.rows[order[i]].splitChildren != [] && PmFlag(w0, db, since, order, i + 1)));
    if !LaneChanged(w0, db, since, order[i]) {
      i :| 0 <= i < k && ConnectorChanged(w0, db, since, order[i]);
    }
  }

  /** What the flags are right after the parent of n, and what n has been handed by k. */
  lemma ParentsFlags(w0: World, db: Db, since: nat, order: seq<Name>, n: Name, kn: nat, jp: nat, k: nat)
    requires InOrder(w0, db, since, order) && n in w0.ifs && Stands(db, order, n, kn, jp) && k <= |order|
    requires ParentModified(db, since, n)
    ensures PmFlag(w0, db, since, order, jp + 1) ==> SplitFlag(w0, db, since, order, jp + 1)
    ensures LaneChanged(w0, db, since, order[jp]) ==> SplitFlag(w0, db, since, order, jp + 1)
    ensures ConnectorChanged(w0, db, since, order[jp]) ==> PmFlag(w0, db, since, order, jp + 1)
    ensures Pushed(w0, db, since, order, k, n) <==> jp < k && PmFlag(w0, db, since, order, jp + 1)
  {
    hide PmFlag, LaneChanged, ConnectorChanged;
    RowsCached(w0, db, since);
    assert FamilyOk(db.rows, since, n);
    assert order[jp] == db.rows[n].splitParent.value && db.rows[order[jp]].splitChildren != [];
    PmFlagAt(w0, db, since, order, jp);
  }

  lemma PmFlagAt(w0: World, db: Db, since: nat, order: seq<Name>, j: nat)
    requires j < |order|
    ensures ConnectorChanged(w0, db, since, order[j]) ==> PmFlag(w0, db, since, order, j + 1)
  {
  }

  /** If the visit of n finds no change then what it parses is what it has cached. */
  lemma NoOwnChange(w0: World, db: Db, since: nat, order: seq<Name>, junk: Buffer, k: nat, n: Name)
    requires k <= |order| && n in w0.ifs && n in db.rows && !OwnChange(w0, db, since, order, junk, k, n)
    ensures !AlwaysChanged(w0, db, n)
    ensures NewModule(w0, db, n) ==> Pushed(w0, db, since, order, k, n)
    ensures db.rows[n].cfg.speedsGiven || ScratchAt(db, since, order, junk, k) == w0.ifs[n].user.speeds
  {
    hide Pushed;
  }

  lemma StayIsPossible(w0: World, db: Db, since: nat, order: seq<Name>, junk: Buffer, n: Name, kn: nat, jp: nat)
    requires InOrder(w0, db, since, order) && n in w0.ifs && Stands(db, order, n, kn, jp)
    requires IsMod(db, since, n) ==> !OwnChange(w0, db, since, order, junk, kn, n)
    requires ParentModified(db, since, n) ==> !SplitFlag(w0, db, since, order, jp + 1)
    ensures CanStay(w0, db, since, n)
  {
    hide OwnChange, SplitFlag, PmFlag, AlwaysChanged, NewModule, LaneChanged, ConnectorChanged, Ready;
    RowsCached(w0, db, since);
    if ParentModified(db, since, n) { ParentsFlags(w0, db, since, order, n, kn, jp, kn); }
    if IsMod(db, since, n) {
      NoOwnChange(w0, db, since, order, junk, kn, n);
      if !ParentModified(db, since, n) { NotPushed(w0, db, since, order, kn, n); }
    }
  }

  lemma NotPushed(w0: World, db: Db, since: nat, order: seq<Name>, k: nat, n: Name)
    requires k <= |order| && !ParentModified(db, since, n)
    ensures !Pushed(w0, db, since, order, k, n)
  {
  }

  lemma AnewIsPossible(w0: World, db: Db, since: nat, order: seq<Name>, junk: Buffer, n: Name, kn: nat, jp: nat)
    requires InOrder(w0, db, since, order) && n in w0.ifs && Stands(db, order, n, kn, jp) && !IsIns(db, since, n)
    requires (IsMod(db, since, n) && OwnChange(w0, db, since, order, junk, kn, n))
             || (ParentModified(db, since, n) && SplitFlag(w0, db, since, order, jp + 1))
    ensures CanBeAnew(w0, db, since, n, EndPm(w0, db, since, order, n))
  {
    hide OwnChange, SplitFlag, PmFlag, AlwaysChanged, NewModule, LaneChanged, ConnectorChanged, Ready, Enumerates;
    if ParentModified(db, since, n) && SplitFlag(w0, db, since, order, jp + 1) {
      ParentsFlags(w0, db, since, order, n, kn, jp, |order|);
      var i := FlagSource(w0, db, since, order, jp + 1);
      if PmFlag(w0, db, since, order, jp + 1) {
        var j := PmFlagSource(w0, db, since, order, jp + 1);
      } else {
        NoConnectorYet(w0, db, since, order, jp + 1, i);
        NoConnectorYet(w0, db, since, order, jp + 1, jp);
      }
    } else {
      OwnChangeReason(w0, db, since, order, junk, kn, n);
    }
  }

  lemma PmFlagSource(w0: World, db: Db, since: nat, order: seq<Name>, k: nat) returns (i: nat)
    requires k <= |order| && PmFlag(w0, db, since, order, k)
    ensures i < k && ConnectorChanged(w0, db, since, order[i])
  {
    i :| 0 <= i < k && ConnectorChanged(w0, db, since, order[i]);
  }

  lemma NoConnectorYet(w0: World, db: Db, since: nat, order: seq<Name>, k: nat, i: nat)
    requires i < k <= |order| && !PmFlag(w0, db, since, order, k)
    ensures !ConnectorChanged(w0, db, since, order[i])
  {
  }

  lemma OwnChangeReason(w0: World, db: Db, since: nat, order: seq<Name>, junk: Buffer, k: nat, n: Name)
    requires k <= |order| && n in w0.ifs && n in db.rows && OwnChange(w0, db, since, order, junk, k, n)
    ensures AlwaysChanged(w0, db, n) || NewModule(w0, db, n) || !db.rows[n].cfg.speedsGiven
  {
    hide Pushed;
  }

  lemma OldPortIsPossible(w0: World, db: Db, since: nat, order: seq<Name>, junk: Buffer, n: Name, kn: nat, jp: nat)
    requires InOrder(w0, db, since, order) && n in w0.ifs && Stands(db, order, n, kn, jp) && jp < kn
    requires IsMod(db, since, n) && !OwnChange(w0, db, since, order, junk, kn, n)
    requires ParentModified(db, since, n) && SplitFlag(w0, db, since, order, jp + 1)
    ensures CanHaveOldPort(w0, db, since, n)
  {
    hide OwnChange, SplitFlag, PmFlag, AlwaysChanged, NewModule, LaneChanged, ConnectorChanged, Ready, BufferFits;
    NoOwnChange(w0, db, since, order, junk, kn, n);
    ParentsFlags(w0, db, since, order, n, kn, jp, kn);
    var i: nat;
    if PmFlag(w0, db, since, order, jp + 1) {
      i := PmFlagSource(w0, db, since, order, jp + 1);
    } else {
      i := FlagSource(w0, db, since, order, jp + 1);
    }
    var y := BufferSource(w0, db, since, order, junk, n, kn, jp, i);
    assert order[i] != n;
  }

  lemma BufferSource(w0: World, db: Db, since: nat, order: seq<Name>, junk: Buffer, n: Name, kn: nat, jp: nat, i: nat)
    returns (y: Name)
    requires Distinct(order) && n in w0.ifs && Stands(db, order, n, kn, jp) && i <= jp < kn
    requires ParentModified(db, since, n)
    requires db.rows[n].cfg.speedsGiven || ScratchAt(db, since, order, junk, kn) == w0.ifs[n].user.speeds
    ensures BufferFits(w0, db, since, n, order[i], y)
  {
    hide Given, ScratchAt;
    var l := ScratchSource(db, since, order, junk, kn);
    y := if l >= 0 then order[l] else n;
    if l == -1 { assert !Given(db, since, order[jp]) && !Given(db, since, order[i]); }
    if l >= 0 && order[l] == order[i] && l != jp { assert !Given(db, since, order[jp]); }
  }

  /** Whatever the order and the buffer, the outcome is one of the possible ones. */
  lemma OutcomeIsPossible(w0: World, db: Db, since: nat, order: seq<Name>, junk: Buffer, n: Name)
    requires InOrder(w0, db, since, order) && n in w0.ifs && !IsIns(db, since, n)
    ensures n in db.rows && Possible(w0, db, since, n, OutcomeOf(w0, db, since, order, junk, n))
  {
    hide OwnChange, SplitFlag, Ready, CanStay, CanBeAnew, CanHaveOldPort, TagAt, EndPm;
    var kn, jp := Standing(w0, db, since, order, n);
    TagEnd(w0, db, since, order, junk, n, kn, jp);
    match TagAt(w0, db, since, order, junk, |order|, n)
    case Untouched => StayIsPossible(w0, db, since, order, junk, n, kn, jp);
    case Derived => AnewIsPossible(w0, db, since, order, junk, n, kn, jp);
    case Overtaken => OldPortIsPossible(w0, db, since, order, junk, n, kn, jp);
  }

  /* ---------- every possible outcome has a run ---------- */

  /** Some order visits these interfaces first. */
  lemma OrderFrom(w0: World, db: Db, since: nat, prefix: seq<Name>) returns (order: seq<Name>)
    requires Ready(w0, db, since) && Distinct(prefix) && forall x :: x in prefix ==> x in w0.ifs
    ensures InOrder(w0, db, since, order) && |prefix| <= |order|
    ensures forall i :: 0 <= i < |prefix| ==> order[i] == prefix[i]
  {
    hide Ready;
    order := EnumerationWithPrefix(prefix, w0.ifs.Keys);
    forall i | 0 <= i < |prefix| ensures order[i] == prefix[i] { assert order[..|prefix|][i] == prefix[i]; }
  }

  lemma ParentCached(w0: World, db: Db, since: nat, n: Name)
    requires Ready(w0, db, since) && n in w0.ifs
    ensures n in db.rows
    ensures db.rows[n].splitParent.Some? ==> db.rows[n].splitParent.value in w0.ifs && db.rows[n].splitParent.value != n
  {
    RowsCached(w0, db, since);
    assert FamilyOk(db.rows, since, n);
    if db.rows[n].splitParent.Some? { assert FamilyOk(db.rows, since, db.rows[n].splitParent.value); }
  }

  lemma Unchanged(w0: World, db: Db, since: nat, n: Name)
    requires n in w0.ifs && n in db.rows && !AlwaysChanged(w0, db, n)
    ensures !LaneChanged(w0, db, since, n)
    ensures !NewModule(w0, db, n) ==> !ConnectorChanged(w0, db, since, n)
  {
  }

  lemma StayHappens(w0: World, db: Db, since: nat, n: Name) returns (order: seq<Name>, junk: Buffer)
    requires Ready(w0, db, since) && n in w0.ifs && n in db.rows && CanStay(w0, db, since, n)
    ensures InOrder(w0, db, since, order) && TagAt(w0, db, since, order, junk, |order|, n) == Untouched
  {
    hide Ready, AlwaysChanged, NewModule, LaneChanged, ConnectorChanged, OwnChange, TagAt;
    junk := w0.ifs[n].user.speeds;
    ParentCached(w0, db, since, n);
    var prefix := if ParentModified(db, since, n) then [n, db.rows[n].splitParent.value] else [n];
    order := OrderFrom(w0, db, since, prefix);
    var kn, jp := Standing(w0, db, since, order, n);
    assert order[0] == prefix[0] == n;
    assert kn == 0;
    if IsMod(db, since, n) {
      Unchanged(w0, db, since, n);
      FirstUnchanged(w0, db, since, order, junk, n);
    }
    if ParentModified(db, since, n) {
      assert order[1] == prefix[1];
      assert jp == 1;
      NoFlagYet(w0, db, since, order, n);
    }
    TagEnd(w0, db, since, order, junk, n, kn, jp);
  }

  lemma FirstUnchanged(w0: World, db: Db, since: nat, order: seq<Name>, junk: Buffer, n: Name)
    requires n in w0.ifs && n in db.rows && junk == w0.ifs[n].user.speeds
    ensures !AlwaysChanged(w0, db, n) && !NewModule(w0, db, n) ==> !OwnChange(w0, db, since, order, junk, 0, n)
  {
  }

  lemma NoFlagYet(w0: World, db: Db, since: nat, order: seq<Name>, n: Name)
    requires |order| >= 2 && order[0] == n && !Alarms(w0, db, since, order[1])
    requires IsMod(db, since, n) ==> !Alarms(w0, db, since, n)
    ensures !SplitFlag(w0, db, since, order, 2)
  {
    assert !Alarms(w0, db, since, n);
    assert !PmFlag(w0, db, since, order, 2) && !PmFlag(w0, db, since, order, 1);
  }

  /** Visited first, n finds a change if its row always differs, brings a new module, or
      leaves the buffer alone while that holds something else. */
  lemma FirstChanged(w0: World, db: Db, since: nat, order: seq<Name>, junk: Buffer, n: Name)
    requires n in w0.ifs && n in db.rows
    requires AlwaysChanged(w0, db, n) || NewModule(w0, db, n)
             || (!db.rows[n].cfg.speedsGiven && junk != w0.ifs[n].user.speeds)
    ensures OwnChange(w0, db, since, order, junk, 0, n)
  {
  }

  function OtherBuffer(b: Buffer): (r: Buffer)
    ensures r != b
  {
    b[0 := if b[0] == 0 then 1 else 0]
  }

  /** Right after x and p the flags are what x and p made them. */
  lemma FlagsAfter(w0: World, db: Db, since: nat, order: seq<Name>, x: Name, p: Name, jp: nat, i: nat)
    requires jp < |order| && order[jp] == p && i <= jp && order[i] == x
    ensures ConnectorChanged(w0, db, since, x) ==> PmFlag(w0, db, since, order, jp + 1)
    ensures LaneChanged(w0, db, since, x) ==> SplitFlag(w0, db, since, order, jp + 1)
  {
  }

  lemma NoPmFlagAfter(w0: World, db: Db, since: nat, order: seq<Name>, x: Name, p: Name, jp: nat)
    requires jp < |order| && order[jp] == p && (jp == 0 || (jp == 1 && order[0] == x))
    requires !ConnectorChanged(w0, db, since, x) && !ConnectorChanged(w0, db, since, p)
    ensures !PmFlag(w0, db, since, order, jp + 1)
  {
  }

  lemma OwnAnewHappens(w0: World, db: Db, since: nat, n: Name) returns (order: seq<Name>, junk: Buffer)
    requires Ready(w0, db, since) && n in w0.ifs && n in db.rows && IsMod(db, since, n)
    requires AlwaysChanged(w0, db, n) || NewModule(w0, db, n) || !db.rows[n].cfg.speedsGiven
    ensures InOrder(w0, db, since, order) && TagAt(w0, db, since, order, junk, |order|, n) == Derived
  {
    hide Ready, AlwaysChanged, NewModule, OwnChange, TagAt, SplitFlag;
    junk := OtherBuffer(w0.ifs[n].user.speeds);
    order := OrderFrom(w0, db, since, [n]);
    var kn, jp := Standing(w0, db, since, order, n);
    assert order[0] == [n][0];
    assert kn == 0;
    FirstChanged(w0, db, since, order, junk, n);
    TagEnd(w0, db, since, order, junk, n, kn, jp);
  }

  /** n first (unless it is not modified), its parent later, after x. */
  lemma ParentAnewHappens(w0: World, db: Db, since: nat, n: Name, x: Name, junk: Buffer)
    returns (order: seq<Name>, jp: nat)
    requires Ready(w0, db, since) && n in w0.ifs && n in db.rows && ParentModified(db, since, n)
    requires x != n && x in w0.ifs && Alarms(w0, db, since, x)
    ensures InOrder(w0, db, since, order) && TagAt(w0, db, since, order, junk, |order|, n) == Derived
    ensures jp < |order| && order[jp] == db.rows[n].splitParent.value
    ensures IsMod(db, since, n) || (jp <= 1 && order[0] == x)
    ensures forall k :: jp < k <= |order| ==>
      (Pushed(w0, db, since, order, k, n) <==> PmFlag(w0, db, since, order, jp + 1))
  {
    hide Ready, LaneChanged, ConnectorChanged, OwnChange, TagAt, SplitFlag, PmFlag, Pushed;
    ParentCached(w0, db, since, n);
    var p := db.rows[n].splitParent.value;
    var base := if x == p then [p] else [x, p];
    var front := if IsMod(db, since, n) then [n] else [];
    order := OrderFrom(w0, db, since, front + base);
    jp := |front| + |base| - 1;
    var kn, j2 := Standing(w0, db, since, order, n);
    assert (front + base)[jp] == p && (front + base)[|front|] == x && order[|front|] == x && order[jp] == p && j2 == jp;
    if IsMod(db, since, n) {
      assert order[0] == (front + base)[0] == n;
      assert kn == 0;
    }
    ParentsFlags(w0, db, since, order, n, kn, jp, jp);
    FlagsAfter(w0, db, since, order, x, p, jp, |front|);
    forall k: nat | jp < k <= |order|
      ensures Pushed(w0, db, since, order, k, n) <==> PmFlag(w0, db, since, order, jp + 1)
    {
      ParentsFlags(w0, db, since, order, n, kn, jp, k);
    }
    TagEnd(w0, db, since, order, junk, n, kn, jp);
  }

  lemma AnewHappens(w0: World, db: Db, since: nat, n: Name, pm: PmInfo) returns (order: seq<Name>, junk: Buffer)
    requires Ready(w0, db, since) && n in w0.ifs && n in db.rows && !IsIns(db, since, n)
    requires CanBeAnew(w0, db, since, n, pm)
    ensures InOrder(w0, db, since, order) && OutcomeOf(w0, db, since, order, junk, n) == Anew(pm)
  {
    hide Ready, AlwaysChanged, NewModule, LaneChanged, ConnectorChanged, OwnChange, TagAt, SplitFlag, PmFlag, Pushed;
    junk := w0.ifs[n].user.speeds;
    if IsMod(db, since, n) {
      if AlwaysChanged(w0, db, n) || NewModule(w0, db, n) || !db.rows[n].cfg.speedsGiven {
        order, junk := OwnAnewHappens(w0, db, since, n);
      } else {
        var x :| Alarms(w0, db, since, x);
        Unchanged(w0, db, since, n);
        AlarmsCached(w0, db, since, x);
        var jp;
        order, jp := ParentAnewHappens(w0, db, since, n, x, junk);
      }
    } else {
      order := PassiveAnewHappens(w0, db, since, n, pm, junk);
    }
  }

  lemma AlarmsCached(w0: World, db: Db, since: nat, x: Name)
    requires Alarms(w0, db, since, x)
    ensures x in w0.ifs && IsMod(db, since, x)
  {
  }

  lemma PassiveAnewHappens(w0: World, db: Db, since: nat, n: Name, pm: PmInfo, junk: Buffer) returns (order: seq<Name>)
    requires Ready(w0, db, since) && n in w0.ifs && n in db.rows && !IsIns(db, since, n) && !IsMod(db, since, n)
    requires CanBeAnew(w0, db, since, n, pm)
    ensures InOrder(w0, db, since, order) && OutcomeOf(w0, db, since, order, junk, n) == Anew(pm)
  {
    hide Ready, AlwaysChanged, NewModule, LaneChanged, ConnectorChanged, OwnChange, TagAt, SplitFlag, PmFlag, Pushed,
      IsMod;
    var p, jp, x := db.rows[n].splitParent.value, 0, n;
    if pm == RowPm(db, n) && exists z :: ConnectorChanged(w0, db, since, z) {
      x :| ConnectorChanged(w0, db, since, x);
      AlarmsCached(w0, db, since, x);
      order, jp := ParentAnewHappens(w0, db, since, n, x, junk);
      FlagsAfter(w0, db, since, order, x, p, jp, 0);
    } else {
      x :| LaneChanged(w0, db, since, x) && !ConnectorChanged(w0, db, since, x);
      AlarmsCached(w0, db, since, x);
      order, jp := ParentAnewHappens(w0, db, since, n, x, junk);
      NoPmFlagAfter(w0, db, since, order, x, p, jp);
    }
  }

  /** x, then the parent, then possibly y, then n. */
  function OvertakingPrefix(db: Db, since: nat, n: Name, x: Name, y: Name): seq<Name>
    requires ParentModified(db, since, n)
  {
    var p := db.rows[n].splitParent.value;
    (if x == p then [p] else [x, p]) + (if OnlyYFits(db, since, n, x, y) then [y, n] else [n])
  }

  /** y has to come between the parent and n. */
  predicate OnlyYFits(db: Db, since: nat, n: Name, x: Name, y: Name)
    requires ParentModified(db, since, n)
  {
    var p := db.rows[n].splitParent.value;
    !db.rows[n].cfg.speedsGiven && (Given(db, since, p) || Given(db, since, x)) && y != p && y != x
  }

  lemma ScratchInPrefix(w0: World, db: Db, since: nat, order: seq<Name>, junk: Buffer, n: Name, x: Name, y: Name)
    requires n in w0.ifs && ParentModified(db, since, n) && BufferFits(w0, db, since, n, x, y)
    requires junk == w0.ifs[n].user.speeds
    requires var prefix := OvertakingPrefix(db, since, n, x, y);
      |prefix| <= |order| && forall i :: 0 <= i < |prefix| ==> order[i] == prefix[i]
    ensures var kn := |OvertakingPrefix(db, since, n, x, y)| - 1;
      db.rows[n].cfg.speedsGiven || ScratchAt(db, since, order, junk, kn) == w0.ifs[n].user.speeds
  {
    hide Given;
    var p, prefix := db.rows[n].splitParent.value, OvertakingPrefix(db, since, n, x, y);
    assert order[0] == prefix[0] && order[|prefix| - 1] == prefix[|prefix| - 1] == n;
    assert ScratchAt(db, since, order, junk, 0) == junk;
    if |prefix| > 2 { assert order[1] == prefix[1]; }
    if |prefix| > 3 { assert order[2] == prefix[2]; }
  }

  lemma OldPortHappens(w0: World, db: Db, since: nat, n: Name) returns (order: seq<Name>, junk: Buffer)
    requires Ready(w0, db, since) && n in w0.ifs && n in db.rows && CanHaveOldPort(w0, db, since, n)
    ensures InOrder(w0, db, since, order) && TagAt(w0, db, since, order, junk, |order|, n) == Overtaken
  {
    hide Ready, AlwaysChanged, NewModule, LaneChanged, ConnectorChanged, BufferFits, OwnChange, TagAt, SplitFlag,
      PmFlag, Pushed;
    var x, y :| x != n && BufferFits(w0, db, since, n, x, y)
      && (ConnectorChanged(w0, db, since, x) || (!NewModule(w0, db, n) && LaneChanged(w0, db, since, x)));
    AlarmsCached(w0, db, since, x);
    ParentCached(w0, db, since, n);
    FittingCached(w0, db, since, n, x, y);
    junk := w0.ifs[n].user.speeds;
    var p, prefix := db.rows[n].splitParent.value, OvertakingPrefix(db, since, n, x, y);
    order := OrderFrom(w0, db, since, prefix);
    var kn, jp := Standing(w0, db, since, order, n);
    var j := if x == p then 0 else 1;
    assert order[0] == prefix[0] == x && order[j] == prefix[j] == p && order[|prefix| - 1] == prefix[|prefix| - 1] == n;
    assert jp == j && kn == |prefix| - 1;
    FlagsAfter(w0, db, since, order, x, p, jp, 0);
    ParentsFlags(w0, db, since, order, n, kn, jp, kn);
    ScratchInPrefix(w0, db, since, order, junk, n, x, y);
    NothingNew(w0, db, since, order, junk, kn, n);
    TagEnd(w0, db, since, order, junk, n, kn, jp);
  }

  lemma FittingCached(w0: World, db: Db, since: nat, n: Name, x: Name, y: Name)
    requires Ready(w0, db, since) && n in w0.ifs && ParentModified(db, since, n) && BufferFits(w0, db, since, n, x, y)
    ensures OnlyYFits(db, since, n, x, y) ==> y in w0.ifs && y != n
  {
  }

  lemma NothingNew(w0: World, db: Db, since: nat, order: seq<Name>, junk: Buffer, k: nat, n: Name)
    requires k <= |order| && n in w0.ifs && n in db.rows && !AlwaysChanged(w0, db, n)
    requires db.rows[n].cfg.speedsGiven || ScratchAt(db, since, order, junk, k) == w0.ifs[n].user.speeds
    requires Pushed(w0, db, since, order, k, n) || !NewModule(w0, db, n)
    ensures !OwnChange(w0, db, since, order, junk, k, n)
  {
    hide Pushed, ScratchAt;
  }

  /** Every possible outcome is the one of some order and some content of the buffer. */
  lemma PossibleHappens(w0: World, db: Db, since: nat, n: Name, o: Outcome) returns (order: seq<Name>, junk: Buffer)
    requires Ready(w0, db, since) && n in w0.ifs && n in db.rows && !IsIns(db, since, n)
    requires Possible(w0, db, since, n, o)
    ensures InOrder(w0, db, since, order) && OutcomeOf(w0, db, since, order, junk, n) == o
  {
    hide Ready, CanStay, CanBeAnew, CanHaveOldPort, TagAt, EndPm;
    match o
    case AsBefore => order, junk := StayHappens(w0, db, since, n);
    case Anew(pm) => order, junk := AnewHappens(w0, db, since, n, pm);
    case OldPort => order, junk := OldPortHappens(w0, db, since, n);
  }

  /* ---------- when the records are determined ---------- */

  /** Every run leaves n the same record. */
  ghost predicate OneRecord(w0: World, db: Db, since: nat, n: Name) {
    forall o1, o2, j1, j2 :: InOrder(w0, db, since, o1) && InOrder(w0, db, since, o2) ==>
      SameRecord(Run(w0, db, since, o1, j1).w, Run(w0, db, since, o2, j2).w, n)
  }

  predicate SameRecord(a: World, b: World, n: Name) { n in a.rec && n in b.rec && a.rec[n] == b.rec[n] }

  /** Its possible outcomes agree. */
  ghost predicate Determined(w0: World, db: Db, since: nat, n: Name)
    requires n in w0.ifs && n in w0.rec && n in db.rows
  {
    forall a, b :: Possible(w0, db, since, n, a) && Possible(w0, db, since, n, b) ==>
      RecordFor(w0, db, since, n, a) == RecordFor(w0, db, since, n, b)
  }

  /** The record of an old physical interface is the same for every hash order and every
      content of the parse buffer if and only if its possible outcomes agree; which are
      possible is read off the cache and the rows. */
  lemma OneRecordExactly(w0: World, db: Db, since: nat, n: Name)
    requires Ready(w0, db, since) && n in w0.ifs && w0.ifs[n].kind == Physical && !IsIns(db, since, n)
    ensures n in w0.rec && n in db.rows
    ensures OneRecord(w0, db, since, n) <==> Determined(w0, db, since, n)
  {
    hide Ready, Possible, RecordFor, OutcomeOf, Enumerates, Run;
    RowsCached(w0, db, since);
    if Determined(w0, db, since, n) {
      forall o1, o2, j1, j2 | InOrder(w0, db, since, o1) && InOrder(w0, db, since, o2)
        ensures SameRecord(Run(w0, db, since, o1, j1).w, Run(w0, db, since, o2, j2).w, n)
      {
        DeterminedSame(w0, db, since, o1, o2, j1, j2, n);
      }
    }
    if OneRecord(w0, db, since, n) {
      forall a, b | Possible(w0, db, since, n, a) && Possible(w0, db, since, n, b)
        ensures RecordFor(w0, db, since, n, a) == RecordFor(w0, db, since, n, b)
      {
        var o1, j1 := PossibleHappens(w0, db, since, n, a);
        var o2, j2 := PossibleHappens(w0, db, since, n, b);
        RecordAtEnd(w0, db, since, o1, j1, n);
        RecordAtEnd(w0, db, since, o2, j2, n);
        assert SameRecord(Run(w0, db, since, o1, j1).w, Run(w0, db, since, o2, j2).w, n);
      }
    }
  }

  lemma DeterminedSame(w0: World, db: Db, since: nat, o1: seq<Name>, o2: seq<Name>, j1: Buffer, j2: Buffer, n: Name)
    requires InOrder(w0, db, since, o1) && InOrder(w0, db, since, o2)
    requires n in w0.ifs && w0.ifs[n].kind == Physical && !IsIns(db, since, n)
    requires n in w0.rec && n in db.rows && Determined(w0, db, since, n)
    ensures SameRecord(Run(w0, db, since, o1, j1).w, Run(w0, db, since, o2, j2).w, n)
  {
    hide InOrder, Possible, RecordFor, OutcomeOf, Run;
    RecordAtEnd(w0, db, since, o1, j1, n);
    RecordAtEnd(w0, db, since, o2, j2, n);
    OutcomeIsPossible(w0, db, since, o1, j1, n);
    OutcomeIsPossible(w0, db, since, o2, j2, n);
  }

  /** A new physical interface always has one record. */
  lemma NewHasOneRecord(w0: World, db: Db, since: nat, n: Name)
    requires Ready(w0, db, since) && n in w0.ifs && w0.ifs[n].kind == Physical && IsIns(db, since, n)
    ensures OneRecord(w0, db, since, n)
  {
    hide Ready, Derive, EndInputs, Run, InputsOf, Enumerates;
    forall o1, o2, j1, j2 | InOrder(w0, db, since, o1) && InOrder(w0, db, since, o2)
      ensures SameRecord(Run(w0, db, since, o1, j1).w, Run(w0, db, since, o2, j2).w, n)
    {
      InsertedIsFresh(w0, db, since, o1, j1, n);
      InsertedIsFresh(w0, db, since, o2, j2, n);
      InputsAtEnd(w0, db, since, o1, j1, n);
      InputsAtEnd(w0, db, since, o2, j2, n);
    }
  }

  ghost predicate RecordsDetermined(w0: World, db: Db, since: nat) {
    forall n :: n in w0.ifs && w0.ifs[n].kind == Physical ==> OneRecord(w0, db, since, n)
  }

  /** What is published depends on neither the hash order nor the uninitialised parse buffer
      if and only if the possible outcomes of every old physical interface agree. */
  lemma RecordsDeterminedExactly(w0: World, db: Db, since: nat)
    requires Ready(w0, db, since)
    ensures w0.ifs.Keys == w0.rec.Keys == db.rows.Keys
    ensures RecordsDetermined(w0, db, since) <==>
      forall n :: n in w0.ifs && w0.ifs[n].kind == Physical && !IsIns(db, since, n) ==> Determined(w0, db, since, n)
  {
    hide Ready, OneRecord, Determined;
    RowsCached(w0, db, since);
    forall n | n in w0.ifs && w0.ifs[n].kind == Physical
      ensures OneRecord(w0, db, since, n) <==> (!IsIns(db, since, n) ==> Determined(w0, db, since, n))
    {
      if IsIns(db, since, n) { NewHasOneRecord(w0, db, since, n); } else { OneRecordExactly(w0, db, since, n); }
    }
  }

  /* ---------- starting from agreement ---------- */

  /** An interface that may stay as it was ends with the inputs it had, port state aside. */
  lemma StayInputs(w0: World, db: Db, since: nat, n: Name)
    requires Ready(w0, db, since) && n in w0.ifs && n in db.rows && !IsIns(db, since, n) && CanStay(w0, db, since, n)
    ensures EndInputs(w0, db, since, n, w0.ifs[n].pm).(portAdmin := w0.ifs[n].portAdmin) == InputsOf(w0.ifs, n)
    ensures IsMod(db, since, n) ==> w0.ifs[n].pm == RowPm(db, n)
  {
    hide Families, PortAdminOf;
    ParentCached(w0, db, since, n);
    assert Placed(w0.ifs[n], db, since, n);
    if IsMod(db, since, n) { ParseMeaning(db.rows[n].cfg, w0.ifs[n].user.speeds); }
  }

  /** For an interface whose record agrees at the start the outcomes of a modified row come
      down to two records: with the new port state, and with the one cached before. */
  lemma ModifiedRecords(w0: World, db: Db, since: nat, n: Name, o: Outcome)
    requires Ready(w0, db, since) && n in w0.ifs && n in w0.rec && n in db.rows && IsMod(db, since, n)
    requires Fresh(w0, n) && Possible(w0, db, since, n, o)
    ensures RecordFor(w0, db, since, n, o)
         == var e := EndInputs(w0, db, since, n, RowPm(db, n));
            if o.Anew? then Derive(e) else Derive(e.(portAdmin := w0.ifs[n].portAdmin))
  {
    hide Ready, Derive, EndInputs, InputsOf, CanHaveOldPort;
    if o == AsBefore { StayInputs(w0, db, since, n); }
  }

  /** Both records are possible. */
  ghost predicate PortStateRaces(w0: World, db: Db, since: nat, n: Name)
    requires n in w0.ifs && n in db.rows
  {
    CanBeAnew(w0, db, since, n, RowPm(db, n)) && (CanStay(w0, db, since, n) || CanHaveOldPort(w0, db, since, n))
  }

  /** A modified interface that agrees at the start gets one record in all runs exactly
      when its port state is current, or something else disables it, or there is no race
      between refreshing the port state and deriving it. */
  lemma ModifiedHasOneRecord(w0: World, db: Db, since: nat, n: Name)
    requires Ready(w0, db, since) && n in w0.ifs && w0.ifs[n].kind == Physical && IsMod(db, since, n)
    requires n in w0.rec && n in db.rows && Fresh(w0, n)
    ensures OneRecord(w0, db, since, n) <==>
      PortAdminOf(db.ports, n) == w0.ifs[n].portAdmin
      || !OnlyPortMatters(EndInputs(w0, db, since, n, RowPm(db, n))) || !PortStateRaces(w0, db, since, n)
  {
    hide Ready, Derive, RecordFor, CanStay, CanHaveOldPort, OnlyPortMatters, OneRecord, Fresh;
    OneRecordExactly(w0, db, since, n);
    var e := EndInputs(w0, db, since, n, RowPm(db, n));
    PortStateOnly(e, w0.ifs[n].portAdmin);
    forall o | Possible(w0, db, since, n, o)
      ensures RecordFor(w0, db, since, n, o)
           == if o.Anew? then Derive(e) else Derive(e.(portAdmin := w0.ifs[n].portAdmin))
      ensures o.Anew? ==> o.pm == RowPm(db, n)
    {
      ModifiedRecords(w0, db, since, n, o);
    }
    if PortStateRaces(w0, db, since, n) {
      assert Possible(w0, db, since, n, Anew(RowPm(db, n)));
      assert Possible(w0, db, since, n, AsBefore) || Possible(w0, db, since, n, OldPort);
    }
  }

  /** An unmodified one that agrees at the start gets one record in all runs exactly when
      its old and its parent's module information give the same record, or only one of
      them can be the last. */
  lemma UnmodifiedHasOneRecord(w0: World, db: Db, since: nat, n: Name)
    requires Ready(w0, db, since) && n in w0.ifs && w0.ifs[n].kind == Physical && !IsMod(db, since, n)
    requires !IsIns(db, since, n)
    requires n in w0.rec && n in db.rows && Fresh(w0, n)
    ensures OneRecord(w0, db, since, n) <==>
      Derive(EndInputs(w0, db, since, n, w0.ifs[n].pm)) == Derive(EndInputs(w0, db, since, n, RowPm(db, n)))
      || !CanBeAnew(w0, db, since, n, RowPm(db, n))
      || !(CanStay(w0, db, since, n) || CanBeAnew(w0, db, since, n, w0.ifs[n].pm))
  {
    hide Ready, Derive, OneRecord, CanStay, InputsOf;
    OneRecordExactly(w0, db, since, n);
    if CanStay(w0, db, since, n) {
      StayInputs(w0, db, since, n);
      assert EndInputs(w0, db, since, n, w0.ifs[n].pm) == InputsOf(w0.ifs, n);
    }
    assert Possible(w0, db, since, n, Anew(RowPm(db, n))) <==> CanBeAnew(w0, db, since, n, RowPm(db, n));
    assert Possible(w0, db, since, n, Anew(w0.ifs[n].pm)) <==> CanBeAnew(w0, db, since, n, w0.ifs[n].pm);
    assert Possible(w0, db, since, n, AsBefore) <==> CanStay(w0, db, since, n);
    forall o | Possible(w0, db, since, n, o)
      ensures o == AsBefore || o == Anew(RowPm(db, n)) || o == Anew(w0.ifs[n].pm)
    {
    }
  }

  /* ---------- agreement at the end ---------- */

  /** In every run the record of n ends in agreement with the cache. */
  ghost predicate AlwaysAgrees(w0: World, db: Db, since: nat, n: Name) {
    forall order, junk :: InOrder(w0, db, since, order) ==> EndsFresh(Run(w0, db, since, order, junk).w, n)
  }

  ghost predicate EndsFresh(w: World, n: Name) { n in w.ifs && n in w.rec && Fresh(w, n) }

  lemma EndsFreshExactly(w0: World, db: Db, since: nat, order: seq<Name>, junk: Buffer, n: Name)
    requires InOrder(w0, db, since, order) && n in w0.ifs && w0.ifs[n].kind == Physical && !IsIns(db, since, n)
    ensures n in db.rows && n in w0.rec
    ensures EndsFresh(Run(w0, db, since, order, junk).w, n) <==>
      RecordFor(w0, db, since, n, OutcomeOf(w0, db, since, order, junk, n))
      == Derive(EndInputs(w0, db, since, n, EndPm(w0, db, since, order, n)))
  {
    hide InOrder, Derive, RecordFor, OutcomeOf, EndInputs, EndPm, Run, InputsOf;
    RecordAtEnd(w0, db, since, order, junk, n);
    InputsAtEnd(w0, db, since, order, junk, n);
  }

  /** The refreshed port state: a modified physical interface that agrees at the start ends
      in agreement in every run exactly when its port state was current, or something else
      disables it, or its visit always comes with a derivation. */
  lemma RefreshedPortState(w0: World, db: Db, since: nat, n: Name)
    requires Ready(w0, db, since) && n in w0.ifs && w0.ifs[n].kind == Physical && IsMod(db, since, n)
    requires n in w0.rec && n in db.rows && Fresh(w0, n)
    ensures AlwaysAgrees(w0, db, since, n) <==>
      PortAdminOf(db.ports, n) == w0.ifs[n].portAdmin
      || !OnlyPortMatters(EndInputs(w0, db, since, n, RowPm(db, n)))
      || !(CanStay(w0, db, since, n) || CanHaveOldPort(w0, db, since, n))
  {
    hide Ready, Derive, RecordFor, CanStay, CanHaveOldPort, OnlyPortMatters, Fresh, OutcomeOf, Run, Enumerates,
      EndsFresh, CanBeAnew;
    var e := EndInputs(w0, db, since, n, RowPm(db, n));
    PortStateOnly(e, w0.ifs[n].portAdmin);
    forall order, junk | InOrder(w0, db, since, order)
      ensures Possible(w0, db, since, n, OutcomeOf(w0, db, since, order, junk, n))
      ensures EndsFresh(Run(w0, db, since, order, junk).w, n)
        <==> OutcomeOf(w0, db, since, order, junk, n).Anew? || Derive(e.(portAdmin := w0.ifs[n].portAdmin)) == Derive(e)
    {
      EndsFreshExactly(w0, db, since, order, junk, n);
      OutcomeIsPossible(w0, db, since, order, junk, n);
      ModifiedRecords(w0, db, since, n, OutcomeOf(w0, db, since, order, junk, n));
    }
    if CanStay(w0, db, since, n) {
      var order, junk := PossibleHappens(w0, db, since, n, AsBefore);
    } else if CanHaveOldPort(w0, db, since, n) {
      var order, junk := PossibleHappens(w0, db, since, n, OldPort);
    }
  }

  /** An unmodified one always ends in agreement if it starts there. */
  lemma UnmodifiedAgrees(w0: World, db: Db, since: nat, n: Name)
    requires Ready(w0, db, since) && n in w0.ifs && w0.ifs[n].kind == Physical && !IsMod(db, since, n)
    requires !IsIns(db, since, n)
    requires n in w0.rec && Fresh(w0, n)
    ensures AlwaysAgrees(w0, db, since, n)
  {
    hide Ready, Derive, Run, InputsOf;
    forall order, junk | InOrder(w0, db, since, order) ensures EndsFresh(Run(w0, db, since, order, junk).w, n) {
      BatchAgreement(w0, db, since, order, junk, n);
    }
  }
}
