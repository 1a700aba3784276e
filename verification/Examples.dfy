/** Concrete rows on which the claims that fail do fail. */
module Examples {
  import opened Base
  import opened SpeedText
  import opened UserConfig
  import opened Derivation
  import opened World
  import opened Batch
  import opened BatchTheorems
  import opened Tracking
  import opened Outcomes
  import opened PortMembers
  import opened PortPass
  import opened ArbiterSpec
  import opened Reconfigure

  /* ---------- the hash order and the module information of a child ---------- */

  const PARENT := "1"
  const CHILD := "1-1"
  const OTHER := "2"

  const HW := HwInfo(true, false, [10000, 40000])
  const USER_UP: UserCfg := UserCfg(AdminUp, AutonegDefault, PauseNone, DuplexFull, Split, ZEROS, 0, 0)
  const CFG: RowCfg := RowCfg(USER_UP, false)

  /** The parent's module has just become supported; its connector is the same. */
  const PARENT_ROW := Row(Physical, CFG, HW, Module(QsfpCr4, StatusSupported), Module(SfpDac, StatusSupported),
                          None, [CHILD], None, 0, 2)
  const CHILD_ROW := Row(Physical, CFG, HW, Module(Unknown, StatusUnsupported), Module(Unknown, StatusUnsupported),
                         Some(PARENT), [], None, 0, 0)
  /** Somewhere else a module has been plugged in. */
  const OTHER_ROW := Row(Physical, CFG, HW, Module(SfpSr, StatusSupported), Module(Unknown, StatusUnsupported),
                         None, [], None, 0, 2)

  const DB := Db(map[PARENT := PARENT_ROW, CHILD := CHILD_ROW, OTHER := OTHER_ROW],
                 [PortRow("lag1", AdminUp, [PARENT, CHILD, OTHER], 0)], 2)

  const IFS := map[
    PARENT := IfaceV(Physical, HW, AdminUp, USER_UP, Module(QsfpCr4, StatusUnsupported), None, Some([CHILD])),
    CHILD := IfaceV(Physical, HW, AdminUp, USER_UP, Module(SfpDac, StatusUnsupported), Some(PARENT), None),
    OTHER := IfaceV(Physical, HW, AdminUp, USER_UP, Module(Absent, StatusSupported), None, None)]

  const W0 := World(IFS, map n | n in IFS :: FRESH_OP, map n | n in IFS :: Derive(InputsOf(IFS, n)), 0)

  lemma NamesDiffer()
    ensures PARENT != CHILD && PARENT != OTHER && CHILD != OTHER
  {
    assert PARENT[0] != OTHER[0];
  }

  lemma Owned(n: Name)
    requires n in IFS
    ensures PortAdminOf(DB.ports, n) == AdminUp
  {
    NamesDiffer();
    var members := DB.ports[0].members;
    assert members[0] == PARENT && members[1] == CHILD && members[2] == OTHER;
  }

  lemma FamilyAt(n: Name)
    requires n in DB.rows
    ensures FamilyOk(DB.rows, 1, n)
  {
    NamesDiffer();
    assert CHILD in [CHILD];
  }

  lemma PlacedAt(n: Name)
    requires n in IFS
    ensures n in DB.rows && Placed(IFS[n], DB, 1, n)
  {
    NamesDiffer();
  }

  lemma StartIsReady()
    ensures Ready(W0, DB, 1)
  {
    hide Derive, FRESH_OP, FamilyOk, Placed, InputsOf;
    forall n | n in DB.rows ensures FamilyOk(DB.rows, 1, n) { FamilyAt(n); }
    forall n | n in W0.ifs ensures n in DB.rows && Placed(W0.ifs[n], DB, 1, n) { PlacedAt(n); }
  }

  lemma StartIsClean(n: Name)
    requires n in IFS
    ensures CleanStart(W0, DB, 1, n)
  {
    hide Derive, PortAdminOf;
    Owned(n);
  }

  function ChildInputs(pm: PmInfo): Inputs {
    Inputs(Physical, Meaning(USER_UP), pm, AdminUp, false, Some(Split), HW.speeds)
  }

  /** With its parent's new module the child is enabled, with the old one it is not. */
  lemma ChildRecords()
    ensures IsEnabled(Derive(ChildInputs(Module(SfpDac, StatusSupported))).hw)
    ensures Derive(ChildInputs(Module(SfpDac, StatusUnsupported))).error == Some(ModuleUnsupported)
  {
  }

  lemma ChildAtEnd(order: seq<Name>, junk: Buffer)
    requires InOrder(W0, DB, 1, order)
    ensures var w := Run(W0, DB, 1, order, junk).w;
      CHILD in w.rec && w.rec[CHILD] == Derive(ChildInputs(
        Module(SfpDac, if Pushed(W0, DB, 1, order, |order|, CHILD) then StatusSupported else StatusUnsupported)))
  {
    hide Derive, Run, CleanStart, Enumerates, Ready, Settled, Pushed;
    var w := Run(W0, DB, 1, order, junk).w;
    StartIsReady();
    StartIsClean(CHILD);
    NamesDiffer();
    BatchAgreement(W0, DB, 1, order, junk, CHILD);
    OutcomeForChild(W0, DB, 1, order, junk, CHILD);
    RunFacts(W0, DB, 1, order, junk, CHILD);
    RunFacts(W0, DB, 1, order, junk, PARENT);
  }

  /** In one order the child ends up enabled, in the other disabled. */
  lemma OrderDecides(j1: Buffer, j2: Buffer) returns (o1: seq<Name>, o2: seq<Name>)
    ensures InOrder(W0, DB, 1, o1) && InOrder(W0, DB, 1, o2)
    ensures var a, b := Run(W0, DB, 1, o1, j1).w, Run(W0, DB, 1, o2, j2).w;
      CHILD in a.rec && CHILD in b.rec && IsEnabled(a.rec[CHILD].hw) && b.rec[CHILD].error == Some(ModuleUnsupported)
  {
    hide Derive, Run, InOrder, Pushed, Ready;
    StartIsReady();
    NamesDiffer();
    o1, o2 := OrdersThatDiffer(W0, DB, 1, OTHER, CHILD);
    ChildAtEnd(o1, j1);
    ChildAtEnd(o2, j2);
    ChildRecords();
  }

  /* ---------- parent and child enabled at once ---------- */

  /** The row of a split parent now asks for the whole interface. */
  const MERGED_CFG: RowCfg := RowCfg(USER_UP.(lane := NoSplit), false)

  const MERGED_DB := Db(map[PARENT := PARENT_ROW.(cfg := MERGED_CFG), CHILD := CHILD_ROW],
                        [PortRow("lag1", AdminUp, [PARENT, CHILD], 0)], 2)

  const SPLIT_IFS := map[
    PARENT := IfaceV(Physical, HW, AdminUp, USER_UP, Module(QsfpCr4, StatusSupported), None, Some([CHILD])),
    CHILD := IfaceV(Physical, HW, AdminUp, USER_UP, Module(SfpDac, StatusSupported), Some(PARENT), None)]

  const SPLIT_WORLD :=
    World(SPLIT_IFS, map n | n in SPLIT_IFS :: FRESH_OP, map n | n in SPLIT_IFS :: Derive(InputsOf(SPLIT_IFS, n)), 0)

  lemma SplitReady()
    ensures Ready(SPLIT_WORLD, MERGED_DB, 1)
  {
    hide Derive, FRESH_OP, InputsOf;
    NamesDiffer();
    assert CHILD in [CHILD];
    forall n | n in MERGED_DB.rows ensures FamilyOk(MERGED_DB.rows, 1, n) {}
    forall n | n in SPLIT_IFS ensures Placed(SPLIT_IFS[n], MERGED_DB, 1, n) {}
  }

  lemma SplitHonest(n: Name)
    requires n in SPLIT_IFS
    ensures Honest(SPLIT_WORLD, n)
  {
    hide Derive;
    DerivedIsHonest(InputsOf(SPLIT_IFS, n), SPLIT_IFS[n].portAdmin);
  }

  lemma MergedParentFine()
    ensures OtherwiseFine(MERGED_DB, PARENT, SPLIT_IFS[PARENT])
  {
    NamesDiffer();
    var members := MERGED_DB.ports[0].members;
    assert members[0] == PARENT;
  }

  /** Between two of its writes the visit of the parent publishes both as enabled; a
      reader of the database in one transaction sees only what is committed at the end. */
  lemma BothEnabledMidVisit(junk: Buffer)
    ensures var s := Start(SPLIT_WORLD, junk);
      && PARENT in s.w.rec && CHILD in s.w.rec
      && IsEnabled(MidVisit(s, MERGED_DB, PARENT).rec[PARENT].hw)
      && IsEnabled(MidVisit(s, MERGED_DB, PARENT).rec[CHILD].hw)
  {
    hide Derive, Ready, Honest, OtherwiseFine, FamilyOk, Placed, LinkAfter, MidVisit, PortAdminOf, InputsOf;
    var s := Start(SPLIT_WORLD, junk);
    NamesDiffer();
    SplitReady();
    LinksAtStart(SPLIT_WORLD, MERGED_DB, 1);
    ReadyIsAligned(SPLIT_WORLD, MERGED_DB, 1);
    SplitHonest(PARENT);
    SplitHonest(CHILD);
    MergedParentFine();
    SplitChildOn();
    EnabledTwiceWithinVisit(s, MERGED_DB, 1, [], PARENT, CHILD);
  }

  lemma SplitChildOn()
    ensures IsEnabled(SPLIT_WORLD.rec[CHILD].hw)
  {
    NamesDiffer();
    assert InputsOf(SPLIT_IFS, CHILD) == ChildInputs(Module(SfpDac, StatusSupported));
    ChildRecords();
  }

  /* ---------- the hash order, the parse buffer and the port state of a child ---------- */

  const USER_WHOLE: UserCfg := USER_UP.(lane := NoSplit)

  /** The parent is being split; the child's row was written again with nothing new. */
  const RACE_PARENT := PARENT_ROW
  const RACE_CHILD := CHILD_ROW.(modified := 2)

  const RACE_DB := Db(map[PARENT := RACE_PARENT, CHILD := RACE_CHILD],
                      [PortRow("lag1", AdminUp, [PARENT, CHILD], 0)], 2)

  /** The child's port has come up since it was derived. */
  const RACE_IFS := map[
    PARENT := IfaceV(Physical, HW, AdminUp, USER_WHOLE, Module(QsfpCr4, StatusSupported), None, Some([CHILD])),
    CHILD := IfaceV(Physical, HW, AdminDown, USER_UP, Module(SfpDac, StatusSupported), Some(PARENT), None)]

  const RACE :=
    World(RACE_IFS, map n | n in RACE_IFS :: FRESH_OP, map n | n in RACE_IFS :: Derive(InputsOf(RACE_IFS, n)), 0)

  lemma RaceFamilyAt(n: Name)
    requires n in RACE_DB.rows
    ensures FamilyOk(RACE_DB.rows, 1, n)
  {
    NamesDiffer();
    assert CHILD in [CHILD];
  }

  lemma RacePlacedAt(n: Name)
    requires n in RACE_IFS
    ensures Placed(RACE_IFS[n], RACE_DB, 1, n)
  {
    NamesDiffer();
  }

  lemma RaceReady()
    ensures Ready(RACE, RACE_DB, 1)
  {
    hide Derive, FRESH_OP, InputsOf, FamilyOk, Placed;
    NamesDiffer();
    forall n | n in RACE_DB.rows ensures FamilyOk(RACE_DB.rows, 1, n) { RaceFamilyAt(n); }
    forall n | n in RACE.ifs ensures Placed(RACE.ifs[n], RACE_DB, 1, n) { RacePlacedAt(n); }
  }

  /** Nothing here makes the cache depend on the order. */
  lemma RaceCacheIsDetermined()
    ensures !OrderSensitive(RACE, RACE_DB, 1) && OrderIrrelevant(RACE, RACE_DB, 1)
  {
    hide Derive, FRESH_OP, InputsOf, Ready, OrderIrrelevant;
    NamesDiffer();
    RaceReady();
    OrderMattersExactly(RACE, RACE_DB, 1);
  }

  lemma RaceStartsFresh()
    ensures Fresh(RACE, PARENT) && Fresh(RACE, CHILD)
  {
    hide Derive, InputsOf;
  }

  const PARENT_FIRST := [PARENT, CHILD]
  const CHILD_FIRST := [CHILD, PARENT]

  lemma RaceOrders()
    ensures InOrder(RACE, RACE_DB, 1, PARENT_FIRST) && InOrder(RACE, RACE_DB, 1, CHILD_FIRST)
  {
    hide Derive, FRESH_OP, InputsOf, Ready;
    NamesDiffer();
    RaceReady();
  }

  function RaceInputs(port: AdminState): Inputs {
    Inputs(Physical, Meaning(USER_UP), Module(SfpDac, StatusSupported), port, false, Some(Split), HW.speeds)
  }

  lemma RaceEnd()
    ensures EndInputs(RACE, RACE_DB, 1, CHILD, RowPm(RACE_DB, CHILD)) == RaceInputs(AdminUp)
  {
    hide Derive, FRESH_OP, InputsOf;
    NamesDiffer();
    var members := RACE_DB.ports[0].members;
    assert members[1] == CHILD;
    ParseMeaning(CFG, ZEROS);
  }

  /** The split flag goes up with the parent; the child finds a change only in a buffer
      that does not hold what it has cached. */
  lemma RaceFlags(junk: Buffer)
    ensures SplitFlag(RACE, RACE_DB, 1, PARENT_FIRST, 1) && SplitFlag(RACE, RACE_DB, 1, CHILD_FIRST, 2)
    ensures OwnChange(RACE, RACE_DB, 1, PARENT_FIRST, junk, 1, CHILD) <==> junk != ZEROS
    ensures OwnChange(RACE, RACE_DB, 1, CHILD_FIRST, junk, 0, CHILD) <==> junk != ZEROS
  {
    hide Derive, FRESH_OP, InputsOf;
    NamesDiffer();
    assert LaneChanged(RACE, RACE_DB, 1, PARENT_FIRST[0]) && LaneChanged(RACE, RACE_DB, 1, CHILD_FIRST[1]);
    assert ScratchAt(RACE_DB, 1, PARENT_FIRST, junk, 1) == ScratchAt(RACE_DB, 1, PARENT_FIRST, junk, 0) == junk;
    assert RACE_IFS[CHILD].pm == RowPm(RACE_DB, CHILD);
  }

  lemma RaceRecord(order: seq<Name>, junk: Buffer)
    requires order == PARENT_FIRST || order == CHILD_FIRST
    ensures var w := Run(RACE, RACE_DB, 1, order, junk).w;
      var port := if order == PARENT_FIRST && junk == ZEROS then AdminDown else AdminUp;
      CHILD in w.rec && w.rec[CHILD] == Derive(RaceInputs(port))
  {
    hide Derive, FRESH_OP, InputsOf, Ready, Run, OwnChange, SplitFlag, InOrder, EndInputs, TagAt;
    NamesDiffer();
    RaceOrders();
    RaceFlags(junk);
    RaceEnd();
    RecordAtEnd(RACE, RACE_DB, 1, order, junk, CHILD);
    var at := if order == PARENT_FIRST then 1 else 0;
    TagEnd(RACE, RACE_DB, 1, order, junk, CHILD, at, 1 - at);
  }

  lemma RaceRecords()
    ensures IsEnabled(Derive(RaceInputs(AdminUp)).hw)
    ensures Derive(RaceInputs(AdminDown)).error == Some(PortAdminDown)
  {
  }

  /** Everything agrees at the start, the cache ends the same in every run, and still the
      child is published enabled or not by the hash order, and by what the buffer on the
      stack happens to hold. */
  lemma BufferDecides(junk: Buffer)
    requires junk != ZEROS
    ensures var a, b, c := Run(RACE, RACE_DB, 1, CHILD_FIRST, ZEROS).w, Run(RACE, RACE_DB, 1, PARENT_FIRST, ZEROS).w,
                           Run(RACE, RACE_DB, 1, PARENT_FIRST, junk).w;
      && CHILD in a.rec && IsEnabled(a.rec[CHILD].hw)
      && CHILD in b.rec && b.rec[CHILD].error == Some(PortAdminDown)
      && CHILD in c.rec && IsEnabled(c.rec[CHILD].hw)
  {
    hide Derive, Run;
    NamesDiffer();
    RaceRecord(CHILD_FIRST, ZEROS);
    RaceRecord(PARENT_FIRST, ZEROS);
    RaceRecord(PARENT_FIRST, junk);
    RaceRecords();
  }

  /* ---------- two ports gone at once ---------- */

  const LAG1 := "lag1"
  const LAG2 := "lag2"

  /** Both ports have left the database since they were cached. */
  const TWO_GONE := Sys(Db(map[], [], 1), World(map[], map[], map[], 0), map[], map[LAG1 := [], LAG2 := []], 0)

  /** The turn forgets one of them and takes the database as dealt with. */
  lemma SecondGonePortStays(layers: seq<LayerV>, junk: Buffer)
    ensures ChanceOk(TWO_GONE, Chance(PortGone(LAG1), [], junk))
    ensures var s' := Turn(TWO_GONE, layers, Chance(PortGone(LAG1), [], junk)).s;
      s'.idl == s'.db.seqno && LAG2 in s'.ports && !NoGonePort(s'.db, s'.ports)
  {
    hide Run, ArbiterStage, SyncNames;
    assert LAG1[3] != LAG2[3];
    GonePortsExactly(TWO_GONE, layers, Chance(PortGone(LAG1), [], junk));
  }

  /* ---------- one port gone, another one new ---------- */

  /** One cached port has left the database, and a new one has come. */
  const GONE_AND_NEW :=
    Sys(Db(map[], [PortRow(LAG2, AdminUp, [], 1)], 1), World(map[], map[], map[], 0), map[], map[LAG1 := []], 0)

  /** With a row inserted the turn takes that way, and the gone port stays cached. */
  lemma GonePortOverlooked(layers: seq<LayerV>, columns: bool, junk: Buffer)
    ensures ChanceOk(GONE_AND_NEW, Chance(PortsChanged(true, columns), [], junk))
    ensures var s' := Turn(GONE_AND_NEW, layers, Chance(PortsChanged(true, columns), [], junk)).s;
      s'.idl == s'.db.seqno && LAG1 in s'.ports && !NoGonePort(s'.db, s'.ports)
  {
    hide Run, ArbiterStage, SyncNames, PortsTo, AddPorts;
    assert LAG1[3] != LAG2[3];
    GonePortsExactly(GONE_AND_NEW, layers, Chance(PortsChanged(true, columns), [], junk));
    GonePortStays(GONE_AND_NEW, layers, Chance(PortsChanged(true, columns), [], junk), LAG1);
  }

  /* ---------- an interface in two ports, and in none ---------- */

  const SOLO_ROW := Row(Physical, CFG, HW, Module(QsfpCr4, StatusSupported), Module(Unknown, StatusUnsupported),
                        None, [], None, 0, 0)
  const SOLO_IFS := map[OTHER := IfaceV(Physical, HW, AdminUp, USER_UP, Module(QsfpCr4, StatusSupported), None, None)]
  const SOLO := World(SOLO_IFS, map[OTHER := FRESH_OP], map[OTHER := Derive(InputsOf(SOLO_IFS, OTHER))], 0)

  /** Two ports list the interface, the first up, the second down; both have changed. */
  const SHARED_DB :=
    Db(map[OTHER := SOLO_ROW], [PortRow(LAG1, AdminUp, [OTHER], 2), PortRow(LAG2, AdminDown, [OTHER], 2)], 2)
  const SHARED_LISTS: map<Name, seq<Name>> := map[LAG1 := [OTHER], LAG2 := [OTHER]]

  lemma SoloHalfway()
    ensures AllHalfway(SOLO, SHARED_DB, 1) && PortsLive(SHARED_DB, SHARED_LISTS) && PortNames(SHARED_DB)
  {
    hide Derive, FRESH_OP, InputsOf;
    assert LAG1[3] != LAG2[3];
    DerivedIsHonest(InputsOf(SOLO_IFS, OTHER), AdminUp);
    assert InputsOf(SOLO_IFS, OTHER).portAdmin == AdminUp by { InputsPort(SOLO_IFS, OTHER); }
    assert Halfway(SOLO, SHARED_DB, 1, OTHER);
    forall p | p in SHARED_DB.ports ensures PortLive(SHARED_DB, SHARED_LISTS, p) {}
  }

  /** The pass leaves the interface with the second port's state, where port_parse_admin
      finds the first. */
  lemma SharedIsNotCurrent()
    ensures var w := PortsTo(Staged(SOLO, SHARED_LISTS, false), SHARED_DB, 1, 2).w;
      OTHER in w.ifs && w.ifs[OTHER].portAdmin == AdminDown && PortAdminOf(SHARED_DB.ports, OTHER) == AdminUp
  {
    hide AllHalfway, PortsLive, PortNames, PortsTo, SameFrame, Fresh;
    SoloHalfway();
    PortsPass(Staged(SOLO, SHARED_LISTS, false), SHARED_DB, 1, 2, OTHER);
  }

  /** The only port that listed the interface has dropped it. */
  const DROPPED := PortRow(LAG1, AdminUp, [], 2)
  const DROPPED_DB := Db(map[OTHER := SOLO_ROW], [DROPPED], 2)

  lemma SoloEnabled(baseMtu: int)
    ensures IsEnabled(SOLO.rec[OTHER].hw) && SOLO.rec[OTHER].error == None && SoundRecord(SOLO.rec[OTHER], baseMtu)
  {
    hide SoundRecord;
    DerivedIsSound(InputsOf(SOLO_IFS, OTHER), baseMtu);
  }

  /** It was enabled; now it is off without an error. */
  lemma DroppedWithoutError(baseMtu: int)
    ensures var w := ProcessPort(SOLO, DROPPED_DB, DROPPED, [OTHER]);
      && SoundRecord(SOLO.rec[OTHER], baseMtu)
      && OTHER in w.rec && w.rec[OTHER] == Record(None, HW_OFF) && !SoundRecord(w.rec[OTHER], baseMtu)
  {
    hide Derive, ProcessPort;
    SoloEnabled(baseMtu);
    DepartedRecord(SOLO, DROPPED_DB, DROPPED, [OTHER], OTHER);
  }
}
