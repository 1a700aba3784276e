# Verified model of the OpenSwitch interface daemon

This project models ops-intfd in Dafny and proves properties of it. The daemon watches the
Interface and Port tables, keeps a cache of interfaces that are linked as split parents and
children, decides for each whether it is enabled and how it is set up (`hw_intf_config`,
`error`), and tells for each whether it may forward (`forwarding_state`). The CLI edits the
`user_config` column the daemon reads, prints it back, and lists interfaces by name.

`dafny verify dfyconfig.toml` checks everything.

## Layout

Each stage is told twice: as a function on values, which the theorems are about, and as
imperative code in the form of the original, proved to compute that function.

| file | content |
|---|---|
| `Base.dfy` | options, names, hash iteration orders |
| `SpeedText.dfy`, `UserConfig.dfy`, `Rows.dfy` | comma lists in fixed buffers, the `user_config` column, the other row text |
| `Derivation.dfy`, `Published.dfy` | op_state, published columns, and a derivation from scratch; what the columns say, read off the columns |
| `World.dfy`, `Batch.dfy`, `BatchTheorems.dfy` | rows, cache and records as values; the modification loop; what a run of it guarantees |
| `Tracking.dfy`, `Outcomes.dfy` | one record through the loop; all the records a batch can leave, and when there is one |
| `PortMembers.dfy`, `PortPass.dfy` | member changes of one port; the pass over all of them |
| `ArbiterSpec.dfy`, `Arbiter.dfy` | forwarding verdicts; the linked lists of layers and protocols and the walks over them |
| `Reconfigure.dfy`, `Runs.dfy`, `Agreement.dfy`, `Arrivals.dfy` | one turn; all runs of the daemon; what records rest on throughout, and when they agree with a full recomputation; new ports and interfaces, and what a turn reports |
| `Interface.dfy`, `Engine.dfy`, `PortEngine.dfy`, `Daemon.dfy` | `struct iface`, the loop, the port passes and the turn on mutable objects |
| `NameOrder.dfy`, `Commands.dfy` | the CLI comparator; the commands and the two printers |
| `Examples.dfy` | concrete inputs on which claims fail |

Hash iteration is an arbitrary sequence that lists every key once. The stack buffer the
loop parses into starts with arbitrary content. The way `port_reconfigure` takes, and which
of several gone ports it meets first, is an arbitrary choice in every turn. A run is any
sequence of database changes, skipped turns and turns.

## Assumptions

They are the `requires` of the lemmas and the conditions on a database change in `Runs.dfy`.

- Protocol ids increase along each list, and PROTO_NONE ranks after all of them
  (include/intfd.h:245-248, src/intfd_arbiter.c:189). Every layer runs
  `intfd_arbiter_layer_run`; layers have distinct ids and so distinct keys.
- Split families are two levels deep and closed; they are inserted and removed together.
  A surviving row keeps its type, hardware columns and family. A name the daemon still
  caches is not deleted and created again before its next turn
  (src/intfd_ovsdb_if.c:1642-1648 does not parse the settings of an inserted row again).
- Any change of a row stamps it with a newer sequence number. The base MTU is fixed. A
  hardware speed list is present. Rows read back the daemon's own writes.
- Port names are distinct, interfaces of a port too. Ports that still exist list live
  interfaces, now and when their members were cached.

## What does not hold

- The hash order can decide the cache. `pm_info_changed` is never cleared inside the loop,
  so an unmodified child gets its parent's new module status or not depending on whether
  some other connector change was visited first. `OrderMattersExactly` gives the exact
  condition, `OrderDecides` concrete rows.
- The hash order, and the uninitialised buffer `new_user_cfg.speeds`
  (src/intfd_ovsdb_if.c:1629, 1691-1696), can decide the published records as well, where
  the cache ends the same in every run. A port state refreshed at
  src/intfd_ovsdb_if.c:1656 does not count as a change, so a record shows it only if a
  derivation happens to come with or after it: because the row differs, because the buffer
  held something else than the cached speeds, or because the parent's visit comes later
  with a flag set. `OneRecordExactly` and `RecordsDeterminedExactly` give the exact condition,
  `BufferDecides` an input. A cached port state can be old at that point because
  src/intfd_ovsdb_if.c:1976-1982 and 1989 skip the port pass while idl_seqno moves on.
- "Published equals derived" at the end of a batch therefore needs the cached port state
  of a modified interface to be current, or something else to disable it, or a derivation
  that is forced (`RefreshedPortState`); over whole runs `RunAgreement` gives the exact
  condition. Exclusion of split parent and child needs none of these.
- Where two ports share an interface the last handled one decides its port state, while
  port_parse_admin finds the first (`PassedIsCurrent`, `SharedIsNotCurrent`).
- A reset of a departed or orphaned member switches the interface off without setting an
  error (`SwitchedOffRecord`, `DroppedWithoutError`).
- Logical interfaces can be enabled after validation returned early; then stale op_state
  is published (`LogicalHistory`, `PastShows`).
- Inside one visit a parent that gives its lanes back is published while its children are
  still enabled (`EnabledTwiceWithinVisit`, `BothEnabledMidVisit`); no transaction ends there.
- `flowcontrol` treats a stored "none", which other clients may write, as both directions
  on (`FlowTurnsOneDirection`, `FlowOnStoredNone`).
- `show running-config` prints `split` ahead of the settings a split interface refuses,
  and hides loopbacks and the children of a parent that is not split, whose settings stay
  (`ContextReplayExactly`, `SplitFirstFails`, `HiddenChildLost`, `LoopbackLost`).
- `show running-config interface` prints `split` last and is safe, but with an interface
  named it stops behind flowcontrol (`FilteredReplayExactly`, `FilteredReplayFails`).
- `mtu` accepts a plus sign, and values above the base MTU, which the daemon refuses: the
  command succeeds and the interface is disabled for an invalid MTU (`AcceptedMtuIsTaken`,
  `PlusIsLost`).
- The comparator ties `10` and `10-0` (`ExplicitZeroTies`), and puts bridge_normal before
  itself.
- DESIGN_intfd_arbiter.md draws a loop over every protocol; the code stops at the first one
  that blocks. The model follows the code, and `FirstBlockerIsEnough` shows that the owner
  is the same either way.
- A gone port stays cached if another one is gone too, if a port was inserted in the same
  batch, or if port handling is cut short (`GonePortsExactly`, `SecondGonePortStays`,
  `GonePortOverlooked`).

## Model

| member | source | states |
|---|---|---|
| `SpeedText.TokensAtComma` | src/intfd_ovsdb_if.c:451-475 | splitting at commas: the words of `a,b` are those of `a` and then those of `b`, so empty words and stray commas do not matter |
| `SpeedText.ParseSpeeds` | src/intfd_ovsdb_if.c:451-475 | count and whole buffer after parsing: the words accepted before the first bad one, the rest of the ten entries untouched, -1 if a word is not a number or is the eleventh; no write past entry 9 |
| `SpeedText.ParsedPrefix` | src/intfd_ovsdb_if.c:451-475 | when the count is not -1 the first entries of the buffer are exactly the listed numbers, whatever it held before |
| `SpeedText.UserSpeedCount` | src/intfd_ovsdb_if.c:675-707 | positive exactly when 1 to 10 words, all digits, no more than the hardware list has, each in the hardware list; 0 exactly when there is no word |
| `SpeedText.CheckUserSpeeds` | src/intfd_ovsdb_if.c:671-707 | the nested search loops compute that count and leave the parsed buffer |
| `SpeedText.SpeedTextRoundTrip` | src/intfd_ovsdb_if.c:1556-1569 | the comma text written for 1 to 10 speeds parses back to the same list |
| `SpeedText.JoinLength` | src/intfd_ovsdb_if.c:1556-1569 | the text of n speeds has at most 11n - 1 characters |
| `SpeedText.PrintSpeeds` | src/intfd_ovsdb_if.c:1556-1569 | the sprintf chain writes that text and its terminator within the 200-byte buffer |
| `UserConfig.IntfdParseUserCfg` | src/intfd_ovsdb_if.c:611-730 | the parsed settings and buffer as a function of the column's text; without a speeds key the buffer keeps what it held |
| `UserConfig.ParseMeaning` | src/intfd_ovsdb_if.c:671-707 | what the cached settings mean does not depend on what the buffer held before |
| `UserConfig.ReadMeaning` | src/intfd_ovsdb_if.c:611-730 | the cached settings mean what the row's text asks for: speeds only if supported, refused lists marked |
| `UserConfig.ParseMtu` | src/intfd_ovsdb_if.c:709-721 | 0 exactly when not configured, otherwise -1 or a value between 576 and the base MTU |
| `Published.SettingsByText` | src/intfd_ovsdb_if.c:611-730 | only the texts up, off, on, rx, tx, rxtx, half and split turn a setting from its default |
| `Derivation.ReasonIsFirst` | src/intfd_ovsdb_if.c:1156-1222 | the derived reason is the applicable one of the highest priority in the documented ranking |
| `Derivation.PublishedIsDerived` | src/intfd_ovsdb_if.c:1305-1619 | history independence: for a physical interface the published error and hw_intf_config are a function of the inputs, whatever op_state was left behind by earlier derivations and early returns |
| `Derivation.LogicalHistory` | src/intfd_ovsdb_if.c:1232-1247 | for internal, vlansubint and loopback interfaces, over all sequences of earlier derivations since the interface was created, with other modules where one is plugged in: what is published is independent of them if and only if not (up while validation gives up on the MTU, or on the speeds where the module, or one that may have been there, negotiates) |
| `Derivation.PastShows` | src/intfd_ovsdb_if.c:1305-1489 | in each such case: a new interface and one that was once configured in a way validation takes publish different columns |
| `Rows.FixedModule` | src/intfd_ovsdb_if.c:801-822 | an interface into which nothing is plugged has one module for good |
| `Derivation.RowSettingsOk` | src/intfd_ovsdb_if.c:709-721 | settings read from any row have at most ten speeds and an MTU that is unset, refused or in range |
| `Derivation.DerivedIsSound` | src/intfd_ovsdb_if.c:1491-1576 | error unset exactly when enabled, reason never uninitialized and first applicable; enabled means at least one speed, exactly one without autoneg, MTU 1500 or between 576 and the base MTU |
| `Derivation.EnabledMeansPortUp` | src/intfd_ovsdb_if.c:1248-1303 | an enabled derivation needs port and interface up, lanes not taken and a split parent |
| `Published.ConnectorFacts` | src/intfd_ovsdb_if.c:265-400 | module by module: which are let in, at what rate they run, which negotiate, and that a published type is one of that rate |
| `Published.TypesApart` | src/intfd_ovsdb_if.c:313-400 | a published type with a name tells the connector |
| `Published.RefusedExactly` | src/intfd_ovsdb_if.c:1385-1487 | which wishes for autonegotiation are refused, for every capability |
| `Published.AgreedSpeeds` | src/intfd_ovsdb_if.c:1385-1487 | what an accepted one comes to: the user's speeds, the first of them without negotiation, or without any the module's, or the highest of the hardware where negotiation is optional and off |
| `Published.EnabledColumns` | src/intfd_ovsdb_if.c:1305-1576 | every key published for an enabled physical interface, from the settings and the connector: the speeds text parses to the user's speeds, all with negotiation and the first without, or to the module's rate; negotiation on if set, or by default for the modules that need it; duplex, pause, MTU and type |
| `Published.NegotiationErrors` | src/intfd_ovsdb_if.c:1385-1487 | autoneg_required exactly for off with a module that negotiates, autoneg_not_supported exactly for on with one that does not, where nothing of a higher priority applies |
| `Published.LogicalColumns` | src/intfd_ovsdb_if.c:1232-1247 | an interface of a logical kind is enabled exactly when its row and its port are up, and says which is not |
| `Published.ModuleByText` | src/intfd_ovsdb_if.c:796-913 | a plugged module is let in by its connector and the status supported, a fixed one if it is RJ45 |
| `Published.LaneByText` | src/intfd_ovsdb_if.c:733-793 | a lane is let in exactly if the parent's text names a supported module of four lanes |
| `Published.LaneRate` | src/intfd_ovsdb_if.c:733-793 | it runs at a quarter of the module's rate, or at 10G for 100G copper that supports 40000 only |
| `Published.LaneMedium` | src/intfd_ovsdb_if.c:733-793 | on the same medium |
| `Published.PortByText` | src/intfd_ovsdb_if.c:530-535 | a port is down only if it has an admin entry other than up |
| `Interface.HighestSpeed` | src/intfd_ovsdb_if.c:992-1011 | the loop finds the maximum, 0 for an empty list |
| `Interface.Iface.constructor` | src/intfd_ovsdb_if.c:1063-1098 | a new interface is zeroed but for what its row gives |
| `Interface.Iface.SetOpStateMtu` | src/intfd_ovsdb_if.c:1578-1593 | only the MTU of op_state changes: the default when unset |
| `Interface.Iface.SetCapability` | src/intfd_ovsdb_if.c:1324-1370 | capability and native speed from the module, entries past n_speeds unspecified |
| `Interface.Iface.OverrideAutoneg` | src/intfd_ovsdb_if.c:1372-1487 | the branch chain agrees with the negotiation table, which `RefusedExactly` and `AgreedSpeeds` give outright, for every capability, also the ones no module sets |
| `Interface.Iface.ValidateNSetInterfaceCapability` | src/intfd_ovsdb_if.c:1305-1489 | validation in place, with its two early returns, is the specified step on what op_state shows |
| `Interface.Iface.CalcPhysical` | src/intfd_ovsdb_if.c:1248-1303 | the priority chain for physical interfaces |
| `Interface.Iface.CalcLogical` | src/intfd_ovsdb_if.c:1232-1247 | the chain for the logical types |
| `Interface.Iface.CalcIntfOpStateNReason` | src/intfd_ovsdb_if.c:1223-1303 | enabled and reason after the chain, the rest of op_state as before |
| `Interface.Iface.HwConfigColumns` | src/intfd_ovsdb_if.c:1491-1576 | the two columns are what op_state says to publish |
| `Interface.Iface.SetInterfaceConfig` | src/intfd_ovsdb_if.c:1595-1619 | the whole in-place derivation refines the step on values; nothing past n_speeds reaches the columns |
| `Interface.Iface.MergeUser` | src/intfd_ovsdb_if.c:1666-1707 | the field-by-field merge takes over the new settings and reports exactly whether any, and whether lane_split, differed |
| `Interface.Iface.MergeSpeeds` | src/intfd_ovsdb_if.c:1691-1696 | its loop over the ten-entry buffers |
| `Interface.Iface.MergePm` | src/intfd_ovsdb_if.c:1709-1728 | the same for module information, reporting a changed connector on its own |
| `World.ConfigureFacts` | src/intfd_ovsdb_if.c:1595-1619 | configuring one interface changes no other record and makes a physical one agree with a from-scratch derivation |
| `World.ConfigureAllFacts` | src/intfd_ovsdb_if.c:1751-1755 | configuring a list of children makes exactly their records agree |
| `Batch.LoopCacheOf` | src/intfd_ovsdb_if.c:1622-1762 | cached interfaces and carried flags evolve independently of the records |
| `Batch.LoopLinks` | src/intfd_ovsdb_if.c:915-962 | after any number of visits visited new interfaces are linked as their rows say and unvisited ones not at all |
| `Batch.LoopFlag` | src/intfd_ovsdb_if.c:1709-1713 | pm_info_changed is set exactly when some visited modified row brought a new connector; it is never cleared |
| `Batch.LoopCache` | src/intfd_ovsdb_if.c:1642-1746 | the cached values of every interface after any number of visits, told without the loop |
| `Batch.LoopSettled` | src/intfd_ovsdb_if.c:1622-1762 | loop invariant: every record is a derivation from the present cache up to the port state, or is untouched together with all it depends on |
| `BatchTheorems.BatchAgreement` | src/intfd_ovsdb_if.c:1622-1762 | for every hash order and buffer, the record of a physical interface that agreed with a from-scratch derivation at the start, its port state current if its row was modified, agrees with one at the end, although it may have been derived before its parent was merged; nothing is asked of other interfaces |
| `BatchTheorems.InsertedIsFresh` | src/intfd_ovsdb_if.c:1642-1648 | a new physical interface ends in agreement whatever its row held before |
| `Outcomes.RefreshedPortState` | src/intfd_ovsdb_if.c:1653-1730 | the port state is refreshed without counting as a change: a modified physical interface, split or not, that agrees at the start agrees at the end of every batch if and only if its port state was current, or something else disables it, or the rows force a derivation with or after its visit |
| `Outcomes.UnmodifiedAgrees` | src/intfd_ovsdb_if.c:1622-1762 | an unmodified one that agrees at the start agrees at the end of every batch |
| `BatchTheorems.PortStateOnly` | src/intfd_ovsdb_if.c:1296-1298 | the port state matters to a record exactly when nothing else disables the interface |
| `BatchTheorems.HonestExclusion` | src/intfd_ovsdb_if.c:1248-1256 | a split parent and its child with such records are never both enabled |
| `BatchTheorems.ExclusiveBetweenVisits` | src/intfd_ovsdb_if.c:1622-1762 | between any two visits of the loop a family that is not new is never enabled twice |
| `BatchTheorems.EnabledTwiceWithinVisit` | src/intfd_ovsdb_if.c:1730-1756 | in the visit of a modified split parent, after its own write and before those of its children: it and a linked child are both enabled if and only if the child was, the row now gives the lanes back, and row and port otherwise let the parent be enabled |
| `Examples.BothEnabledMidVisit` | src/intfd_ovsdb_if.c:1730-1756 | concrete rows and cache in which they are |
| `BatchTheorems.NoLostWrite` | src/intfd_ovsdb_if.c:1622-1762 | rc is 0 only if nothing was written, also by the flags carried over from earlier interfaces |
| `BatchTheorems.OrderMattersExactly` | src/intfd_ovsdb_if.c:1709-1746 | the resulting cache is the same for every hash order if and only if not (some connector changed while an unmodified child is out of step with its modified parent) |
| `BatchTheorems.RecordsWhateverOrder` | src/intfd_ovsdb_if.c:1709-1756 | an interface that agrees at the start with its port state current gets the same record for every hash order and buffer, if its module information does not depend on the order |
| `Tracking.LoopCarries` | src/intfd_ovsdb_if.c:1626-1757 | split_changed and the contents of the reused parse buffer after any number of visits, told without the loop |
| `Tracking.LoopReports` | src/intfd_ovsdb_if.c:1622-1762 | rc is set exactly when some visited row was new, or modified and different; by no carried flag |
| `Tracking.LoopTagged` | src/intfd_ovsdb_if.c:1622-1762 | loop invariant on one record: untouched, derived from all its present inputs, or derived before its own visit refreshed the port state |
| `Tracking.TagEnd` | src/intfd_ovsdb_if.c:1622-1762 | which of the three it is at the end depends only on whether its own visit found a change, whether its parent's visit derived it, and which came first |
| `Outcomes.OutcomeIsPossible` | src/intfd_ovsdb_if.c:1622-1762 | whatever the order and the buffer, a record ends as it was, derived anew, or derived with the port state of before, and only in a way the cache and rows allow |
| `Outcomes.PossibleHappens` | src/intfd_ovsdb_if.c:1622-1762 | each way they allow is the end of some order and some buffer |
| `Outcomes.OneRecordExactly` | src/intfd_ovsdb_if.c:1622-1762 | the record of an old physical interface is the same for every hash order and every content of the uninitialised buffer if and only if the records of the ways its cache and rows allow are equal |
| `Outcomes.RecordsDeterminedExactly` | src/intfd_ovsdb_if.c:1622-1762 | so for all physical interfaces at once, new ones included |
| `Outcomes.ModifiedHasOneRecord` | src/intfd_ovsdb_if.c:1653-1756 | for a modified interface that agrees at the start this comes down to: port state current, or something else disables it, or no race between refreshing and deriving |
| `Outcomes.UnmodifiedHasOneRecord` | src/intfd_ovsdb_if.c:1736-1756 | for an unmodified one: its old and its parent's module information give the same record, or only one of them can come last |
| `Examples.BufferDecides` | src/intfd_ovsdb_if.c:1629-1707 | rows and cache with records that agree at the start and a cache that ends the same in every run: the order decides whether a child whose port has come up is published enabled, and in one order what the buffer on the stack held does |
| `BatchTheorems.OutcomeForChild` | src/intfd_ovsdb_if.c:1739-1746 | such a child ends with its parent's module information or its own old one, by whether its parent came after a changed connector |
| `Examples.OrderDecides` | src/intfd_ovsdb_if.c:1739-1746 | concrete rows and cache where one order publishes a child enabled and another disabled |
| `PortMembers.PortMemberDiff` | src/intfd_ovsdb_if.c:1793-1926 | after a modified port every current member is derived with its admin state, every departed one is off unless another port lists it and then derived with that port's, all others are untouched |
| `PortMembers.PortMemberUser` | src/intfd_ovsdb_if.c:1805-1924 | and its settings: whoever is attached to a port takes the admin setting of its row, all else is kept |
| `PortMembers.AttachAllOutcome` | src/intfd_ovsdb_if.c:1805-1832 | each listed interface ends as if it were handled alone |
| `PortMembers.SecondPassIsIdle` | src/intfd_ovsdb_if.c:1866-1924 | for an emptied port the general pass changes nothing after the special one |
| `PortMembers.SwitchedOffRecord` | src/intfd_ovsdb_if.c:1884-1892 | a reset leaves the error column alone: the record it leaves is sound exactly when an error was already set |
| `PortMembers.DepartedRecord` | src/intfd_ovsdb_if.c:1866-1924 | a departed member that no port lists comes out of all passes with enable off and its error column as it was |
| `Examples.DroppedWithoutError` | src/intfd_ovsdb_if.c:1884-1892 | an enabled interface, sound before, that its port drops: off without an error |
| `PortPass.PortsPass` | src/intfd_ovsdb_if.c:1770-1926 | the whole pass over the port table, ports may share interfaces: one that some handled port lists or listed ends derived with the last such port if that lists it now, or else with the first in the table that does, or off if none does; all others are untouched |
| `PortPass.PassedIsCurrent` | src/intfd_ovsdb_if.c:484-539 | its port state is the one port_parse_admin finds if and only if that last port no longer lists it or has the same admin state as the first that does |
| `PortPass.CachedLists` | src/intfd_ovsdb_if.c:1793-1850 | the cached member lists after the pass: the row's for every handled port, unchanged for the others |
| `PortPass.PortAdminExactly` | src/intfd_ovsdb_if.c:484-539 | the state found for an interface is up exactly when the first port that lists it is |
| `PortPass.PassReports` | src/intfd_ovsdb_if.c:1770-1850 | the pass reports something exactly when it handles some port |
| `Examples.SharedIsNotCurrent` | src/intfd_ovsdb_if.c:1770-1850 | two ports that share an interface and disagree on the admin state, after which the two differ |
| `PortMembers.PortKeepsHonest` | src/intfd_ovsdb_if.c:1793-1926 | port handling keeps the records of physical interfaces honest |
| `PortEngine.AttachMember` | src/intfd_ovsdb_if.c:1805-1832 | one member of a modified port, on the interface object |
| `PortEngine.ReleaseMember` | src/intfd_ovsdb_if.c:1875-1893 | one departed member: derived with another port or reset |
| `PortEngine.HandlePort` | src/intfd_ovsdb_if.c:1793-1845 | one modified port with both passes, as the specification |
| `PortEngine.ReleaseDeparted` | src/intfd_ovsdb_if.c:1897-1924 | the nested search for departed members |
| `PortEngine.HandlePortConfigMods` | src/intfd_ovsdb_if.c:1770-1850 | all modified ports, the cached member lists included |
| `Engine.SetInterfaceConfig` | src/intfd_ovsdb_if.c:1595-1619 | deriving one cached object and writing its row is one step of the specification; all other objects keep their state |
| `Engine.PortParseAdmin` | src/intfd_ovsdb_if.c:484-539 | the nested search: up if the first port that lists the interface has no admin entry or up, down otherwise or if none lists it |
| `Engine.ConfigureChildren` | src/intfd_ovsdb_if.c:1748-1756 | the loop over split children, by pointer |
| `Engine.PushToChildren` | src/intfd_ovsdb_if.c:1739-1745 | the loop that hands module information to every child object |
| `Engine.IntfdProcessParentChild` | src/intfd_ovsdb_if.c:915-962 | parent and child pointers as the row says, every pointer leading to a cached object |
| `Engine.ParseRow` | src/intfd_ovsdb_if.c:1653-1664 | what a modified row says, from its text |
| `Engine.VisitInserted` | src/intfd_ovsdb_if.c:1642-1648 | the branch for an inserted row |
| `Engine.VisitModified` | src/intfd_ovsdb_if.c:1650-1757 | the branch for a modified row: merge, derive if changed, flags, children |
| `Engine.VisitOne` | src/intfd_ovsdb_if.c:1637-1758 | one iteration on the object graph is one visit of the specification |
| `Engine.HandleInterfacesConfigMods` | src/intfd_ovsdb_if.c:1621-1762 | the whole loop on mutable linked objects, with its carried flags and uninitialised stack buffer, computes what the specification says, for every hash order |
| `ArbiterSpec.ForwardingMeaning` | src/intfd_arbiter.c:332-402 | every layer's two keys show its verdict, the overall key is false exactly when some layer does not forward, keys of others are untouched |
| `ArbiterSpec.VerdictShape` | src/intfd_arbiter.c:238-321 | layers ahead of the first blocked one forward, later ones are silent, so at most one has an owner |
| `ArbiterSpec.VerdictExactly` | src/intfd_arbiter.c:238-321 | in terms of the protocols' views: silent below a disabled interface or behind a vetoed layer, else blocked by the first protocol to say no, else forwarding |
| `ArbiterSpec.ForwardsExactly` | src/intfd_arbiter.c:332-402 | an interface forwards if and only if it is enabled and no protocol of any layer says no, or there is no layer |
| `ArbiterSpec.AggregationForwards` | src/intfd_arbiter.c:414-424 | as registered: if and only if it is enabled and its bond status is absent or up; LACP is named owner exactly when an enabled one has another status |
| `ArbiterSpec.FirstBlockerIsEnough` | src/intfd_arbiter.c:301-313 | stopping at the first blocking protocol leaves the same owner as running all of them, from every state an earlier interface can leave |
| `ArbiterSpec.Quiescent` | src/intfd_arbiter.c:332-402 | running again on the map just written changes nothing |
| `ArbiterSpec.NoLayersForwardAll` | src/intfd_arbiter.c:391-401 | without layers every interface forwards |
| `Arbiter.ChainLinks` | src/intfd_arbiter.c:112-129 | a protocol list is its nodes in order, ids increasing, last one ending it |
| `Arbiter.AttachProto` | src/intfd_arbiter.c:112-129 | attaching appends a node and leaves the earlier ones as they were |
| `Arbiter.LayerChainLinks` | src/intfd_arbiter.c:140-158 | a layer list is its nodes in order, next and prev inverse to each other |
| `Arbiter.AttachLayer` | src/intfd_arbiter.c:140-158 | attaching appends a layer at the end and links it back |
| `Arbiter.Layer.ProtoRun` | src/intfd_arbiter.c:172-223 | blocked and owner after one protocol's turn, in all cases |
| `Arbiter.Layer.ProtosRun` | src/intfd_arbiter.c:296-313 | the walk over the protocols finds the first blocking one and makes it the owner, whatever owner was left from another interface |
| `Arbiter.Layer.LayerRun` | src/intfd_arbiter.c:237-321 | the state a layer is left in depends on its predecessor, the row and its protocols only |
| `Arbiter.Layer.WriteState` | src/intfd_arbiter.c:358-384 | the keys written or removed for one layer |
| `Arbiter.Walk` | src/intfd_arbiter.c:335-389 | the walk over the layers reaches every layer once and writes what the specification writes |
| `Arbiter.InterfaceRun` | src/intfd_arbiter.c:332-402 | map and layer states are functions of the row and of the map given: no blocked or owner value of an earlier interface leaks in |
| `Arbiter.Init` | src/intfd_arbiter.c:436-494 | the registered structure is a well-formed list with the aggregation layer and LACP on it |
| `Reconfigure.SyncAll` | src/intfd_ovsdb_if.c:2078-2098 | after deleting and adding names every row is cached, new ones unlinked, old ones with their links intact |
| `Reconfigure.PortStageHalfway` | src/intfd_ovsdb_if.c:1928-2003 | whichever way port handling goes, the conditions the loop needs still hold |
| `Reconfigure.LoopReady` | src/intfd_ovsdb_if.c:2062-2104 | the modification loop always starts in the situation its theorems assume |
| `Reconfigure.AfterLoopDone` | src/intfd_ovsdb_if.c:2062-2104 | after the loop every interface is linked, holds its row's settings, and a physical one has an honest record |
| `Reconfigure.OrphansExactly` | src/intfd_ovsdb_if.c:1115-1149 | a cached member of a deleted port is reset if and only if it has a row that no port lists and an interface row bears the name of the port |
| `Reconfigure.GonePortsExactly` | src/intfd_ovsdb_if.c:1945-2003 | after a turn that ran, whichever way it took, no port without a row is cached if and only if the turn went the way of gone ports and met the only one, or there was none; idl_seqno moves on in any case |
| `Examples.SecondGonePortStays` | src/intfd_ovsdb_if.c:1983-1991 | two ports gone at once, one of which stays |
| `Examples.GonePortOverlooked` | src/intfd_ovsdb_if.c:1964-1971 | one port gone and another inserted at once: the gone one stays |
| `Agreement.RunBased` | src/intfd_ovsdb_if.c:2029-2116 | in every state of every run the record of a handled physical interface is a derivation from its present inputs with a known port state, or one that was reset; which is told from the moves of the run without looking at a record |
| `Agreement.RunAgreement` | src/intfd_ovsdb_if.c:2029-2116 | hence hw_intf_config is what a derivation from scratch would publish if and only if that port state is the cached one or something else disables the interface, and it is enabled if and only if that port state is up and nothing else disables it |
| `Agreement.RunSoundness` | src/intfd_ovsdb_if.c:1491-1576 | a record that rests on a derivation is sound: complete and within bounds, error unset exactly when enabled; one that rests on a reset is off, and sound if and only if an error had been set |
| `Agreement.TurnBased` | src/intfd_ovsdb_if.c:2029-2116 | what a record rests on after one turn, from what it rested on before; a new interface needs no before |
| `Agreement.CurrentExactly` | src/intfd_ovsdb_if.c:1622-1762 | the loops after which that is the cached port state: those that derive the interface with or after its own visit, whatever was before, and those that leave it alone with that state current |
| `Agreement.ReachedIsCurrent` | src/intfd_ovsdb_if.c:1770-1850 | an interface the port pass reached has its port state current for the loop if and only if the last port to involve it no longer lists it or agrees with the first that does |
| `Runs.RunKeeps` | src/intfd_ovsdb_if.c:2029-2172 | the invariant holds in every state of every run of database changes, skipped turns and turns |
| `Runs.EnvKeeps` | src/intfd_ovsdb_if.c:2138-2172 | database changes between turns keep it |
| `Runs.TurnKeeps` | src/intfd_ovsdb_if.c:2029-2116 | every turn keeps it, for every hash order, port path and stack content |
| `Runs.NeverBothEnabled` | src/intfd_ovsdb_if.c:1248-1256 | in every state of every run no physical split parent and child are both published enabled |
| `Runs.CatchUp` | src/intfd_ovsdb_if.c:2029-2116 | after any number of skipped turns the next one handles every change: cached names are the row names, cached settings and links are the rows', nothing is left marked as changed |
| `Runs.TurnReportsWrites` | src/intfd_ovsdb_if.c:2161-2170 | a turn that returns 0 has changed no error, hw_intf_config or forwarding_state column |
| `Arrivals.TurnReportsExactly` | src/intfd_ovsdb_if.c:2161-2170 | a turn returns non-zero exactly when it dealt with a gone port, handled a port, found a new or different interface, or changed a forwarding_state column |
| `Arrivals.CachedPorts` | src/intfd_ovsdb_if.c:1945-2003 | after a turn a port is cached exactly if it was and is not the gone one dealt with, or has a row and the turn took up new ports |
| `Arrivals.CachedMembers` | src/intfd_ovsdb_if.c:1033-1061 | with its row's members if it is new or was handled, and the old ones if not |
| `Arrivals.RunPorts` | src/intfd_ovsdb_if.c:1945-2003 | in every state of every run the cached ports are those taken up by a turn and not forgotten since, told from the moves |
| `Arrivals.StaysKnown` | src/intfd_ovsdb_if.c:1945-2003 | so one turn that takes up new ports is enough: what has a row then stays cached as long as it has one |
| `Arrivals.NewInterfaceState` | src/intfd_ovsdb_if.c:1063-1098 | a new interface is cached with the state of the first port that lists it, or where the pass reached it of the last handled one; a physical one is then enabled if and only if that is up and nothing else disables it |
| `Arrivals.TurnModules` | src/intfd_ovsdb_if.c:1640-1664 | after a turn a new or modified interface holds its own module, or its parent's lane if it is a split child |
| `Arrivals.TurnLetsIn` | src/intfd_ovsdb_if.c:733-913 | in terms of the pm_info text of its row or its parent's |
| `Arrivals.TurnSettings` | src/intfd_ovsdb_if.c:611-730 | after a turn every interface holds the settings its row asks for in text |
| `Arrivals.TurnForwardsByText` | src/intfd_arbiter.c:414-424 | the same by the bond_status text of the row |
| `Arrivals.RunColumns` | src/intfd_ovsdb_if.c:1491-1576 | in every state of every run an enabled physical interface shows its cached settings, key by key |
| `Runs.TurnForwards` | src/intfd_ovsdb_if.c:2100-2107 | after a turn every forwarding_state column is the arbiter's for the columns just written, and forwards if and only if the interface is published enabled and no protocol says no |
| `Runs.ForwardsWithLacp` | src/intfd_ovsdb_if.c:2100-2107 | with the registered layers: if and only if it is enabled and its bond status is absent or up |
| `Runs.NeverBothForwarding` | src/intfd_ovsdb_if.c:2100-2107 | hence a split parent and its child are never both forwarding after a turn, in any run |
| `Runs.ArbiterIsIdle` | src/intfd_ovsdb_if.c:2005-2027 | running the arbiter over all rows again writes nothing |
| `Daemon.SyncCache` | src/intfd_ovsdb_if.c:2071-2098 | deleting and adding cached objects keeps every remaining pointer valid |
| `Daemon.AddNewInterface` | src/intfd_ovsdb_if.c:1063-1098 | a new object from the text of its row |
| `Daemon.DelOldPort` | src/intfd_ovsdb_if.c:1115-1149 | a deleted port is forgotten and its orphaned members are reset, nothing else |
| `Daemon.AddNewPorts` | src/intfd_ovsdb_if.c:1033-1061 | member lists cached for new ports only |
| `Daemon.PortReconfigure` | src/intfd_ovsdb_if.c:1928-2003 | the port stage on objects, whichever way it goes |
| `Daemon.ArbiterRun` | src/intfd_ovsdb_if.c:2005-2027 | all rows in any order through shared layer objects, each gets its own result; rc is set exactly when a column changed |
| `Daemon.Intfd.IntfdReconfigure` | src/intfd_ovsdb_if.c:2029-2116 | one turn on pointers, maps and arrays is one turn of the specification, return value included |
| `Daemon.Intfd.IntfdRun` | src/intfd_ovsdb_if.c:2138-2172 | without lock or configuration nothing changes; committing only on a non-zero return loses nothing |
| `NameOrder.ExtractIntfType` | src/cli/intf_vty.c:73-93 | the characters ahead of the first digit |
| `NameOrder.ExtractTag` | src/cli/intf_vty.c:96-108 | the number formed by all digits of the name, wrapped to an unsigned long |
| `NameOrder.StrCmpMeans` | src/cli/intf_vty.c:112-135 | strcmp is negative exactly if the first text is a proper prefix of the second, or smaller at the first character where they differ |
| `NameOrder.CompareNodes` | src/cli/intf_vty.c:73-232 | the comparator with its helpers: negative exactly when the key of the first name comes before that of the second, positive exactly when after; names with a type go by its bytes and then by number; bridge_normal first |
| `NameOrder.TypeIsPrefix` | src/cli/intf_vty.c:73-93 | the type is the longest part ahead of any digit, for every name |
| `NameOrder.DigitsOfParts` | src/cli/intf_vty.c:96-108 | the number takes its digits from every part of the name, in order |
| `NameOrder.ScanText` | src/cli/intf_vty.c:147-157 | a conversion reads blanks, a sign and a number, and leaves the rest |
| `NameOrder.NegativeWraps` | src/cli/intf_vty.c:143-157 | a negative number wraps around in its unsigned variable |
| `NameOrder.CompareIsKeyOrder` | src/cli/intf_vty.c:110-232 | its sign is the lexicographic order on rank, type or id, extension and tag as sscanf reads them (signs, blanks and wrap-around included), on all names but bridge_normal against itself; 0 exactly on equal keys |
| `NameOrder.StrictWeakOrder` | src/cli/intf_vty.c:201-232 | on distinct names it is a strict weak order |
| `NameOrder.TextKey` | src/cli/intf_vty.c:73-180 | names of the forms in use, with numbers that fit their variables, are read back as what they are made of |
| `NameOrder.TiesExactly` | src/cli/intf_vty.c:139-180 | two names of those forms tie exactly when they differ by an explicit 0 at most (10 and 10-0); the rest are totally ordered |
| `NameOrder.ExplicitZeroTies` | src/cli/intf_vty.c:139-180 | 10 and 10-0 tie, and their list depends on the hash order |
| `NameOrder.SortedListUnique` | src/cli/intf_vty.c:238-260 | without ties every hash order sorts to the same list |
| `NameOrder.ListingIsDeterminedExactly` | src/cli/intf_vty.c:238-260 | the list shown is independent of the hash order if and only if no two names tie |
| `Commands.ShutdownMeans` | src/cli/intf_vty.c:296-310 | shutdown and its negation set the admin setting the daemon reads and no other, also on a split interface |
| `Commands.MtuMeans` | src/cli/intf_vty.c:565-620 | mtu is refused and changes nothing, or sets the MTU the daemon reads and no other setting |
| `Commands.MtuRange` | src/cli/intf_vty.c:565-572 | the numbers accepted are 576 to 9192 |
| `Commands.DefaultWord` | src/cli/intf_vty.c:609-614 | the word that removes the entry denotes the MTU the daemon then publishes |
| `Commands.AcceptedMtuIsTaken` | src/cli/intf_vty.c:565-572 | the daemon takes an accepted word at its value if and only if it has no plus sign and does not exceed the base MTU; otherwise it counts as invalid |
| `Commands.PlusIsLost` | src/cli/intf_vty.c:565-572 | +9000 is accepted, and invalid to the daemon for every base MTU |
| `Commands.DuplexMeans` | src/cli/intf_vty.c:684-707 | duplex is refused on a split interface, or sets the duplex mode and no other setting |
| `Commands.AutonegMeans` | src/cli/intf_vty.c:917-947 | autonegotiation is refused on a split interface, or sets the negotiation mode and no other setting |
| `Commands.SplitMeans` | src/cli/intf_vty.c:1146-1231 | split changes nothing unless the interface can be split and the answer is yes, then it sets the lanes and no other setting and its negation undoes it |
| `Commands.CliIntfSpeed` | src/cli/intf_vty.c:436-501 | the token search decides membership in the hardware list: refused when split, removed for auto, set only if listed |
| `Commands.SpeedMeans` | src/cli/intf_vty.c:436-501 | speed sets the speed list the daemon reads and no other setting; what it stores the daemon takes |
| `Commands.FlowTurnsOneDirection` | src/cli/intf_vty.c:775-856 | flowcontrol changes the named direction and only that one exactly when nothing or rx, tx, rxtx is stored |
| `Commands.FlowOnStoredNone` | src/cli/intf_vty.c:775-856 | where none is stored, turning receive off turns send on |
| `Commands.PauseIsLastPair` | src/cli/intf_vty.c:775-856 | after any commands the stored pause value is the pair of the last receive and send settings |
| `Commands.EnteredStorable` | src/cli/intf_vty.c:292-1174 | what any sequence of commands can leave in the column |
| `Commands.ShowRunInterface` | src/cli/intf_vty.c:1754-1868 | the printer with its header flag prints exactly the lines of the stored keys, once headed and once closed; with an interface named it stops behind the flowcontrol lines |
| `Commands.FilteredReplayExactly` | src/cli/intf_vty.c:1838-1841 | what it prints then restores the column if and only if no pause value is stored, or neither autonegotiation off nor split |
| `Commands.FilteredReplayFails` | src/cli/intf_vty.c:1838-1841 | a pause value and split: split is not printed |
| `Commands.ReplayRestores` | src/cli/intf_vty.c:1756-1864 | replaying the printed lines from nothing restores the column but for admin=down and autoneg=on |
| `Commands.CommandsRoundTrip` | src/cli/intf_vty.c:292-1174 | after any commands the daemon reads the same settings from the replayed column, except that an explicit autoneg=on comes back as default |
| `Commands.ShowContext` | src/cli/vtysh_ovsdb_intf_context.c:135-282 | the other printer, with its early returns for bridge_normal, for children of a parent that is not split and for loopbacks, prints exactly the lines of the stored keys with split first |
| `Commands.HiddenExactly` | src/cli/vtysh_ovsdb_intf_context.c:150-169 | nothing of the column is printed exactly for bridge_normal, loopbacks and the children of a parent that is not split; any other column in full |
| `Commands.LoopbackLost` | src/cli/vtysh_ovsdb_intf_context.c:162-169 | a loopback that has been enabled: only its header is printed |
| `Commands.ContextReplayExactly` | src/cli/vtysh_ovsdb_intf_context.c:135-282 | its text restores the column of an interface if and only if, when hidden by these returns, there is nothing to restore, and otherwise the interface is not split or has no line that a split interface refuses |
| `Commands.HiddenChildLost` | src/cli/vtysh_ovsdb_intf_context.c:155-160 | after split on the parent, an MTU on the child and no split on the parent the child prints nothing and its MTU is lost |
| `Commands.SplitFirstFails` | src/cli/vtysh_ovsdb_intf_context.c:210-233 | an MTU set ahead of split is lost by replaying that text |
| `Commands.EveryColumnReplays` | src/cli/intf_vty.c:1091-1112 | the same for any commands on any interfaces, including the children a `no split` takes down |

## Left out

- Runs.NeverBothForwarding: speaks of the end of turns, because between turns others may write the forwarding_state column.
- Runs.CatchUp: speaks of names, settings and links; cached port states and module information follow `RefreshedPortState` and `OutcomeForChild`, because the code does not bring them up to date in every case.
- Daemon.PortReconfigure: takes its way as a parameter, because it is decided by insertion and deletion counters of the database library, which is not part of this model; every way is allowed in every turn.
- Database library, locks, transactions, logging, events, unixctl and the main loop: rows are maps with sequence numbers, a turn is a function of them, the lock and configured flags are parameters.
- Agreement of published and derived records for internal, vlansubint and loopback interfaces, beyond the exact condition in `LogicalHistory`.
- A child row whose parent changed only `connector_status` is compared with its own cached module information, not with its parent's row.
- String constants of the database schema header are not part of this model; the texts used are the ones the code and its tests show.
- `pm_info` and `hw_intf_info` texts are taken as already split into connector, status and the only-40G mark; the connector tables are inputs of the derivation, not results.
- The speeds buffers inside `struct iface` are ten-entry sequences held by value, as C embeds them; the buffers passed to `parse_speeds` are arrays.
- Numbers past the int range, which C leaves open: atoi saturates, and sscanf converts as the GNU library does with a 64-bit long.
- The return value rc is whether it is non-zero; column writes are counted on values only.
- The `NOT_YET` hardware-ready block of the arbiter is not compiled and not modelled.
- Cached members whose row is gone: excluded by the assumption on ports, and skipped by the reset of a deleted port.
- Sub-interfaces, LAG, VRF and bridge unlinking, QoS, sFlow, LACP, OSPF and DHCP lines of the printers, display commands and the prompt loop; a `no` form of flowcontrol counts as off.
- All of src/snmp: getters and simple sums, which would only add easy members.
- Memory allocation and freeing, and the opsplugins validator.
