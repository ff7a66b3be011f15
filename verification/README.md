# Switch Lab, verified

Switch Lab is a switch emulator that answers SNMP and speaks RADIUS. One state engine owns a configuration, a discrete-event
simulation, access sessions, durable accounting and replay protection, and publishes a whole new state after every command.
This project models that engine and the code it rests on, and proves what each step keeps and what every run guarantees.

The modules follow the program's parts.

| part | modules |
|---|---|
| Replay-safe dynamic authorization (section 6.3 of RFC 5176) | `DynamicAuthorization` gives every atomic step as a function of the state and proves the run theorems; `DynamicEngine` performs the steps in place; `DynamicSenders` says exactly when requests are reserved, decided and answered and what a change of a sender does, `DynamicRuns` what that means over runs |
| Configuration and its validity | `Configuration` is the whole validator, `Commands` the commands with their scoped checks, `CommandFrames` what they leave alone, `ScopedChecks` that the scoped checks decide the whole validator, `CommandEffects` which record each command changes to what, `Storage` the lab and startup halves |
| Simulation | `Simulation` and `Advance` specify jobs, observations, ageing and advancing; `Runtime` is the object with the clock, the heap and the loops; `Learning` says which rows observations and whole advances leave |
| Publishing | `Publication` is the command wrapper that renews generations and reschedules; `Lifecycle` the inductive invariant over all commands; `Boot` the states that runs begin in; `PublishedEffects` what each command leaves in the published state; `Runs` induction along a path |
| SNMP SET | `SetRequests` reads bindings into assignments, `SetEffects` and `SetLaws` say declaratively what assignments mean, `Planner` and `PlanSet` compute it in the program's order, `PlanLaws`, `PortLists` and `SetPublishing` prove laws about the answers, and `ReadBack` that setting what GET returned changes nothing |
| SNMP GET and GETNEXT | `Names` orders object names, `MibView` is the plain enumeration, `MibContents` what it holds row by row, `MibWalk` judges answers and walks by it, `Projection` is the lazy index, `Registered` the actual families, `WritableTables` the tables of the writable objects as a configuration fills them |
| RADIUS wire code | `Codec`, `ExclusiveOr`, `Authenticators`, `Seals` (what the authenticators cover), `Budgets`, `NativeFrames`, `NativeReplies`, `NativeDecoder`, `NativeStreams`, `NativeChannel`, `Authorization`, `DynamicPlanner`, `DynamicPlanLaws` |
| Accounting | `Accounting` gives the operations on the ledger, `AccountingQueue` the queue in place and the choice of heads, `AccountingRuns` conservation and order over runs, `AccountingLaws` what records say and what every operation leaves |
| Authentication | `AccessSessions` gives attempts, sessions and reconciliation, `AccessTable` performs them in place, `AccessRuns` and `AccessLaws` prove what published states satisfy, `AccessAnswers` what every step leaves |

Where the program changes an object, the module holds a class whose methods are proved to compute the step function of the same
part; the theorems are then about those functions and about runs of them. Where the program only computes, there are functions
and lemmas. Conventions used throughout:

- Identifiers, MAC addresses and texts whose content never matters are natural numbers; `uid()` is a counter of identifiers
  handed out, so that a fresh one differs from all earlier ones.
- Every clock reading is an input of the step that takes it. Clocks may move in any way between readings, except that the elapsed
  clock is comparable only within one process.
- A commit is atomic: it succeeds, rolls back, or faults, and a fault may or may not have written.
- MD5 and HMAC-MD5 are parameters that return sixteen octets. Digests used as captured contexts or fingerprints are replaced by
  the facts they digest, that is, they are taken to be injective.
- Exchanges with RADIUS servers, sockets and tasks are inputs: an exchange is an arbitrary returned observation.

## Model

| member | source | states |
|---|---|---|
| `DynamicAuthorization.AppliedAtMostOnce` | switchlab/engine.py:1393-1435 | Over every run of receive, handle, prune, command, close and restart steps, with clocks that move in any way between readings and commits that succeed, roll back or fault, no dynamic-authorization request takes effect more than once; a plan whose commit reached the disk without a confirmation counts as having taken effect. |
| `DynamicAuthorization.DecidedIsStoredOrPast` | switchlab/engine.py:1340-1354 | Every decision ever written is still stored, or the durable high-water mark lies strictly past the request's timestamp plus 300 seconds. |
| `DynamicAuthorization.RepliesAgree` | switchlab/engine.py:1371-1377 | All replies ever sent for one request carry the same octets. |
| `DynamicAuthorization.CapacityHolds` | switchlab/engine.py:1379-1383 | Cached decisions and reservations together never exceed 4096, in memory or in the store (section 6.3 of RFC 5176). |
| `DynamicAuthorization.RunKeeps` | switchlab/engine.py:1281-1451 | The replay invariant and the agreement of memory with the store hold after every run, and the stored mark never falls. |
| `DynamicAuthorization.StepFollows` | switchlab/storage.py:284-292 | No step replaces a stored decision by another one or lowers the stored mark, also across faults and restarts. |
| `DynamicAuthorization.DeletionIsSafe` | switchlab/engine.py:1348-1354 | Pruning deletes decisions only together with a mark strictly past all of their windows. |
| `DynamicEngine.Engine.ReceiveDatagram` | switchlab/engine.py:1356-1384 | Receiving computes its step of the protocol in place; an immediate reply is the cached one of exactly this request. |
| `DynamicEngine.Engine.HandleReservation` | switchlab/engine.py:1393-1435 | Handling a reservation computes its step: the gates in the code's order, one decision with its mark in one commit, the reply only under the second set of gates. |
| `DynamicEngine.Engine.RetireReservation` | switchlab/engine.py:1386-1391 | An expired reservation is retired behind a raised mark, without overwriting a decision. |
| `DynamicEngine.Engine.PruneExpired` | switchlab/engine.py:1340-1354 | Pruning retires finished expired reservations, then deletes what has expired, as its step says. |
| `DynamicEngine.Engine.FindExpired` | switchlab/engine.py:1348-1353 | One walk over the cache finds exactly the expired decisions and a mark above the clock and above all of their windows. |
| `DynamicEngine.Engine.ExecuteCommand` | switchlab/engine.py:1741-1768 | A command computes its step in one commit: the generation of every sender whose signature changed is replaced and every reservation that this invalidates is recorded as retired, as `DynamicSenders.CommandRetires` says of that step. |
| `DynamicSenders.TokenKeptExactly` | switchlab/engine.py:1273-1279 | With a uid that nothing carries yet, a sender keeps its generation exactly when address, secret and permission are unchanged; any other sender gets the new one. |
| `DynamicSenders.CommandRetires` | switchlab/engine.py:1745-1768 | A committed command leaves a durable retired record, in memory and in the store, for exactly the undecided reservations whose sender it changes or removes, and for all of them in a reboot or a shutdown. |
| `DynamicSenders.ReceiveExactly` | switchlab/engine.py:1356-1384 | A datagram is answered from the store, or reserved, exactly when it comes through the present listener of a running engine, from an enabled sender, verified, with wall readings behind neither the mark nor five minutes off its timestamp, and under the sender's present generation or with room for it; otherwise nothing changes. |
| `DynamicSenders.HandleExactly` | switchlab/engine.py:1393-1435 | A handler decides exactly when neither lifetime is over, listener, epoch, sender and generation are those of the reservation and the clock is admissible; then, and only when the commit reaches the disk, it takes effect once and is stored, and it is answered exactly when the second set of gates holds too. |
| `DynamicSenders.DrainRetires` | switchlab/engine.py:1437-1443 | A drained engine has a durable decision on every reservation: the one it had, or a retirement. |
| `DynamicSenders.RestartRebases` | switchlab/engine.py:1012-1030 | A new process keeps every stored decision, and what is left of its wall lifetime is left on the new elapsed clock. |
| `DynamicSenders.PruneExactly` | switchlab/engine.py:1347-1354 | Pruning deletes exactly the decisions that are over by one of their clocks. |
| `DynamicRuns.EffectNeedsUnchangedSender` | switchlab/engine.py:1356-1435 | Over every run from an empty store: a request takes effect only if the sender it was received from is configured with the same address, secret and permission in every state from its reception to its decision. |
| `DynamicRuns.NoReplayAfterChange` | switchlab/engine.py:1371-1377 | Over every run, restarts included: a stored response is sent again only if it was decided for this request and the sender it goes to has kept address, secret and permission in everything made durable since. |
| `DynamicEngine.Engine.RetireReservations` | switchlab/engine.py:1437-1443 | Closing records every undecided reservation as retired in one commit, and leaves them reserved if that fails. |
| `DynamicEngine.Engine.FinishClosing` | switchlab/engine.py:1446-1451 | Once the handlers are done no reservation is left. |
| `DynamicEngine.Engine.CommitChanges` | switchlab/engine.py:1281-1294 | Memory follows the store exactly when the commit succeeded. |
| `Advance.AdvanceAdds` | switchlab/engine.py:893-942 | With no port in `auto` control and no session: whenever an advance by a + b is accepted, the advance by a is, then the one by b is, and both ways reach the same clock, jobs, rows, counters and events. |
| `Advance.TraceIsExact` | switchlab/engine.py:893-900 | An accepted advance makes exactly the observations that fall due, as many as its guard estimated. |
| `Advance.TraceAscends` | switchlab/engine.py:906-907 | Observations happen in strictly ascending order of due time, endpoint and source. |
| `Advance.StepDecreases` | switchlab/engine.py:908-942 | Every turn of the loop either removes a row and keeps the jobs, or performs exactly one of the remaining observations; so it terminates. |
| `Advance.RunCounts` | switchlab/engine.py:830-885 | Every octet, unicast and discard counter grows by a closed form over the jobs on its port. |
| `Advance.ObserveCounts` | switchlab/engine.py:841-869 | One observation adds its octets and exactly one of the unicast and discard counters, on its own port only. |
| `Advance.RunMovesJobs` | switchlab/engine.py:931-939 | Afterwards every job is due at the first of its own instants after the target. |
| `Advance.RunKeeps` | switchlab/engine.py:887-942 | The invariant survives an advance: every job is current and due now or later, and every row names an existing VLAN with that FDB id and an existing up port and expires, strictly in the future, at last-seen plus aging. |
| `Runtime.Runtime.AdvanceTime` | switchlab/engine.py:893-942 | The guard, the heap and the two nested loops compute the specified advance; a refused advance changes nothing. |
| `Runtime.Runtime.Estimate` | switchlab/engine.py:896-901 | The guard's sum is the exact number of observations due by the target. |
| `Runtime.Runtime.Elapse` | switchlab/engine.py:906-942 | The outer loop computes the specified run. |
| `Runtime.Runtime.PerformTop` | switchlab/engine.py:933-939 | Popping the least job, observing it and pushing its successor is firing that job. |
| `Runtime.Runtime.Notice` | switchlab/engine.py:830-885 | One observation computes its specification, whose effect `Learning.ObserveExactly` states, or records invalidated work for a stale job. |
| `Learning.ObserveExactly` | switchlab/engine.py:830-885 | An observation of a current job counts its octets and one packet; when the port admits the frame, as a member of its VLAN or by the grant of its session, exactly one row carries its FDB and address, with its port, VLAN and time, and all other rows stay; without room the table stays and the discard is counted; learning, moving, the first overflow and the first rejection are announced, nothing else. |
| `Learning.RunLearns` | switchlab/engine.py:893-942 | As long as the addresses involved fit, the rows after an advance are exactly those of the last admitted observation of each address, or of no observation and the row from before, that have not aged. |
| `Learning.LastHitExists` | switchlab/engine.py:893-942 | Whenever admitted observations of an address fall due, one of them is the last. |
| `Learning.RowsAreExpected` | switchlab/engine.py:893-942 | With or without room, every row after an advance is that of the last admitted observation of its address, or was there and none was made. |
| `Runtime.Runtime.RetireRows` | switchlab/engine.py:887-891 | Expired rows leave in insertion order, each with its event. |
| `Runtime.Runtime.Schedule` | switchlab/engine.py:808-818 | Dropping an endpoint's jobs and capturing one per source in a loop is rescheduling exactly that endpoint. |
| `Runtime.Runtime.ScheduleAll` | switchlab/engine.py:1692-1695 | The wrapper's loop over affected endpoints reschedules exactly these, in whatever order it visits them. |
| `Publication.JobsStayExact` | switchlab/engine.py:1673-1695 | After a command that discloses what it changes there is exactly one job per source of an active endpoint attached to an up port, all of them valid and due now or later. |
| `Publication.CommandsDisclose` | switchlab/engine.py:2086-2261 | Every configuration command names all ports and endpoints whose captured facts it changes. |
| `Publication.ValidOrDead` | switchlab/engine.py:820-828 | A captured job stays valid through a command or dies for good: change and restore cannot revive it. |
| `Publication.RowsStay` | switchlab/engine.py:1685-1687 | The rows the wrapper keeps are sound in the new configuration. |
| `Publication.ReagedRows` | switchlab/engine.py:2230-2243 | Changing the aging time re-dates every row from its last frame and removes what that has expired. |
| `Lifecycle.ExecuteKeeps` | switchlab/engine.py:1612-1766 | Every accepted command, reset, import, reboot or arbitrary legal RADIUS effect keeps exact jobs, sound rows, a valid configuration within capacity, a sound startup policy and an exact dirty flag. |
| `Lifecycle.RunKeepsInvariant` | switchlab/engine.py:1612-1766 | All of that holds in every state ever published, along every sequence of commands. |
| `Lifecycle.StaleForever` | switchlab/engine.py:820-828 | A job captured while current and found stale in some later published state is stale in every state after that one. |
| `Lifecycle.TimeOnward` | switchlab/engine.py:465-469 | Along every run simulated time never goes backwards within an epoch, and no epoch returns. |
| `Lifecycle.RebootAccepted` | switchlab/engine.py:2288-2300 | In every published state a reboot is accepted and leaves the dirty flag clear. |
| `PublishedEffects.ConfiguredExactly` | switchlab/engine.py:1673-1731 | An accepted configuration command publishes the accepted configuration; exactly the endpoints it names, and those on ports it names or whose link flips, are scheduled anew, the work of all others is untouched; exactly the rows on up ports with an existing, admitted or granted VLAN remain; counters and the saved policy are kept. |
| `PublishedEffects.ShutdownQuiets` | switchlab/engine.py:1683-1695 | After an accepted edit that shuts a port down the published state has that port down, no job on it and no row of it. |
| `PublishedEffects.ClearExactly` | switchlab/engine.py:2244-2258 | Clearing takes out exactly the rows asked for and schedules anew the endpoints that could learn them again. |
| `PublishedEffects.SaveExactly` | switchlab/engine.py:1722-1731 | Saving makes the present policy the one of the next reboot, clears the dirty flag, and that reboot gives the configuration back. |
| `PublishedEffects.RebootExactly` | switchlab/engine.py:944-980 | A reboot publishes the restored configuration in a new epoch at time zero, with every wanted source scheduled, an empty table and zero counters. |
| `PublishedEffects.PlanExactly` | switchlab/engine.py:2055-2061 | A planned SET publishes its candidate, keeps exactly the rows that last, and schedules anew exactly the work it concerns. |
| `Boot.InitialIsValid` | switchlab/models.py:783-786 | The configuration of a new deployment is valid and within its capacities, whatever its number of ports. |
| `Boot.BootHolds` | switchlab/engine.py:983-1060 | An engine booted on any valid configuration within its capacities starts in a state that satisfies everything commands keep. |
| `Storage.HalvesCompose` | switchlab/storage.py:67-101 | The lab half of any valid configuration and the startup half of any other one compose: a reboot never fails validation. |
| `Storage.SoundRecombines` | switchlab/storage.py:67-101 | Any sound startup policy applies to the lab of any valid configuration, and composing gives exactly their recombination. |
| `Storage.ComposeAfterSplit` | switchlab/storage.py:23-101 | Splitting a valid configuration and composing the halves gives it back. |
| `Storage.SplitAfterCompose` | switchlab/storage.py:23-101 | Splitting what was composed gives back the lab, and the startup policy reconciled with the lab's ports. |
| `Storage.DiffersIsChange` | switchlab/engine.py:1728-1731 | The running policy differs from the reconciled startup exactly when recombining would change the configuration: the dirty flag is exact. |
| `ScopedChecks.ScopedIsWhole` | switchlab/engine.py:2086-2243 | For every configuration command the scoped checks pass exactly when the whole validator accepts the candidate, from any configuration the validator accepts. |
| `ScopedChecks.CommandsKeepValidity` | switchlab/engine.py:2086-2381 | An accepted command yields a valid configuration within the endpoint and source capacities; a command refused as invalid is one whose candidate the whole validator refuses. |
| `ScopedChecks.SwitchingCommandsExact` | switchlab/engine.py:2143-2243 | Port, VLAN and switch commands: the check of the touched ports and VLANs decides the whole validator; what the candidate is, `CommandEffects.SwitchingMeans` says. |
| `CommandEffects.SwitchingMeans` | switchlab/engine.py:2143-2243 | A command on ports, VLANs or the switch is attempted exactly when it can be, and its candidate differs exactly by what was asked: in an edited port every given field has the given value and every other its saved one, but for the partner that shared mode supplies and the untagged membership that a new PVID carries along; likewise for ports and VLANs created and deleted and for the switch record. |
| `CommandEffects.EndpointsMean` | switchlab/engine.py:2086-2142 | Likewise for endpoints created, edited and deleted, attachments, and the supplicant profile of one source. |
| `CommandEffects.RadiusMeans` | switchlab/engine.py:1804-1923 | Likewise for materials, templates, the settings, and servers, accounting targets and senders with their positions in their lists. |
| `CommandEffects.SnmpMeans` | switchlab/engine.py:2330-2381 | Likewise for views, groups, credentials and targets, with a group kept or a credential made on the way. |
| `PublishedEffects.AcceptedExactly` | switchlab/engine.py:2086-2381 | A command is accepted exactly when it can be attempted and its candidate is valid and within the capacities; what is accepted differs exactly by what the command names. |
| `PublishedEffects.SwitchingNamesExactly` | switchlab/engine.py:2143-2243 | A switching command names exactly the ports it creates, deletes, strips of a VLAN or edits in more than name, alias and notifications, and exactly the endpoints that were attached to a deleted port or have a source tagged for a created or deleted VLAN. |
| `PublishedEffects.EndpointsNameExactly` | switchlab/engine.py:2086-2142 | An endpoint command names its endpoint exactly when it changes more than the name or a profile. |
| `ScopedChecks.EndpointCommandsExact` | switchlab/engine.py:2086-2142 | Endpoint and attachment commands: likewise. |
| `ScopedChecks.RadiusCommandsExact` | switchlab/engine.py:1868-1923 | Material, template, server and sender commands: checking the dependents of one material decides all profiles. |
| `ScopedChecks.SnmpCommandsExact` | switchlab/engine.py:2330-2381 | View, group, credential and target commands: checking the records that refer to the edited one decides all of them. |
| `PlanSet.PlanSet` | switchlab/mib.py:403-575 | From any valid configuration the planner fails with an index inside the request or returns the simultaneous outcome, which satisfies the whole validator. It fails exactly with the first binding that fails by itself; or, when no valid configuration is an outcome, with `inconsistentValue` at the least binding charged with a broken relation; or, when none is charged, with `resourceUnavailable` at the least created row that cannot be allocated. |
| `PlanSet.CheckAll` | switchlab/mib.py:426-486 | The pass over the bindings finds the first failure in original order, or one assignment per binding without contradiction. |
| `PlanSet.ReadCommands` | switchlab/mib.py:411-422 | Row intent is taken from the first row binding of each VLAN. |
| `PlanSet.DecodePorts` | switchlab/mib.py:454-462 | Decoding a bitmap octet by octet and bit by bit gives the ports with those bridge numbers, or fails on a number without a port. |
| `PlanSet.ApplyAll` | switchlab/mib.py:488-540 | Applying assignments one after the other gives a simultaneous outcome: fallbacks of deleted PVIDs, memberships, names, the first effective index and the PAE actions. |
| `PlanSet.FindConflict` | switchlab/mib.py:544-567 | Re-checking affected ports only finds the least of all assignments charged with a broken relation of any port, and finds one exactly when some port ends broken. |
| `PlanSet.FirstOccupied` | switchlab/mib.py:568-573 | The first created row whose FDB identifier is taken, if there is one. |
| `PlanSet.Settle` | switchlab/mib.py:488-575 | The second half of the planner yields a plan exactly when the outcome is valid, and otherwise the blame that its outcome determines. |
| `SetEffects.BrokenIsCharged` | switchlab/mib.py:548-565 | Every relation a request breaks is charged to at least one of its bindings; the conflict set is never empty when a port ends inconsistent. |
| `SetEffects.ChargedIsBroken` | switchlab/mib.py:548-565 | No binding is charged for a port that ends consistent. |
| `SetEffects.MeetsDecides` | switchlab/mib.py:542-573 | The outcome satisfies the whole validator exactly when no port ends broken and no created VLAN collides: what the planner re-checks is all that can fail. |
| `SetLaws.MeetsDetermined` | switchlab/mib.py:488-540 | A request denotes one outcome, up to the order of membership lists. |
| `SetLaws.ChangedIffEffective` | switchlab/mib.py:381-383 | An outcome differs from the configuration or asks for a PAE action exactly when one assignment is effective. |
| `SetLaws.NoneEffectiveChangesNothing` | switchlab/mib.py:508-540 | Assignments none of which is effective leave the configuration exactly as it was. |
| `SetRequests.OrderIrrelevant` | switchlab/mib.py:409-486 | Whether a request is assigned, what it intends for rows and what it assigns do not depend on the order or repetition of its bindings. |
| `Planner.ActionsAre` | switchlab/mib.py:517-520 | The PAE actions are those asked for, and initialize beats reauthenticate whichever comes first. |
| `Planner.GrownPortsMeet` | switchlab/mib.py:494-538 | Port policies grown assignment by assignment are the simultaneous ones. |
| `PlanLaws.PlanOrderIrrelevant` | switchlab/mib.py:403-575 | A request that succeeds succeeds in every order with the same VLANs, ports, creates, deletes and PAE actions (section 4.2.5 of RFC 3416). |
| `PlanLaws.ChangedIffFirst` | switchlab/mib.py:381-383 | `changed` holds of a successful plan exactly when its first effective index is not zero. |
| `PlanLaws.RepeatChangesNothing` | switchlab/mib.py:403-575 | Repeating a success without create rows and PAE actions succeeds and changes nothing at all. |
| `PortLists.PortList` | switchlab/mib.py:45-50 | Setting one bit per chosen port in a byte array sized for the greatest bridge number writes exactly the bitmap of these ports. |
| `PortLists.BitmapRoundTrip` | switchlab/mib.py:454-462 | Decoding the bitmap of some ports gives back those ports, for arbitrary sparse bridge-port numbers. |
| `WritableTables.LookupFinds` | switchlab/mib.py:144-266 | GET of any writable object of an existing port or VLAN that the view shows (interface status, PVID, static VLAN columns, PAE actions and control) returns its current value with its syntax: no other row or table overwrites it. |
| `WritableTables.FoundIsSlot` | switchlab/mib.py:144-266 | Nothing else under a writable column has a value: a name that GET finds there is an existing port or VLAN. |
| `WritableTables.WritableAlone` | switchlab/mib.py:144-266 | Built in any order of the dictionaries and with anything in the other declared columns, these tables make a well-formed view. |
| `ReadBack.ReadBackChangesNothing` | switchlab/mib.py:296-311 | Sending back, in one SET, what GET returned for any writable objects, in any number and order, succeeds and changes nothing, whichever two views the requests use. |
| `SetPublishing.PlanIsSettable` | switchlab/engine.py:2055-2061 | Every plan keeps hardware, FDB identifiers and the aging time and names each port whose PVID it changes, which is what publishing a SET relies on. |
| `MibView.OrdinaryInTable` | switchlab/mib.py:100-118 | Under a table's prefix the plain enumeration holds exactly that table's rows: loading one table reveals all of its names. |
| `MibContents.CurrentExactly` | switchlab/mib.py:268-291 | The current rows of a cutoff are exactly the allowed objects of the VLANs changed at or after it, when it does not lie ahead of the clock: FDB number, members, untagged members, status and creation time, which a wrap resets (dot1qVlanCurrentTable of RFC 4363). |
| `MibContents.CellsExactly` | switchlab/mib.py:106-118 | Under a table's prefix a name is visible with a value exactly when it is allowed and a cell of one of the table's rows has that name and that value. |
| `MibContents.ScalarsExactly` | switchlab/mib.py:94-98 | Outside all tables a name is visible with a value exactly when it is allowed and a scalar has both. |
| `MibWalk.WalkVisitsAll` | switchlab/mib.py:313-338 | Repeating GETNEXT ends, having visited exactly the visible names above the start, once each, in strictly increasing order. |
| `MibWalk.WalkFromRoot` | switchlab/mib.py:313-338 | From the root it visits every ordinary object and every current-VLAN row of cutoff 0 (section 4.2.2 of RFC 3416). |
| `MibWalk.GetAgreesWithNext` | switchlab/mib.py:296-338 | GET on a name that GETNEXT returned answers with the same value, under the cutoff in that name. |
| `Projection.Projection.Next` | switchlab/mib.py:313-338 | GETNEXT returns the least visible name above the request in ordinary values and the current rows of the request's cutoff, whatever was loaded before. |
| `Projection.Projection.Get` | switchlab/mib.py:296-311 | GET answers as the plain enumeration does, told apart into no object, no instance and value, whatever was loaded before. |
| `Projection.Projection.LoadTable` | switchlab/mib.py:106-118 | Loading a table lists its allowed names in order and keeps all cached values faithful to the enumeration. |
| `Projection.Projection.Current` | switchlab/mib.py:268-291 | The cached rows of a cutoff are those of the enumeration. |
| `Projection.Projection.constructor` | switchlab/mib.py:59-75 | A fresh index is consistent with its view. |
| `Projection.CandidateWins` | switchlab/mib.py:325-335 | Because families are disjoint intervals, the first key of the first family that has one, or a smaller scalar, is the global successor. |
| `Projection.WriteTable` | switchlab/mib.py:111-117 | Writing rows column by column is folding all allowed entries, later ones over earlier ones. |
| `Projection.WriteCurrent` | switchlab/mib.py:276-288 | The current rows written are those of the VLANs the cutoff selects, with wrapped timestamps reset. |
| `Registered.RegistryWellformed` | switchlab/mib.py:141-266 | The families and scalars the index registers are disjoint, whatever rows they hold. |
| `Codec.PacketAttributes` | switchlab/radius.py:58-76 | The parsing loop computes the parse of the packet without its padding, or the first error. |
| `Codec.EncodeAttributes` | switchlab/radius.py:79-87 | The encoding loop computes the concatenated attributes, or refuses an unencodable one or an oversized body. |
| `Codec.ParseEncoded` | switchlab/radius.py:58-87 | Parsing a packet built around an encoded list gives back the list, whatever UDP padding follows. |
| `Codec.EncodeParsed` | switchlab/radius.py:58-87 | Re-encoding the attributes of a parsed packet restores its octets if none has type 0. |
| `Codec.TypeZeroIsNotEncoded` | switchlab/radius.py:79-84 | The exception is exact: one attribute of type 0 parses and then refuses to encode. |
| `Authenticators.MessageAuthenticator` | switchlab/radius.py:90-104 | The loop finds the one Message-Authenticator and zeroes it in place, or reports that it is missing, repeated or of a wrong length. |
| `Authenticators.LocatesOne` | switchlab/radius.py:90-104 | It succeeds exactly on packets with a single attribute of type 80, of sixteen octets. |
| `Authenticators.HidePassword` | switchlab/radius.py:143-149 | The chained hiding loop computes the hidden password of section 5.2 of RFC 2865. |
| `Authenticators.RevealHidden` | switchlab/radius.py:143-149 | Whoever knows the secret and the request authenticator recovers the padded password. |
| `Authenticators.MabRequest` | switchlab/radius.py:137-152 | Building a request computes the specified packet, or one of its refusals. |
| `Authenticators.AccessRequestVerifies` | switchlab/radius.py:331-336 | Every packet it builds passes the decoder's Message-Authenticator check, carries the given attributes and reveals the password to its server. |
| `NativeDecoder.ChunkingIrrelevant` | switchlab/radius.py:286-310 | Splitting a stream into any sequence of feeds has the verdict of one feed and finish: failure, or the identical observation. |
| `NativeDecoder.ResultIsOneExchange` | switchlab/radius.py:330-351 | A released result is made of one request and one reply among the frames of the stream, no other reply to that request being in it: the request carries the keyed digest of itself with the digest blanked; the reply has the request's identifier and both digests made with the secret over the request's authenticator, and its EAP packet, if any, is whole. |
| `NativeReplies.VerifyAccessExactly` | switchlab/radius.py:107-134 | A reply is accepted exactly when it answers the request, its only Message-Authenticator is the keyed digest of the reply with the request's authenticator in the header and the attribute blanked, its Response Authenticator is the MD5 of section 3 of RFC 2865, and the EAP attributes stand in one stretch that holds one whole EAP packet; the result is its code, its attributes and the request's authenticator. |
| `NativeReplies.AnsweredIsAccepted` | switchlab/radius.py:107-134 | The reply of a server that shares the secret is accepted wherever among its attributes it puts the Message-Authenticator, and yields what was put in. |
| `NativeReplies.RequestVerifiesExactly` | switchlab/radius.py:331-336 | A request record passes exactly when it fills its packet and its only Message-Authenticator is the keyed digest of the packet with the attribute blanked. |
| `NativeStreams.ObservationReports` | switchlab/radius.py:286-392 | An observation is released only for at most 512 frames of which the last is the only terminal one, whose records are all between the configured peer and one local socket; the reported counts of EAP events, challenges and invalid replies are those of the frames. |
| `NativeFrames.PumpTwice` | switchlab/radius.py:299-310 | Consuming a buffer, then its rest together with more, is consuming everything at once. |
| `NativeChannel.Decoder.Receive` | switchlab/radius.py:286-310 | A feed computes the specified one in place, fails the channel for good, and is refused once it has failed or ended. |
| `NativeChannel.Decoder.Request` | switchlab/radius.py:331-340 | A request record is stored only if its integrity check passes and its key is new or repeats the same packet. |
| `NativeChannel.Decoder.Respond` | switchlab/radius.py:341-351 | A response record is accepted only against a stored, unconsumed request, which it consumes. |
| `NativeChannel.Decoder.Close` | switchlab/radius.py:376-392 | The observation is released at most once, from a complete channel whose terminal agrees with the result. |
| `Authorization.GrantedExactly` | switchlab/radius.py:171-254 | An Access-Accept is granted exactly when every attribute is well formed, nothing is said twice, and the tunnel group (or the port default) names a usable VLAN; the grant names that VLAN. |
| `Authorization.GrantOrderIrrelevant` | switchlab/radius.py:171-254 | Whether it is granted, and all of the grant but the order of classes, does not depend on the order of the attributes. |
| `Authorization.ScanExactly` | switchlab/radius.py:174-228 | The pass over the attributes succeeds exactly on attributes that are well formed and not repeated, and collects what they say. |
| `Authorization.Authorize` | switchlab/radius.py:171-254 | The loops compute the specified authorization or its first error. |
| `Authorization.CheckVendor` | switchlab/radius.py:186-200 | The walk over a vendor attribute computes its verdict, and accepts exactly vendor 311 followed by items of type 16 or 17 whose second octet is their size. |
| `Authorization.VendorExactly` | switchlab/radius.py:186-200 | The verdict is acceptance exactly when the value has six octets or more, starts with vendor number 311, and the rest is a concatenation of key items. |
| `Budgets.ReplyNeverOverflows` | switchlab/radius.py:741-772 | A reply to any verified request is encoded, is never longer than the request, and carries both authenticators that its client checks (section 3.4 of RFC 5176). |
| `Budgets.ProxyStatesKept` | switchlab/radius.py:757-763 | The Proxy-State attributes of the reply are those of the request, in the same order. |
| `Budgets.VerifiedRequest` | switchlab/radius.py:715-738 | A verified request parses, has a code of 40 or 43 and holds exactly one Message-Authenticator and one Event-Timestamp of the right sizes; its timestamp is a function of its octets. |
| `Budgets.VerifyDynamicExactly` | switchlab/radius.py:715-738 | A Disconnect- or CoA-Request is accepted exactly when its authenticator and its only Message-Authenticator are the digests made with the secret (section 3.4 of RFC 5176) and one attribute is an Event-Timestamp, of four octets, which is the timestamp kept. |
| `Budgets.VerifyAccountingExactly` | switchlab/radius.py:799-824 | An accounting answer is accepted exactly when both packets carry the MD5 digests of section 3 of RFC 2866, code and identifier answer the request, neither exceeds 4095 octets, and the request holds no EAP and no Message-Authenticator. |
| `Budgets.EnqueuedStillEncodes` | switchlab/radius.py:775-796 | Values that fit with 12 octets to spare still make a packet of at most 4095 octets once any delay and status are added (section 3 of RFC 2866). |
| `Budgets.AccountingVerifies` | switchlab/radius.py:799-824 | The answer of a server that shares the secret verifies against every request that is built, and yields its attributes. |
| `DynamicPlanner.PlanOrderIrrelevant` | switchlab/radius.py:904-1011 | The plan, its error cause included, is the same for every permutation of the request's attributes. |
| `DynamicPlanLaws.PlanExactly` | switchlab/radius.py:904-993 | A request is refused with the Error-Cause of the first of twelve faults, each said of its attributes and of the sessions, and acknowledged exactly when it has none. |
| `DynamicPlanLaws.AckMeans` | switchlab/radius.py:947-993 | An acknowledged request asks for exactly the controls and the VLAN that its attributes say, of exactly the sessions that agree with each of its attributes. |
| `DynamicPlanner.AckIsFresh` | switchlab/engine.py:1777-1781 | An acknowledged plan proposes at least one session, each once, and all pass the commit-time generation checks in the same state. |
| `DynamicPlanner.AckApplied` | switchlab/engine.py:1777-1803 | Once an acknowledged plan is applied, a disconnect has ended exactly the sessions that agree with every supplied selector and NAS attribute, and a change has given each of them exactly the VLAN, timeouts, termination and state asked for and kept the rest; no other session is touched, and a session on a usable VLAN stays on one. |
| `AccountingRuns.RunConserves` | switchlab/engine.py:593-632 | From a fresh start, in every state of every run: each sequence number issued belongs to a queued record, a delivered one or a drop other than for representation; numbers ascend along the queue, which holds at most 1024 records. |
| `AccountingRuns.NothingOvertakes` | switchlab/engine.py:1478-1489 | Once a record may be sent, no earlier record of its session and no earlier lifecycle record is queued then or ever again; once a lifecycle record may be sent, no earlier record at all. |
| `Accounting.QueuedStillEncodes` | switchlab/engine.py:603-632 | Every queued record, whatever its delay has become, still makes a packet of at most 4095 octets. |
| `Accounting.QueueKeeps` | switchlab/engine.py:603-646 | Queueing keeps conservation and order on every path: disabled, unrepresentable, overflowing and queued. |
| `AccountingLaws.SessionSays` | switchlab/engine.py:608-629 | A session's record holds exactly its access attributes, user name, classes, tunnel group and, when it is interim or final, seconds, octets in two words, packets and the cause, each number read back from its octets; it cannot be made exactly when one of them does not fit. |
| `AccountingLaws.QueueExactly` | switchlab/engine.py:603-648 | With accounting on and a target enabled, a record with the next number stands behind the others, for exactly the enabled targets; or it is counted as an overflow when the queue is full, or as a misfit; otherwise nothing changes. |
| `AccountingLaws.PruneExactly` | switchlab/engine.py:1841-1848 | Pruning keeps exactly the records of this process that are at most five minutes old by both clocks, in their order, and counts the others. |
| `AccountingLaws.FinishExactly` | switchlab/engine.py:1856-1863 | A finished record, and no other, leaves the queue and is counted as delivered or as exhausted. |
| `AccountingLaws.AttemptExactly` | switchlab/engine.py:1849-1855 | An attempt marks its record as being sent and counts it, and touches no other. |
| `AccountingLaws.RestoreExactly` | switchlab/engine.py:1047-1051 | A restart keeps exactly the records for the targets and the delivery policy enabled now, and counts the others. |
| `AccountingLaws.ReconciledExactly` | switchlab/engine.py:659-674 | A change of settings drops and counts every queued record, and what is queued then belongs to the sessions and to the new settings. |
| `AccountingQueue.Heads` | switchlab/engine.py:1479-1484 | The records that may be sent are exactly those with no earlier record of their session and no lifecycle record before them, a lifecycle record only when it is first. |
| `AccountingQueue.Start` | switchlab/engine.py:1485-1489 | Only heads that match the policy and have not expired start, at most eight at a time, and all of these start while tasks are free. |
| `AccountingQueue.Outbox.Enqueue` | switchlab/engine.py:603-648 | Queueing in place computes its operation on the ledger. |
| `AccountingQueue.Outbox.Reconcile` | switchlab/engine.py:659-674 | Only a change of the switch, the delivery options or a target drops and counts every queued record, and then queues a start for every session unless accounting is off; every session whose interval changed, or all of them, get a new deadline. |
| `Accounting.RetimedKeeps` | switchlab/engine.py:659-674 | Reconciliation leaves a session with a deadline exactly when it has an interval, and then within one interval from now. |
| `AccountingQueue.Outbox.Complete` | switchlab/engine.py:1856-1863 | A finished record leaves the queue, delivered or counted as exhausted. |
| `AccountingQueue.Outbox.Service` | switchlab/engine.py:1470-1489 | Serving forgets finished tasks, prunes expired records and starts only records that may be sent. |
| `AccountingQueue.Outbox.Reopen` | switchlab/engine.py:1044-1052 | A restart keeps the saved records that still match the policy and counts the others. |
| `AccessLaws.AcceptedThroughout` | switchlab/engine.py:574-582 | A RADIUS answer is looked at only if its attempt was current in every state published since it began: epoch, context, prior session and grant never differed, not even for a change that was undone. |
| `AccessLaws.RunHolds` | switchlab/engine.py:686-737 | In every published state all attempts are current, all attempts and sessions on a port outside multi-auth mode share one MAC address, and every session is on an up port in automatic control with an existing VLAN that is not forbidden there. |
| `AccessLaws.SessionsOnlyGranted` | switchlab/engine.py:1983-2054 | A key gains a session only through a granting answer to its current attempt. |
| `AccessLaws.StaleExactly` | switchlab/engine.py:1983-1987 | In a published state an answer is stale exactly when its attempt is gone. |
| `AccessLaws.CommandAccepted` | switchlab/engine.py:716-737 | Every legal command can be reconciled: no session is ever left on a port that is gone. |
| `AccessRuns.ReconciledPublished` | switchlab/engine.py:716-737 | Whatever a command did to attempts, sessions and configuration, reconciliation restores all that published states satisfy. |
| `AccessRuns.BeginKeeps` | switchlab/engine.py:319-385 | Beginning an attempt never puts a second MAC address on a port outside multi-auth mode, and captures the grant it renews. |
| `AccessRuns.EditKeeps` | switchlab/engine.py:716-737 | Changing a port's access settings leaves nothing on it in good standing, so the exclusion survives every edit. |
| `AccessTable.Table.BeginAttempt` | switchlab/engine.py:319-385 | Beginning in place computes its step, refusals included. |
| `AccessTable.Table.EndSession` | switchlab/engine.py:686-714 | Ending a session also ends the renewal of its grant, and nothing else. |
| `AccessTable.Table.AmendSession` | switchlab/engine.py:1782-1800 | A changed grant retires the pending attempt and draws another grant identifier, and changes nothing else. |
| `AccessTable.Table.Answer` | switchlab/engine.py:1983-2054 | An answer computes its step in place; what it leaves of attempts and sessions, `AccessAnswers.RefusalEnds`, `AcceptAuthorizes`, `FallbackBegins` and `StaleLeaves` say. |
| `AccessAnswers.RefusalEnds` | switchlab/engine.py:1988-2018 | For a current attempt, a failed exchange, a reject that does not fall back and an accept whose VLAN is not usable leave its key with neither attempt nor session, and change nothing else. |
| `AccessAnswers.AcceptAuthorizes` | switchlab/engine.py:2019-2054 | A usable accept leaves a session with exactly the authorized VLAN and controls, of the same identifier exactly when VLAN, origin and controls were the same; it consumes the attempt and changes no other key; a session more than the limit refuses the command. |
| `AccessAnswers.FallbackBegins` | switchlab/engine.py:2006-2012 | A reject that falls back leaves an attempt by MAB on the same subject, unless another address has the port, the NAS has no identifier or the renewal budget is spent, with the outcome named for each. |
| `AccessAnswers.StaleLeaves` | switchlab/engine.py:1983-1987 | An answer whose attempt is not current changes nothing. |
| `AccessAnswers.RefusalPublished` | switchlab/engine.py:2013-2018 | After a refused answer the published state has no session of its key. |
| `AccessAnswers.AcceptPublished` | switchlab/engine.py:2019-2054 | After an accepted answer that nothing else follows the published state has the session with the authorized policy. |
| `AccessAnswers.BeginExactly` | switchlab/engine.py:319-385 | An attempt begins exactly when the port permits the method, the profiles agree and no other address has the port; it captures the present context and renews the key's session; a spent renewal budget ends the session instead, and otherwise nothing changes. |
| `AccessAnswers.ContextCaptures` | switchlab/engine.py:426-440 | Two captures of a subject are equal only if name, access settings and, but for their profiles under MAB, the sources of the address on the port are the same. |
| `AccessAnswers.EndExactly` | switchlab/engine.py:686-714 | Ending a session takes it and the renewal of it, and nothing else. |
| `AccessAnswers.AmendExactly` | switchlab/engine.py:1782-1800 | An amended session keeps its identifier and gets another grant and the new policy. |
| `AccessAnswers.ReconciledExactly` | switchlab/engine.py:716-737 | Reconciliation keeps exactly the sessions whose port is up with the same access settings and whose VLAN exists and is not forbidden, and exactly the attempts that are current and whose session is kept. |
| `AccessAnswers.RunMinted` | switchlab/engine.py:362-385 | In every published state every identifier was handed out, and only a renewal by MAB rests on its session alone. |
| `AccessTable.Table.Reconcile` | switchlab/engine.py:716-737 | The two loops over attempts and sessions remove exactly the outdated attempts, the displaced sessions and the renewals of these, in whatever order they visit them. |

## Left out

- Advance.AdvanceAdds: events carry their simulated time and content, not the revision and uptime stamps, which count commands and real time and so differ between one advance and two.
- Advance.RunCounts: counters are unbounded; the program reduces them modulo 2^32 or 2^64 only where it projects them.
- Learning.RunLearns: when the addresses involved do not fit into the table, which of them are learned depends on the order; then only `Learning.RowsAreExpected` is stated.
- Runtime.Runtime.AdvanceTime: the case with sessions or ports in `auto` control, where an advance may stop to wait for an exchange, is covered by the moves of `Lifecycle`, not by this method.
- Lifecycle.ExecuteKeeps: what RADIUS does during an advance or an observation is any sequence of legal moves (rows removed, observations with any grant), which includes what the program does.
- Publishing, access sessions, accounting and dynamic authorization are separate machines, each with theorems over every run of its own; what one does to another is an arbitrary legal input, and no theorem ranges over one combined state.
- Lifecycle.RunKeepsInvariant: the command wrapper itself is modelled on values; idempotency keys, revisions, VLAN timestamps, credential generations, notifications and the outbox are not part of the published state.
- DynamicAuthorization.AppliedAtMostOnce: drop counters and clock readings that are not finite are not modelled; a reading that is not finite makes the program refuse, as an unsafe one does.
- DynamicRuns.EffectNeedsUnchangedSender: a uid is assumed to differ from every token that memory or store carries when it is drawn.
- AccountingRuns.RunConserves: the bound on the queue's size in octets depends on JSON formatting; a draft says whether it is exceeded.
- AccountingQueue.Outbox.Service: sending, retrying and cancelling a started record is I/O; only finished tasks and results come back.
- AccessLaws.RunHolds: deadlines, discovery, retry times and the PAE state decide when steps happen, not what they may do, so they are not part of the state; every order of steps is allowed.
- AccessAnswers.AcceptPublished: the session deadlines that are processed right after a grant are steps of their own, so it speaks of an answer that nothing follows.
- The digest of the RADIUS settings, which leaves out labels, is a parameter.
- DynamicPlanner.AckApplied: the session deadlines that are processed right after a plan are not part of it, and the rows and renewals that a changed or ended session loses belong to `AccessSessions`.
- DynamicPlanner.PlanOrderIrrelevant: reading a MAC address out of a Calling-Station-Id is a parameter.
- Projection.Projection.Next: the rows of a view and the encoding of values are inputs; of the actual tables only the columns of writable objects are built from a configuration, and what the other columns show is arbitrary.
- PlanSet.PlanSet: authentication and the response budget of a SET belong to the SNMP adapter and are not modelled.
- Storage.ComposeAfterSplit: the strict shape checks on stored fragments concern JSON, which is not modelled; neither are migrations of older formats.
- HTTP routes, sessions of the management interface, snapshots, redaction and the browser interface: plumbing and display.
- The SNMP engine binding, message sizes and ticket ownership in `snmp.py` and `snmp_lifetime.py`: tied to the layouts of a library.
- SQLite, Fernet and JSON octets: only the atomic outcome of a commit is kept.
- Server health, retry backoff, the EAP helper process and its sockets: I/O.
- PAE statistics, ENTITY descriptive columns and notification texts: they would only add easy members.
- X.509 parsing and the field formats that a record checks on its own: subset types stand for them.
