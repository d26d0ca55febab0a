# Hurra-Cynthion: verified model

Hurra-Cynthion sits between a HID device (the TARGET) and a PC (on AUX): it enumerates the device,
clones its descriptors, relays its reports, and can merge commands from a microcontroller into them.
The gateware is written in Amaranth. This project models its hardest modules in Dafny and proves what
they keep over every input and every run.

How a module is modelled: registers that change together are records, one step function says what a
clock (or one loop iteration of the state machine) does, and a class holds the registers and memories
and performs that step imperatively; each method is proved against the step function. The theorems are
lemmas about the step function and about whole runs of it. What a component does for those who use it is
said of its ports: the key asked, the bytes sent, the clocks taken, with the numbers written out. Lemmas
without a row below are steps of a proof, or pin what a single clock does to the ports.

| area | modules |
|---|---|
| report mutation over a validated map | `FieldPipeline`, `ReportLaws`, `ReportDecoding`, `ReportMeaning`, `MapEntries`, `Bits` |
| layout state and transactions | `LayoutStates`, `InjectedState`, `EngineTransaction`, `EngineOutcome`, `InjectedReports`, `InjectionRuns` |
| commands | `CommandHold`, `CommandOutcome`, `CommandMaps` |
| map upload, validation and publication | `MapValidation`, `UploadRules`, `MapStore`, `MapUploads`, `LayoutQueries`, `MapGuarantees`, `Crc` |
| two configuration parsers that must agree | `ConfigurationParser`, `ConfigurationStream`, `ParserAgreement`, `ConfigurationMeaning`, `StreamErrors` |
| descriptor store | `DescriptorStore`, `DescriptorRefinement`, `DescriptorPorts`, `DescriptorLookup`, `LookupRaces` |
| endpoint-zero forwarding | `ControlForwarding`, `ForwardingSafety`, `ForwardOutcome`, `ForwardingTimeouts`, `ResponsePackets` |
| control transfers to the target | `ControlTransfer`, `ControlGuarantees`, `ControlOutcome` |
| forwarding end to end | `ForwardedTransfers`, `PayloadPackets`, `PayloadRuns` |
| bus sharing | `BusSharing`, `BusService`, `SharedTransactions` |
| single transactions | `TransactionEngine`, `TransactionStages`, `TransactionOutcome` |
| bus reset and speed detection | `ChirpHandshake` |
| boot protocol tracking | `BootProtocol`, `BootReplayRuns`, `BootReplayRace`, `BootProgress`, `RelayProjection`, `ProtocolTransfers` |
| report relay and interrupt endpoints | `ReportRelay`, `RelayProgress`, `RelayRouting`, `RelayArrivals`, `InterruptLinks`, `InterruptErrors` |
| slots and checksums | `Crc16`, `CrcStrength`, `CrcVectors`, `SlotCodec`, `SlotLink`, `SequenceWindow` |
| messages | `WirePayload`, `WireVectors`, `WireMessages`, `EntryPayload` |

## Where a promise turned out false

Each of these is a lemma with the input, or the run from reset, that shows it, beside a lemma saying
exactly when the promise does hold.

- Map validation does not force a field's logical range to fit its width, so an emitted value need not
  decode: `ReportDecoding.AcceptedMapMisdecodes` is such a map and report. All values of a layout decode
  if and only if every moving entry can carry both ends of its range
  (`ReportDecoding.AcceptedMapDecodes`).
- A command may be acknowledged without having been folded into any report. If the endpoint's boot bit
  rises in mid-transaction the plane drops the held command, the engine still commits it, and its ready
  acknowledges whatever has been staged since (`CommandHold.BootLosesACommand`). The acknowledged command
  is the folded one if and only if the taken frame was not dropped (`CommandHold.AcknowledgedIsFolded`),
  and it is dropped if and only if the boot bit was up (`CommandHold.OrphanedOnlyByBoot`).
- A timed click started when the accepted-report counter is at its ceiling never ends
  (`InjectionRuns.SaturatedClickNeverEnds`); it ends if and only if its target does not pass the ceiling
  (`InjectionRuns.ClickEndsUnlessSaturated`).
- The two configuration parsers disagree on some inputs with a second configuration descriptor, in both
  directions (`ParserAgreement.BufferAloneAccepts`, `ParserAgreement.StreamAloneAccepts`); the exact
  condition is `ParserAgreement.AcceptedBufferStreams` and `ParserAgreement.StreamedBufferAccepts`.
- The descriptor store's lookup port can answer wrongly when a commit lands on its scan, in three ways,
  each a run from reset (`LookupRaces.CommitOnTheMatch`, `LookupRaces.CommitBehindTheScan`,
  `LookupRaces.CommitUnderTheRegister`). `DescriptorLookup.LookupIsCurrent` says exactly when: it is a
  condition on the slot and cycle of the commit and the slot and register of the scan. The serve port has
  no such case.
- Commit and abort on one cycle corrupt the descriptor store if and only if a nonempty descriptor was to
  replace one the map has (`DescriptorRefinement.AbortedCommitIsHarmless`); the enumerator never raises
  both.
- A request the relay takes on the very cycle WAIT_RELAY would have given up escapes the 20 ms bound and
  can hold the PC past 50 ms (`ForwardingTimeouts.LateAcceptanceOutlastsBound`), with or without OUT data,
  and every SET_IDLE and SET_PROTOCOL can get there (`ForwardingTimeouts.LateAcceptanceIsReached`). No
  other cycle takes the timer past its bound (`ForwardingTimeouts.BoundIsKept`).
- OUT data of a forwarded transfer that succeeds need not be the PC's. The handler forwards bytes before
  their packet's checksum is known and does not look at its toggle: a damaged packet fills the relay ahead
  of the good one (`PayloadRuns.DamagedPacketIsForwarded`), and a packet repeated after a lost ACK is taken
  twice (`PayloadRuns.RepeatedPacketIsForwarded`). `PayloadPackets.CapturedIsThePayload` says exactly when
  the bytes are right. A PC that has seen every packet acknowledged has lost no ACK, so for it the damaged
  packet is the whole failure (`PayloadPackets.AcknowledgedStage`).
- The engine's inputs do not always stay with the client that started a transaction: a forwarded transfer
  ended by the NAK timer leaves its transaction in flight under a poller's port
  (`BusSharing.ControlInputsLeave`), and a poller disabled in mid-transaction may leave its own under
  control's (`BusSharing.PollerInputsLeave`). They stay if and only if the starter has not given the
  transaction up (`BusSharing.InputsStayWithStarter`). Nobody acts on such a transaction's end
  (`BusSharing.OnlyOwnDoneActs`), and a success that is acted on has sent its own payload
  (`SharedTransactions.HeardSuccessSentItsPayload`).
- A resync trigger that arrives during another trigger's replays can undo a protocol the PC chose after
  it (`BootReplayRace.LateTriggerUndoesChoice`). A boot choice is replayed to if and only if it completed
  at least three clocks before a trigger is taken up (`BootReplayRuns.EarlierChoiceIsPending`), and is
  undone then (`BootReplayRuns.ChoiceIsUndone`); a trigger that finds the tracker idle undoes nothing
  chosen after it (`BootReplayRuns.IdleTriggerUndoesNothing`).
- After the OUT writer drops a packet, by error or by flush, that has reached the device, the next packet
  counted as written is lost (`InterruptLinks.LostAcksReachIt`, `InterruptLinks.FlushLosesThePacketAfter`).
  Over all runs the packets written and never taken are exactly those (`InterruptLinks.WrittenButLost`,
  `InterruptLinks.DirtyDrops`).
- A report there was room for and that a flush overtakes is neither queued nor counted as dropped, even
  when it begins on the very cycle of the flush; every other report has exactly one fate (`RelayRouting.EveryReportHasOneFate`).
- The relay counts on every control transfer ending in a time-out or a disconnection. A device that keeps
  repeating its last packet, having lost every ACK, is never timed out (`ControlGuarantees.RepeatsNeverEnd`,
  reached by `ControlGuarantees.RepeatingIsReached`). Of the answers a device can give, only such repeats
  escape the bound (`ControlGuarantees.OutlastingIsRepeats`, `ControlGuarantees.NakStretchIsBounded`); a
  transaction engine that stays busy, a consumer that never takes a byte, and a stage that has heard no
  answer at all are not under the control engine's bound.

## Model

| member | source | states |
|---|---|---|
| `FieldPipeline.FieldEngine.MergeButtons` | src/hurra_cynthion/injection.py:1535-1578 | Every bit of a button field whose usage is a button becomes (native and not masked) or injected, every other bit of the report keeps its value, the native lane is untouched, and it finishes exactly if the map outlives one check a bit |
| `FieldPipeline.FieldEngine.ExtractField` | src/hurra_cynthion/injection.py:1454-1474 | The bit loop gathers the unsigned little-endian value of the field in the native lane |
| `FieldPipeline.FieldEngine.InsertField` | src/hurra_cynthion/injection.py:1500-1534 | Exactly the bits of the field become the low bit_width bits of the value; all other working bits and the whole native lane stay |
| `FieldPipeline.FieldEngine.CommitField` | src/hurra_cynthion/injection.py:772-830 | The value shown is physical plus pending clamped to the logical range, and what was cut off becomes the new pending motion of that axis, truncated to 32 bits |
| `FieldPipeline.FieldEngine.MoveAxis` | src/hurra_cynthion/injection.py:1454-1534 | A relative field ends as the clamped total in its own bits and nowhere else |
| `FieldPipeline.FieldEngine.Mutate` | src/hurra_cynthion/injection.py:1402-1592 | For every native report, validated map and layout record: if the map outlives every check the working lane is the declarative result (MutatedBy) and pending motion has been threaded in entry order; otherwise the pipeline stops; the native lane is never altered |
| `ReportLaws.MutationIsUnique` | src/hurra_cynthion/injection.py:1402-1592 | The declarative description of a mutated report has exactly one solution |
| `ReportLaws.EmittedValueDecodes` | src/hurra_cynthion/injection.py:772-852 | A host decoding one moved field of one report reads the emitted value if and only if that value is representable in the field; ReportDecoding turns this into a condition on the map |
| `ReportDecoding.MutationExists` | src/hurra_cynthion/injection.py:1402-1592 | Every map without overlaps has a mutated report for every native report and motion: the declarative description is never empty |
| `ReportDecoding.DecodesIffRangesFit` | src/hurra_cynthion/injection.py:772-852 | Every report of a layout, under every pending motion, decodes in every moving field if and only if each moving entry can carry both its logical minimum and its logical maximum |
| `ReportDecoding.AcceptedMapDecodes` | src/hurra_cynthion/injection_map.py:682-764 | So it is for every accepted upload: validation does not check the range against the width, and that is exactly what is missing |
| `ReportDecoding.AcceptedMapMisdecodes` | src/hurra_cynthion/injection_map.py:682-764 | Concrete failure: an accepted one-entry upload, an 8-bit X axis with range -1000 to 1000, a report and a pending motion for which the host reads another value than the one emitted |
| `ReportLaws.NothingInjectedIsTransparent` | src/hurra_cynthion/injection.py:772-852 | With nothing pending, pressed, masked or held and physical values in range, the emitted report is the native report, bit for bit |
| `ReportLaws.ResidualShrinks` | src/hurra_cynthion/injection.py:779-830 | With the physical value in range the residual has the pending motion's sign, no larger magnitude, and fits 32 bits; strictly inside the range it strictly shrinks |
| `ReportLaws.ReportConservesMotion` | src/hurra_cynthion/injection.py:779-830 | Emitted minus physical, summed over the entries of an axis, plus the motion left is the motion that was pending, even when one axis appears twice |
| `ReportLaws.ReportConservesMotionModulo` | src/hurra_cynthion/injection.py:779-830 | Without any range assumption the same conservation holds modulo 2^32 |
| `ReportLaws.InRangeResidualsFit` | src/hurra_cynthion/injection.py:779-830 | Physical values in range keep every intermediate residual within 32 bits and pointing the same way |
| `ReportLaws.SynthesisedReportShrinks` | src/hurra_cynthion/injection.py:522-558 | A synthesised report with 0 strictly inside the range strictly shrinks a nonzero residual |
| `ReportLaws.ResidualDrains` | src/hurra_cynthion/injection.py:522-558 | After as many synthesised reports as the residual is large, the residual is zero |
| `MapValidation.EntryCheckIsExact` | src/hurra_cynthion/injection_map.py:511-535 | The mask arithmetic over the flags byte accepts exactly the three declared field classes, and names the first rule an entry breaks |
| `MapValidation.MapValidator.FindLayout` | src/hurra_cynthion/injection_map.py:777-803 | The scan finds the slot of a key exactly if an earlier entry had it |
| `MapValidation.MapValidator.SelectLayout` | src/hurra_cynthion/injection_map.py:766-830 | Equal keys share one slot and one report length; a new key is appended exactly if the directory has room |
| `MapValidation.MapValidator.OccupyField` | src/hurra_cynthion/injection_map.py:839-872 | The occupancy loop claims the field if and only if none of its bits belongs to an earlier field of the same layout |
| `MapValidation.MapValidator.ValidateEntry` | src/hurra_cynthion/injection_map.py:682-872 | One entry is accepted if and only if it meets its own rules, is compatible with every entry before it and opens no seventeenth layout; the CRC register and the occupancy words then cover exactly one entry more; a refusal names a rule that fails |
| `MapValidation.MapValidator.Validate` | src/hurra_cynthion/injection_map.py:665-872 | Sound and complete: the sequential validator accepts if and only if the upload meets the declarative predicate UploadOk, and a refusal names a rule that really fails |
| `MapValidation.DirectoryListsEachKeyOnce` | src/hurra_cynthion/injection_map.py:804-830 | The directory built lists every layout key of the entries exactly once |
| `MapValidation.RefusalIsRight` | src/hurra_cynthion/injection_map.py:682-764 | Whatever error an entry is refused with, the whole upload fails UploadOk |
| `MapValidation.RefusalIsUnfit` | src/hurra_cynthion/injection_map.py:682-872 | An entry refused for any reason fails a check of its own or against an earlier entry, or opens one layout too many |
| `MapGuarantees.AcceptedMapIsUsable` | src/hurra_cynthion/injection_map.py:682-872 | An accepted upload gives the engine what it needs: all fields inside their report and no two fields of one layout sharing a bit |
| `MapGuarantees.ActiveMapIsUsable` | src/hurra_cynthion/injection_map.py:361-370 | In every reachable state the active bank, when valid, holds an accepted map with those properties |
| `MapGuarantees.LookupReadsTheActiveMap` | src/hurra_cynthion/injection_map.py:304-336 | A lookup is valid a clock later if and only if the map it asked is still the one in force and has the entry, and then it carries that entry of the published upload |
| `MapStore.InjectionMapStore.Tick` | src/hurra_cynthion/injection_map.py:548-927 | One clock of all registers and memories, the validator's occupancy words and CRC register included, is the step function the theorems below are about: the validator's loops decide what the step declares |
| `MapStore.NextKeepsInv` | src/hurra_cynthion/injection_map.py:548-927 | Every clock, under every input, keeps the store's invariant: the active bank holds a published, validated upload with its directory |
| `MapStore.CommitVerdict` | src/hurra_cynthion/injection_map.py:567-872 | In every state reachable from reset, whatever happens on the clocks after it and however many of them each entry takes, a MAP_COMMIT reaches ACCEPT if and only if it repeats the metadata for the live descriptors with the right counts and the presented entries meet UploadOk; otherwise it reaches REJECT |
| `MapStore.ActiveBankIsStable` | src/hurra_cynthion/injection_map.py:290-302 | In every reachable state, between flips no entry, directory word or metadata of the active bank changes, except its validity |
| `MapStore.PublicationIsAtomic` | src/hurra_cynthion/injection_map.py:874-905 | In every reachable state the flip publishes the whole presented and validated map at once, valid unless invalidated |
| `MapStore.ActiveMapWasPublished` | src/hurra_cynthion/injection_map.py:874-927 | Over every run from reset, whatever is active and valid is the map offered at the last publication, whole, and nothing has invalidated or published since |
| `MapStore.InvalidationIsPermanent` | src/hurra_cynthion/injection_map.py:874-927 | After an invalidate, even one landing mid-validation, the active map stays invalid until a later begin has led to a later publication |
| `MapStore.QueryAnswersExactly` | src/hurra_cynthion/injection_map.py:361-474 | A hit is the one directory record with the key the query holds; a miss of a scanning query under a held snapshot means no layout has it; LayoutQueries says it of the key asked |
| `MapStore.QueryProgresses` | src/hurra_cynthion/injection_map.py:361-474 | Every clock either answers the query or moves it one record on, so it ends within layout_count steps |
| `LayoutStates.LayoutBank.Capture` | src/hurra_cynthion/injection.py:522-558 | The captured transaction is the layout's abstract state under the live masks |
| `LayoutStates.LayoutBank.AddMotion` | src/hurra_cynthion/injection.py:621-690 | A relative command is added to every axis it flags, or, if any would leave 32 bits, to none |
| `LayoutStates.LayoutBank.PressButtons` | src/hurra_cynthion/injection.py:560-660 | Buttons, timed click and restore mask follow the command over clear over release precedence |
| `LayoutStates.LayoutBank.Prepare` | src/hurra_cynthion/injection.py:1302-1364 | The transaction registers stand for the old state with all targeting commands applied |
| `LayoutStates.LayoutBank.Commit` | src/hurra_cynthion/injection.py:1594-1771 | One write makes the layout's state the transaction's; a CLEAR in it clears its categories in all sixteen layouts in the same step; nothing else changes |
| `LayoutStates.LayoutBank.Seed` | src/hurra_cynthion/injection.py:959-1022 | Seeding gives the slot an untouched state for the new map |
| `LayoutStates.LayoutBank.Invalidate` | src/hurra_cynthion/injection.py:522-558 | Every layout of every map reads as untouched |
| `LayoutStates.DroppedReadsCleared` | src/hurra_cynthion/injection.py:1327-1364 | Dropping one live-mask bit is clearing that category of the abstract state |
| `EngineTransaction.FinishIsUnique` | src/hurra_cynthion/injection.py:1642-1771 | There is at most one clock on which the last byte is accepted |
| `EngineTransaction.EmissionCommits` | src/hurra_cynthion/injection.py:1642-1771 | OUTPUT commits exactly when the map was there on every clock up to the last byte |
| `EngineTransaction.EmissionFallsBack` | src/hurra_cynthion/injection.py:1594-1641 | OUTPUT falls back to the native lane exactly when some clock before the first accepted byte found the map gone |
| `EngineTransaction.ReportInjectionEngine.Emit` | src/hurra_cynthion/injection.py:1642-1771 | One lane goes out whole, in order, or not at all: no report mixes native and mutated bytes |
| `EngineTransaction.ReportInjectionEngine.Transact` | src/hurra_cynthion/injection.py:1252-1771 | Atomic: it commits exactly if the map survives to the last byte, and then state, report and the ready pulse of each targeting command move together, the flags being those prepared from the captured commands; a map lost before the first byte gives the native bytes (or no report when stationary); without a commit no ready is raised and no layout's state changes |
| `CommandHold.ReportInjectionDataPlane.Tick` | src/hurra_cynthion/gateware.py:285-330 | One clock of the one-deep RX hold: a stale or foreign frame leaves at once, a fresh command when its own ready comes, everything when the link, the session or the descriptors go |
| `CommandHold.NextKeepsInv` | src/hurra_cynthion/gateware.py:285-444 | Every clock of plane and engine together keeps hold, registered command, prepared flags, payload register and write history in step |
| `CommandHold.FoldedAtMostOnce` | src/hurra_cynthion/gateware.py:385-444 | Over every run from power-on no staged command is folded into more than one record write |
| `CommandHold.WriteFoldsWhatWasTaken` | src/hurra_cynthion/injection.py:1302-1364 | A write folds the very command its transaction registered, though buttons and masks are read again from the live payload, and raises exactly that command's ready |
| `CommandHold.FoldedFrameLeaves` | src/hurra_cynthion/injection.py:1655-1659 | Unless its frame was dropped before, a folded command is in the hold and leaves it on the step of the write, acknowledged unless link, session or boot protocol fail on that very clock |
| `CommandHold.AcknowledgedIsFolded` | src/hurra_cynthion/injection.py:1655-1659 | Every acknowledgement falls on a record write, and the command acknowledged is the one folded if and only if the frame the transaction took has not been dropped |
| `CommandHold.OrphanedOnlyByBoot` | src/hurra_cynthion/gateware.py:275-295 | A transaction loses the frame it took before its write if and only if its endpoint's boot bit was up on some clock since |
| `CommandHold.BootLosesACommand` | src/hurra_cynthion/gateware.py:275-295 | Concrete run from power-on: the boot bit drops a click in mid-transaction, and its write acknowledges a second click that is never folded |
| `CommandMaps.ChangeFindsNoMap` | src/hurra_cynthion/injection_map.py:361-370 | Over every run of plane, engine and map store from power-on a descriptor change finds the map already invalid |
| `CommandMaps.LostMapStaysLost` | src/hurra_cynthion/injection_map.py:874-927 | A map lost or invalidated in mid-transaction is found again by that transaction only after two publications |
| `CommandMaps.StoreIsCoherent` | src/hurra_cynthion/gateware.py:134-178 | So beside the map store every run without two publications in one transaction meets what CommandHold takes of its surroundings |
| `InjectionRuns.ClickDueExactly` | src/hurra_cynthion/injection.py:612-620 | A click started at count c for h reports reads as due exactly while at least h and fewer than h + 2^31 reports have been accepted since, for every number of reports |
| `InjectionRuns.ClickRestoresBaseline` | src/hurra_cynthion/injection.py:1302-1364 | Over any run without button commands the click holds and then gives back exactly the buttons from before it |
| `InjectionRuns.ClickDuringClickKeepsBaseline` | src/hurra_cynthion/injection.py:1302-1364 | A click on top of a click restores the buttons from before the first one |
| `InjectionRuns.ClickEndsUnlessSaturated` | src/hurra_cynthion/gateware.py:503-508 | With the saturating report counter a click of any length ends if and only if its target does not pass the counter's ceiling |
| `InjectionRuns.SaturatedClickNeverEnds` | src/hurra_cynthion/gateware.py:503-508 | Concrete failure: a one-report click started at the ceiling never ends |
| `InjectionRuns.MotionIsConserved` | src/hurra_cynthion/injection.py:621-830 | Over any run of committed transactions under one map, suppressed native-only ones included: emitted minus physical plus stored residual is what was stored plus the total, axis by axis, of the commands none of whose sums leaves [-0x8000_0000, 0x8000_0000) |
| `InjectionRuns.InRangeRunsConserve` | src/hurra_cynthion/injection.py:779-830 | Physical values in range are enough for that |
| `ConfigurationParser.ParseMouseConfiguration` | src/hurra_cynthion/descriptors.py:843-1008 | The walk over the buffer returns the specification function's verdict, error class and tables |
| `ConfigurationParser.ParseSubordinates` | src/hurra_cynthion/descriptors.py:905-926 | The subordinate loop finds the one usable report descriptor length or the first error |
| `ConfigurationStream.StreamingParser.Accept` | src/hurra_cynthion/enumerator.py:909-1128 | One accepted byte moves every register group as the byte step says, all from the registers' old values |
| `ConfigurationStream.StreamingParser.Enumerate` | src/hurra_cynthion/enumerator.py:842-1161 | Both requests, byte by byte, give the stream's verdict |
| `ParserAgreement.StreamVerdict` | src/hurra_cynthion/enumerator.py:842-1161 | For any header bytes, any full read and any registers left by an earlier capture: the stream accepts exactly if header and read agree, the whole-buffer walk succeeds, later configuration descriptors echo the header, and the last declared interface count is met; its tables are the walk's |
| `ParserAgreement.ParsersAgree` | src/hurra_cynthion/enumerator.py:909-1154 | On every byte string without a second configuration descriptor both parsers accept or both refuse, and produce the same endpoint tables, OUT endpoint and flag |
| `ParserAgreement.StreamAcceptsOnlyParsable` | src/hurra_cynthion/enumerator.py:842-1161 | Even when a device answers the two requests differently, an accepted read would also parse, with the header's configuration value |
| `ParserAgreement.AcceptedBufferStreams` | src/hurra_cynthion/descriptors.py:843-1008 | What the buffer parser accepts the stream accepts if and only if every later configuration descriptor repeats the header and the last one the interface count |
| `ParserAgreement.StreamedBufferAccepts` | src/hurra_cynthion/enumerator.py:951-967 | What the stream accepts the buffer parser accepts if and only if the last declared count is the first |
| `ParserAgreement.BufferAloneAccepts` | src/hurra_cynthion/enumerator.py:951-967 | Concrete disagreement: a second configuration descriptor with another value |
| `ParserAgreement.StreamAloneAccepts` | src/hurra_cynthion/enumerator.py:958-963 | Concrete disagreement: a second configuration descriptor that hides a wrong interface count |
| `ParserAgreement.HidDescriptor` | src/hurra_cynthion/enumerator.py:998-1058 | The three-phase subordinate table machine faults exactly when the buffer parser would refuse the HID descriptor, and otherwise leaves its report length |
| `ParserAgreement.EndpointDescriptor` | src/hurra_cynthion/enumerator.py:1039-1128 | An endpoint descriptor of seven or nine bytes is captured, ignored or refused as by the buffer parser |
| `ParserAgreement.InterfaceDescriptor` | src/hurra_cynthion/enumerator.py:924-997 | The count taken on the type byte and undone on an alternate setting agrees with counting alternate setting 0 only |
| `DescriptorStore.StoreMachine.Tick` | src/hurra_cynthion/descriptors.py:246-819 | One clock of allocator, memories, scans and ports is the step function the theorems are about |
| `DescriptorRefinement.NextKeepsInv` | src/hurra_cynthion/descriptors.py:474-819 | Every clock on which commit and abort do not coincide keeps the refinement: valid slots have distinct keys, disjoint ranges below the allocator or the open capture's base, and the map's bytes |
| `DescriptorRefinement.CommitRepresents` | src/hurra_cynthion/descriptors.py:558-581 | A commit adds or replaces exactly one key of the map |
| `DescriptorRefinement.ScanVerdict` | src/hurra_cynthion/descriptors.py:641-679 | The allocation scan chooses the key's own slot, else a free one, else reports the store full |
| `DescriptorRefinement.RefusedOnlyWhenFull` | src/hurra_cynthion/descriptors.py:641-679 | A capture is refused a slot if and only if twelve other keys hold them all |
| `DescriptorRefinement.FailedCaptureLeavesMap` | src/hurra_cynthion/descriptors.py:548-565 | An abort or a commit that cannot succeed gives the space back and changes no key |
| `DescriptorRefinement.FailedCaptureRestores` | src/hurra_cynthion/descriptors.py:548-565 | Over any run, a capture that is aborted or cannot succeed leaves allocator and map exactly as they were when it began |
| `DescriptorRefinement.CommittedBytesStay` | src/hurra_cynthion/descriptors.py:246-272 | Committed bytes are never overwritten, not even while their own key is captured again |
| `DescriptorRefinement.ServeResponseIsCurrent` | src/hurra_cynthion/descriptors.py:765-819 | Over any run a serve response says found exactly if the map has the key the port holds, with its length; DescriptorPorts says it of the key asked |
| `DescriptorRefinement.ServedByteIsCurrent` | src/hurra_cynthion/descriptors.py:415-460 | Every served byte is the map's byte at the offset asked for |
| `DescriptorRefinement.SelectedByteIsServed` | src/hurra_cynthion/descriptors.py:415-460 | A selected descriptor is readable exactly to its last byte |
| `DescriptorRefinement.AbortedCommitCorrupts` | src/hurra_cynthion/descriptors.py:246-264 | Commit and abort on one cycle, replacing a key with a nonempty descriptor, break the refinement for every abstract map: the exception in the invariant is needed |
| `DescriptorRefinement.AbortedCommitIsHarmless` | src/hurra_cynthion/descriptors.py:246-264 | After commit and abort on one cycle some abstract map is still represented if and only if the commit did not put a nonempty descriptor over a key the map had |
| `DescriptorLookup.LookupIsCurrent` | src/hurra_cynthion/descriptors.py:681-706 | Over every run a lookup answer is the map's if and only if no commit misled its scan: no commit of other bytes under the key on the answering cycle, none of the key into a slot read or being read, and none into the slot being read while the register holds an outdated record of the key; each told from the slots, keys and bytes committed |
| `DescriptorLookup.CachedLookupIsCurrent` | src/hurra_cynthion/descriptors.py:681-706 | A cached answer no commit landed on stays the map's for as long as the port shows it |
| `LookupRaces.CommitOnTheMatch` | src/hurra_cynthion/descriptors.py:681-706 | Concrete run from reset: a commit on the cycle of the match leaves the port with the replaced bytes |
| `LookupRaces.CommitBehindTheScan` | src/hurra_cynthion/descriptors.py:681-706 | Concrete run from reset: a new key committed into a slot already passed is reported as not found |
| `LookupRaces.CommitUnderTheRegister` | src/hurra_cynthion/descriptors.py:681-706 | Concrete run from reset: another key committed into a cleared slot while its old record is in the read register makes an absent key found |
| `ControlForwarding.ControlRelay.Tick` | src/hurra_cynthion/control_relay.py:153-268 | One clock of the relay, bounce buffer included, is its step function |
| `ControlForwarding.HIDClassRequestHandler.Tick` | src/hurra_cynthion/device_control.py:590-840 | One clock of the handler drives the relay and moves its registers as its step function says |
| `ForwardingSafety.NextKeepsInv` | src/hurra_cynthion/device_control.py:538-840 | The composed invariant survives every interleaving of SETUPs, timeouts, aborts, replays and engine behaviour |
| `ForwardingSafety.ResponseIsCurrent` | src/hurra_cynthion/device_control.py:574-588 | Over every run: in RESPOND the relay holds the error-free answer to exactly the SETUP now latched; the bytes served are those received for it when the engine's count agrees, which ForwardedTransfers.ServedIsTheTargetsAnswer removes as a condition |
| `ForwardingSafety.RestingHoldsNothing` | src/hurra_cynthion/device_control.py:591-601 | In IDLE and STALL the relay holds none of the handler's requests |
| `ForwardingSafety.ForwardedOnce` | src/hurra_cynthion/device_control.py:653-674 | Each SETUP is forwarded at most once and only class requests ever reach the target |
| `ForwardingSafety.ReplayIsInvisible` | src/hurra_cynthion/control_relay.py:255-263 | While a replay is in flight no response is shown and the handler is not waiting for one |
| `ForwardingSafety.PayloadIsCaptured` | src/hurra_cynthion/control_relay.py:188-211 | While the engine runs an OUT transfer, the payload it indexes is exactly the wLength bytes captured, in order |
| `ForwardingSafety.DrainWaitsOnlyForTheEngine` | src/hurra_cynthion/device_control.py:775-807 | Draining can wait only on the control engine or a self-completing replay, never on a relay still collecting bytes |
| `ForwardingSafety.ArrivalIsKept` | src/hurra_cynthion/device_control.py:555-588 | A class SETUP is forwarded, remembered, or, only in IDLE against a busy relay and for other requests than SET_IDLE and SET_PROTOCOL, refused with a STALL |
| `ForwardingSafety.RememberedIsKept` | src/hurra_cynthion/device_control.py:775-830 | A remembered SETUP stays until it is forwarded, superseded, or stalled for a named reason |
| `ForwardingSafety.ForwardOkMeansForwarded` | src/hurra_cynthion/control_relay.py:247-253 | The snoop pulse means a forward the target completed without error, its request still held |
| `ForwardedTransfers.NextKeepsInv` | src/hurra_cynthion/host.py:450-472 | Every clock of handler, relay, control engine and target joined over their wires keeps what has been handed on, buffered and answered the same |
| `ForwardedTransfers.ReceivedIsBuffered` | src/hurra_cynthion/control_relay.py:212-246 | Over every run the bytes the engine hands on are buffered without loss or repeat, and the cursor never passes wLength nor the 64-byte buffer |
| `ForwardedTransfers.ServedIsTheTargetsAnswer` | src/hurra_cynthion/device_control.py:574-588 | Over every run the bytes served in RESPOND are exactly, and all of, those the target answered to the eight bytes of the SETUP now latched, at most wLength |
| `ForwardedTransfers.CapturedReachesTheTarget` | src/hurra_cynthion/control_relay.py:188-246 | When a forwarded OUT succeeds, the target has taken exactly the payload captured from the PC, once and in order |
| `PayloadPackets.CapturedIsThePayload` | src/hurra_cynthion/device_control.py:603-642 | Over all exchanges of an OUT stage, packets good, damaged or missed and ACKs arriving or lost: the bytes captured are the PC's, whatever they are, if and only if no exchange put damaged or already forwarded bytes into the unfilled capture |
| `PayloadPackets.AcknowledgedStage` | src/hurra_cynthion/device_control.py:603-642 | A PC that has seen its whole payload acknowledged has lost no ACK, and what the target is given is then right if and only if no damaged packet came before the capture was full |
| `PayloadRuns.NextKeepsInv` | src/hurra_cynthion/device_control.py:603-642 | Every clock of handler, relay and PC keeps the relay's capture equal to what the PC's exchanges have forwarded so far |
| `PayloadRuns.CapturedIsForwarded` | src/hurra_cynthion/control_relay.py:188-211 | Over every run, when a forward with OUT data succeeds the relay has captured the first wLength bytes the exchanges forwarded, the PC's payload if they were orderly |
| `PayloadRuns.PayloadReachesTheTarget` | src/hurra_cynthion/control_relay.py:188-246 | The same of what the target has taken: from the PC through handler, relay and control engine to the device |
| `PayloadRuns.DamagedPacketIsForwarded` | src/hurra_cynthion/device_control.py:614-622 | Run from reset: a damaged packet before the good one; the PC sends 9, sees it acknowledged and the transfer succeed, and 7 was captured |
| `PayloadRuns.RepeatedPacketIsForwarded` | src/hurra_cynthion/device_control.py:614-642 | Run from reset: the first ACK of a two-packet payload is lost; the forward succeeds with the first packet twice and without the second |
| `ForwardedTransfers.AnswerReachesThePC` | src/hurra_cynthion/device_control.py:707-772 | Under any loss of packets and ACKs on the PC's side it holds a prefix of the target's answer, and all of it when the data stage ends |
| `ForwardingTimeouts.BoundIsKept` | src/hurra_cynthion/device_control.py:625-705 | From cycle to cycle the timer stays within its bound, in WAIT_RELAY, CAPTURE_OUT and AWAITING_TARGET, if and only if no request is accepted on WAIT_RELAY's very last cycle |
| `ForwardingTimeouts.WaitGivesUp` | src/hurra_cynthion/device_control.py:625-705 | A silent wait, for OUT data or for the target, lasts exactly the computed number of cycles |
| `ForwardingTimeouts.LateAcceptanceOutlastsBound` | src/hurra_cynthion/device_control.py:653-705 | After a late acceptance, with or without OUT data, the equality test is missed and the wait exceeds three million cycles, past the 50 ms of section 9.2.6.4 of USB 2.0 |
| `ForwardingTimeouts.LateAcceptanceIsReached` | src/hurra_cynthion/device_control.py:653-705 | For every SET_IDLE and SET_PROTOCOL there is a run from reset to a late acceptance |
| `ResponsePackets.ForwardedResponder.Answer` | src/hurra_cynthion/device_control.py:707-751 | An IN token gets the bytes from pkt_base to the packet end, or nothing |
| `ResponsePackets.Reassembles` | src/hurra_cynthion/device_control.py:469-772 | For every packet size and every pattern of repeated INs, lost packets and lost ACKs the host holds a prefix of the response, and all of it when the stage ends (section 8.6 of USB 2.0) |
| `ResponsePackets.Completes` | src/hurra_cynthion/device_control.py:469-772 | A response of k bytes needs at most k + 1 exchanges in which both packets get through |
| `ResponsePackets.EndsWithShortPacket` | src/hurra_cynthion/device_control.py:732-741 | The stage ends with a short or zero-length packet or with wLength met exactly |
| `BootProtocol.BootProtocolTracker.Tick` | src/hurra_cynthion/boot_protocol.py:88-206 | One clock of the tracker is its step function |
| `BootProtocol.NextKeepsInv` | src/hurra_cynthion/boot_protocol.py:88-206 | Every clock keeps the relation between mask, pipeline, relay, device and pending slots |
| `BootProtocol.MaskIsTwoCyclesLate` | src/hurra_cynthion/boot_protocol.py:88-111 | Over any run boot_mask is the device's protocol state of two cycles before, for every slot |
| `BootProtocol.ReplayIsWanted` | src/hurra_cynthion/boot_protocol.py:159-179 | A replay the relay accepts goes to an interface the PC has not set, and that has not been replayed to, since the pending slots were loaded |
| `BootProtocol.ReplayShrinksPending` | src/hurra_cynthion/boot_protocol.py:180-188 | Each finished replay removes at least one pending slot |
| `BootProtocol.PendingOnlyShrinks` | src/hurra_cynthion/boot_protocol.py:129-195 | Between loads nothing is added to the pending slots, so a trigger's replays end |
| `BootReplayRace.LateTriggerUndoesChoice` | src/hurra_cynthion/boot_protocol.py:129-142 | From reset, 17 cycles in which a trigger arriving during another trigger's replays is taken up late and replays to an interface the PC set to boot after that trigger |
| `BootReplayRuns.IdleTriggerUndoesNothing` | src/hurra_cynthion/boot_protocol.py:129-188 | Over every run: a trigger that rises on a clock with the tracker idle undoes nothing; until the next load no accepted replay goes to an interface whose choice by the PC completed on that clock or later |
| `BootReplayRuns.ReplaysRespectTheLoad` | src/hurra_cynthion/boot_protocol.py:129-188 | Over every run the replays after a load go only to interfaces that were in boot two clocks before it and that the PC has not chosen a protocol for since |
| `BootReplayRuns.TriggerIsKept` | src/hurra_cynthion/boot_protocol.py:113-142 | A trigger that rises while the tracker is busy is kept until it is idle, and is taken up then |
| `BootReplayRuns.EarlierChoiceIsPending` | src/hurra_cynthion/boot_protocol.py:129-188 | A boot choice that is the last word on its interface is pending again once a load is through if and only if it completed at least three clocks before that load |
| `BootReplayRuns.ChoiceIsUndone` | src/hurra_cynthion/boot_protocol.py:129-188 | Such a choice is undone: with the PC silent on it and the relay's replays succeeding, by the time the tracker is idle again a replay to its interface has been accepted and the device has left boot protocol there |
| `RelayProjection.StepProjects` | src/hurra_cynthion/control_relay.py:154-268 | One clock of the forwarding relay, seen through the projection, is one clock of the relay the tracker's model uses |
| `RelayProjection.PulsesProject` | src/hurra_cynthion/control_relay.py:247-263 | So are the pulses it sends the tracker |
| `ReportRelay.RingRefines` | src/hurra_cynthion/relay.py:149-189 | The ring with its head register is a first-in first-out queue: at most one word out of the front and one onto the back |
| `ReportRelay.TakenFits` | src/hurra_cynthion/relay.py:95-102 | Although room is checked on first bytes only, no admitted byte ever meets a full ring |
| `ReportRelay.NextKeepsInv` | src/hurra_cynthion/relay.py:94-196 | Every clock keeps ring, admission and delivery in step |
| `ReportRelay.DeliversWholeReports` | src/hurra_cynthion/relay.py:94-196 | Over any run what is delivered since a flush is a prefix of the admitted reports in order, each whole with its last flag at its end |
| `ReportRelay.AllOrNothing` | src/hurra_cynthion/relay.py:119-142 | At one slot a report that ends is queued from its first byte to its last, or not at all |
| `ReportRelay.FlushForgets` | src/hurra_cynthion/relay.py:143-146 | Nothing queued or in flight at a flush is delivered after it |
| `ReportRelay.RelaySlot.Tick` | src/hurra_cynthion/relay.py:119-196 | One clock of a slot is its step function |
| `RelayRouting.BucketIsTheBinding` | src/hurra_cynthion/relay.py:107-125 | With distinct numbers a byte's bucket is the one slot bound to its endpoint, or the extra one for endpoints not served |
| `RelayRouting.ReportRelayRouter.Selected` | src/hurra_cynthion/relay.py:107-118 | The multiplexer chain finds that slot, or none |
| `RelayRouting.ReportRelayRouter.Tick` | src/hurra_cynthion/relay.py:107-142 | One clock of the shared side hands the byte to its bucket alone and raises the two drop pulses on first bytes only |
| `RelayRouting.EveryReportHasOneFate` | src/hurra_cynthion/relay.py:94-146 | Over every run of all slots: a report is exactly one of queued whole by the slot its endpoint is bound to, counted congested, or counted unmatched, if and only if it is not one there was room for that a flush overtakes; congested exactly for want of room at its first byte, unmatched exactly if no slot is bound |
| `RelayRouting.OtherSlotsStay` | src/hurra_cynthion/relay.py:144-196 | A byte changes no other slot's admission or queue but for what that slot hands out itself |
| `RelayRouting.EverySlotDeliversWholeReports` | src/hurra_cynthion/relay.py:94-196 | Over every run each slot delivers a prefix of its admitted reports in order, each whole |
| `InterruptLinks.InterruptInPoller.Done` | src/hurra_cynthion/poller.py:170-206 | Toggle, error budget and exposure after each transaction status |
| `InterruptLinks.ReportBuffer.Copy` | src/hurra_cynthion/poller.py:208-217 | The copy loop leaves exactly the received report in the buffer |
| `InterruptLinks.ReportBuffer.Drain` | src/hurra_cynthion/poller.py:219-227 | The stream hands out the report byte by byte with first and last flags at its ends |
| `InterruptLinks.InterruptOutWriter.Done` | src/hurra_cynthion/out_writer.py:185-240 | Toggle, attempts, written and dropped after each transaction status and each flush |
| `InterruptLinks.ExposesOnceInOrder` | src/hurra_cynthion/poller.py:170-206 | Under any loss of data and ACK packets the reports exposed are the in-bound reports the device moved past, once each, in order, plus at most the one whose ACK is owed (section 8.6 of USB 2.0) |
| `InterruptLinks.TakesOnceInOrder` | src/hurra_cynthion/out_writer.py:163-240 | Over all runs, flushes included, the device takes each OUT packet at most once and in order, and until the first drop exactly the packets counted as written, save one whose ACK is owed |
| `InterruptLinks.WrittenButLost` | src/hurra_cynthion/out_writer.py:163-240 | Over all runs: a packet counted as written was never taken if and only if it is the first written after a drop, by error or by flush, of a packet one of whose attempts reached the device |
| `InterruptLinks.DirtyDrops` | src/hurra_cynthion/out_writer.py:163-240 | A drop joins those exactly if some attempt of its packet reached the device, whatever became of the ACK |
| `InterruptLinks.LostAcksReachIt` | src/hurra_cynthion/out_writer.py:228-240 | Three lost ACKs from reset reach the losing case |
| `InterruptLinks.FlushLosesThePacketAfter` | src/hurra_cynthion/out_writer.py:185-189 | One lost ACK and a flush reach it too |
| `Crc16.ShiftedIsStepped` | src/hurra_cynthion/injection_wire.py:1235-1244 | The software's eight conditional shifts are eight message bits through the register |
| `Crc16.FoldedIsStepped` | src/hurra_cynthion/spi_link.py:20-24 | The gateware's loop-free fold is the same eight bits |
| `Crc16.SoftwareIsGateware` | src/hurra_cynthion/spi_link.py:20-24 | So both compute the same checksum, byte for byte |
| `Crc16.Crc16CcittFalse` | src/hurra_cynthion/injection_wire.py:1235-1244 | The two nested loops return the checksum of the message |
| `CrcStrength.DifferenceIsXor` | src/hurra_cynthion/injection_wire.py:1235-1244 | The checksums of two messages differ by the checksum of their difference |
| `CrcStrength.BurstIsSeen` | src/hurra_cynthion/injection_wire.py:1235-1244 | Messages that differ only within 16 consecutive wire bits have different checksums |
| `CrcStrength.CrcParity` | src/hurra_cynthion/injection_wire.py:1235-1244 | The checksum has the parity of the message |
| `SlotCodec.RoundTrip` | src/hurra_cynthion/injection_wire.py:1247-1286 | Whatever packs, unpacks to the same type, sequence and payload |
| `SlotCodec.UnpackedWasPacked` | src/hurra_cynthion/injection_wire.py:1247-1286 | A slot that unpacks, with assigned flags and clear padding, is the packing of what it unpacks to |
| `SlotLink.OddFlipsAreRefused` | src/hurra_cynthion/injection_wire.py:1264-1286 | Flipping any odd number of bits anywhere in a packed slot makes it unpack to an error |
| `SlotLink.BurstsAreRefused` | src/hurra_cynthion/injection_wire.py:1264-1286 | So does any burst of at most 16 bits under the checksum |
| `SlotLink.PublishedUnpacks` | src/hurra_cynthion/spi_link.py:172-184 | The gateware publishes exactly the messages unpack_slot accepts, flags aside |
| `SlotLink.BuiltIsPacked` | src/hurra_cynthion/spi_link.py:186-209 | The transmit builder's frame is pack_slot's for every message pack_slot packs, and a receiver publishes it |
| `SlotLink.SPISlotMaster.BuildSlot` | src/hurra_cynthion/spi_link.py:246-278 | The 32 bytes built one by one, checksum folded on the way, are the sealed frame |
| `SlotLink.SPISlotMaster.ReceiveSlot` | src/hurra_cynthion/spi_link.py:428-453 | A slot is published whole or counted under one refusal; a queued message's bank is never disturbed |
| `SlotLink.SPISlotMaster.ReadPayload` | src/hurra_cynthion/spi_link.py:228-230 | The plane reads the published payload |
| `WirePayload.PackPayload` | src/hurra_cynthion/injection_wire.py:1181-1199 | Stores at offsets into a cleared buffer give the fields laid end to end, or refuse |
| `WirePayload.RoundTrip` | src/hurra_cynthion/injection_wire.py:1181-1218 | from_bytes after to_bytes returns every field, for every layout that fills its payload |
| `WirePayload.MessageRoundTrip` | src/hurra_cynthion/injection_wire.py:628-1218 | For all sixteen message types, unconditionally: the documented offsets fill the 26 bytes, and from_bytes gives back every field of whatever to_bytes accepts |
| `EntryPayload.EveryEntryPacks` | src/hurra_cynthion/injection_wire.py:733-749 | Every map entry without the undefined flag has a MAP_ENTRY frame |
| `EntryPayload.FlagsAgree` | src/hurra_cynthion/injection_wire.py:733-749 | The number MAP_ENTRY carries for the flags is the flags byte validation masks |
| `EntryPayload.PayloadDeterminesEntry` | src/hurra_cynthion/injection_map.py:537-538 | Two framed entries with the same 26 bytes are the same entry, so the checksum over the bytes covers every field |
| `SequenceWindow.ClassesAgree` | src/hurra_cynthion/injection_wire.py:1296-1304 | The registered classes are classify_sequence's |
| `SequenceWindow.AcceptsExactlyTheNewer` | src/hurra_cynthion/gateware.py:343-353 | Over any session with bounded reordering a frame is accepted if and only if it is newer than all before it, whatever became of their content |
| `SequenceWindow.AcceptedIncrease` | src/hurra_cynthion/gateware.py:538-544 | Accepted running numbers strictly increase |
| `SequenceWindow.FrozenWindowBlacksOut` | src/hurra_cynthion/gateware.py:343-353 | A window frozen on refused content would turn away the frames 128 to 256 ahead |
| `SequenceWindow.ReceiveWindow.Accept` | src/hurra_cynthion/gateware.py:538-550 | The window moves for every allowed frame and only then; the staged classes are still right when it does |
| `BusSharing.USBHostTransactionArbiter.Tick` | src/hurra_cynthion/host.py:60-147 | One clock of the arbiter grants and moves its pointer as its step function says |
| `BusSharing.NextKeepsInv` | src/hurra_cynthion/host.py:60-147 | Every clock, with transfers timed out, disconnections and pollers disabled in mid-transaction, keeps arbiter, engine and clients in step: who waits, waits for the transaction in flight or just done |
| `BusSharing.DoneIsRouted` | src/hurra_cynthion/host.py:125-138 | A poller port sees a done pulse if and only if it is its own transaction's |
| `BusSharing.InputsStayWithStarter` | src/hurra_cynthion/host.py:84-109 | Over every run from reset the engine's inputs stay its starter's if and only if the starter has not given the transaction up: control by a NAK time-out, a poller by its enable falling, either by disconnection; once it has, the port is still the starter's exactly while control_phase is as the starter needs it |
| `BusSharing.PollersKeepTheirInputs` | src/hurra_cynthion/host.py:515-519 | With pollers disabled only as the connection goes, no poller's inputs ever leave |
| `BusSharing.ControlInputsLeave` | src/hurra_cynthion/control.py:190-254 | Run from reset: the NAK timer ends a forwarded transfer in mid-retry, and a poller's port feeds the transaction in flight |
| `BusSharing.PollerInputsLeave` | src/hurra_cynthion/poller.py:150-158 | Run from reset: a poller disabled in mid-transaction, whose transaction control's port then feeds |
| `BusSharing.DoneIsHeard` | src/hurra_cynthion/host.py:109-138 | A transaction's starter is there for its done if and only if it has not given it up |
| `BusSharing.OnlyOwnDoneActs` | src/hurra_cynthion/host.py:109-123 | Over any run, abandonments included, control and pollers act on no done but that of their own transaction |
| `BusSharing.StartsOnAnotherDone` | src/hurra_cynthion/host.py:76-80 | Run from reset: control starts its next transaction on the done clock of the one it gave up, and waits for the new one's own done |
| `BusSharing.NothingOverlaps` | src/hurra_cynthion/host.py:74-82 | No grant falls on a transaction in flight, given up or not, and none but a start-of-frame on a poll, a copy or a stream |
| `BusSharing.BufferIsHeld` | src/hurra_cynthion/host.py:66-76 | Over any run, while a poller copies its report or control hands on its bytes nothing but a start-of-frame is in flight, so what an abandoned transaction still receives is never copied |
| `BusSharing.GrantsBounded` | src/hurra_cynthion/host.py:139-145 | Each grant to another poller brings the pointer closer to a waiting one |
| `BusSharing.AtMostOneRound` | src/hurra_cynthion/host.py:139-145 | However long control and start-of-frame hold it off and whatever is given up, a due poller waits for at most count - 1 grants to other pollers, not counting a poller granted again on the done clock of the transaction it gave up |
| `BusSharing.RestartNeedsDisabling` | src/hurra_cynthion/poller.py:150-158 | Such a second grant needs that poller disabled or disconnected in mid-transaction |
| `BusSharing.TickMux` | src/hurra_cynthion/host.py:190-219 | One clock of the merge multiplexer, its search round from the last source included, is its step function |
| `BusSharing.MuxInvKept` | src/hurra_cynthion/host.py:190-219 | Under any fills, clears and back-pressure only whole reports have ever been emitted |
| `BusSharing.EmitsWholeReports` | src/hurra_cynthion/host.py:190-219 | A report that ends has come from one source, exactly as that source held it when chosen |
| `TransactionEngine.USBHostTransactionEngine.Tick` | src/hurra_cynthion/transaction.py:227-453 | One clock of the transaction engine, receive memory included, is its step function |
| `TransactionOutcome.NextKeepsInv` | src/hurra_cynthion/transaction.py:227-453 | Every clock keeps sent bytes, stored bytes and acknowledgement in step with the registers |
| `TransactionOutcome.ReceivedIsReported` | src/hurra_cynthion/transaction.py:340-445 | An IN is acknowledged exactly when it succeeds; the report is then the whole packet, or, for the wrong toggle, a marked duplicate with the memory untouched; more than 64 bytes are an overflow and not acknowledged |
| `TransactionOutcome.SuccessMeansSent` | src/hurra_cynthion/transaction.py:302-338 | An OUT or SETUP that succeeds has sent exactly its payload, in order, if and only if tx_payload, read live, showed it on every clock a byte was taken |
| `SharedTransactions.HeardSuccessSentItsPayload` | src/hurra_cynthion/host.py:84-107 | Arbiter, clients and engine together, over every session from reset, abandonments included: a success a client acts on has sent that client's own payload, whole and in order |
| `TransactionOutcome.WaitIsBounded` | src/hurra_cynthion/transaction.py:364-402 | Whatever the line does, the wait for a response is over within the deadline |
| `ControlTransfer.USBControlTransferEngine.Tick` | src/hurra_cynthion/control.py:112-396 | One clock of the control engine is its step function |
| `ControlTransfer.NextKeepsInv` | src/hurra_cynthion/control.py:157-396 | Every clock, whatever is lost, refused or abandoned, keeps engine, transaction in flight, device and bytes handed on in step |
| `ControlGuarantees.SuccessDelivers` | src/hurra_cynthion/control.py:236-396 | Over every run: a transfer that reports success gave the device its eight SETUP bytes, and either handed on exactly the packets the device answered with, all but the last full, or gave the device payload[0..wLength) once and in order; transferred is that length (section 8.5.3 of USB 2.0) |
| `ControlGuarantees.AddressFollowsSuccess` | src/hurra_cynthion/control.py:388-396 | A new address is announced exactly when a SET_ADDRESS has succeeded, status stage included |
| `ControlGuarantees.StreamedIsPrefix` | src/hurra_cynthion/control.py:289-309 | While a read runs, what was handed on is a prefix of what the device answers |
| `ControlGuarantees.ReadsWholeResponse` | src/hurra_cynthion/control.py:236-309 | With a device that splits its response properly, a successful read hands on the whole response and not a byte more |
| `ControlGuarantees.RankFalls` | src/hurra_cynthion/control.py:204-396 | Every fresh answer brings a transfer strictly nearer its end, so a transfer makes boundedly many |
| `ControlGuarantees.NakStretchIsBounded` | src/hurra_cynthion/control.py:119-135 | Once a device has answered NAK the stage ends or moves on within control_nak_timeout_cycles |
| `ControlGuarantees.OutlastingIsRepeats` | src/hurra_cynthion/control_relay.py:223-230 | A stage can outlast that bound only while it has heard no answer but repeats of the packet before, or none at all |
| `ControlGuarantees.RepeatsNeverEnd` | src/hurra_cynthion/control_relay.py:223-230 | With a device that never sees an ACK the transfer does go on for any number of rounds: the promised end does not come |
| `ControlGuarantees.RepeatingIsReached` | src/hurra_cynthion/control_relay.py:223-230 | An ordinary read whose first ACK is lost reaches that state from idle |
| `ChirpHandshake.ChirpSequencer.Tick` | src/hurra_cynthion/enumerator.py:538-648 | One clock of the reset and chirp states is the step function |
| `ChirpHandshake.HandshakeShape` | src/hurra_cynthion/enumerator.py:538-648 | Every reset that runs to its end is silent and Full Speed, or drives one unbroken K-J alternation of at least three whole pairs with 6000 to 11999 cycles of rest after it, and High Speed (section 7.1.7.5 of USB 2.0) |
| `ChirpHandshake.HighSpeedMeansThreePairs` | src/hurra_cynthion/enumerator.py:636-639 | At every moment high_speed is set if and only if three whole pairs have been driven |
| `ChirpHandshake.ResetLasts` | src/hurra_cynthion/enumerator.py:543-551 | The reset never ends before its 50 ms |
| `ChirpHandshake.ResetTakes` | src/hurra_cynthion/enumerator.py:538-648 | A reset lasts exactly 3,000,000 cycles and those spent waiting for the device's K to end |
| `ChirpHandshake.ResetEnds` | src/hurra_cynthion/enumerator.py:579-591 | Once the device shows no K the reset does end: within 3,000,000 cycles, the wait so far and 150 more |
| `ChirpHandshake.QualifiesBothEnds` | src/hurra_cynthion/enumerator.py:556-591 | The handshake starts only on 150 cycles of device K, and the host answers only after 150 without |
| `ChirpHandshake.LongChirpIsHeard` | src/hurra_cynthion/enumerator.py:556-573 | 150 cycles of K are heard while the window is open |
| `ChirpHandshake.HeardMeansHighSpeed` | src/hurra_cynthion/enumerator.py:579-648 | A device whose chirp was heard is committed to High Speed |
| `ChirpHandshake.StuckChirpIsWaitedFor` | src/hurra_cynthion/enumerator.py:579-591 | A device that never lets go of K is waited for without end |
| `LayoutQueries.QueryIsAnswered` | src/hurra_cynthion/injection_map.py:361-474 | A key asked on clock m and answered on clock n: with one map in force on all of them, Found(l) if and only if slot l of its directory has the key, with that layout's report length, and Miss if and only if no layout has it; with the map lost or changed on the way, Miss |
| `LayoutQueries.QueryEnds` | src/hurra_cynthion/injection_map.py:361-474 | The answer comes on the first clock of the scan if the map has no layouts, and otherwise within as many clocks as it has |
| `MapUploads.UploadIsReceived` | src/hurra_cynthion/injection_map.py:548-625 | At MAP_COMMIT the store has MAP_BEGIN's metadata, field by field, and every entry presented since, in order |
| `MapUploads.UploadIsJudged` | src/hurra_cynthion/injection_map.py:567-872 | The upload reaches ACCEPT if and only if MAP_COMMIT repeats MAP_BEGIN in every field, generations, counts and checksum, for the live descriptors, counts at most 64 entries and 16 layouts, and the entries presented are sound; otherwise REJECT |
| `MapUploads.JudgementComes` | src/hurra_cynthion/injection_map.py:665-872 | The verdict comes as soon as each entry has had its turn; for no entries, on the next clock |
| `MapUploads.AcceptedIsPublished` | src/hurra_cynthion/injection_map.py:874-927 | An accepted upload is published on the next clock, whole, if and only if the descriptors have not changed since its commit, and is in force if and only if link and session have held since its begin |
| `LayoutStates.MotionAddsWhole` | src/hurra_cynthion/injection.py:627-690 | Every flagged axis becomes base plus value with no overflow if and only if every flagged sum lies in [-0x8000_0000, 0x8000_0000); otherwise every axis stays at its base |
| `ReportMeaning.ButtonReads` | src/hurra_cynthion/injection.py:1535-1578 | In a mutated report a button is pressed if the device presses it unmasked or it is injected; usages past 64 are the device's |
| `ReportMeaning.HeldReads` | src/hurra_cynthion/injection.py:1475-1534 | A held channel's field carries the held value cut to its width, one not held what the device sent |
| `ReportMeaning.MovedReads` | src/hurra_cynthion/injection.py:772-852 | A moved field carries the device's value and the pending motion together, held to the logical range and cut to the width |
| `ReportMeaning.OtherBitsStay` | src/hurra_cynthion/injection.py:1402-1592 | Bits no field covers are the device's |
| `InjectedReports.ButtonsMerge` | src/hurra_cynthion/injection.py:1535-1578 | The same of a committed transaction's report and the layout's state: buttons and masks by usage 1 to 64 |
| `InjectedReports.HeldIsEmitted` | src/hurra_cynthion/injection.py:1475-1534 | The same of held channels |
| `InjectedReports.MotionIsEmitted` | src/hurra_cynthion/injection.py:772-852 | The first moved field of an axis carries the device's motion plus all that was pending, held to its range |
| `InjectedState.ButtonsFollow` | src/hurra_cynthion/injection.py:560-660 | Buttons are the command's; without one a CLEAR drops them, and without that a click that is over gives its own back |
| `InjectedState.ClickFollows` | src/hurra_cynthion/injection.py:560-660 | A button command with buttons and a time starts a click that goes back to what was there before any click; any other ends it, as do a CLEAR and its time |
| `InjectedState.SequenceFollows` | src/hurra_cynthion/injection.py:1302-1401 | The sequence number told back: the CLEAR's, else the mask's, the buttons', the held channels', the motion's if it was added |
| `InjectedState.ClearReachesAll` | src/hurra_cynthion/injection.py:1594-1771 | Other layouts see of a transaction nothing but its CLEAR, in the categories it names |
| `InjectedState.LastMaskHolds` | src/hurra_cynthion/injection.py:1302-1401 | Over any run the masks are those of the last transaction that said anything of them |
| `InjectedState.LastHoldHolds` | src/hurra_cynthion/injection.py:1302-1401 | So are the held channels |
| `InjectedState.LastButtonsHold` | src/hurra_cynthion/injection.py:560-660 | And buttons given without a time |
| `EngineOutcome.EndsWithTheNthReady` | src/hurra_cynthion/injection.py:1642-1771 | A report of n bytes is over with the relay's n-th ready clock, and no other |
| `EngineOutcome.SuppressedTakesNClocks` | src/hurra_cynthion/injection.py:1642-1771 | A suppressed one is over on clock n of OUTPUT |
| `EngineOutcome.StayingMapCommits` | src/hurra_cynthion/injection.py:1252-1771 | With the map there throughout and room for the report every transaction commits |
| `EngineOutcome.CommittedMapStayed` | src/hurra_cynthion/injection.py:1252-1771 | One that commits had the map for every entry and on every clock up to the n-th ready one |
| `EngineOutcome.LostLaterMeansMutated` | src/hurra_cynthion/injection.py:1642-1771 | A map lost in mid-report leaves the start, or all, of the one mutated report, no command taken |
| `EngineOutcome.OnlyWholeLanesEnd` | src/hurra_cynthion/injection.py:1642-1771 | OUTPUT sends the start of its lane, all of it if and only if it has ended; a fallback comes from a clock without the map before any byte was taken |
| `CommandOutcome.FreshCommandIsFolded` | src/hurra_cynthion/gateware.py:285-444 | Over every run: a fresh command in the hold when a report of its layout begins, its surroundings staying as they are, is folded into that report's write and acknowledged with its last byte, not before, and leaves the hold free |
| `CommandOutcome.StaleIsDropped` | src/hurra_cynthion/gateware.py:275-330 | A staged frame out of its window, of another map, for an endpoint in boot protocol or no command is dropped at once, unacknowledged |
| `CommandOutcome.FreshWaits` | src/hurra_cynthion/gateware.py:285-330 | Any other stays until the ready of its own kind and is acknowledged then |
| `ConfigurationMeaning.AcceptedIsUsable` | src/hurra_cynthion/descriptors.py:843-1008 | Every accepted configuration has one to four IN endpoints with distinct numbers 1 to 15, packet sizes 1 to 64, nonzero intervals and a report descriptor length; the same of its OUT endpoint |
| `ConfigurationMeaning.DescribedIsParsed` | src/hurra_cynthion/descriptors.py:843-1008 | A configuration written out plainly as bytes is parsed into what it describes: the interrupt-IN endpoints of the default settings of its HID interfaces, in order, each with its interface's report length, and the first usable interrupt-OUT endpoint |
| `DescriptorPorts.ServedIsAsked` | src/hurra_cynthion/descriptors.py:765-819 | Over every run: after a request for K is accepted, with no later accept, cancel, commit or clear, the response says found if and only if K is in the map, with |contents[K]|, and each byte served is contents[K] at the offset asked |
| `DescriptorPorts.ServeResponds` | src/hurra_cynthion/descriptors.py:783-819 | The response comes within fourteen clocks |
| `DescriptorPorts.AskedIsReadable` | src/hurra_cynthion/descriptors.py:415-460 | Once it has come an offset can be read if and only if the descriptor asked for has it |
| `DescriptorPorts.FreePortAccepts` | src/hurra_cynthion/descriptors.py:765-800 | A freed serve port takes the next request, but for a clock that clears or commits |
| `DescriptorPorts.ServedPortAccepts` | src/hurra_cynthion/descriptors.py:765-819 | A descriptor that is not there leaves the port free as well, and a cancel lets the next request in at once |
| `DescriptorPorts.LookupIsForTheAsked` | src/hurra_cynthion/descriptors.py:509-515 | Over every run the next lookup answer is for the key asked, and is the map's unless a commit misled its scan |
| `DescriptorPorts.LookupEnds` | src/hurra_cynthion/descriptors.py:607-706 | From the first clock that finds the scan free of captures and other clients the answer takes at most fourteen |
| `DescriptorPorts.CaptureStores` | src/hurra_cynthion/descriptors.py:534-581 | A capture of K started on clock m and committed on clock n: the map gets K with the bytes offered since, whole and in order, if and only if K is stored already or fewer than twelve are, and there is room in 4096 bytes; otherwise it stays as it was |
| `DescriptorPorts.CaptureIsPlaced` | src/hurra_cynthion/descriptors.py:598-679 | A capture has its slot fourteen clocks after the scan is free for it |
| `DescriptorPorts.FullIsTwelve` | src/hurra_cynthion/descriptors.py:641-679 | The directory is full if and only if twelve keys are stored |
| `ProtocolTransfers.DeviceIsTheWires` | src/hurra_cynthion/control_relay.py:154-268 | Over every run of relay, engine and tracker: the interfaces the tracker's theorems take to be in boot are those the SETUP packets of the transfers that succeeded have put there, read from their eight bytes (section 7.2.6 of HID 1.11) |
| `ProtocolTransfers.ReplayAsksForReport` | src/hurra_cynthion/control_relay.py:154-187 | Over every run a replay that succeeds has sent 21 0b 01 00 ii 00 00 00, ii the offered interface, and the device has left boot protocol there |
| `ProtocolTransfers.ReplayIsForTheOffer` | src/hurra_cynthion/boot_protocol.py:159-179 | A replay is accepted only while one is offered, and for that interface |
| `ProtocolTransfers.SnoopReadsTheSetup` | src/hurra_cynthion/boot_protocol.py:88-111 | What the tracker snoops off a forwarded request is what a device makes of its SETUP packet: a choice with value 1 leaves boot, with value 0 enters it, anything else changes nothing |
| `BootProgress.ReplaysEnd` | src/hurra_cynthion/boot_protocol.py:129-195 | Over every run, of the clocks the tracker is at work on without a break at most eight a slot and six are its own; on all others the relay is taken, a choice of the PC's is on its way, or its replay is with the control engine |
| `RelayProgress.OldestIsShown` | src/hurra_cynthion/relay.py:149-189 | Without a flush a nonempty queue shows its oldest word within one clock |
| `RelayProgress.ShownIsKept` | src/hurra_cynthion/relay.py:149-189 | A word shown stays, unchanged, until it is taken |
| `RelayProgress.DeliversAll` | src/hurra_cynthion/relay.py:94-196 | With the taker ready, no flush and nothing new, everything admitted is delivered within two clocks a word |
| `RelayProgress.EverySlotDeliversAll` | src/hurra_cynthion/relay.py:94-196 | So it is of every slot, whatever the others do |
| `RelayProgress.RoomDecides` | src/hurra_cynthion/relay.py:94-142 | A report of a served endpoint is queued whole if and only if at most 64 words of its slot are waiting at its first byte and no flush comes before it ends |
| `ForwardOutcome.AnsweredInTime` | src/hurra_cynthion/device_control.py:676-706 | A request offered on clock m whose transfer ends on clock d, within 1,200,000 clocks, is answered on d + 2: a good transfer with as many bytes as were transferred, a failed one or one past 64 bytes with a stall |
| `ForwardOutcome.GivenUpLate` | src/hurra_cynthion/device_control.py:676-706 | A longer one is given up on the clock after and the PC stalled |
| `ForwardOutcome.SetupIsOffered` | src/hurra_cynthion/device_control.py:555-601 | A class SETUP at rest with the relay free is offered at once, or its OUT data collected first |
| `ForwardOutcome.SetupMeetsBusyRelay` | src/hurra_cynthion/device_control.py:591-601 | With the relay taken SET_IDLE and SET_PROTOCOL wait, other class requests are stalled, and other SETUPs are left alone |
| `ForwardOutcome.WaitsForTheRelay` | src/hurra_cynthion/device_control.py:653-674 | The wait is over with the relay's, or after 20 ms |
| `ForwardOutcome.CaptureEnds` | src/hurra_cynthion/device_control.py:603-642 | Collecting OUT data is over when a packet ends with at least wLength bytes in, or is given up after 20 ms |
| `InterruptErrors.PollingStops` | src/hurra_cynthion/poller.py:137-206 | Polling stops with the first STALL or the third error in a row and with nothing else; a usable report, a repeated one and a NAK start the count afresh |
| `InterruptErrors.PacketIsDropped` | src/hurra_cynthion/out_writer.py:163-240 | A packet is dropped by a STALL, a flush or the third attempt in a row without a handshake; a NAK starts the count afresh, and only a drop or an ACK moves on |
| `BusService.PollersInTurn` | src/hurra_cynthion/host.py:79-145 | Then the poller pointed at if it is due; if not, the pointer is on the next one a clock later |
| `BusService.OnlyTheAsked` | src/hurra_cynthion/host.py:74-92 | Nobody is granted without asking, out of that order or with a transaction in flight |
| `BusService.RoundStartsAPoll` | src/hurra_cynthion/host.py:139-145 | As many free clocks as there are pollers start a poll if one is due throughout |
| `BusService.LocksOntoTheFirst` | src/hurra_cynthion/host.py:191-203 | An unlocked multiplexer with a report waiting locks onto the first one round from where it stands |
| `BusService.ReportsInTurn` | src/hurra_cynthion/host.py:191-219 | Over every run a waiting report lets at most one report of each other source go before it |
| `ControlOutcome.GoodTransferSucceeds` | src/hurra_cynthion/control.py:157-398 | With a device that answers and a line that loses nothing a transfer never fails: when it is over it has succeeded |
| `ControlOutcome.GoodTransferEnds` | src/hurra_cynthion/control.py:157-398 | With prompt answers and prompt taking it is over within 400 clocks a byte asked for, and some |
| `TransactionStages.TokenLeadsOn` | src/hurra_cynthion/transaction.py:254-292 | After its token an IN waits for its packet, a SOF drains and an OUT or SETUP keeps the gap before its data |
| `TransactionStages.GapEnds` | src/hurra_cynthion/transaction.py:293-301 | Each gap lasts exactly 200 clocks at Full Speed and 12 at High Speed |
| `TransactionStages.DataEnds` | src/hurra_cynthion/transaction.py:302-339 | Data goes out a byte a ready clock, and then the handshake is waited for |
| `TransactionStages.WaitEnds` | src/hurra_cynthion/transaction.py:340-403 | The wait ends with the first clock that has a verdict, and with that verdict: ACK, NAK, STALL, the packet and its toggle, CRC error, more than 64 bytes, or the deadline |
| `TransactionStages.AckEnds` | src/hurra_cynthion/transaction.py:404-446 | A received packet is acknowledged after the turnaround and reported with its length |
| `WireVectors.PacksExactly` | src/hurra_cynthion/injection_wire.py:1173-1227 | For all sixteen messages: to_bytes accepts a payload if and only if every field is in the range of its width and sign and no unassigned flag is set |
| `WireVectors.PackedIsSpelled` | src/hurra_cynthion/injection_wire.py:628-808 | And every field stands at the contract's own offset, little-endian, in two's complement where the contract says signed, reserved bytes clear |
| `WireVectors.RelativeMotion` | src/hurra_cynthion/injection_wire.py:1125-1125 | A RELATIVE's X, Y, wheel and pan are the byte pairs at 12, 14, 16 and 18; X of -2 is fe ff |
| `WireVectors.UnpacksExactly` | src/hurra_cynthion/injection_wire.py:1202-1232 | from_bytes accepts any 26 bytes but a MAP_ENTRY with its top flag |
| `WireVectors.UnpackedIsSpelled` | src/hurra_cynthion/injection_wire.py:1202-1218 | And reads every field from the same offset, with the same sign |
| `WireMessages.SlotIsLaidOut` | src/hurra_cynthion/injection_wire.py:1247-1261 | A packed slot is 0x68, type, sequence, length, payload and, low byte first, the checksum of the thirty bytes before it |
| `WireMessages.PacksExactly` | src/hurra_cynthion/injection_wire.py:1247-1261 | pack_slot takes each of the sixteen types with 26 bytes, IDLE with none, and no unassigned flag, its byte and mask given |
| `WireMessages.MessageCrosses` | src/hurra_cynthion/injection_wire.py:1173-1286 | Every message but IDLE crosses the link: whatever to_bytes packs, pack_slot takes, unpack_slot gives back and from_bytes reads as the same fields |
| `WireMessages.CountersCount` | src/hurra_cynthion/spi_link.py:428-453 | Each refusal counter is the number of slots refused for its reason, held at 0xffffffff |
| `CrcVectors.Crc32Check` | firmware/mcxn947/test/inj_command_test.c:21-23 | CRC-32 of 123456789 is 0xCBF43926 |
| `CrcVectors.Crc16Check` | firmware/ch32h417/src/spi_frame.c:18-19 | CRC-16/CCITT-FALSE of 123456789 is 0x29B1 |
| `CrcVectors.ChecksumIsRemainder` | src/hurra_cynthion/injection_wire.py:1235-1244 | The checksum over flip-flops holds, for every message, what the software's shifts on 16-bit integers leave |
| `SequenceWindow.ClassedByAge` | src/hurra_cynthion/gateware.py:343-353 | A session's first frame is new; every later one is new, repeated, stale or after a gap by its distance from the newest |
| `UploadRules.UploadRulesAre` | src/hurra_cynthion/injection_map.py:511-872 | What the validator accepts is, rule by rule and with the numbers written out: every entry of a known class, inside its report and in its place; entries of one layout agreeing on its length and sharing no bit; as many layouts as counted; and the checksum of all payloads end to end |
| `UploadRules.EntriesAreJoined` | src/hurra_cynthion/injection_map.py:831-872 | The checksum register carried from entry to entry is the CRC-32 of all their payload bytes, one after the other |
| `UploadRules.FlagsByteSays` | src/hurra_cynthion/injection_map.py:511-535 | The flags byte has signed, relative and button in bits 0 to 2 and the axes in bits 3 to 6 |
| `EngineOutcome.LostEarlyIs` | src/hurra_cynthion/injection.py:1594-1641 | A map counts as lost early if and only if it goes before the report is made or before the relay has taken a byte of it |
| `ChirpHandshake.WindowCloses` | src/hurra_cynthion/enumerator.py:556-573 | The window for a chirp to begin is open for 450,000 cycles and closes for good on the next one without K |
| `StreamErrors.HeaderIsJudged` | src/hurra_cynthion/enumerator.py:842-908 | The header is accepted if and only if it is nine bytes, 9, 2, a length of 9 to 1024, one to four interfaces and a nonzero value; otherwise malformed, oversized or unsupported, in that order |
| `StreamErrors.LengthIsJudged` | src/hurra_cynthion/enumerator.py:1129-1161 | A read longer than announced is refused as oversized, a shorter one as malformed |
| `RelayArrivals.ArrivedIsQueued` | src/hurra_cynthion/relay.py:94-142 | Over every run from reset, told from the merged stream alone: a report of a served endpoint is queued, with exactly the bytes that came for it, if and only if at most 64 words of its slot are waiting at its first byte and no flush comes before its end |
| `RelayArrivals.PulsesAre` | src/hurra_cynthion/relay.py:127-135 | The drop pulses come on the first byte of a report of an endpoint not served, and of one there is no room for, and on no others |
| `InjectedState.OtherSlotsHoldNothing` | src/hurra_cynthion/injection.py:522-558 | A slot written for another layout, map or descriptors holds nothing for this one |
| `InjectedState.OwnSlotHolds` | src/hurra_cynthion/injection.py:522-558 | Its own holds what was written, category by category, as far as no CLEAR has come since |
| `ForwardOutcome.LostTargetIsStalled` | src/hurra_cynthion/control_relay.py:212-223 | A target lost before the transfer could start has the request stalled two clocks later |

## Left out

- LUNA's library (packet generators and detectors, endpoint multiplexers, the SETUP record), PHYs and pins: environment inputs of the models.
- SPI edges, clock-domain crossings, placement and timing: a slot is 32 bytes that arrive whole.
- Registered read, consume and write stages that exist only for timing are one loop iteration, except where a property is about the delay (boot snoop, invalidation latch, directory read data, head register).
- MapStore.QueryAnswersExactly: speaks of the key and the map a query holds; that they are those asked for is `LayoutQueries.QueryIsAnswered`.
- MapStore.CommitVerdict: the validator's loops over one entry run within the clock that ends it, after any number of waiting clocks; that clock itself is an input.
- MapStore.InjectionMapStore.Tick: the commit acknowledgement with its error code, and the indexed read port of the directory, are not registers of the model; the error code is `MapValidator.Validate`'s.
- MapValidation.MapValidator.Validate: an entry carries its fields and its 26 payload bytes side by side; `EntryPayload` says how they belong together, and validation does not assume it.
- EngineTransaction.ReportInjectionEngine.Transact: one transaction of one layout at a time, with the map's lifetime given as a number of checks; template caching and the choice of the next synthesised report are not modelled.
- CommandHold.NextKeepsInv: the mutation states between PREPARE and OUTPUT are one phase of any length; of the map it takes what `CommandMaps.StoreIsCoherent` proves of the store, which asks that no two maps are published within one transaction.
- CommandOutcome.FreshCommandIsFolded: its surroundings, link, session, map and boot bit, stay as they are from the report's first clock to its last; what else may happen is `CommandHold.AcknowledgedIsFolded`.
- CommandHold.ReportInjectionDataPlane.Tick: map frames pass through the same hold and are not modelled there; the sequence class is `SequenceWindow`'s subject.
- ParserAgreement.ParsersAgree: agrees on verdict and tables, not on which error class a refused descriptor gets; the first error found may differ.
- ConfigurationStream.StreamingParser.Enumerate: control-transfer failures, detach and a full descriptor store end the stream in the source and are not in the model; a read is at most 65535 bytes, the most wLength can ask for.
- DescriptorRefinement.ServeResponseIsCurrent: speaks of the key the port holds; of the key asked for it is `DescriptorPorts.ServedIsAsked`.
- DescriptorRefinement.ServedByteIsCurrent: likewise.
- DescriptorPorts.CaptureIsPlaced: while other clients hold the scan the capture waits; how long they take is not modelled but for lookups.
- DescriptorStore.StoreMachine.Tick: device, export and copy lookups share one unmodelled client of the admin scan; the generation counter is omitted.
- ControlForwarding.HIDClassRequestHandler.Tick: which handshake answers which token is not modelled, only when states and relay signals change; what damaged and repeated OUT packets do is `PayloadPackets`' subject.
- ForwardingSafety.ResponseIsCurrent: its byte half is conditional on the engine's count; `ForwardedTransfers.ServedIsTheTargetsAnswer` is the statement without the condition.
- ForwardedTransfers.CapturedReachesTheTarget: speaks of the bytes captured; from the PC's bytes on it is `PayloadRuns.PayloadReachesTheTarget`.
- PayloadPackets.AcknowledgedStage: fewer than 65536 bytes are forwarded for one request, since the handler's byte counter is 16 bits wide.
- PayloadRuns.NextKeepsInv: the AUX side's packets come one after the other and only while the PC has something left to send, and one that passes its checksum is the PC's next; OUT packets of other endpoints on the same stream are not modelled.
- ForwardedTransfers.NextKeepsInv: the enumerator gives up ready only with the connection, and makes its own requests one at a time; string and standard requests of the PC are not forwarded.
- ResponsePackets.ForwardedResponder.Answer: the registered packet pointers and the arming cycle are taken as settled when the IN token comes.
- ResponsePackets.Reassembles: packet registers are taken as settled between tokens; a target answering more than wLength is outside it.
- BootProtocol.BootProtocolTracker.Tick: the reset while the enumerator is not ready and the ok and fail pulses for the diagnostics are omitted.
- RelayProjection.StepProjects: the relay's view of the device; that it follows from the requests on the wire is `ProtocolTransfers.DeviceIsTheWires`.
- BootProgress.ReplaysEnd: how long the PC's own transfers hold the relay is not bounded by it.
- BootProtocol.MaskIsTwoCyclesLate: one mask bit a slot (the enumerator refuses duplicate endpoint numbers), a transfer changes the device exactly when it succeeds, and the device starts in report protocol.
- ReportRelay.DeliversWholeReports: a prefix, which an idle relay would also give; that everything is delivered is `RelayProgress.DeliversAll`.
- RelayRouting.EverySlotDeliversWholeReports: likewise, with `RelayProgress.EverySlotDeliversAll`.
- ReportRelay.NextKeepsInv: reports are at most max_report_bytes long, as the poller guarantees.
- ReportRelay.RelaySlot.Tick: one slot; the shared routing and the bucket for unserved endpoints are `RelayRouting.ReportRelayRouter.Tick`.
- ReportRelay.AllOrNothing: one slot; the drop pulses are tied to it in `RelayRouting.EveryReportHasOneFate`.
- RelayRouting.EveryReportHasOneFate: the endpoint numbers bound to the slots are distinct, as the enumerator ensures, and stay during a run.
- ReportLaws.EmittedValueDecodes: its condition is about the emitted value; the condition on the map is `ReportDecoding.AcceptedMapDecodes`.
- InterruptLinks.TakesOnceInOrder: one session between enables; interval pacing is not modelled.
- SlotLink.SPISlotMaster.BuildSlot: a build abandoned when tx_valid falls (spi_link.py:257-263) is not modelled; it leaves no sealed frame.
- SlotCodec.UnpackedWasPacked: an idle slot with nonzero padding unpacks but was never packed.
- SequenceWindow.AcceptsExactlyTheNewer: assumes a frame is less than half the number space from the newest.
- BusSharing.NextKeepsInv: the enumerator is taken to turn ready only between its own control transfers; which answers make control retry, move on, stream or finish is `ControlTransfer`'s subject and an input here.
- SharedTransactions.HeardSuccessSentItsPayload: a starter's payload is given by its transaction and does not change while it is sent; start-of-frame packets carry none.
- BusSharing.MuxInvKept: a source's buffer is seen empty for a clock between two reports.
- TransactionOutcome.NextKeepsInv: the packet detectors are LUNA's, so one response packet a transaction, its bytes before its end, is assumed.
- ControlOutcome.GoodTransferEnds: its bound counts a response of at most wLength bytes, each transaction and each byte taken at once.
- ControlGuarantees.SuccessDelivers: the payload an OUT stage indexes stays as it is during the transfer, which `ForwardingSafety.PayloadIsCaptured` proves of the relay; what a transaction abandoned by the engine still carries is left open, and only failed transfers abandon one.
- ControlGuarantees.OutlastingIsRepeats: waiting for a busy transaction engine, or for a consumer that never takes a byte, is not bounded by the control engine, and a stage that has heard no answer yet has none to repeat.
- ChirpHandshake.HandshakeShape: power, enable and the speed policy are held during the reset; the 60 MHz timings are the ones modelled.
- The transmit loop between `ControlTransfer` and `TransactionEngine` is not one composed model: each states what it needs of the other.
- Standard-request serving, string descriptors, frame scheduling and the detach and retry logic around enumeration: they would add only easier members.
- Diagnostic counters, register debugging, tools, tests and all firmware.
