# Verified model of framework-system-ffi-extensions

A Dafny 4.11 model of the stateful parts of the Rust crate that exposes Framework laptop hardware over a C ABI, with
proofs of what they promise. `dafny verify dfyconfig.toml` checks everything.

| file | models |
|---|---|
| `Abi.dfy`, `Conversions.dfy` | the ABI records and enumerations, descriptor construction, board capability tables |
| `SlotCorrelation.dfy` | one correlation pass as a function on tables, and the collapse of any list of passes |
| `SlotResolution.dfy` | the whole slot engine as stages, and the closed form it equals |
| `SlotLaws.dfy` | laws of the closed form: slot invariant, flags, who claims, conservation of cards, the written rule |
| `SlotFields.dfy` | the published slots and detached list field by field, on the ports and the lists alone |
| `UsbSlots.dfy` | the engine in place on arrays, proved against the closed form |
| `Internals.dfy`, `ExpansionBay.dfy`, `Builder.dfy` | input-deck overlay, built-in modules, expansion bay, assembly of the inventory |
| `StatusStore.dfy` | the bounded error-message store as a class, and its use by arbitrarily many threads |
| `Status.dfy` | the tagged status record, its construction from EC errors, accessors and texts |
| `ByteBuffers.dfy`, `Aggregates.dfy`, `Ledger.dfy` | buffer ownership over an explicit heap: primitives, record builders and frees, runs |
| `AudioCard.dfy` | the bounded claim, poll and release exchange with the audio card |
| `Diagnostics.dfy` | the chunked port 80 reader and the panic-record parser |
| `Thermal.dfy` | sensor-name normalisation and the fan snapshot |

Everything outside the crate is an arbitrary input: EC answers, USB and HID enumerations, transfer outcomes, SMBIOS
data and the addresses the allocator picks. The panic magic number and the largest port 80 chunk are constants of
another crate and are parameters here (the chunk size positive: with a chunk of nothing the read loop would not end).
Every u32 and i32 the code computes with is a bounded type in the model, so that no wrap-around happens unnoticed; the
token counter, which may wrap, does so explicitly.
The product ids of the two HID cards are those of the table in `FFI_NOTES.md`. The EC's named response codes are taken
to be numbered 0 to 16 in the order of the ABI enumeration.

Where code and notes disagree the model follows the code:

- `FFI_NOTES.md:16` says N cards meeting N free slots are all assigned. The code assigns only a single card meeting a
  single slot. For the HID cards it also counts slots in DP alt mode with nothing connected, which the notes do not.
  `SlotLaws.NotesHoldIff` and `SlotLaws.HidNotesHoldIff` give the exact conditions under which code and notes agree,
  `SlotLaws.TwoCardsTwoSlots` and `SlotLaws.HidCardOnAnEmptyPort` cases in which they do not.
- The comment at `src/inventory/usb_slots.rs:298-300` expects the PD state of Framework 16 slots to be cleared. By the
  tables only the two Desktop slots are ever cleared (`Capabilities.ClearsPdOnlyOnDesktop`).
- The flags of a slot the HID card was put into although nothing is connected there hold Connected alone, not the
  flags of the queried state (`SlotLaws.FlagsComeFromTheQuery` states both cases).
- Tokens stay findable for the first 2^31 - 1 messages only; the next token is negative and no lookup accepts it
  (`StatusThreads.TokenSigns`, `StatusThreads.CounterWrapsAtTheBound`). Once 2^32 messages have been stored tokens
  come round again, and an old token may be answered with a newer message: `StatusThreads.OwnAnswerIff` gives the exact
  condition, `StatusThreads.TokenIsReused` the runs.
- The comments at `src/versions.rs:130` and `src/versions.rs:261` take the answer for a complete response. The code
  ignores how many bytes each control read delivered (`src/versions.rs:239-249`), so a report of five bytes can answer
  with a leftover high byte of the reply id, and the version published can be that of an earlier report
  (`AudioCard.StaleVersionIsPublished`). `AudioCard.ReplyIsFresh` and `AudioCard.VersionIsTheReportsIff` say exactly
  when the answering report alone decides.
- A bay query made for its presence bit alone leaves its serial-number buffer unfreed (`src/gpu_descriptor.rs:63-73`,
  `src/inventory/builder.rs:14-40`). `Ledger.WhatIsLeft` counts exactly these.

## Model

| member | source | states |
|---|---|---|
| `Capabilities.ClearsPdOnlyOnDesktop` | src/inventory/capabilities.rs:93-175 | over all platforms and indices, a slot is documented as without PD exactly for the Desktop's two slots |
| `Capabilities.DocumentedSlots` | src/inventory/capabilities.rs:93-151 | a slot is documented exactly for the first four indices of a laptop and the first two of the Desktop |
| `Capabilities.PortSides` | src/inventory/capabilities.rs:93-175 | on a laptop ports 0 and 1 are on the right and 2 and 3 on the left, back first and last; middle only on Framework 16, front only elsewhere; other indices and platforms have no position |
| `SlotCorrelation.Candidates` | src/inventory/usb_slots.rs:326-344 | the candidate list holds exactly the connected, non-DP, still unidentified slots |
| `SlotCorrelation.ClaimExhaustsCandidates` | src/inventory/usb_slots.rs:346-365 | after the single candidate is claimed by a real identity no candidate is left for later passes |
| `SlotCorrelation.SpillAppend` | src/inventory/detect.rs:325-334 | filling the four-entry detached list in two goes is filling it with the concatenation, also past saturation |
| `SlotCorrelation.WithoutACandidateAllSpill` | src/inventory/usb_slots.rs:314-386 | when there is not exactly one candidate slot, any list of passes changes no slot and spills every card in pass order |
| `SlotCorrelation.PassesCollapse` | src/inventory/usb_slots.rs:172-296 | for any list of passes and any card lists: the first pass with exactly one card takes the only candidate, every other card is spilled in pass order |
| `SlotResolution.CandidatesAreFreeSlots` | src/inventory/usb_slots.rs:110-190 | whatever the HID pass did, the candidates of the first USB pass are all connected slots without DP alt mode |
| `SlotResolution.PipelineIsResolved` | src/inventory/usb_slots.rs:63-312 | the seven ordered passes and the capability pass equal a closed form over the queried ports and the seven lists |
| `SlotLaws.HidPassKeepsSlotsOk` | src/inventory/usb_slots.rs:126-150 | the HID pass keeps the slot invariant (presence, identity and Connected bit agree; card type follows identity; index and kind below the count; defaults above) |
| `SlotLaws.UsbPassKeepsSlotsOk` | src/inventory/usb_slots.rs:314-386 | every USB pass with a real identity keeps the slot invariant |
| `SlotLaws.UsbPassesKeepSlotsOk` | src/inventory/usb_slots.rs:192-296 | so does any sequence of them |
| `SlotLaws.PublishedSlotsOk` | src/inventory/usb_slots.rs:63-312 | all six published slots satisfy the slot invariant for all ports, lists and platforms |
| `SlotLaws.PdFlagsBits` | src/inventory/usb_slots.rs:42-61 | each flag bit is set exactly under its own condition on the port state's fields and no other bit is ever set |
| `SlotLaws.ClaimAddsConnected` | src/inventory/usb_slots.rs:126-150 | a claim adds the Connected bit to the flags it finds and changes no other |
| `SlotLaws.FlagsComeFromTheQuery` | src/inventory/usb_slots.rs:42-61 | the final flags of a connected slot are those of the first query, whatever claims happened; exact value for unconnected slots too |
| `SlotLaws.CapabilityPassIsLocal` | src/inventory/usb_slots.rs:298-311 | the capability pass changes only capability and PD state, only below the count, and clears PD state only on Desktop slots |
| `SlotLaws.StagesAreDisjoint` | src/inventory/usb_slots.rs:110-190 | no slot is ever eligible for both the HID stage and a USB pass |
| `SlotLaws.UsbCardShown` | src/inventory/usb_slots.rs:172-296 | a slot shows a USB card iff it is the only free slot and some list is a singleton; then it is the first such list's card |
| `SlotLaws.HidCardShown` | src/inventory/usb_slots.rs:124-150 | a slot shows the HID card iff the card is alone and the slot is the only one in DP alt mode; no later pass overwrites it |
| `SlotLaws.LosersAndWinnerAreAll` | src/inventory/usb_slots.rs:192-296 | the spilled cards plus the claiming pass's card are all USB cards, counted with multiplicity |
| `SlotLaws.CardsAreConserved` | src/inventory/usb_slots.rs:124-296 | every card occurs in slots and spills together exactly as often as in the detection lists |
| `SlotLaws.DetachedIsPrefixOfSpilled` | src/inventory/detect.rs:325-334 | the detached list is the first min(4, k) unclaimed cards in pass order, the count is its length, the rest stays default |
| `SlotLaws.EveryCardIsShownIff` | src/inventory/usb_slots.rs:63-312 | the published tables account for every detected card iff at most four cards were left unclaimed |
| `SlotLaws.NotesHoldIff` | src/inventory/usb_slots.rs:346-385 | a USB pass follows the N-cards-N-slots rule of the notes iff it is not the case that N >= 2 cards meet N candidates |
| `SlotLaws.TwoCardsTwoSlots` | FFI_NOTES.md:15-19 | two cards, two free slots: the notes place them, the code detaches them |
| `SlotLaws.HidNotesHoldIff` | src/inventory/usb_slots.rs:110-170 | the HID pass follows the same rule iff neither N >= 2 cards meet N connected DP slots nor a single card meets exactly one DP slot without meeting exactly one connected DP slot, or the reverse |
| `SlotLaws.HidCardOnAnEmptyPort` | FFI_NOTES.md:15-19 | one HID card and one port in DP alt mode with nothing connected: the notes detach the card, the code places it |
| `SlotFields.PublishedPdState` | src/inventory/usb_slots.rs:71-108 | every published slot carries the PD state queried for its port, whatever claims it, save the Desktop's two slots; slots beyond the ports carry none |
| `SlotFields.PublishedSlotShows` | src/inventory/usb_slots.rs:71-296 | in every case, on the ports and lists alone: which card the slot shows, with its ids, bus, both confidences and card type, or that nothing is identified |
| `SlotFields.SpilledListByList` | src/inventory/usb_slots.rs:126-296 | the unclaimed cards are the seven lists in order, each whole unless it gave its only card to a slot, with the identity, bus, confidence and ids of each entry |
| `SlotFields.DpSlotIsAlone` | src/inventory/usb_slots.rs:110-122 | the DP slots are just slot i iff port i alone has one of the two DP bits set |
| `SlotFields.FreeSlotIsAlone` | src/inventory/usb_slots.rs:172-190 | the free slots are just slot i iff port i alone is connected without a DP bit |
| `UsbSlots.ComputePdFlags` | src/inventory/usb_slots.rs:42-61 | the accumulated flags are the union of the four conditions' bits |
| `UsbSlots.PushDetachedModule` | src/inventory/detect.rs:325-334 | writes the next free entry and counts it, or does nothing when four are used |
| `UsbSlots.InitializeSlots` | src/inventory/usb_slots.rs:71-108 | every queried slot gets its initial content in place, the others are untouched; `SlotFields.PublishedPdState` and `SlotFields.PublishedSlotShows` say what of it is published |
| `UsbSlots.ClaimSlot` | src/inventory/usb_slots.rs:347-365 | a claim rewrites one slot, keeping its PD state and flags plus Connected, and no other |
| `UsbSlots.AssignHidCards` | src/inventory/usb_slots.rs:126-170 | the HID stage claims or spills as specified, on the arrays |
| `UsbSlots.AssignAudioCards` | src/inventory/usb_slots.rs:172-236 | the audio pass is a pass with its own bus on claims |
| `UsbSlots.AssignCardPass` | src/inventory/usb_slots.rs:314-386 | one pass claims or spills as specified, on the arrays |
| `UsbSlots.RunAllUsbPasses` | src/inventory/usb_slots.rs:192-296 | the six passes run in their order |
| `UsbSlots.ApplyCapabilities` | src/inventory/usb_slots.rs:298-311 | the capability pass in place |
| `UsbSlots.PopulateUsbSlots` | src/inventory/usb_slots.rs:63-312 | whatever the arrays and the counter held, the final slots, detached list and count are the closed form, whose fields `SlotFields` states |
| `Internals.LastAt` | src/inventory/internals.rs:96-114 | the overlay's winner for a slot is the last observation with that index |
| `Internals.PortPathsMapInjectively` | src/inventory/detect.rs:203-212 | port paths map to slots 0 to 4 one to one |
| `Internals.PortPathsByHub` | src/inventory/detect.rs:203-212 | hub 4 holds slots 0 and 1 on its ports 2 and 3, hub 3 slots 2 to 4 on its ports 1 to 3, every other path is outside |
| `Internals.OverlayInputModules` | src/inventory/internals.rs:96-114 | each entry becomes its last in-range observation, else stays; out-of-range indices are ignored |
| `Internals.ReadDeck` | src/inventory/internals.rs:57-75 | the five deck entries |
| `Internals.DetectInputDeck` | src/inventory/internals.rs:55-147 | top row is last USB module, else deck entry, else default; the touchpad keeps the EC's board id under a HID device, shows that device's ids or none, and is present when either knows it |
| `Internals.DetectInternalTouchpad` | src/inventory/internals.rs:148-192 | shown iff the EC or the HID layer knows it, ids only from the first HID device, Hid bus iff an id is not zero, confidence by the evidence, board id as read; default when absent |
| `Internals.DetectFixedModules` | src/inventory/internals.rs:194-243 | fingerprint reader, touchscreen and webcam are present exactly when reported, with the first device's ids, their bus and their confidence; the default when not |
| `Internals.DetectInternalModules` | src/inventory/internals.rs:38-255 | the whole overlay, every module determined by the probes and its fields stated on them; on other families the top row and deck touchpad stay default, on Framework 16 the built-in keyboard and touchpad do |
| `Internals.BuiltInModulesAreWellReported` | src/inventory/internals.rs:115-243 | whatever the probes say, a built-in module is the default or fixed, present, flagged and known with confidence, and carries ids only as direct evidence from the USB or HID bus |
| `Internals.TopRowEntriesKnowTheirPlace` | src/inventory/internals.rs:57-114 | every non-default top-row entry is on Framework 16 and carries its own slot index and position |
| `Bay.BuildExpansionBayModule` | src/inventory/builder.rs:11-43 | the bay is shown iff both EC queries answer and the board or the raw vendor byte says it is occupied; its identity follows the byte, else the board, and each flag its EC bit |
| `Bay.BayFlagsBits` | src/inventory/builder.rs:16-26 | each of the bay's flags follows its own EC bit, Connected is always set, no other bit is |
| `Bay.BayIdentityTellsContents` | src/inventory/conversions.rs:163-188 | bays shown alike hold the same named contents or, unnamed, the same interposer; the bare identity means a bad connection |
| `Builder.Assemble` | src/inventory/builder.rs:68-95 | the numbered fields hold the arrays in order |
| `Builder.BuildSlots` | src/inventory/builder.rs:45-63 | default arrays filled in place give the closed form and well-formed slots, each with the PD state of its port |
| `Builder.BuildModuleInventory` | src/inventory/builder.rs:45-96 | each numbered slot field carries the EC port of its number (two on the Desktop, four elsewhere), the detached fields the unclaimed cards in order, each module field a module of its kind; the whole is the closed form, the overlay's modules and the EC's bay |
| `StatusStore.DeviceErrorStore.AllocateId` | src/status.rs:24-24 | hands out the counter and increments it with 32-bit wrap-around |
| `StatusStore.DeviceErrorStore.PushMessage` | src/status.rs:25-31 | the queue becomes the last 64 of the old queue and the new entry, from any starting length |
| `StatusStore.DeviceErrorStore.Store` | src/status.rs:23-33 | both steps without interruption |
| `StatusStore.DeviceErrorStore.GetMessage` | src/status.rs:35-45 | the first entry with the token, nothing for tokens that are not positive |
| `StatusThreads.Perform` | src/status.rs:23-45 | the store's operations take exactly the steps of the thread model |
| `StatusThreads.StepKeepsInvariant` | src/status.rs:23-33 | each atomic step of any thread keeps the store invariant |
| `StatusThreads.EveryRunKeepsInvariant` | src/status.rs:23-33 | under every interleaving the queue is the last 64 pushes, and each issued token is in flight or was pushed once |
| `StatusThreads.TokensDiffer` | src/status.rs:24-24 | tokens repeat only after 2^32 allocations |
| `StatusThreads.TwinsShareTheirToken` | src/status.rs:24-24 | two allocations carry the same token iff a whole number of counter cycles lies between them |
| `StatusThreads.TokenSigns` | src/status.rs:36-38 | in every cycle of 2^32 exactly the first 2^31 - 1 tokens are positive, and they are 1, 2, ... |
| `StatusThreads.TokensAreDistinctAndBelowCounter` | src/status.rs:23-33 | below that bound, tokens queued and in flight are positive, pairwise distinct and below the counter |
| `StatusThreads.CounterWrapsAtTheBound` | src/status.rs:24-24 | at the bound the counter is the smallest i32 |
| `StatusThreads.LookupIsExact` | src/status.rs:35-45 | a pushed token is answered iff it is positive and fewer than 64 pushes followed, and then with its own message, unless a retained push 2^32 allocations away shadows it; no push is shadowed for the first 2^32 allocations |
| `StatusThreads.OwnAnswerIff` | src/status.rs:35-45 | for any number of allocations: a positive token is answered by its own push while that is retained, and by none afterwards, iff no retained push with the same token stands in its way |
| `StatusThreads.LookupIsThePushs` | src/status.rs:35-45 | every lookup returns the message of the oldest retained push with the token |
| `StatusThreads.LookupIsNeverAnothers` | src/status.rs:35-45 | a successful lookup returns the message of a push with that token; any other push with it lies whole counter cycles away, and there is none for the first 2^32 allocations |
| `StatusThreads.EvictedStaysEvicted` | src/status.rs:29-31 | once unanswered, a token stays unanswered iff it is not positive or no push retained later is its twin; always for the first 2^32 allocations |
| `StatusThreads.SequentialRunsPushInOrder` | src/status.rs:23-33 | with one caller at a time pushes happen in allocation order and nothing is in flight between calls |
| `StatusThreads.SequentialLookup` | src/status.rs:23-45 | with one caller each of the 64 most recent positive tokens is answered with its own message after any number of calls, and for the first 2^32 calls no other token is answered |
| `StatusThreads.TokenIsReused` | src/status.rs:23-45 | after 2^32 further messages by one caller a positive token is answered with the message stored 2^32 later |
| `Text.DecimalIsInjective` | src/status.rs:227-272 | no two integers print alike in the texts |
| `Text.DecimalReadsBack` | src/status.rs:227-272 | what is printed of an integer is a numeral without leading zeros that reads back as that integer |
| `Status.With` | src/status.rs:98-168 | every status built this way has the payload field live that its code selects |
| `Status.AtMostOneAccessorAnswers` | src/status.rs:98-200 | for each code exactly its own accessor answers, with the detail given |
| `Status.StatusFromError` | src/status.rs:274-288 | the accessors recover the EC response, the code clamped to i32::MAX, or the token; only a device failure touches the store |
| `Status.StatusDescription` | src/status.rs:227-272 | the text equals the specified one for the messages retained at that moment; `Status.NumericTextsReadBack` says what number it shows |
| `Status.NumericTextsReadBack` | src/status.rs:227-272 | the texts of fan indices, EC responses and unknown codes end in a numeral that reads back as the value the status was built with, behind the response's name |
| `Status.NameOfTheNumber` | src/status.rs:47-68 | the seventeen response numbers and names, in order |
| `Status.FailureIsDescribedWhileRetained` | src/status.rs:244-253 | under any interleaving a device failure with a positive token is described by its own message iff fewer than 64 pushes followed, else by the bare text, unless a twin shadows it |
| `Status.DescriptionsDetermineTheRecord` | src/status.rs:227-272 | statuses with equal texts have the same code and, device failures aside, are equal records |
| `ByteBuffers.Heap.FromVec` | src/byte_buffer.rs:17-27 | moves a vector's block to a buffer without touching the heap; an empty vector's buffer owns nothing |
| `ByteBuffers.Heap.Destroy` | src/byte_buffer.rs:29-37 | removes exactly the block the buffer owns, nothing for the null buffer or capacity 0 |
| `ByteBuffers.DestroyRebuildsTheVec` | src/byte_buffer.rs:17-37 | destroy gets back the very pointer, length and capacity from_vec was given |
| `ByteBuffers.ReleaseSpares` | src/lib.rs:1302-1308 | releasing some buffers leaves all others releasable |
| `ByteBuffers.SecondReleaseIsUnsound` | src/lib.rs:1302-1308 | a buffer may be released twice iff it owns no block |
| `Aggregates.IntoFfi` | src/smart_battery.rs:41-91 | the ten fields take pointer, length and capacity of the ten vectors in order, without heap change; the unsealed flag reads the fourth |
| `Aggregates.SmartBatteryDataFree` | src/lib.rs:4249-4271 | frees exactly the ten buffers' blocks and leaves null buffers (`Freed`); null is a no-op |
| `Aggregates.BuildPeripheralVersions` | src/lib.rs:3962-3993 | slot j shows the version, ids and name of peripheral j, for the first min(len, 8); the excess names are freed, the other slots unused |
| `Aggregates.DropExcess` | src/lib.rs:3967-3978 | names no slot took are freed, and only those |
| `Aggregates.PeripheralVersionsFree` | src/lib.rs:4037-4059 | frees exactly the eight names, nulls them (`Freed`) and leaves every other field |
| `Aggregates.FreeIsIdempotent` | FFI_NOTES.md:359-362 | what the frees do, done n > 0 times, is done once, and each repetition is safe |
| `Aggregates.FreeBatteryRepeatedly` | src/lib.rs:4249-4271 | calling the battery free n > 0 times leaves what one call leaves |
| `Aggregates.FreePeripheralsRepeatedly` | src/lib.rs:4037-4059 | calling the peripheral free n > 0 times leaves what one call leaves |
| `Aggregates.BatteryRoundTrip` | src/lib.rs:4242-4271 | building a battery record from new vectors and freeing it once or more gives back the earlier heap |
| `Aggregates.SlotsOwnTheKeptNames` | src/lib.rs:3962-3993 | the eight slots own the blocks of the names they took and nothing else |
| `Aggregates.PeripheralsAreRestored` | src/lib.rs:3962-4059 | the dropped excess names and the freed slots are together all the new blocks |
| `Aggregates.PeripheralsRoundTrip` | src/lib.rs:3962-4059 | publishing any number of peripherals and freeing the list once or more gives back the earlier heap |
| `Ledger.ReturnKeepsBalance` | src/lib.rs:1257-1272 | a call returning buffers keeps the ledger balanced |
| `Ledger.FreeKeepsBalance` | src/lib.rs:1302-1308 | so does freeing a buffer or all buffers of a record |
| `Ledger.BayProbeKeepsBalance` | src/inventory/query.rs:50-53 | a bay query whose result is discarded moves one block to the lost column |
| `Ledger.FreeBuffer` | src/lib.rs:1302-1308 | every buffer the caller holds may be freed, and freeing it is exactly a step of the ledger |
| `Ledger.FreeRecord` | src/lib.rs:4249-4271 | so may every record whose buffers are held, by its aggregate free |
| `Ledger.FreePeripherals` | src/lib.rs:4037-4059 | so may a peripheral list whose kept names are held |
| `Ledger.ReturnRecord` | src/smart_battery.rs:41-91 | building a battery record is exactly a step that returns its ten buffers |
| `Ledger.ReturnPeripherals` | src/lib.rs:3962-3993 | publishing peripherals is exactly a step that returns the names that found a slot; the excess blocks are gone |
| `Ledger.EveryRunIsBalanced` | src/lib.rs:1302-1308 | in every run the live blocks are the disjoint union of buffers held and lost, all held ones can be freed and read back intact |
| `Ledger.WhatIsLeft` | src/gpu_descriptor.rs:63-73 | when the caller holds nothing, exactly the discarded bay serials are left, and nothing without such queries |
| `AudioCard.PollOnce` | src/versions.rs:226-249 | one write and one read, the read only after a successful write |
| `AudioCard.Exchange` | src/versions.rs:219-254 | stops at the first reply, at the first failed transfer or after 32 polls |
| `AudioCard.Query` | src/versions.rs:204-277 | a claimed device is released on every path |
| `AudioCard.AudioCardVersion` | src/versions.rs:185-280 | the result is the first reachable card that answers; exactly the reachable devices up to it were claimed, in order; `AudioCard.VersionOffTheReport` says what is published |
| `AudioCard.WatcherTallies` | src/versions.rs:204-256 | the bus watcher's verdict in numbers for every device of every trace |
| `AudioCard.ReleasedTracesAreBalanced` | src/versions.rs:204-256 | per device: claims equal releases, at most 32 writes, no more reads than writes |
| `AudioCard.PrefixesAreUndisturbed` | src/versions.rs:204-256 | the claim discipline holds at every moment, not only at the end |
| `AudioCard.AnswerIsUnique` | src/versions.rs:225-254 | at most one poll of a device is the answering one |
| `AudioCard.ReplyIsFresh` | src/versions.rs:238-253 | the answering read itself carries the low byte of the reply id, and both bytes iff it is at least six bytes long |
| `AudioCard.ByteComesFrom` | src/versions.rs:225-249 | each published byte is the answering report's where that reaches and the older buffer's where it does not |
| `AudioCard.VersionIsTheReportsIff` | src/versions.rs:238-272 | the answering report decides the published major, minor and sub-minor iff it is at least 19 bytes long, and then they are its bytes 10, 14 and 18 |
| `AudioCard.VersionOffTheReport` | src/versions.rs:261-276 | an answering report of 19 bytes or more gives the published version, ids and product name |
| `AudioCard.RequestIsTheMessage` | src/versions.rs:125-149 | the request bytes are the packed little-endian message |
| `AudioCard.ReplyIsTheCommandId` | src/versions.rs:250-253 | a response is a reply iff its command id word is 0x8103 |
| `AudioCard.StaleVersionIsPublished` | src/versions.rs:238-272 | a card whose five-byte report answers and whose version is that of an earlier report that was no reply |
| `LittleEndian.U32AtWritesBack` | src/diagnostics.rs:98-105 | the word read at an offset encodes to the four bytes there |
| `LittleEndian.WordsRoundTrip` | src/diagnostics.rs:138-139 | little-endian words decode to themselves |
| `LittleEndian.EncodedAt` | src/diagnostics.rs:135-192 | the encoded words lie in order, low byte first |
| `Diagnostics.SavedRecordsAreValid` | src/diagnostics.rs:108-133 | whatever the EC saved is parsed as valid with its header bytes |
| `Diagnostics.ValidExactlyWhenSaved` | src/diagnostics.rs:108-133 | for all blobs of any length: valid iff it is a saved record |
| `Diagnostics.PanicFieldsAreTheBlobs` | src/diagnostics.rs:108-133 | of every blob, valid or not: the data itself, its first three bytes and its last two words; zeros for blobs under 12 bytes |
| `Diagnostics.TilesTileTheHistory` | src/diagnostics.rs:163-165 | the requests cover the history in order, without gap, each 1 to max entries and all but the last exactly max |
| `Diagnostics.ReadChunk` | src/diagnostics.rs:166-183 | an EC error is passed on as it is, a short answer is an error that names both sizes, padding is cut off |
| `Diagnostics.ReadHistory` | src/diagnostics.rs:162-185 | the loop yields the joined unpadded answers or the first fault; its log is the whole tiling without a fault, or ends at the first fault |
| `Diagnostics.Port80Read` | src/diagnostics.rs:152-192 | the same for the whole read, log included, with the reported counters passed through |
| `Diagnostics.FirstFaultDecides` | src/diagnostics.rs:164-181 | reading fails iff some request is faulty, with the first one's error |
| `Diagnostics.PiecesMakeTheHistory` | src/diagnostics.rs:162-185 | any tiling of the history, padded in any way, reads back as the whole of it |
| `Diagnostics.ChunkedReadIsOneShotRead` | src/diagnostics.rs:142-185 | whatever the chunking and the padding, the result is one whole read of the history |
| `Diagnostics.HistoryDecodes` | src/diagnostics.rs:135-192 | the codes are twice the history size in bytes, two per entry low byte first, and decode to the EC's words |
| `Thermal.NormalizeAppend` | src/thermal.rs:560-564 | normalisation distributes over concatenation |
| `Thermal.NormalizeIsIdempotent` | src/thermal.rs:560-564 | a normal form consists of digits and lowercase letters and is its own normal form |
| `Thermal.RespellingKeepsTheSensor` | src/thermal.rs:552-585 | no sequence of separator insertions, removals and case flips changes the sensor |
| `Thermal.NormalFormIsReached` | src/thermal.rs:560-564 | every name can be respelled into its normal form |
| `Thermal.SensorExactlyWhenRespelled` | src/thermal.rs:552-585 | a name has a known normal form iff it can be respelled into it |
| `Thermal.SensorIffNamed` | src/thermal.rs:565-585 | a name maps to a sensor iff its normal form is one of that sensor's names |
| `Thermal.SensorIffRespellable` | src/thermal.rs:552-585 | a name maps to a sensor iff it can be respelled into one of that sensor's names |
| `Thermal.FanWordBytes` | src/thermal.rs:96-116 | a fan's word is its two bytes, low byte first |
| `Thermal.ReadFans` | src/thermal.rs:96-116 | the fan loop: presence, stall and speed per word, and the count |
| `Thermal.BuildFanSnapshot` | src/thermal.rs:279-287 | the published count is the number of the four fans shown as present; absent and stalled fans show speed 0, others the EC's word of the same number |

## Left out

- EC host commands, memmap reads, SMBIOS and the USB and HID enumerations themselves: their results are arbitrary inputs. The detectors' vendor and product filters are therefore not modelled.
- Panics: `from_vec` refuses lengths and capacities over i32::MAX; the type `ByteBuffers.Vec` holds only smaller ones. Likewise for a fan region shorter than eight bytes and a port count above six, which no caller passes.
- Aggregates.IntoFfi: the scalar fields, which are copied, and the packed date are not modelled, only the ten buffers and the unsealed flag.
- Aggregates.SmartBatteryDataFree: the ten named buffer fields are an array in declaration order.
- Ledger.EveryRunIsBalanced: releasing a buffer twice is not a step of a run, as the safety contract forbids it; `ByteBuffers.SecondReleaseIsUnsound` says why.
- Bay.BuildExpansionBayModule: the bay's PCIe configuration, PD state and capability are not modelled; the module does not show them. The serial number is a step of `Ledger`.
- AudioCard.AudioCardVersion: finding the HID interface, detaching the kernel driver and reading the product string are device properties, not steps.
- The lanes, DisplayPort versions and charge limits in the board tables are data taken over as they stand; which slots are documented and where they sit is proved.
- Lock poisoning, memory ordering beyond an atomic counter and a mutex, and allocation failure.
- The remaining enumeration tables (sensor and fan names per platform, PD roles, bay boards), the manufacture date and temperature decoders, PD controller and retimer versions, NVMe, fan control and the other write-only controls, and the generated C# bindings: small decoders and thin wrappers that keep no state.
- `src/lib.rs:2484-2485` places the newest port 80 entry at `writes % history_size`; no code computes it.
