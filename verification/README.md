# Verified model of udev-hid-bpf

udev-hid-bpf loads small BPF programs that repair input devices: they replace a
device's HID report descriptor and rewrite its reports. This project models the
parts of it that carry hard properties, and proves those properties with Dafny 4.11.
`dafny verify dfyconfig.toml` checks everything.

| files | what they model |
|---|---|
| `AsyncProtocol`, `AsyncRuns`, `AsyncSlots`, `AsyncAnswers`, `AsyncOverlap` | the slots shared by callers, timers and work items: a transition system of interleaved steps, theorems over its runs, the functions as they update the map when uninterrupted, what they answer their callers, and a run in which two starts overlap |
| `BtfValidation`, `BtfAcceptance`, `BtfLayout`, `BtfTables` | the layout validator with its cache, which names, members and sizes it accepts, what a successful validation says about every leaf, and the tables it is used with |
| `ReportItems`, `ReportLayout`, `VendorReports`, `Lists` | the descriptor macros, the short items they expand to, and the report layout those items describe |
| `FieldExtraction`, `RdescConversion`, `Bits`, `LittleEndian` | reading a field from a report, and the conversion of a parsed descriptor into C structures |
| `Kamvas16Descriptor`, `KamvasEvents`, `KeydialDescriptor`, `KeydialEvents`, `DialDescriptor`, `DialEvents`, `FieldReadout` | complete drivers: a descriptor, its interpretation, and the stateful rewriting of reports |
| `ProgramSelection`, `PropertyInjection`, `Modaliases`, `Sysnames`, `Options` | which programs get loaded, what is written into them, and the text forms of modaliases and device names |

Code that changes state step by step is a class or a method here (`SlotMap`, `Validator`, the
three `Handler` classes, the conversion and injection loops); each method's contract gives the
new state as a specification function of the old one, and the theorems are about those functions.
Macros and plain computations are functions. Beside each specification function stand statements that
do not use it, in raw terms: the bytes of reports and descriptors, file names, C members, returned codes.

How the pieces meet: the report layout is computed by interpreting the bytes the macros expand to,
the rewritten reports are read at the bit ranges of that layout with the value `extract_bits`
computes, and the statements compare that with the raw reports. So `KamvasEvents.PenReadout`,
`KeydialEvents.KeyboardReadout`, `DialEvents.FirmwareReadout` and their neighbours span the descriptor macros, their interpretation,
the field extraction and the event handler.

Some of what a reader might expect is false of the code, and is stated with its exact condition:

- An accepted asynchronous start is outstanding until its callback ends. A slot never has two,
  on any run and whatever the kernel returns and the other slots do, exactly when none is accepted while
  its callback runs (`OneOutstandingIff`). Overlap does happen (`OverlapHappens`), because the final unlocked
  write of the callback overwrites STARTING; still no start is lost while the calls made for the slot
  succeed (`NoLostStart`).
- A kernel call that fails after the STARTING write, or a missing context in the callback, leaves the slot
  STARTING for ever (`FailureSticks`, `StuckForever`); a slot is in that situation exactly when no continuation
  leads out of STARTING (`StuckIff`). In the same way a kernel call that fails in `hid_bpf_async_get_ctx` leaves
  the claimed slot INITIALIZING for ever (`FailureAbandons`, `AbandonedIff`), and each such slot is one key less
  (`FewerKeys`).
- The comment in src/btf_validation.rs says the cache prevents infinite recursion. The entry is inserted
  after the recursive call, so it does not; the recursion ends because BTF types without cycles
  are finite. The cache is keyed by the Rust type name alone and can hide a mismatch
  (`CacheHidesMismatch`). An accepted layout is really valid exactly when no registered name is valid at
  one of its BTF types and invalid at another (`CacheExact`), which is so when each registered name
  means one BTF type (`CacheIsSound`). The program's own tables meet that, although their `u8` stands for
  a byte and for a structure of eight flags (`DescriptorValidates`, `BytesAndFlags`), and every leaf of the
  Rust type lies exactly where C puts it (`DescriptorLayout`).
- Element counts are never compared. They agree for arrays of registered types (`CountsAgree`); for
  other elements exactly when the element sizes do (`CountsAgreeIff`), and four `u16` pass for eight bytes
  (`PrimitiveCountsDiffer`).
- Offsets are compared in whole bytes, so a bit field inside the right byte passes; the BTF offset equals the
  Rust offset exactly when there is no such slack (`ValidatedLayout`, `BitFieldPasses`).
- `FixedSizeVendorReport` also compiles for sizes -127 to 0 and then describes another length
  (`VendorReportExact`).
- Bit positions are narrowed to 16 bits; a readable field keeps its value exactly when it ends below bit 65536,
  and a range too wide to read can become readable (`NarrowingExact`).
- `Unit_i16` and `Unit_i32` announce two and four data bytes and emit one. A descriptor written with the macros
  parses back to its items exactly when neither occurs in it (`ReportItems.RoundTripIff`).
- The order of the candidate files does not matter exactly when no two different paths agree in
  stem and lower-cased name (`OrderIndependentIff`); for given load results it does not matter for what is loaded
  exactly when in every stem only one path carries the highest loading name (`LoadedOrderIndependentIff`).
- A modalias survives printing and parsing exactly when it has no wildcard (`Modaliases.RoundTripIff`), and a
  text survives parsing and printing exactly when it is also canonical (`PrintsBackIff`).
- No NUL is written behind a value injected into a variable; it reads back exactly when the byte there was 0
  and the value holds none (`InjectedTextIff`). A property map gives its value back exactly when that is not
  empty and has no NUL (`MapRoundTripIff`).
- A device name survives the directory name exactly when its separators are a colon, a colon, a dot and then
  underscores, or are fewer than three, all colons (`Sysnames.RoundTripIff`).
- The comment on the Keydial's wheel says byte 6; the code and the descriptor put it in byte 8, as here. The
  Dial 2's descriptor declares eight buttons for seven fields: the eighth has none (`DialDescriptor.PadLayout`).

HID below is the USB HID Device Class Definition 1.11.

## Model

| member | source | states |
|---|---|---|
| AsyncProtocol.StepSafe | src/bpf/hid_bpf_async.h:63-243 | every step, whatever the kernel calls return, keeps the safety invariant (one claimer per INITIALIZING slot, distinct returned keys, timers and work only on initialised slots) and moves no slot back towards UNSET |
| AsyncProtocol.KeysAreUnique | src/bpf/hid_bpf_async.h:137-190 | over every interleaving no key is returned twice, at most the configured number are, each names an initialised slot, and only initialised slots have a timer, queued work or a callback |
| AsyncProtocol.LifeCycle | src/bpf/hid_bpf_async.h:16-22 | over every run a slot leaves UNSET and INITIALIZING at most once and then stays INITIALIZED, STARTING or RUNNING; a returned key stays returned |
| AsyncRuns.OneStartOutstanding | src/bpf/hid_bpf_async.h:67-84 | for each slot, on every run that does not start it during its own callback, accepted starts less completed callbacks is 1 while STARTING or RUNNING and 0 otherwise, RUNNING holds exactly in the callback body, and the callback uses the hid of the start that caused it; when the calls made for the slot succeed, STARTING holds exactly while a start is pending |
| AsyncRuns.RejectedUntilCallback | src/bpf/hid_bpf_async.h:206-221 | from acceptance until the callback begins, whatever the kernel returns and the other slots do, the slot stays STARTING for the same start, and every further start by any thread is refused and changes nothing |
| AsyncRuns.OneOutstandingIff | src/bpf/hid_bpf_async.h:81-81 | for each slot and every run, whatever the kernel returns and the other slots do, the slot never has two outstanding starts if and only if none is accepted while its callback runs |
| AsyncRuns.NoLostStart | src/bpf/hid_bpf_async.h:197-243 | while the kernel calls made for a slot succeed, even with overlapping starts, a start no callback has served is still on its way through a thread, the timer or the queue |
| AsyncRuns.StuckForever | src/bpf/hid_bpf_async.h:218-242 | a slot left STARTING with nothing pending is frozen in every continuation |
| AsyncRuns.WayOut | src/bpf/hid_bpf_async.h:218-242 | otherwise there is a continuation that takes it out of STARTING, constructed step by step |
| AsyncRuns.StuckIff | src/bpf/hid_bpf_async.h:218-242 | a slot stays STARTING in all continuations if and only if nothing is pending for it |
| AsyncRuns.FailureSticks | src/bpf/hid_bpf_async.h:73-75 | after a run without overlap every failure between acceptance and the callback body, in the launching thread, the timer callback or the context allocation, sticks the slot |
| AsyncRuns.AbandonedForever | src/bpf/hid_bpf_async.h:162-190 | a slot left INITIALIZING without its thread is frozen in every continuation |
| AsyncRuns.AbandonedIff | src/bpf/hid_bpf_async.h:162-190 | a slot stays INITIALIZING in all continuations if and only if no thread is preparing it |
| AsyncRuns.FailureAbandons | src/bpf/hid_bpf_async.h:175-185 | every failing kernel call of get_ctx leaves its slot so |
| AsyncRuns.FewerKeys | src/bpf/hid_bpf_async.h:137-190 | in every continuation the keys returned and the slots abandoned so far together are at most the configured number |
| AsyncOverlap.OverlapHappens | src/bpf/hid_bpf_async.h:206-216 | a concrete run with successful kernel calls in which a slot has two outstanding starts |
| AsyncSlots.SlotMap.FindEmptyKey | src/bpf/hid_bpf_async.h:137-160 | claims the lowest UNSET slot and changes nothing else, or returns -EINVAL and changes nothing |
| AsyncSlots.SlotMap.GetCtx | src/bpf/hid_bpf_async.h:162-190 | the whole new map and the key or first error, for all results of the three kernel calls |
| AsyncSlots.SlotMap.DelayedCall | src/bpf/hid_bpf_async.h:197-243 | the whole new map and the returned error, for all arguments, keys and kernel results |
| AsyncSlots.SlotMap.StartWqTimerCb | src/bpf/hid_bpf_async.h:128-135 | the expired timer's callback is the protocol's timer step |
| AsyncSlots.SlotMap.RunCallback | src/bpf/hid_bpf_async.h:67-84 | the wrapper around a callback that claims and starts slots any number of times, its own or others, is the run of its protocol steps, whatever the kernel calls return |
| AsyncSlots.GetCtxIsRun | src/bpf/hid_bpf_async.h:162-190 | in any world, an uninterrupted get_ctx is a run of one thread's steps |
| AsyncSlots.DelayedCallIsRun | src/bpf/hid_bpf_async.h:197-243 | in any world, an uninterrupted delayed_call is a run of one thread's steps |
| AsyncAnswers.StartAnswers | src/bpf/hid_bpf_async.h:197-243 | for every map and all kernel results: -22 and no change when there is no slot or it is UNSET, INITIALIZING or STARTING; else STARTING for the caller's device, 0 exactly when every call made returned 0, with the timer armed or without a delay the work queued, and else the first failure |
| AsyncAnswers.EveryOtherStartIsToldSo | src/bpf/hid_bpf_async.h:206-221 | between an accepted start and its callback, in every interleaving, every start of the slot is answered -22 and changes nothing |
| AsyncAnswers.ClaimAnswers | src/bpf/hid_bpf_async.h:137-190 | a map without an UNSET slot answers -22 and stays; else the lowest is claimed, and its key is the answer exactly when it became INITIALIZED, else the first failing call's result |
| BtfValidation.ResolveIff | src/btf_validation.rs:57-62 | r is the resolved type of t if and only if references lead from t to r and no further, and only nothing itself resolves to nothing |
| BtfValidation.FindMemberIff | src/btf_validation.rs:371-385 | a member is found if and only if it matches, by name or without a name at the offset, and none before it does; none is found if and only if none matches |
| BtfAcceptance.MatchesIff | src/btf_validation.rs:344-385 | a field whose name begins with "anon_" matches a member without a name, in a structure one that begins in its byte; any other the member of its name |
| BtfAcceptance.SizeIff | src/btf_validation.rs:553-591 | a type has a size if and only if it is one of four kinds, which say it, or an array, whose size is the element size times the capacity |
| BtfAcceptance.BaseTypeOf | src/btf_validation.rs:264-270 | the base type is the name without opening brackets, blanks around it and what follows the first semicolon |
| BtfAcceptance.TypeValidIff | src/btf_validation.rs:264-304 | without the cache a type name passes if and only if there is a type to check and the name is one of fourteen primitives, unknown, or its composite is valid for the type or array element |
| BtfAcceptance.CompositeValidIff | src/btf_validation.rs:343-463 | a composite is accepted if and only if kind and size agree and each field's first matching member lies at its byte, has its size and a valid type; the order of the fields does not matter |
| BtfValidation.Validator.ValidateComplexType | src/btf_validation.rs:253-305 | verdict and cache equal the cached specification |
| BtfValidation.Validator.ValidateLayout | src/btf_validation.rs:78-154 | kind, size and fields are checked; verdict and cache equal the cached specification |
| BtfValidation.Validator.ValidateFields | src/btf_validation.rs:343-463 | the loop over the expected fields threads the cache in order and stops at the first failure |
| BtfValidation.Validator.ResolveLoop | src/btf_validation.rs:57-62 | the loop follows references to the resolved type |
| BtfLayout.ValidCompositePasses | src/btf_validation.rs:266-269 | what the plain recursion accepts passes with every cache |
| BtfLayout.PassingTypeIsValid | src/btf_validation.rs:266-304 | when no registered name has two verdicts, what passes with a justified cache is accepted by the plain recursion, and the cache stays justified |
| BtfLayout.CacheExact | src/btf_validation.rs:260-305 | the uncached recursion accepts if and only if the memoised validator does from the empty cache and no registered name is valid at one of its BTF types and invalid at another |
| BtfLayout.CacheIsSound | src/btf_validation.rs:260-305 | when every registered name reached means one BTF type, the memoised validator succeeds if and only if the uncached one does |
| BtfLayout.CacheHidesMismatch | src/btf_validation.rs:266-269 | two fields of one Rust type name and two BTF types: the cached validator accepts what the plain recursion refuses |
| BtfLayout.CountsAgree | src/btf_validation.rs:553-591 | for a registered element type the BTF element count is the Rust count although they are never compared |
| BtfLayout.CountsAgreeIff | src/btf_validation.rs:580-591 | for any field that passes, of any element type, the BTF element count is the Rust count if and only if the element sizes are equal |
| BtfLayout.PrimitiveCountsDiffer | src/btf_validation.rs:285-289 | a primitive array of four two-byte elements is accepted for eight bytes |
| BtfLayout.LeafAgrees | src/btf_validation.rs:368-456 | every leaf of an accepted type has the same size in BTF and the same place up to the slack of its members |
| BtfLayout.ValidatedLayout | src/btf_validation.rs:253-305 | after a cached validation in which every registered name means one BTF type, every leaf below every field, through structs, unions and elements, has the same size and, up to the bits members are off byte boundaries, the same absolute offset; an array of a type nobody validates is one leaf |
| BtfLayout.BitFieldPasses | src/btf_validation.rs:490-496 | a bit field three bits into the expected byte is accepted |
| BtfTables.DescriptorValidates | src/bpf.rs:81-303 | the Rust tables validate against the C structures, and every registered name in them means one BTF type |
| BtfTables.DescriptorLayout | src/bpf/hid_report_descriptor_helpers.h:30-78 | every leaf of the Rust descriptor, through reports, fields, usages and collections, has exactly the C structure's offset and size |
| BtfTables.BytesAndFlags | src/bpf.rs:136-160 | the name `u8` means both a byte and the structure of flags |
| BtfTables.CollectionPageAt | src/bpf/hid_report_descriptor_helpers.h:30-78 | for instance the usage page of any collection of any field of any report of any kind: its byte as a sum of element sizes, in Rust and in C |
| ReportItems.RoundTripIff | src/bpf/hid_report_helpers.h:36-140 | a tree of macros that compiles expands to bytes that parse back to the same items in the same nesting, each value modulo its width, every opener with its own closer (HID section 6.2.2.2), if and only if no `Unit_i16` or `Unit_i32` occurs in it |
| ReportItems.RoundTrip | src/bpf/hid_report_helpers.h:36-140 | the first half of that |
| ReportItems.MacroBytes | src/bpf/hid_report_helpers.h:36-140 | the bytes of each macro of each width: the prefix of its item (HID sections 6.2.2.4, 6.2.2.7 and 6.2.2.8) and its value's bytes, lowest first |
| ReportItems.BracketBytes | src/bpf/hid_report_helpers.h:63-70 | Collection and PushPop put 0xa1 and 0xc0, or 0xa4 and 0xb4, around their content |
| ReportItems.MacroCompiles | src/bpf/hid_report_helpers.h:36-40 | which widths exist and which values they compile for |
| ReportItems.SplitExpanded | src/bpf/hid_report_helpers.h:43-44 | whatever bytes follow, an expansion splits into exactly its items |
| ReportItems.ExpandInjective | src/bpf/hid_report_helpers.h:36-140 | equal bytes mean equal items up to the widths of their values |
| ReportItems.WideUnitBreaks | src/bpf/hid_report_helpers.h:137-138 | with one anywhere, at any depth and with any value, the bytes do not parse back |
| ReportItems.WideUnitSwallows | src/bpf/hid_report_helpers.h:137-138 | in front of any items, with any value, its bytes never split into one item and those items |
| ReportLayout.CompiledLayout | src/bpf/hid_report_helpers.h:46-70 | laying out the expanded bytes gives what interpreting the macro tree gives (HID sections 6.2.2.4 to 6.2.2.8) |
| ReportLayout.UsagesJoin | src/bpf/hid_report_helpers.h:120-124 | a short usage belongs to the last page declared before its main item, one of four bytes to its own (HID section 6.2.2.8) |
| ReportLayout.LengthenExact | src/bpf/hid_report_helpers.h:82-95 | a main item lengthens its own report by its bits and no other |
| ReportLayout.StackRestored | src/bpf/hid_report_helpers.h:67-70 | macros leave the stack of global states as they found it |
| ReportLayout.PushPopRestoresGlobals | src/bpf/hid_report_helpers.h:70-70 | PushPop restores every global item, whatever it encloses |
| VendorReports.VendorReportLength | src/bpf/hid_report_helpers.h:142-177 | any number of FixedSizeVendorReports, sizes 1 to 256, after items without report 0xac give it exactly 1 + sum(n - 1) bytes, at least each n, and leave length and fields of every other report alone |
| VendorReports.VendorReportExact | src/bpf/hid_report_helpers.h:169-177 | one macro compiles for -127 to 256 and gives the stated size exactly from 1 on |
| VendorReports.OneVendorReport | src/bpf/hid_report_helpers.h:169-177 | from any state the macro adds its bytes to report 0xac only |
| VendorReports.VendorReportBytes | src/bpf/hid_report_helpers.h:169-177 | the sixteen bytes the macro expands to |
| FieldExtraction.ExtractBits | src/bpf/hid_bpf_helpers.h:412-466 | for every buffer, size and range the result is floor(N / 2^start) mod 2^width, N the little-endian number of the whole buffer, when the width is 1 to 32 and the last byte is inside, else 0; every index is inside the buffer and every shift below 64 |
| FieldExtraction.FieldBitByBit | src/bpf/hid_bpf_helpers.h:412-466 | for every range: with 1 to 32 bits and its last byte inside, the value has exactly the report's bits, lowest first; any other range reads as 0 |
| FieldExtraction.FieldInBytes | src/bpf/hid_bpf_helpers.h:452-465 | a field's value depends on at most five bytes, those it touches |
| FieldExtraction.AlignedField | src/bpf/hid_bpf_helpers.h:423-450 | an aligned field of whole bytes is the number those bytes spell, the value of the fast paths |
| FieldExtraction.GeneralCase | src/bpf/hid_bpf_helpers.h:452-465 | shifting and masking the accumulated bytes gives the field's value, fast path or not |
| FieldExtraction.MaskAndTruncate | src/bpf/hid_bpf_helpers.h:421-465 | the sign-extended int mask and the final truncation keep exactly the field's bits, also for 32 |
| FieldExtraction.BitOfField | src/bpf/hid_bpf_helpers.h:412-466 | bit i of a field is bit (start + i) mod 8 of byte (start + i) / 8 (HID section 5.8) |
| FieldReadout.OneBit | src/bpf/hid_bpf_helpers.h:412-466 | a one-bit field is that bit |
| RdescConversion.ConvertDescriptor | src/bpf.rs:318-342 | the C structure: clamped counts, converted reports in order, zeroes behind them |
| RdescConversion.ConvertReport | src/bpf.rs:269-290 | the same for one report's fields |
| RdescConversion.ConvertField | src/bpf.rs:175-245 | the same for one field of each kind with its collections |
| RdescConversion.DescriptorReads | src/bpf.rs:91-342 | over everything the iteration macros visit, each C member reads its own parsed attribute: report id and size, field type, page, usage or usage range, logical limits, flags, bit range, and each collection's page, id and type |
| RdescConversion.ZeroBehind | src/bpf.rs:257-316 | behind the counts every report, field and collection is zero |
| RdescConversion.ForEachArray | src/bpf/hid_bpf_helpers.h:473-497 | the macro visits the first num elements in order, none when num exceeds the array |
| RdescConversion.VisitedReports | src/bpf/hid_bpf_helpers.h:498-515 | over a converted descriptor the macros visit exactly the first 16 reports of each kind, converted, in order |
| RdescConversion.VisitedFields | src/bpf/hid_bpf_helpers.h:516-520 | exactly the first 64 fields of a report |
| RdescConversion.VisitedCollections | src/bpf/hid_bpf_helpers.h:521-523 | exactly the first 32 collections of a field |
| RdescConversion.FlagsRoundTrip | src/bpf.rs:164-172 | every attribute is read back from its own bit; the spare bit is clear |
| RdescConversion.NarrowedFieldReads | src/bpf.rs:182-184 | below bit 65536 the converted field extracts what the parsed field describes |
| RdescConversion.NarrowingExact | src/bpf.rs:182-184 | for every range, narrowing keeps the value in every report if and only if the range is readable and ends below bit 65536, or is not readable and does not become so |
| Kamvas16Descriptor.PenLayout | src/bpf/stable/0010-Huion__Kamvas16Gen3.bpf.c:391-479 | the bytes of the descriptor put X in bits 16 to 40, Y in 40 to 56, pressure in 56 to 72 and the tilts in 80 to 96, with their logical and physical limits, exponents and units |
| Kamvas16Descriptor.PenSwitchLayout | src/bpf/stable/0010-Huion__Kamvas16Gen3.bpf.c:391-430 | and tip, barrel switches, third button and in-range in bits 8 to 12 and 15 |
| Kamvas16Descriptor.PadLayout | src/bpf/stable/0010-Huion__Kamvas16Gen3.bpf.c:480-552 | and the pad's eight buttons in bits 32 to 40, its wheels in 40 to 56 |
| Kamvas16Descriptor.ReportLengths | src/bpf/stable/0010-Huion__Kamvas16Gen3.bpf.c:539-550 | the longest described report is as long as the raw one |
| KamvasEvents.Handler.FixEvent | src/bpf/stable/0010-Huion__Kamvas16Gen3.bpf.c:598-701 | the whole new buffer, global and return value for every buffer, size and held state, also for the Kamvas 13 |
| KamvasEvents.Branches | src/bpf/stable/0010-Huion__Kamvas16Gen3.bpf.c:598-701 | by raw bytes: which reports are pen, button and wheel reports of either model, what each becomes, that pen reports and all others return 0 and pad reports 7, and that only button reports change what is held |
| KamvasEvents.PenReadout | src/bpf/stable/0010-Huion__Kamvas16Gen3.bpf.c:614-632 | read with the new descriptor, a rewritten pen report gives X = d2 + 256 d3 + 65536 d8, the original Y, pressure and X tilt, and Y tilt negated except -128; all other bytes keep their place |
| KamvasEvents.PenSwitchReadout | src/bpf/stable/0010-Huion__Kamvas16Gen3.bpf.c:614-640 | and its switches are the low four bits and the highest bit of the raw second byte |
| KamvasEvents.PadReportsInRun | src/bpf/stable/0010-Huion__Kamvas13Gen3.bpf.c:1283-1372 | over every history of either model, each button and wheel report becomes a pad report of seven bytes that carries the first nonzero raw mask (byte 4 of a button report) since the last zero one, moves the wheel the raw report names by 1 or -1 and no other, and clears the unused bytes |
| KamvasEvents.HeldIsFirstSinceRelease | src/bpf/stable/0010-Huion__Kamvas16Gen3.bpf.c:667-687 | the global is that mask, or 0 |
| KamvasEvents.NeverFromButtonToButton | src/bpf/stable/0010-Huion__Kamvas16Gen3.bpf.c:667-687 | between pad reports with different nonzero masks there is one with none |
| KamvasEvents.PadReadout | src/bpf/stable/0010-Huion__Kamvas16Gen3.bpf.c:480-700 | read with the new descriptor, button i of every pad report of a history is bit i - 1 of that mask, and the wheels are the moves |
| KeydialDescriptor.PadLayout | src/bpf/stable/0010-Huion__KeydialK20.bpf.c:283-342 | the bytes of the descriptor put nineteen buttons in bits 32 to 51 and the wheel in 64 to 72 |
| KeydialDescriptor.ReportLengths | src/bpf/stable/0010-Huion__KeydialK20.bpf.c:337-341 | the three padding macros together describe 16 bytes, the pad report 9 |
| KeydialEvents.Handler.MapKeys | src/bpf/stable/0010-Huion__KeydialK20.bpf.c:465-491 | the loops compute the specified mask, clear the keys before the first zero and leave every other byte alone |
| KeydialEvents.Handler.FixEvents | src/bpf/stable/0010-Huion__KeydialK20.bpf.c:388-509 | the whole new buffer, global and return value for every buffer and held state |
| KeydialEvents.Branches | src/bpf/stable/0010-Huion__KeydialK20.bpf.c:388-509 | by raw bytes: vendor and keyboard reports become reports of nine bytes, everything else returns 0 unchanged, and only button masks are remembered |
| KeydialEvents.KeyboardButtonsExact | src/bpf/stable/0010-Huion__KeydialK20.bpf.c:434-491 | bit b of the mask is set if and only if b's modifier is down or b's key code, one of those listed, is among the keys before the first zero |
| KeydialEvents.KeyboardReadout | src/bpf/stable/0010-Huion__KeydialK20.bpf.c:434-506 | read with the new descriptor, a keyboard report shows exactly those buttons and no wheel |
| KeydialEvents.VendorReadout | src/bpf/stable/0010-Huion__KeydialK20.bpf.c:397-432 | over every history button b of a vendor report is bit b mod 8 of byte 4 + b / 8 of the latest raw button report, and the wheel moves as the report says |
| DialEvents.Handler.FixEvents | src/bpf/stable/0010-Huion__Dial-2.bpf.c:487-613 | the whole new buffer, both variables and the return value for every buffer and state |
| DialEvents.Branches | src/bpf/stable/0010-Huion__Dial-2.bpf.c:487-613 | by raw bytes: pad, dial and vendor reports return 8, 6 and 7, anything else returns 0 and changes nothing |
| DialEvents.ButtonFactors | src/bpf/stable/0010-Huion__Dial-2.bpf.c:491-556 | over every interleaving the shared byte is two machines: bit i below 6 is set if and only if the latest pad report has shortcut i's key bytes, bit 6 if and only if the latest dial report has its button down, bit 7 never |
| DialDescriptor.PadLayout | src/bpf/stable/0010-Huion__Dial-2.bpf.c:211-258 | the bytes of the firmware pad's descriptor put the wheel in bits 32 to 40 and seven buttons in bits 40 to 47; the eighth declared button has no field |
| DialDescriptor.ReportLengths | src/bpf/stable/0010-Huion__Dial-2.bpf.c:255-257 | the padding report takes the original nine bytes, the pad report six |
| DialEvents.FirmwareReports | src/bpf/stable/0010-Huion__Dial-2.bpf.c:533-556 | every firmware report passes that byte on, with the dial's low byte or 0 |
| DialEvents.FirmwareReadout | src/bpf/stable/0010-Huion__Dial-2.bpf.c:491-556 | read with the new descriptor, every firmware report of every history shows buttons 1 to 6 as the latest pad report and button 7 as the latest dial report left them, never button 8, and the wheel's move |
| DialEvents.VendorReports | src/bpf/stable/0010-Huion__Dial-2.bpf.c:560-609 | vendor reports pass on the latest raw vendor buttons, whatever came between, and move the dial the raw report names and no other |
| ProgramSelection.SortByStem | src/hidudev.rs:152-188 | the map, the in-place sorts and the sorted keys give one sorted group for each stem |
| ProgramSelection.GroupingCorrect | src/hidudev.rs:145-188 | the groups are a permutation of the input, each of one lower-cased stem, strictly ascending by stem, each descending by lower-cased name and stable |
| ProgramSelection.StableSortUnique | src/hidudev.rs:171-180 | only one arrangement is descending and keeps equal names in order, so the sort is determined by its documented result |
| ProgramSelection.LoadBpfFiles | src/hidudev.rs:225-245 | what is tried and what is loaded, in order, with the early exit of each group |
| ProgramSelection.GroupsByBase | src/hidudev.rs:155-188 | in terms of file names: two files are in one group if and only if what follows their first dashes, or the whole name without one, agrees in lower case; in each group lower-cased names descend |
| ProgramSelection.LoadedByBase | src/hidudev.rs:225-245 | what is loaded strictly ascends by those lower-cased names without priority, each with the greatest name of its rivals that load, and one whenever one loads |
| ProgramSelection.OnePriorityLoads | src/hidudev.rs:145-188 | of two priorities of one program that both load, only the one with the greater lower-cased name may be loaded |
| ProgramSelection.LeqIff | src/hidudev.rs:179-187 | names compare by prefix or by the first differing character |
| ProgramSelection.TriedExact | src/hidudev.rs:225-245 | what is tried is, group by group, everything up to the first file that loads |
| ProgramSelection.SelectionCorrect | src/hidudev.rs:225-245 | what is loaded has strictly ascending stems, so at most one file for each, is the highest-named that loads, and one is loaded whenever one loads |
| ProgramSelection.OrderIndependentIff | src/hidudev.rs:152-188 | the groups are the same for every input order if and only if no two different paths share stem and lower-cased name |
| ProgramSelection.LoadedOrderIndependentIff | src/hidudev.rs:225-245 | for given load results the loaded list is the same for every input order if and only if in every stem only one path carries the highest loading name |
| PropertyInjection.EffectiveValue | src/bpf.rs:696-708 | the value of a name is its first extra property, else its first device property |
| PropertyInjection.FindIff | src/bpf.rs:624-626 | a property is found if and only if one has the name, and then the first |
| PropertyInjection.InjectInArray | src/bpf.rs:602-647 | every value of every map whose name ends in the array's has the properties in it, and all other maps stay as they are |
| PropertyInjection.InjectSection | src/bpf.rs:624-640 | the whole new section for all variables and properties; without an update it is the old one |
| PropertyInjection.EndsWithIff | src/bpf.rs:613-615 | the maps of a section are those whose name is a prefix and then the section's |
| PropertyInjection.WrittenByte | src/bpf.rs:624-632 | the first property of a variable's name, if shorter than the variable, fills its first bytes, and no other byte changes |
| PropertyInjection.InjectionCommutes | src/bpf.rs:624-640 | for disjoint variables the order of the writes does not matter |
| PropertyInjection.InjectedTextIff | src/bpf.rs:624-632 | an injected variable reads as the value's text if and only if the value has no NUL and the byte behind it was 0 |
| PropertyInjection.InjectToMap | src/bpf.rs:673-682 | the value and zeroes behind it, or the old contents when it does not fit |
| PropertyInjection.InjectToMaps | src/bpf.rs:649-694 | the walk over the property maps: every map's new contents, listed or not, with a property or without |
| PropertyInjection.NamedMapHolds | src/bpf.rs:649-694 | the map "UDEV_PROP_" with a listed name holds that name's first property and zeroes when it is shorter than the map, else what it held |
| PropertyInjection.OtherMapKept | src/bpf.rs:663-668 | maps of other names keep what they held |
| PropertyInjection.ReadMapIff | src/bpf.rs:472-491 | a map reads as a value if and only if that is not empty, valid, holds no NUL and ends at the first NUL or the end |
| PropertyInjection.MapRoundTripIff | src/bpf.rs:472-491 | a fitting value is read back if and only if it is not empty and has no NUL |
| Modaliases.RoundTripIff | src/modalias.rs:285-341 | printing and parsing returns the same modalias if and only if bus, group, vid and pid are all nonzero; otherwise the text is rejected |
| Modaliases.PrefixIgnored | src/modalias.rs:289-290 | any number of "hid:" prefixes is ignored |
| Modaliases.PrintedText | src/modalias.rs:322-341 | the printed text, part by part, with a star for each wildcard |
| Modaliases.ParsedText | src/modalias.rs:288-319 | what a text of 28 characters parses to from its four parts: bus codes 0 to 6 and 0x10 to 0x20 and group codes 0 to 4 and 0x100 to 0x105 are accepted, others panic, what is no number is rejected, in this order, and no number is too large |
| Modaliases.OtherLengths | src/modalias.rs:291-296 | without its prefix a text of another length is rejected |
| Modaliases.LastDigitCounts | src/modalias.rs:306-311 | parts are numbers to the base 16 with digits of either case |
| Modaliases.OnlyDigits | src/modalias.rs:306-311 | and of nothing else |
| Modaliases.PartIsNumber | src/modalias.rs:306-311 | with or without one plus sign, and not empty |
| Modaliases.PrintsBackIff | src/modalias.rs:285-341 | a text that parses is printed back, without its prefixes, if and only if its letters are b, g, v and p, its digits are upper case without a plus sign, and no part is zero |
| Modaliases.PlusSignPasses | src/modalias.rs:306-311 | every printed modalias without a wildcard has a second text that parses to it, with a plus sign for the leading zero of its bus |
| Sysnames.RoundTripIff | src/bpf.rs:867-880 | a device name is restored from its directory name if and only if it is well formed |
| Sysnames.ToBpffsAt | src/bpf.rs:867-871 | colons and dots become underscores, nothing else changes |
| Sysnames.FourParts | src/bpf.rs:873-880 | the first three underscores become colon, colon and dot and the rest is kept |
| Sysnames.GlueSplit | src/bpf.rs:873-880 | splitting the directory name and putting the separators back rewrites every separator by its number |

## Left out

- Device discovery, sysfs, bpffs, process launching, the command line, JSON and udev-rule output: input and output.
- libbpf, libbpf-rs and hidreport: BTF is an input tree and the parsed descriptor an input value.
- Cycles in BTF: a type that reaches itself, which takes a pointer, is no finite tree.
- BtfValidation.ResolveIff: whatever type the library leads on from is a `Ref`; the kinds are not told apart, here or in the code.
- BtfValidation.Validator.ResolveLoop: the same.
- Overflow of `usize` in the size of a BTF array.
- Whitespace other than the ASCII blanks around Rust type names, and modalias text that is not ASCII.
- Signs of logical and physical limits: the layout keeps their raw data, and HID strings, designators and delimiters are skipped. Collections clear the usages; which collection a field lies in is not kept.
- The generated usage tables: usages appear as numbers.
- `hid_bpf_async_set_delayed_cb`, the `HID_BPF_ASYNC_FUN` wrapper and the stored name: a lookup and two stores that no transition reads.
- Cancelled or deleted timers, and a timer callback delayed between expiry and queuing its work: `TimerFires` is one step.
- What a callback does besides claiming and starting slots: nothing else of it touches the map.
- Fairness: a pending start has a continuation that serves it, but no scheduler is modelled.
- The descriptor of the Kamvas 13, the Dial 2's pen and vendor descriptors, and the Keydial's vendor descriptor, which differs from the modelled one in its padding only.
- The descriptor fixups that copy these arrays into place, and all `probe` functions: one comparison each.
- The other devices: the Inspiroy tablets are simpler variants of the Dial 2 and the Keydial; the rest are small patches.
- `find_first_matching_file` and `find_named_objfiles`: a filter over file existence.
- ProgramSelection.SortByStem: the library's sorts are modelled by their documented result, `to_lowercase` is an arbitrary function, and paths without a file name, for which the code panics, do not occur.
- PropertyInjection.InjectInArray: variables lie inside each value as BTF says, where the code panics otherwise; map updates succeed.
- `from_btf_type_id` of a modalias: it copies four array lengths.
- Modaliases.Modalias: buses and groups are their codes.
