# The ahead-of-time output pipeline of ART, modelled and proved

ART's `dex2oat` writes three things: the oat file (dex files, class records, tables and machine code), the ELF file
around it, and the boot image. Each writer first lays out everything and then writes it in a second pass that
recognises its place only by comparing offsets. This project models these writers, the readers of the runtime that
depend on them, and the two small concurrent primitives beside them. It proves that layout, output and readers fit
together for every input, and for concurrency over every interleaving.

## The parts

- **Oat code** (`CompiledMethods`, `DedupeMap`, `RelativePatcher`, `OatCode`, `OatCodeAgreement`, `OatCodeTheorem`,
  `OatVisitors`, `OatWriteVisitor`, `OatRecords`, `OatThunks`, `CodePatching`, `CallReach`, `CallReachLimits`,
  `CallEncoding`, `LinkedCalls`): deduplicated code with headers and branch thunks, and the patched words down to the
  instructions. `OatCode` specifies the two passes as functions; the visitor classes are proved to compute them. The
  Write pass keeps no map. The main result is the exact condition under which its test on offsets is right.
- **Oat tables and files** (`OatMaps`, `OatClassTable`, `OatFile`, `OatLayout`, `OatParts`, `OatWholeFile`,
  `OatReadBack`): the three kinds of deduplicated tables, class records, and the whole file with its size counters.
  `OatReadBack` reads the finished bytes as the runtime does, from the dex file records down to code and tables.
- **Patch lists** (`PatchList`, `WideRelocation`): ULEB128, delta lists, and relocation in place in 32-bit and 64-bit
  files.
- **ELF** (`ElfHash`, `ElfLayout`, `ElfPages`, `Patching`, `Unwind`, `UnwindCie`, `UnwindFile`): hash table against the
  documented lookup, sections, segments and pages, address patching, and the unwind search table in the laid out file.
- **Indexes and streams** (`GcMap`, `SrcMap`, `Streams`).
- **Concurrency** (`Barrier`, `BarrierAnswers`, `BarrierReuse`, `SwapMutex`): step systems over half-word and futex
  steps. The barrier includes the steps of its condition variable and of its mutex, whose unlock wakes one sleeper.
- **Image** (`ImageSlots`, `ImageHeap`, `ImageWalk`, `ImageLayout`, `ImageDexCache`, `ImageOrder`, `ImageCopy`,
  `ImageWhole`): slots in lock words, the recursive walk over a cyclic heap, prefix sums, prepared arrays, sections,
  copying with fix-up, and all of it together.

`Align`, `Bits`, `Bytes` and `Options` hold arithmetic, bitwise operations on numbers, little-endian codecs and the
option type.

## Where the code does not do what one would expect

Each of these is a lemma with the input, and a theorem with the exact condition over all inputs or runs.

- A one-byte Thumb2 method repeated before any other new code is taken for new code by the Write pass
  (`TinyThumbExample`, `TheoremAgreeIff`). The source only checks that code is not empty.
- A thunk exactly at the maximum displacement is reserved with `<=` and used with `<` (`LimitCallFails`,
  `TheoremCallsReach`).
- Calls to methods that are not compiled can be left without a thunk at the end of the code (`FarCallFails`,
  `TheoremLeftOverIff`).
- With 64-bit pointers the GC map reader sign-extends 4-byte offsets and never finds those with bit 31 set
  (`HighOffsetNeverFound`, `ReadsBackIff`).
- A source map drops a push that repeats the last value even if another push for the same offset follows
  (`HiddenExample`, `TheoremAgreesIff`).
- A write larger than the buffer ignores a failed flush (`LostExample`, `TheoremAgreesThroughoutIff`,
  `TheoremRelativeRunIff`).
- The loader of a 64-bit file adds eight bytes to the 4-byte addresses in code, so that an address that leaves 32 bits
  changes the word behind it (`CarryExample`, `TheoremWideIff`).
- A caller of the barrier misses its wake-up if the futex word goes round 2^32 before it sleeps (`LapExample`,
  `TheoremNoLostWakeUp`).
- A barrier used again too early puts a woken caller back to sleep (`ReuseHazard`, `TheoremWaitsAgainIff`).

That the unwind header touches the frame, which the source checks, rests on the size of the frame being a multiple of
4 (`TheoremNoGapIff`, `HeaderBehindFrame`).

The comment on the file layout in `oat_writer.h` puts vmap tables in front of mapping tables; the code lays out GC
maps, mapping tables and then vmap tables. The model follows the code.

## Model

| member | source | states |
|---|---|---|
| CompiledMethods.PatchOrder | mini-tracing-art6/compiler/compiled_method.h:291-305 | `<` on linker patches is a strict total order, and not-less both ways is exactly `==` and exactly equality of all fields |
| CompiledMethods.KeyOrder | mini-tracing-art6/compiler/oat_writer.cc:502-531 | the comparator of the code deduplication map is irreflexive, asymmetric and transitive |
| CompiledMethods.KeyEquivalence | mini-tracing-art6/compiler/oat_writer.cc:502-531 | two methods are equivalent under the comparator if and only if code, mapping table, vmap table, GC map and the whole patch list agree |
| CompiledMethods.CompareKeys | mini-tracing-art6/compiler/oat_writer.cc:502-531 | the comparator with its loop over the patches decides the lexicographic order that the two lemmas above speak of |
| DedupeMap.LowerBound | mini-tracing-art6/compiler/oat_writer.cc:382-395 | finds the first entry that is not less than the method |
| DedupeMap.LowerBoundFinds | mini-tracing-art6/compiler/oat_writer.cc:382-395 | in a sorted map the key is present if and only if the method is not less than the entry at the lower bound, and then that entry holds its offset |
| DedupeMap.InsertKeeps | mini-tracing-art6/compiler/oat_writer.cc:382-395 | inserting at the lower bound keeps the map sorted and adds exactly one binding |
| RelativePatcher.ReserveSpaceProcessPatches | mini-tracing-art6/compiler/linker/arm/relative_patcher_arm_base.cc:139-179 | the loop over waiting calls leaves exactly the suffix of the queue that the recursive specification leaves, and asks for a thunk exactly when it does |
| RelativePatcher.ReserveSpaceBefore | mini-tracing-art6/compiler/linker/arm/relative_patcher_arm_base.cc:83-114 | thunk locations, queue and offset after the space in front of a method is reserved |
| RelativePatcher.ReserveSpaceAfter | mini-tracing-art6/compiler/linker/arm/relative_patcher_arm_base.cc:32-45 | thunk locations, queue and offset after the last method |
| RelativePatcher.PatchCode | mini-tracing-art6/compiler/oat_writer.cc:732-759 | every word that stands alone among the patches becomes what its patch makes of the old word at its place in the file, and every byte outside the patched words is copied |
| CodePatching.TheoremPatchedCode | mini-tracing-art6/compiler/oat_writer.cc:732-759 | the same of the function that the Write pass is specified with, for any code and any patches |
| CallEncoding.TheoremBlThumb | mini-tracing-art6/compiler/linker/arm/relative_patcher_thumb2.cc:31-55 | the Thumb2 BL made for any displacement is a BL, and the processor decodes that displacement from it if and only if it is even and has 25 bits |
| CallEncoding.HalvesSwap | mini-tracing-art6/compiler/linker/arm/relative_patcher_thumb2.cc:91-110 | storing the two halves of a Thumb instruction high half first and reading it that way gives it back |
| CallEncoding.TheoremBl64 | mini-tracing-art6/compiler/linker/arm64/relative_patcher_arm64.cc:133-149 | the same for the Arm64 BL: if and only if the displacement is a multiple of four of 28 bits |
| CallEncoding.TheoremRel32 | mini-tracing-art6/compiler/linker/x86/relative_patcher_x86_base.cc:37-46 | the x86 word added to the address behind it is the target modulo 2^32, for any two offsets |
| CallEncoding.TheoremMovPair | mini-tracing-art6/compiler/linker/arm/relative_patcher_thumb2.cc:57-75 | a patched MOVW and MOVT keep their register, and what they load, added to the program counter, is the dex cache element |
| CallEncoding.TheoremAdrpPair | mini-tracing-art6/compiler/linker/arm64/relative_patcher_arm64.cc:151-255 | a patched ADRP and LDR keep their registers and together read the target if and only if the target is aligned to the size read |
| OatVisitors.InitCodeVisitor.NewQuickCodeOffset | mini-tracing-art6/compiler/oat_writer.cc:533-542 | thunk space, alignment, header and code are reserved and the offset includes the PC delta |
| OatVisitors.InitCodeVisitor.CodeOffset | mini-tracing-art6/compiler/oat_writer.cc:382-395 | a method takes over the offset of equal code, or gets a new place and a new binding; the sorted map stays sorted |
| OatVisitors.InitCodeVisitor.VisitMethod | mini-tracing-art6/compiler/oat_writer.cc:367-481 | one visit is one step of the Init pass on offset, dedupe map, patcher, method offsets and the slot |
| OatVisitors.InitCodeVisitor.VisitClass | mini-tracing-art6/compiler/oat_writer.cc:350-550 | visiting a class extends the run by exactly its compiled methods and fills exactly its slots |
| OatVisitors.InitCodeVisitor.Run | mini-tracing-art6/compiler/oat_writer.cc:1108-1125 | the visitor over all classes computes the whole Init pass, and the slots it leaves are the placements in order |
| OatWriteVisitor.WriteCodeVisitor.WriteCodeAlignment | mini-tracing-art6/compiler/oat_writer.cc:1380-1390 | zero padding up to the alignment, counted |
| OatWriteVisitor.WriteCodeVisitor.WriteNextThunk | mini-tracing-art6/compiler/linker/arm/relative_patcher_arm_base.cc:47-70 | the next thunk is written exactly if the aligned offset is its location |
| OatWriteVisitor.WriteCodeVisitor.VisitMethod | mini-tracing-art6/compiler/oat_writer.cc:682-775 | one visit is one step of the Write pass; the counters add up to the bytes put out |
| OatWriteVisitor.WriteCodeVisitor.Run | mini-tracing-art6/compiler/oat_writer.cc:1357-1378 | the visitor over all classes computes the whole Write pass with the last thunk |
| OatWriteVisitor.SlotsDriveWritePass | mini-tracing-art6/compiler/oat_writer.cc:639-775 | the slots alone determine the Write pass: visiting the filled classes is the Write pass on what the Init pass placed |
| OatWriteVisitor.LayOutAndWrite | mini-tracing-art6/compiler/oat_writer.cc:1108-1125 | for any classes: both passes run one after the other; bytes and end are those of the Write pass, counters add up, and with no tiny repeat everything stands where the Init pass put it |
| OatCodeTheorem.TheoremPassesAgree | mini-tracing-art6/compiler/oat_writer.cc:682-775 | without tiny repeats: the test on offsets fires exactly at first occurrences, every header and code blob stands at its recorded offset, all thunks are written, both passes end at the same offset |
| OatCodeTheorem.TheoremAgreeIff | mini-tracing-art6/compiler/oat_writer.cc:700-701 | for non-empty code the passes agree if and only if no method whose code is no longer than the PC delta is repeated before any other new code |
| OatCodeTheorem.LongCodeAgrees | mini-tracing-art6/compiler/oat_writer.cc:682-775 | the passes agree for every list of methods with code longer than the PC delta |
| OatCodeTheorem.TinyThumbExample | mini-tracing-art6/compiler/oat_writer.cc:696-701 | two methods made of the same single Thumb byte pass the size check of the source and make the passes disagree |
| OatRecords.TheoremRangesDisjoint | mini-tracing-art6/compiler/oat_writer.cc:452-466 | code ranges of methods that are not repeated increase strictly, with at least a header between them |
| OatRecords.TheoremRepeatsShareRange | mini-tracing-art6/compiler/oat_writer.cc:452-466 | every repeated method has exactly the range of an earlier method with the same key that is not itself a repeat |
| OatRecords.TheoremSharedOffsets | mini-tracing-art6/compiler/oat_writer.cc:382-395 | two methods share a code offset if and only if code is shared and their keys are equal |
| OatRecords.TheoremPatchLocations | mini-tracing-art6/compiler/oat_writer.cc:437-450 | the absolute patch locations of all distinct code are encodable and reading their encoding gives exactly them back; which these are is said by the rows below |
| OatRecords.RecordPatchLocations | mini-tracing-art6/compiler/oat_writer.cc:441-449 | the loop over the patches of a method appends the locations of those that are not PC-relative, in order |
| OatRecords.TheoremLocationsExact | mini-tracing-art6/compiler/oat_writer.cc:437-450 | in every run a location is listed if and only if a method that is not repeated has a method, call or type patch there |
| OatRecords.TheoremLocationsCount | mini-tracing-art6/compiler/oat_writer.cc:437-450 | there are as many locations as such patches |
| OatRecords.TheoremLoaderMovesAddresses | mini-tracing-art6/runtime/elf_file.cc:1440-1451 | a section relocated by the list of its file has every address in its code moved by the delta and every other byte unchanged |
| OatThunks.TheoremCodeAligned | mini-tracing-art6/compiler/compiled_method.cc:66-90 | in every run every header starts at the alignment of the instruction set, the code lies 28 bytes behind it, and the recorded offset has the Thumb bit exactly on Thumb2 |
| OatThunks.TheoremThunkNeeded | mini-tracing-art6/compiler/linker/arm/relative_patcher_arm_base.cc:83-179 | in every run a thunk is reserved in front of a method only if a call waits that cannot wait longer: its target is out of range, here or where it was placed, or is unknown and the next place for a thunk would be out of range; and no earlier thunk is in range of it if the target is not this method |
| OatThunks.TheoremThunksStand | mini-tracing-art6/compiler/linker/arm/relative_patcher_arm_base.cc:47-70 | every thunk reserved stands, byte for byte, at its location in the output |
| CallReach.ReachesIff | mini-tracing-art6/compiler/linker/arm/relative_patcher_arm_base.cc:116-137 | the displacement chosen for a call is in range if and only if the target, the next thunk (strictly below the maximum) or the previous thunk is in range |
| CallReach.LandsOnTargetOrThunk | mini-tracing-art6/compiler/linker/arm/relative_patcher_arm_base.cc:116-137 | a displacement modulo 2^32 always leads to the target or to a thunk |
| CallReach.TheoremCallsReach | mini-tracing-art6/compiler/linker/arm/relative_patcher_arm_base.cc:83-179 | over whole runs: the displacement of a relative call can be encoded if and only if its target or the last thunk in front of it is in range, or it is neither left over nor exactly at the maximum from its next thunk; `written` is what the Write pass has behind it |
| CallReach.TheoremLeftOverIff | mini-tracing-art6/compiler/linker/arm/relative_patcher_arm_base.cc:32-45 | over whole runs: a call is left over if and only if, when the code ends, it waits at or behind the first waiting call without target or thunk in range, and the target of that one is not compiled |
| CallReach.TheoremNothingLeftOver | mini-tracing-art6/compiler/linker/arm/relative_patcher_arm_base.cc:32-45 | no call is left waiting if every call goes to a method compiled into the file |
| LinkedCalls.TheoremCallWord | mini-tracing-art6/compiler/linker/arm/relative_patcher_arm_base.cc:116-137 | for a displacement in range the instruction made of it is a call, and the processor goes exactly where the displacement leads |
| LinkedCalls.TheoremRangeIsEncodable | mini-tracing-art6/compiler/linker/arm/relative_patcher_thumb2.h:44-50 | the range that the patcher allows is exactly what the call instruction can encode, for both instruction sets |
| LinkedCalls.TheoremCallInFile | mini-tracing-art6/compiler/oat_writer.cc:735-741 | in the finished file every relative call that can reach takes the processor to the code of the first method of its name, to the trampoline if that is not compiled, or to a thunk |
| CallReachLimits.LimitCallFails | mini-tracing-art6/compiler/linker/arm/relative_patcher_arm_base.cc:116-137 | a run of five Thumb2 methods in which a call has a thunk exactly at the maximum displacement and is not routed to it |
| CallReachLimits.FarCallFails | mini-tracing-art6/compiler/linker/arm/relative_patcher_arm_base.cc:32-45 | a run with 16 MiB of code and then a call to a method without code: no thunk is reserved and no trampoline in front of the code is in range |
| CallReachLimits.LimitRunExists | mini-tracing-art6/compiler/linker/arm/relative_patcher_arm_base.cc:116-137 | there are methods as in the run at the limit |
| CallReachLimits.FarRunExists | mini-tracing-art6/compiler/linker/arm/relative_patcher_arm_base.cc:32-45 | there are methods as in the run with a call left over |
| OatMaps.TheoremMapsAgree | mini-tracing-art6/compiler/oat_writer.cc:894-943 | for any list of tables: the test on offsets is true exactly at the first occurrence of a non-empty table, each table stands at every offset recorded for it, equal tables share an offset, both passes end at the same offset |
| OatMaps.TheoremHeaderOffset | mini-tracing-art6/compiler/oat_writer.cc:159-223 | the offset stored as 0 minus the table offset, raised by the code offset and read with the Thumb bit cleared, is the table offset; no table stays 0 |
| OatFile.InitMapVisitor.VisitMethod | mini-tracing-art6/compiler/oat_writer.cc:559-590 | one step of the Init map pass: nothing, a known offset or a new place |
| OatFile.InitMaps | mini-tracing-art6/compiler/oat_writer.cc:1049-1065 | the loop computes all offsets of one kind of table and the end |
| OatFile.WriteMapVisitor.VisitMethod | mini-tracing-art6/compiler/oat_writer.cc:904-942 | one step of the Write map pass: the offset is decoded from the finished slot, and a table is written exactly if it belongs right here |
| OatFile.WriteMaps | mini-tracing-art6/compiler/oat_writer.cc:1299-1324 | the tables written end exactly where the Init pass said |
| OatFile.FillSlots | mini-tracing-art6/compiler/oat_writer.cc:552-591 | the table offsets reach the slots of the classes in order |
| OatFile.PlacedHeader | mini-tracing-art6/compiler/oat_writer.cc:409-435 | in every run the header of every method is made from its own tables and its final code offset, which is aligned and behind the base |
| OatFile.TheoremTableOffset | mini-tracing-art6/compiler/oat_writer.cc:409-435 | in every run the finished slot of every method, repeated or not, decodes to the offset that the map pass gave its table |
| OatLayout.SlotsDecode | mini-tracing-art6/compiler/oat_writer.cc:904-942 | in the finished classes the slots of all methods decode, for every kind, to the offsets of the Init map pass |
| OatClassTable.NewOatClass | mini-tracing-art6/compiler/oat_writer.cc:1462-1514 | type, size of the bitmap, every bit of it, and for every method the offset of its slot: base plus compiled methods before it times the entry size |
| OatClassTable.TheoremTypeTells | mini-tracing-art6/compiler/oat_writer.cc:1472-1485 | the type of a record says none compiled if and only if no method is, and all compiled if and only if there are methods and all are |
| OatClassTable.PackedBitmap | mini-tracing-art6/runtime/base/bit_vector.cc:319-331 | bit `i` of the bytes written is set exactly if method `i` is compiled |
| OatClassTable.CountIsCompiled | mini-tracing-art6/runtime/base/bit_vector.cc:319-331 | the set bits below `i` are as many as compiled methods before `i` |
| OatClassTable.NumSetBits | mini-tracing-art6/runtime/base/bit_vector.cc:319-331 | counting by words and then the rest counts the bits below `end` |
| OatClassTable.GetOatMethodOffsets | mini-tracing-art6/runtime/oat_file.cc:713-733 | the lookup of the runtime in the bytes of any class record gives the code offset of every compiled method and nothing for the others |
| OatClassTable.GetStatus | mini-tracing-art6/runtime/oat_file.cc:628-638 | the status read from the bytes of any class record is the one written |
| OatFile.InitDexFiles | mini-tracing-art6/compiler/oat_writer.cc:1010-1025 | dex file offsets are aligned and in order; the end is start plus files plus counted gaps |
| OatFile.InitClasses | mini-tracing-art6/compiler/oat_writer.cc:1027-1047 | class record offsets and the end |
| OatFile.InitTrampolines | mini-tracing-art6/compiler/oat_writer.cc:1067-1106 | aligned trampoline offsets with the PC delta and the end |
| OatFile.OatStream.WriteRecords | mini-tracing-art6/compiler/oat_writer.cc:1428-1460 | every dex file record stands behind the one before with the offsets of its own classes; counters grow by the bytes put out |
| OatFile.OatStream.WriteDexFiles | mini-tracing-art6/compiler/oat_writer.cc:1266-1297 | every dex file stands at its offset |
| OatFile.OatStream.WriteClasses | mini-tracing-art6/compiler/oat_writer.cc:1554-1588 | every class record stands at the offset the layout gave it |
| OatFile.OatStream.WriteTables | mini-tracing-art6/compiler/oat_writer.cc:1299-1324 | every non-empty table stands at its offset in the file |
| OatFile.OatStream.WriteTrampolines | mini-tracing-art6/compiler/oat_writer.cc:1326-1355 | every trampoline stands at its aligned offset, padding counted |
| OatLayout.Init | mini-tracing-art6/compiler/oat_writer.cc:115-151 | all Init passes in order: every part of the layout begins where the one before ends |
| OatParts.TheoremDexFilesPlaced | mini-tracing-art6/compiler/oat_writer.cc:1010-1025 | in every layout the dex files lie in order at multiples of four between the records and the classes, without overlap |
| OatParts.TheoremClassesPlaced | mini-tracing-art6/compiler/oat_writer.cc:1027-1047 | class records lie in order between the dex files and the tables, without overlap |
| OatParts.TheoremExecutablePlaced | mini-tracing-art6/compiler/oat_writer.cc:1067-1106 | the executable part begins at the first page behind the tables; trampolines lie aligned in it, in order and in front of the code |
| OatWholeFile.WriteRodata | mini-tracing-art6/compiler/oat_writer.cc:1127-1175 | everything in front of the code stands at its offset and the counters equal the bytes |
| OatWholeFile.Write | mini-tracing-art6/compiler/oat_writer.cc:1177-1264 | every part stands at its offset, the counters of all categories add up to the bytes, and with no tiny repeat to the size the Init passes computed |
| OatWholeFile.MakeOatFile | mini-tracing-art6/compiler/oat_writer.cc:1201-1245 | layout and writing of any input whose offsets fit 32 bits: every part in place, and sum of the counters, bytes put out and computed size agree |
| OatReadBack.TheoremRecordsReadBack | mini-tracing-art6/runtime/oat_file.cc:380-504 | reading the records of a finished file gives location, checksum, file offset and class offsets of every dex file if every one has a location and a valid dex header, and fails otherwise |
| OatReadBack.Setup | mini-tracing-art6/runtime/oat_file.cc:380-504 | the reading loop on any bytes, with its early exits |
| OatReadBack.GetOatClassOffset | mini-tracing-art6/runtime/oat_file.cc:624-626 | the class offset read behind a record is the one the layout gave that class |
| OatReadBack.TheoremMethodReadsBack | mini-tracing-art6/runtime/oat_file-inl.h:25-156 | in the finished file the code offset in the slot of every compiled method, shared or not, leads to its size, its three tables by the distances in the header, and its code: every patched word is what its patch makes of the old one and all other bytes are the original ones |
| OatReadBack.TheoremFrameReadsBack | mini-tracing-art6/compiler/oat_writer.cc:430-435 | and to frame size, core and floating point spill mask of the first method with that code |
| OatReadBack.FindMethod | mini-tracing-art6/runtime/oat_file.cc:628-733 | from a dex file record through class offset and class record: the status of the class, nothing for a method without code, else an offset that leads to its code and tables |
| OatReadBack.OpenAndFind | mini-tracing-art6/runtime/oat_file.cc:380-504 | opening a finished file and looking any method up, end to end |
| PatchList.EncodeUleb | mini-tracing-art6/runtime/leb128.h:130-140 | the loop appends the ULEB128 encoding |
| PatchList.UlebRoundTrip | mini-tracing-art6/runtime/leb128.h:31-54 | decoding in the middle of any bytes gives the value and the position behind it, for every 32-bit value |
| PatchList.EncodeOatPatches | mini-tracing-art6/compiler/elf_writer_quick.cc:72-83 | the loop appends the encoded distances of sorted locations |
| PatchList.TheoremPatchListRoundTrip | mini-tracing-art6/compiler/elf_writer_quick.cc:72-83 | reading an encoded patch list gives back exactly its locations |
| PatchList.ApplyOatPatches | mini-tracing-art6/runtime/elf_file.cc:1440-1452 | in place: every listed word is moved by the delta modulo 2^32 and no other byte changes |
| PatchList.TheoremRelocationInverts | mini-tracing-art6/runtime/elf_file.cc:1440-1452 | relocating by a delta and then by its negation restores the section |
| WideRelocation.ApplyOatPatches | mini-tracing-art6/runtime/elf_file.cc:1440-1451 | the same loop in a 64-bit file, where it adds eight bytes wide |
| WideRelocation.TheoremWideIff | mini-tracing-art6/runtime/elf_file.cc:1440-1451 | for any spaced locations of 4-byte addresses and any delta: relocating a 64-bit file moves these addresses and nothing else if and only if every address, moved, is still one of 32 bits |
| WideRelocation.TheoremLongMoved | mini-tracing-art6/runtime/elf_file.cc:1440-1451 | listed fields of eight bytes are moved modulo 2^64 and no other byte changes |
| WideRelocation.CarryExample | mini-tracing-art6/runtime/elf_file.cc:1440-1451 | an address just below 2^32 moved up by a page adds one to the word behind it |
| ElfHash.AddedNameReads | mini-tracing-art6/compiler/elf_builder.h:265-293 | a name added to a string table reads back whatever is added later |
| ElfHash.ElfHash | mini-tracing-art6/compiler/elf_builder.h:474-486 | the hash loop on a NUL-terminated name gives the hash that the rows below describe |
| ElfHash.TheoremHashStep | mini-tracing-art6/compiler/elf_builder.h:479-484 | one step in digits: of sixteen times the hash plus the character the low 28 bits are kept, the four bits above are folded in by exclusive-or at bit 4, and the rest is lost |
| ElfHash.TheoremHashIsPolynomial | mini-tracing-art6/compiler/elf_builder.h:475-486 | a name hashes to the sum of its characters weighted by powers of 16 if and only if that sum has 28 bits |
| ElfHash.ShortNames | mini-tracing-art6/compiler/elf_builder.h:475-486 | so all names of five characters do, and ASCII names of six |
| ElfHash.OatDataHash | mini-tracing-art6/compiler/elf_builder.h:913-914 | "oatdata" hashes to 0x58aa8d1 |
| ElfHash.NumBuckets | mini-tracing-art6/compiler/elf_builder.h:459-472 | the number of buckets is even and positive; fewer than 256 symbols have fewer than 16 for each, and more have 32 for each but for at most 32 symbols |
| ElfHash.TableStep | mini-tracing-art6/compiler/elf_builder.h:434-455 | the slot found for the next symbol is empty, and filling it gives the table for one symbol more |
| ElfHash.TheoremEachIndexOnce | mini-tracing-art6/compiler/elf_builder.h:387-486 | for any symbols each index 1..n occurs exactly once in buckets and chains and zero exactly buckets + 1 times |
| ElfHash.FindSlot | mini-tracing-art6/compiler/elf_builder.h:434-455 | following the chain ends, at the empty bucket or the end of the chain |
| ElfHash.Insert | mini-tracing-art6/compiler/elf_builder.h:434-455 | in place: the table for `k` symbols becomes the table for `k + 1` |
| ElfHash.BuildHash | mini-tracing-art6/compiler/elf_builder.h:418-456 | for any names the section holds the header words and the finished table |
| ElfHash.GetSym | mini-tracing-art6/compiler/elf_builder.h:405-417 | the documented lookup gives the lowest symbol index of a name, and 0 exactly if there is none |
| ElfHash.AddAndFind | mini-tracing-art6/compiler/elf_builder.h:297-486 | adding any symbols, building the table and looking up any name, end to end |
| ElfLayout.Layout | mini-tracing-art6/compiler/elf_builder.h:649-680 | the loop determines offset and address of every section |
| ElfLayout.TheoremSectionsApart | mini-tracing-art6/compiler/elf_builder.h:649-680 | for any sections: offsets and addresses are aligned and the ranges in file and in memory follow one another |
| ElfLayout.SameAddress | mini-tracing-art6/compiler/elf_builder.h:649-680 | address equals file offset as long as every section is in both |
| ElfLayout.MainMaps | mini-tracing-art6/compiler/elf_builder.h:689-693 | up to the code, addresses equal offsets and the first load segment maps each section to its address |
| ElfLayout.ProgramHeadersFit | mini-tracing-art6/compiler/elf_builder.h:682-717 | the program headers fit the space reserved for them |
| ElfLayout.TheoremProgramHeaders | mini-tracing-art6/compiler/elf_builder.h:682-717 | every segment has address congruent to offset modulo its alignment, and load segments are in ascending order without overlap |
| ElfPages.TheoremSectionsLoaded | mini-tracing-art6/compiler/elf_builder.h:689-698 | every section up to the dynamic one is loaded by a segment at its address, with its file bytes, and .bss with none |
| ElfPages.TheoremDynamicAnnounced | mini-tracing-art6/compiler/elf_builder.h:698-698 | the dynamic segment announces the dynamic section where it is |
| ElfPages.TheoremPages | mini-tracing-art6/compiler/elf_builder.h:682-717 | with .eh_frame on a page of its own, as the writer registers it, no two load segments share a page, and exactly the segment of .text is executable |
| ElfLayout.TheoremNoGapIff | mini-tracing-art6/compiler/elf_builder.h:699-707 | two sections in a row touch if and only if the size of the first is a multiple of the alignment of the second |
| ElfLayout.TheoremEhMapped | mini-tracing-art6/compiler/elf_builder.h:699-713 | then the one segment grown by the size of the unwind header maps both unwind sections to their addresses |
| ElfLayout.WriteSections | mini-tracing-art6/compiler/elf_builder.h:738-749 | sections are written front to back, never seeking backwards, each at its offset |
| ElfLayout.WriteFile | mini-tracing-art6/compiler/elf_builder.h:727-755 | the finished file begins with the headers, holds every section at its offset and ends with the section headers at the aligned end |
| Patching.Patch | mini-tracing-art6/compiler/elf_writer_quick.cc:115-137 | in place: the loop over the locations rewrites each word from its old value |
| Patching.TheoremPatchedTarget | mini-tracing-art6/compiler/elf_writer_quick.cc:115-137 | for spaced locations every patched field holds base plus old offset, from which a section-relative kind subtracts the section address and a pointer-relative kind the address of the field itself, modulo the width |
| Patching.ClearKept | mini-tracing-art6/compiler/elf_writer_quick.cc:115-137 | bytes outside the patched fields stay |
| Patching.RelativeDecodes | mini-tracing-art6/compiler/elf_writer_quick.cc:115-137 | adding the origin to a relative value gives the target |
| Unwind.FrameWriter.WriteCie | mini-tracing-art6/compiler/dwarf/headers.h:38-74 | length, zero id, content and padding of the common entry |
| UnwindCie.WriteCieContent | mini-tracing-art6/compiler/dwarf/headers.h:50-71 | the bytes between id and padding, pushed in order |
| UnwindCie.TheoremCieReads | mini-tracing-art6/compiler/dwarf/headers.h:38-74 | in the patched section a reader of the format gets version, augmentation, alignment factors, return register, pointer encoding and initial instructions of the common entry |
| Unwind.FrameWriter.WriteFde | mini-tracing-art6/compiler/dwarf/headers.h:76-107 | length, distance back to the common entry, address, size, instructions and padding; the address is registered for patching |
| Unwind.FrameWriter.WriteCfi | mini-tracing-art6/compiler/elf_writer_debug.cc:179-193 | one entry and one row for every record that is not deduped and has instructions |
| Unwind.WriteHdr | mini-tracing-art6/compiler/elf_writer_debug.cc:195-223 | header words, rows and patch locations of the search table |
| Unwind.TheoremHdrReads | mini-tracing-art6/compiler/elf_writer_debug.cc:195-223 | after patching, a reader that goes by the encodings the header announces gets the frame address, the number of rows, and of each row the addresses of code and entry |
| Unwind.TheoremEntriesAligned | mini-tracing-art6/compiler/dwarf/headers.h:105-106 | all entries start at multiples of the pointer size |
| Unwind.EmplaceSorted | mini-tracing-art6/compiler/elf_writer_debug.cc:180-187 | inserting keeps the rows strictly sorted by address |
| Unwind.FrameKeepsInv | mini-tracing-art6/compiler/elf_writer_debug.cc:179-193 | for any records every row leads to an intact entry of a record at its address and every entry is registered for patching exactly once |
| Unwind.TheoremUnwindTable | mini-tracing-art6/compiler/elf_writer_debug.cc:168-223 | for any records the rows are strictly sorted and every record with an entry has a row at its address |
| Unwind.TheoremRowResolves | mini-tracing-art6/compiler/elf_writer_debug.cc:207-222 | after patching, with the header right behind the frame, every row decodes to the code address and to the address of its entry |
| Unwind.TheoremFramePointer | mini-tracing-art6/compiler/elf_writer_debug.cc:207-209 | the header points at the frame, relative to its own location |
| Unwind.TheoremEntryResolves | mini-tracing-art6/compiler/dwarf/headers.h:84-106 | after patching an entry decodes to code address, code size, common entry, and exactly the instructions of its method followed by zeros up to the end that its length gives |
| Unwind.TheoremRowEntry | mini-tracing-art6/compiler/elf_writer_debug.cc:168-223 | the entry that a row leads to describes a record at exactly the address of the row |
| Unwind.TheoremNoCollision | mini-tracing-art6/compiler/elf_writer_debug.cc:180-193 | for strictly increasing code ranges there is one row per entry, in the same order |
| UnwindFile.TheoremOneEntryPerAddress | mini-tracing-art6/compiler/oat_writer.cc:452-466 | the debug records of every Init pass have strictly increasing ranges among those that are not deduped |
| UnwindFile.HeaderBehindFrame | mini-tracing-art6/compiler/elf_writer_quick.cc:164-203 | as registered, the unwind header always lies right behind the frame |
| UnwindFile.TheoremRowsInFile | mini-tracing-art6/compiler/elf_writer_quick.cc:164-203 | in the laid out file every row leads to the code range of a method of the Init pass, where the text section has it, and to an entry with exactly that address, size and unwind instructions |
| UnwindFile.TheoremMethodHasRow | mini-tracing-art6/compiler/elf_writer_debug.cc:179-193 | every method with unwind information that is not repeated has a row at its code |
| GcMap.OffsetWidthFits | mini-tracing-art6/compiler/gc_map_builder.h:30-36 | the offset width holds the maximum, and one byte less would not |
| GcMap.HeaderRoundTrip | mini-tracing-art6/runtime/gc_map.h:85-106 | the four header bytes give back width, width of the references and count |
| GcMap.InsertKeeps | mini-tracing-art6/compiler/gc_map_builder.h:50-59 | for any hash a new entry in the first free slot of its chain keeps every entry reachable through used slots only |
| GcMap.StoreKeeps | mini-tracing-art6/compiler/gc_map_builder.h:75-85 | writing one entry leaves the bytes of all others and the header |
| GcMap.GcMapBuilder.FindFree | mini-tracing-art6/compiler/gc_map_builder.h:50-54 | with a free slot left the wrap-around probe terminates, at a free slot that the hash leads to |
| GcMap.GcMapBuilder.AddEntry | mini-tracing-art6/compiler/gc_map_builder.h:50-59 | one slot becomes the new entry, all other entries, flags and bytes are kept |
| GcMap.ReadsBackIff | mini-tracing-art6/runtime/gc_map.h:46-53 | an offset reads back if and only if pointers have 32 bits or bit 31 is clear |
| GcMap.FindBitMap | mini-tracing-art6/runtime/gc_map.h:66-76 | the lookup terminates and gives the bitmap stored for every such offset |
| GcMap.HighOffsetNeverFound | mini-tracing-art6/runtime/gc_map.h:46-76 | with 64-bit pointers no slot ever matches an offset with bit 31 set |
| GcMap.BuildTable | mini-tracing-art6/compiler/gc_map_builder.h:29-59 | any run of at most `entries` distinct offsets ends with exactly these entries stored and reachable |
| SrcMap.TheoremAgreesIff | mini-tracing-art6/compiler/compiled_method.h:124-152 | for every sorted sequence of pushes the compressed map answers like the plain one if and only if no value for that offset was dropped before a different one |
| SrcMap.TheoremCompressedInEffect | mini-tracing-art6/compiler/compiled_method.h:124-152 | with one push per offset the answer is the value of the last push at or below, and none exactly if there is none |
| SrcMap.SrcMap.PushBack | mini-tracing-art6/compiler/compiled_method.h:124-135 | the stored elements stay the compression of all pushes |
| SrcMap.Find | mini-tracing-art6/compiler/compiled_method.h:139-152 | binary search and fall back to the element before |
| SrcMap.HiddenExample | mini-tracing-art6/compiler/compiled_method.h:124-135 | three pushes after which the map gives another value than was pushed first |
| Streams.TheoremOverVector | mini-tracing-art6/compiler/buffered_output_stream.cc:26-57 | for every sequence of writes and seeks over a vector: same bytes after a flush and same reported positions as without the buffer |
| Streams.TheoremBufferedRefinesDirect | mini-tracing-art6/compiler/buffered_output_stream.cc:26-57 | the same over a lower stream that may fail, as long as every call reports success and no flush in front of a large write failed |
| Streams.StepIff | mini-tracing-art6/compiler/buffered_output_stream.cc:26-57 | one operation that reports success does what it does directly if and only if it is not a large write whose flush failed |
| Streams.TheoremAgreesThroughoutIff | mini-tracing-art6/compiler/buffered_output_stream.cc:26-57 | a run in which every call reports success agrees with the direct run after every operation if and only if no such flush failed |
| Streams.TheoremRelativeRunIff | mini-tracing-art6/compiler/buffered_output_stream.cc:26-57 | without absolute seeks the end state and positions agree if and only if no such flush failed, and the stream ends short by exactly the bytes lost |
| Streams.LostExample | mini-tracing-art6/compiler/buffered_output_stream.cc:27-30 | on a new stream a small and a large write and a last flush all report success and the small write is gone |
| Streams.VectorOutputStream.WriteFully | mini-tracing-art6/compiler/vector_output_stream.h:34-55 | overwrites and grows at the current offset |
| Streams.VectorOutputStream.SeekPosition | mini-tracing-art6/compiler/vector_output_stream.cc:26-46 | all three kinds of seek, with zeros up to a position behind the end |
| Streams.TheoremSeekThenWrite | mini-tracing-art6/compiler/vector_output_stream.cc:26-46 | seeking to a position counted from the start, the current place or the end and writing there puts the bytes at that position, with zeros in a gap and every other byte as it was |
| Streams.BufferedOutputStream.WriteFully | mini-tracing-art6/compiler/buffered_output_stream.cc:26-41 | the array buffer is never overrun and the new state is the specified one in all three cases |
| Streams.BufferedOutputStream.SeekPosition | mini-tracing-art6/compiler/buffered_output_stream.cc:52-57 | flushes first and reports the position of the lower stream |
| Streams.RunOverVector | mini-tracing-art6/compiler/buffered_output_stream.cc:26-57 | a client run on the two classes gives the bytes and positions of the direct run |
| Barrier.StepKeepsInv | mini-tracing-art6/runtime/barrier.cc:31-87 | every step of every caller, including the steps of the futex condition variable and of the futex mutex, keeps lock ownership, waiter count, count accounting, what is known of sleepers, and that whoever sleeps on the lock will be woken |
| Barrier.TheoremNoLostWakeUp | mini-tracing-art6/runtime/base/mutex.cc:779-862 | in every run, at count zero with no broadcast in progress, a caller asleep went to sleep 2^32 broadcasts late, and one about to sleep falls asleep if and only if the broadcasts since it looked are a multiple of 2^32 |
| Barrier.TheoremEverybodyLeaves | mini-tracing-art6/runtime/barrier.cc:45-80 | in every run, once all calls are applied and the count is zero: it stays zero, nobody waits again, the number of remaining steps is bounded, and when only signals and time-outs are left everybody has returned but those who fell asleep 2^32 broadcasts late |
| Barrier.TheoremCanLeave | mini-tracing-art6/runtime/base/mutex.cc:440-490 | from there everybody can return in a run without signals and time-outs, in which sleepers wake only by broadcast and unlock, if and only if a broadcast is in progress or nobody has missed the last one |
| Barrier.TheoremNobodyPassesEarly | mini-tracing-art6/runtime/barrier.cc:31-59 | in every interleaving of a group of calls that brings the count to zero, a blocking call returns only after all are applied |
| Barrier.TheoremLatch | mini-tracing-art6/runtime/barrier.h:17-25 | started at 0 with n Passes and one Increment(n), in any order, the Increment returns only after all n Passes |
| Barrier.TheoremWaitBarrier | mini-tracing-art6/runtime/barrier.cc:36-38 | started at n, none of n Waits returns before all have been called |
| Barrier.LeavesAtZero | mini-tracing-art6/runtime/barrier.cc:45-80 | a blocking call that reports no time-out leaves at a moment when the count is zero; when it reports one is said by the rows below |
| BarrierAnswers.TheoremAnswerIff | mini-tracing-art6/runtime/barrier.cc:61-80 | in every run a call that has returned reports a time-out if and only if it timed out or found its time over in that run, which only timed calls do |
| BarrierAnswers.TheoremZeroAnswer | mini-tracing-art6/runtime/barrier.cc:64-79 | in every run a call that looks at the count and finds zero can return, reports no time-out, and in no continuation does anything else |
| BarrierAnswers.TheoremCountIs | mini-tracing-art6/runtime/barrier.cc:31-47 | in every run the count is what the last Init set plus what the calls applied since then add |
| BarrierReuse.TheoremWaitsAgainIff | mini-tracing-art6/runtime/barrier.cc:45-59 | in every run a caller woken at count zero waits again, once it has the lock back, if and only if a call applied in between moved the count off zero for good; otherwise it returns |
| BarrierReuse.TheoremWaitsAgainSum | mini-tracing-art6/runtime/barrier.cc:45-59 | without Init calls that is if and only if what the calls applied in between add is not zero |
| BarrierReuse.ReuseHazard | mini-tracing-art6/runtime/barrier.cc:45-59 | a run from the start: Increment(1) and Pass are over, and the Increment sleeps again because a third call took the lock first |
| BarrierReuse.LapExample | mini-tracing-art6/runtime/base/mutex.cc:829-862 | a run from the start with 2^32 broadcasts after which a caller sleeps at count zero, everybody else has returned and only a signal can wake it |
| SwapMutex.AlignedApart | mini-tracing-art6/runtime/atomic.h:40-45 | 8-byte aligned cells do not overlap |
| SwapMutex.StripesApart | mini-tracing-art6/runtime/atomic.cc:26-28 | cells that are less than 32 cells apart have different mutexes |
| SwapMutex.StepKeepsInv | mini-tracing-art6/runtime/atomic.cc:26-64 | every half-word step keeps lock ownership, memory against the log, and the registers of whoever holds the stripe |
| SwapMutex.TheoremNoTearing | mini-tracing-art6/runtime/atomic.cc:26-64 | in every interleaving every read gives the latest value in lock order, never a mixture, and a compare-and-swap succeeds if and only if that value was the expected one |
| ImageSlots.IndexRoundTripIff | mini-tracing-art6/compiler/image_writer.cc:1479-1500 | an index is read back from a bin slot if and only if it leaves the bin bits clear |
| ImageSlots.ForwardingRoundTripIff | mini-tracing-art6/runtime/lock_word.h:120-123 | a forwarding address is read back if and only if its two low bits are clear, and the read barrier bits stay clear if and only if it is below 2^30 |
| ImageSlots.TheoremSlotInLockWord | mini-tracing-art6/compiler/image_writer.cc:270-301 | every slot with an aligned index below 2^27 survives the lock word |
| ImageHeap.AssignKeeps | mini-tracing-art6/compiler/image_writer.cc:357-478 | giving an object a slot keeps all slots aligned, inside their bins and disjoint, and the image end equal to the sum of the bins |
| ImageHeap.CalculateKeeps | mini-tracing-art6/compiler/image_writer.cc:709-733 | so does giving a string the slot of its interned twin, and only the object and its twin are assigned |
| ImageHeap.AddNativeKeeps | mini-tracing-art6/compiler/image_writer.cc:870-876 | so does placing a field or method, without overlap |
| ImageWalk.ImageWriter.ClassBin | mini-tracing-art6/compiler/image_writer.cc:404-445 | the search of the static fields decides the bin of a class |
| ImageWalk.ImageWriter.AssignImageBinSlot | mini-tracing-art6/compiler/image_writer.cc:357-478 | one assignment is the specified step |
| ImageWalk.ImageWriter.CalculateObjectBinSlots | mini-tracing-art6/compiler/image_writer.cc:709-733 | with interning of strings |
| ImageWalk.ImageWriter.AssignMethods | mini-tracing-art6/compiler/image_writer.cc:839-855 | a method array stays contiguous in one bin, the dirty one if any of its methods may get dirty |
| ImageWalk.ImageWriter.WalkInstanceFields | mini-tracing-art6/compiler/image_writer.cc:779-798 | terminates on every cyclic heap: unassigned objects, then depth of the superclass |
| ImageWalk.ImageWriter.WalkFieldsInOrder | mini-tracing-art6/compiler/image_writer.cc:801-868 | terminates on every cyclic heap, keeps the allocation, never assigns twice, and finishes the arrays of every class it reaches |
| ImageWalk.ImageWriter.VisitObjects | mini-tracing-art6/compiler/image_writer.cc:902-964 | after the walk every object has a slot and every class has its field and method arrays contiguous |
| ImageLayout.PrepareDexCacheArraySlots | mini-tracing-art6/compiler/image_writer.cc:303-338 | the loop over the dex caches computes all prepared places from the numbers of elements and the pointer size; that they suffice is said by the rows below |
| ImageLayout.TheoremArraysPrepared | mini-tracing-art6/compiler/utils/dex_cache_arrays_layout-inl.h:30-80 | for any numbers of elements the prepared places are aligned, disjoint and fill the bin exactly |
| ImageDexCache.TheoremArraysHoldElements | mini-tracing-art6/compiler/utils/dex_cache_arrays_layout-inl.h:30-80 | for any dex caches and both pointer sizes each array has room behind its header for all elements of its width, with less than 8 bytes to spare, and each element lies in it at the offset compiled code uses |
| ImageDexCache.TheoremSizesFit | mini-tracing-art6/compiler/image_writer.cc:303-338 | with the prepared places every dex cache array of a heap fits its place |
| ImageDexCache.TheoremElementAddress | mini-tracing-art6/compiler/image_writer.h:79-85 | in every finished layout the image address that compiled code gets for an element of a dex cache array is the address of that element in the array |
| ImageOrder.TheoremImageOrder | mini-tracing-art6/compiler/image_writer.h:103-118 | in every finished layout whatever is expected to get dirty sooner lies behind what is not: dex cache arrays, strings, others, classes by state |
| ImageOrder.TheoremMethodOrder | mini-tracing-art6/compiler/image_writer.h:119-127 | methods of arrays in which one may get dirty lie behind those of arrays in which none may |
| ImageOrder.TheoremFieldOrder | mini-tracing-art6/compiler/image_writer.h:119-130 | fields lie behind all objects and in front of all methods |
| ImageLayout.TheoremImageEnd | mini-tracing-art6/compiler/image_writer.cc:902-964 | after the walk the image end is the begin plus all object bins |
| ImageLayout.TheoremObjectInside | mini-tracing-art6/compiler/image_writer.cc:243-253 | every object lies aligned between begin and image end, and a string where its twin lies |
| ImageLayout.TheoremObjectsApart | mini-tracing-art6/compiler/image_writer.cc:243-253 | objects with slots of their own never overlap |
| ImageLayout.TheoremNativesBehind | mini-tracing-art6/compiler/image_writer.cc:902-964 | fields and methods follow the objects without overlap |
| ImageLayout.CalculateNewObjectOffsets | mini-tracing-art6/compiler/image_writer.cc:902-964 | on any heap: walk, runtime methods, prefix sums and offsets give a sound layout in which the field and method arrays of every class are contiguous |
| ImageLayout.CreateSections | mini-tracing-art6/compiler/image_writer.cc:966-1019 | the sections follow one another, hold all objects, fields and methods, and the bitmap starts at the next page |
| ImageCopy.CopyAndFixupObject | mini-tracing-art6/compiler/image_writer.cc:1162-1180 | in place: bytes, lock word and every reference of one object, and no byte outside it |
| ImageCopy.CopyKeeps | mini-tracing-art6/compiler/image_writer.cc:1111-1121 | copying any object keeps every copy made before, also when a string is copied over its twin |
| ImageCopy.CopyAndFixupObjects | mini-tracing-art6/compiler/image_writer.cc:1111-1121 | after the loop every object stands copied at its offset, with the lock word of the last one copied there |
| ImageCopy.TheoremGraphPreserved | mini-tracing-art6/compiler/image_writer.cc:1183-1208 | every class, field, static and element reference that the heap has holds, in the copy, the image address of the object it led to, null staying null |
| ImageCopy.TheoremDataPreserved | mini-tracing-art6/compiler/image_writer.cc:1162-1180 | every other byte but the lock word is the original one |
| ImageCopy.TheoremAddressesDiffer | mini-tracing-art6/compiler/image_writer.cc:1183-1208 | two references become the same address if and only if they went to the same object or to interned twins |
| ImageWhole.TheoremImageIsHeap | mini-tracing-art6/compiler/image_writer.cc:1111-1208 | after layout and copy all references, native pointers and other bytes of all objects are those of the heap at image addresses, with twins merged and nothing else |
| ImageWhole.WriteImage | mini-tracing-art6/compiler/image_writer.cc:902-964 | places, walk, offsets, sections and copy of any heap with its dex caches give such an image, in which all elements of dex cache arrays are where compiled code looks and lock words are those of the last object copied to a place |

## Left out

- Files, memory mapping, `lseek` failures, logging and timing: output is a byte sequence, and only the buffered stream
  has a lower stream that can fail.
- Checksums, and the key-value store and fields of the oat header: the header is reserved space of a given size.
- RelativePatcher.PatchCode: the new words come from the function `resolve` of patch, position and old word. The words
  of relative calls and dex cache references are modelled (`CallEncoding`, `LinkedCalls`); the addresses of methods,
  types and code that go into the other patches are not.
- Erratum 843419 thunks of the Arm64 patcher and the plain ARM instruction set.
- Offsets are assumed not to overflow, except where wrap-around is the point: header fields, displacements, patched
  fields, the futex word.
- OatReadBack.TheoremFrameReadsBack: for shared code the values are those of the first method; the comparator does not
  look at them, so a later method may have others.
- Compiled methods without code.
- CallReach.TheoremCallsReach: assumes that each method is compiled once, that its patches are sorted and inside its
  code, and that method, header and thunk together are within branch range, as the patcher does.
- LinkedCalls.TheoremCallInFile: for runs of that kind, and for calls whose word no other patch of the method touches.
- OatRecords.TheoremLoaderMovesAddresses: assumes that the patches of a method are sorted, at least a word apart and
  inside its code.
- OatReadBack.Setup: the oat header is not looked at, relative locations are not resolved, and a read beyond the end
  counts as truncated.
- OatReadBack.TheoremMethodReadsBack: for files below 2^32 bytes.
- OatWholeFile.MakeOatFile: a layout that 32-bit offsets do not reach is not written; the source does not check. Of the
  size counters only the sum is stated, which is all that the source checks.
- WideRelocation.ApplyOatPatches: the eight bytes at every location are taken to lie in memory that can be written.
- Values and sizes of dynamic symbols: of a symbol only its name is modelled.
- ElfLayout.WriteFile: the bytes of the ELF header, program headers and section headers are inputs; their values are
  modelled, not their encoding.
- Unwind.FrameWriter.WriteCie: the content comes from `UnwindCie`; the initial instructions of each instruction set and
  the number of its return register are inputs. The .debug_frame format is not modelled.
- Streams.VectorOutputStream.SeekPosition: a negative target reports -1 and changes nothing; the source
  keeps the negative offset.
- GcMap: the hash is an arbitrary function; the offset arithmetic of the real one is not modelled.
- SrcMap.Find: `std::lower_bound` is written out as a binary search.
- Fairness of the scheduler: that an enabled step of the barrier is ever taken. Signals and time-outs are steps of the
  model.
- The bodies of `ArtField` and `ArtMethod` in the image: only their places are modelled, not the fix-up of their
  contents.
- ImageCopy.TheoremGraphPreserved: where the fields of an object lie is an input; only the class reference and array
  elements have their positions from the source. The image header is not modelled.
- ImageCopy.CopyAndFixupObjects: the lock word of each object is an input. Strings that share a slot share its lock
  word, which is that of the last one copied. The hash codes put back into the original objects are not modelled.
- The order in which static fields are visited: the source counts them on the metaclass. Only what holds after the
  full heap visit is claimed.
- Interned twins are assumed to have equal content.
- Disassemblers, command line parsing, image and oat dumping, the class linker and the intern table.
