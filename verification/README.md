# Layout planners and graph passes of the ART compiler tools

This project models the parts of the ART toolchain in which one piece of code
promises something that another piece, written separately, has to deliver, and
proves that the promise holds, or exactly when it does.

| modules | component |
|---|---|
| `ClassPruning`, `FieldCache` | which classes an app image keeps; the dex cache field pass |
| `ImageHeap`, `ImageState`, `ImageWriter`, `ImageNative`, `ImageBins`, `DexCacheLayout`, `ImageTheorems`, `ImageFiles` | the image writer: object walk, bin slots, native data, offsets, sections, copies |
| `OatVisits`, `OatCode`, `OatMaps`, `OatQuickening`, `OatLayout`, `OatFile` | the oat writer: planning visitors and writing visitors over one method sequence |
| `ElfBuilder`, `ElfDynamic`, `ElfFile` | ELF sections, program headers, and the predicted addresses of the dynamic section |
| `Cfg`, `CfgDump` | the control flow graph that dexdump prints |
| `CatchHandlers`, `CatchEncoding` | decoding and encoding of catch handlers (Dalvik Executable format, sections "code_item" and "encoded_catch_handler_list") |
| `Util` | alignment and 32-bit arithmetic |

Objects that the C++ code updates in place are classes here (`Pruner`,
`DexCache`, `Writer`, `Planner`, `Builder`), its loops are loops with
invariants, and its DCHECKs and CHECKs are preconditions, assertions or results.
Everything else is functions and lemmas. A specification is a reachability
notion, a recursive plan over a prefix of the input, or a predicate on the final
state; the main lemmas connect it with what the code does.

Main results, and the places where the code and the expectation differ:

* The memoised pruning search is exact on every class graph, cycles included, in
  every sequence of root calls. The classes kept are the largest set in which
  every class is fit for the image together with all it depends on (`KeptMayStay`,
  `KeptIsLargest`).
* The object walk gives a slot to exactly the reachable objects, each in the image
  where it belongs: classes with their native data and dex caches in that of their
  dex file, other objects in one that a root or a referring object stands for
  (`ObjectsGoHome`, `ClassDataGoesHome`). Copied references are the addresses at
  which the copies lie (`ReferencesMeetCopies`). References to
  equal strings end at one object, whoever holds them; a boot image string takes
  part exactly if it is the interned one (`BootStringMeetsIff`, with a heap where
  it is not in `WalkTwoStrings`).
* A bin slot survives its packing exactly when its index leaves the three bin
  bits alone (`SlotRoundTripIff`, `LargeIndexIsLost`). Copies carry the original
  lock words; originals get theirs back exactly when they had a hash code
  (`OriginalIsRestoredIff`, `WriteTwoStrings`).
* Shared code is written once for all methods that share it, unless the app is
  debuggable, the code is empty and the method is visited more than once
  (`SharedCodeIsWrittenOnceIff`, `WriteTwice`). Shared tables are written once,
  always (`MethodFindsItsTable`).
* Every compiled method of every class is found in the finished oat file from its
  class record: its code behind a header, its stack maps and its method info at
  the distances in that header (`MethodIsFound`).
* The code writing pass writes the plan exactly when no visit is "blind", a
  duplicate of the immediately preceding code that is empty and Thumb-2, and all
  code offsets fit into the 32 bits they are recorded in (`WritesThePlanIff`,
  `EmptyThumbIsBlind`, `FarMethodIsLost`). The compiler driver marks code-less
  methods as Arm, so `NothingIsBlind` applies.
* Recorded quickening offsets are right exactly when every method with quickening
  info has a code item and all info begins below 4 GiB
  (`RecordedOffsetsAreRightIff`, `QuickenWithoutCodeItem`). Then the header before
  a method's code, written for whichever duplicate came first, leads to the
  method's own info (`ReaderFindsInfo`).
* Every loaded section is mapped by a PT_LOAD exactly when it ends less than
  4 GiB behind the start of the segment it joins and, in a 32-bit file, inside the
  address space (`SectionsAreMappedIff`, `WriteUnmapped`). For all inputs the
  program headers of an oat file exist (`WriteElfWithHeaders`).
* PrepareDynamicSection predicts addresses in 32 bits, for 64-bit files too. The
  predictions are right exactly when the file is 32-bit or the section begins
  below 4 GiB (`AddressesAreRightIff`, `WriteWide`). Those of `.dynamic` and of the
  loaded size need one thing more: counting `.dynsym` instead of `.hash` must lead
  to the same page (`LoadedSizeIsRightIff`); file names of up to 255 bytes are
  always fine (`FileNamesFit`), a soname of 3922 bytes is not (`WriteLongName`).
* The dynamic symbols name the right sections exactly when `.text` is not empty or
  there is no `.bss`, and the last one lies below 4 GiB if the file is 64-bit
  (`SymbolsAreInTheirSectionsIff`, `WriteWithoutText`).
* The printed control flow graph is the successor relation exactly when the
  opcode table's "continues" flag agrees with the pass' own test
  (`GraphIsSuccessorRelation`); an unused opcode before another instruction
  breaks it (`UnusedOpcodeBreaksGraph`). Two neighbours share a block exactly if
  the first is no branch, switch, return or throw and nothing jumps to the second;
  the edges of both kinds are given by the instructions (`DumpMethodCfg`). An
  exception edge of a whole block speaks for all its instructions exactly if the
  last one has no handler that the first one lacks (`CommonSpeaksForAllIff`,
  `LateHandlerIsCommon`).
* The handler walk ends inside its list exactly when no two entry offsets agree
  in their low 16 bits (`WalkEndsInsideList`); lists of up to 64 KiB are fine
  (`SmallListsAreDistinct`), some longer ones are not (`WalkColliding`). The two
  readings of "catches all", the sign of the size and a handler without a type,
  agree on an entry exactly when it catches all or all its types are named
  (`ReadingsAgreeIff`). What dexlayout writes for a handler both readers read back,
  exactly for handlers that are not empty and in which every type is named, that of
  a final catch-all excepted (`ReadsBackIff`).

Inputs that stand for the outside: the class graph, the heap with its roots and
lock words, what the class linker resolves, the compiled methods with their
shared array addresses, the sizes of thunks between pieces of code (one schedule
for both oat passes), table sizes, and stream positions. Numbers are unbounded
unless the width matters: lock words, `uint16_t` handler offsets, `uint32_t`
branch targets, recorded code and quickening offsets, oat header fields, predicted
ELF addresses, merged segment sizes, and all fields of 32-bit ELF headers are
modelled with their widths.

## Model

| member | source | states |
|---|---|---|
| `ClassPruning.Pruner.PruneInternal` | compiler/image_writer.cc:733-828 | one search call: true only if a bad class is reachable; false only if none is reachable around the classes being visited, and none at all if no cycle was cut; memo entries stay exact; `visited` comes back unchanged; terminates |
| `ClassPruning.Pruner.AnyPruned` | compiler/image_writer.cc:768-804 | the loops over interfaces and static fields: the combined answer is sound for the class, and false means every dependency is clean |
| `ClassPruning.Pruner.Prune` | compiler/image_writer.cc:727-731 | a root call answers true exactly when a locally bad class is reachable outside the boot image, and leaves an exact memo |
| `ClassPruning.Pruner.KeepClass` | compiler/image_writer.cc:830-849 | the decision equals the graph property `Kept`, for boot and app images, null included |
| `ClassPruning.Pruner.CollectPruned` | compiler/image_writer.cc:851-887 | any sequence of root calls on one memo collects exactly the classes that are not kept, and counts those whose defining loader is the visited one |
| `ClassPruning.Pruner.PruneTable` | compiler/image_writer.cc:851-887 | removing what was collected leaves exactly the kept classes of the table; the count is that of the removed classes defined here |
| `ClassPruning.CleanStep` | compiler/image_writer.cc:820-825 | why caching is safe: a class is clean if its successors are clean with the class itself cut out |
| `ClassPruning.KeptClassesAreClosed` | compiler/image_writer.cc:733-849 | whatever a kept non-boot class depends on is kept |
| `ClassPruning.KeptMayStay` | compiler/image_writer.cc:733-849 | in an app image every kept class is in the boot image, or is an image class without the boot loader, error or foreign dex file whose interfaces, component type, static values and superclass are null or kept |
| `ClassPruning.KeptIsLargest` | compiler/image_writer.cc:733-849 | no larger set of classes has that property |
| `FieldCache.DexCache.SetResolvedField` | runtime/mirror/dex_cache-inl.h:192-197 | only the slot of the index changes |
| `FieldCache.DexCache.ClearResolvedField` | runtime/mirror/dex_cache-inl.h:199-209 | a slot is cleared only if it holds that index |
| `FieldCache.StepKeepsProgress` | compiler/image_writer.cc:967-1004 | one round of the field loop leaves every slot final below the index or still as it was |
| `FieldCache.DexCache.PruneFields` | compiler/image_writer.cc:963-1004 | every slot ends with the lowest valid index that maps to it, or empty; the cached class always equals a fresh lookup |
| `FieldCache.DeterministicIsUnique` | compiler/image_writer.cc:932-935 | those contents are unique, so they do not depend on what the cache held |
| `ImageBins.SlotRoundTripIff` | compiler/image_writer.cc:2525-2546 | for every 32-bit index, bin and index read back from the packed word exactly when index bits 27 to 29 are zero |
| `ImageBins.LargeIndexIsLost` | compiler/image_writer.cc:2525-2546 | index 2^27 does not read back, in any bin |
| `ImageBins.CalculateBinOffsets` | compiler/image_writer.cc:1678-1702 | offsets are those of the recursive definition with the alignments of the switch |
| `ImageBins.BinsAreApart` | compiler/image_writer.cc:1678-1702 | a bin ends before every later bin begins |
| `ImageBins.MirrorBinsAreTight` | compiler/image_writer.cc:1703-1706 | mirror bins follow each other without padding, so the field bin begins at begin plus their sum |
| `ImageBins.MethodSectionReachesIff` | compiler/image_writer.cc:1752-1756 | the method section, as long as its two bins together, reaches the end of the second exactly when the first needs no padding |
| `ImageBins.CreateImageSections` | compiler/image_writer.cc:1737-1790 | sections are in order, each covers its bins and native sections are no longer than that, table sections are 8-aligned |
| `ImageBins.PlaceImages` | compiler/image_writer.cc:1708-1718 | each image begins where the page-rounded one before it ends |
| `ImageBins.ImagesAreApart` | compiler/image_writer.cc:1708-1718 | images do not overlap |
| `ImageNative.Place` | compiler/image_writer.cc:1425-1438 | a relocation records the bin size of before, and the bin grows by the size of the data |
| `ImageNative.PlacedIsValid` | compiler/image_writer.cc:1389-1438 | placing keeps all ranges apart, aligned, inside their bins, and all bins aligned |
| `ImageNative.AssignFieldArray` | compiler/image_writer.cc:1269-1297 | header and fields in order, as the prefix plan says |
| `ImageNative.FieldsFollow` | compiler/image_writer.cc:1284-1296 | field `i` is at the array's offset plus header plus `i` field sizes |
| `ImageNative.AssignMethodArray` | compiler/image_writer.cc:1299-1332 | header and methods in order; all in the dirty bin exactly if any method is dirty |
| `ImageNative.MethodsFollow` | compiler/image_writer.cc:1327-1330 | method `i` is at the array's offset plus header plus `i` method sizes |
| `ImageNative.AssignRuntimeMethod` | compiler/image_writer.cc:1407-1438 | adds the method and, unless placed already, its conflict table, nothing else |
| `ImageNative.AssignImtMethods` | compiler/image_writer.cc:1340-1349 | afterwards all runtime methods of the table are placed |
| `ImageNative.TryAssignImTable` | compiler/image_writer.cc:1335-1405 | the table is placed once; whatever placed tables and runtime methods point at is placed |
| `ImageNative.AssignImageMethods` | compiler/image_writer.cc:1582-1590 | the image methods are placed, mirror bins stay empty |
| `ImageNative.AssignDexCacheArrays` | compiler/image_writer.cc:423-475 | a block of the layout's size for every dex file, in its image; the arrays inside have relocations of their own, apart from all other native data |
| `ImageNative.RelocateArrays` | compiler/image_writer.cc:436-486 | each array of a dex cache that is not empty, call sites excepted, gets a relocation at its place in the block of its dex file; all native data stays apart and aligned |
| `ImageNative.ReserveBlocks` | compiler/image_writer.cc:423-434 | the blocks of all dex files lie in their bins, aligned and apart |
| `DexCacheLayout.ArraysAreApart` | runtime/utils/dex_cache_arrays_layout-inl.h:31-48 | the six arrays follow each other without overlap |
| `DexCacheLayout.ArrayFits` | runtime/utils/dex_cache_arrays_layout-inl.h:31-48 | every array is aligned, what the cache uses fits into what is reserved, and all lies within the block |
| `DexCacheLayout.ElementsFit` | runtime/utils/dex_cache_arrays_layout-inl.h:77-170 | the element of every type, method, string, field, proto and call site id lies in the used part of its array, modulo the cache size where there is one |
| `DexCacheLayout.ElementsFill` | runtime/utils/dex_cache_arrays_layout-inl.h:77-170 | every element of a used part is that of an id of its kind, and of a slot of the cache where there is one |
| `ImageNative.AssignClass` | compiler/image_writer.cc:1253-1353 | all native data of a class is placed as arrays in its image; other classes' data is untouched |
| `ImageHeap.ClosedHasReachable` | compiler/image_writer.cc:1542-1552 | a set with all sources that is closed under references contains everything reachable |
| `ImageWriter.ChooseBin` | compiler/image_writer.cc:519-606 | each bin exactly for its kinds of object: strings, dex caches and plain objects, other objects, classes that are not initialized, initialized with a static field that is not final, and initialized with final ones only |
| `ImageWriter.Writer.constructor` | compiler/image_writer.cc:1554-1601 | the state before the walk satisfies the invariant |
| `ImageWriter.Writer.FindInternedString` | compiler/image_writer.cc:1110-1133 | first image table that has the string, else the boot image's interned string for an app image |
| `ImageWriter.Writer.SetImageBinSlot` | compiler/image_writer.cc:391-421 | the hash code is saved exactly if there is one, and the slot overwrites the lock word |
| `ImageWriter.Writer.AssignImageBinSlot` | compiler/image_writer.cc:505-626 | the object gets the next slot of its bin, bin and image end grow by the aligned size |
| `ImageState.SlottedInv` | compiler/image_writer.cc:1225-1383 | one more slot keeps the whole invariant: lock words, disjoint aligned slots, image ends, native data, interned strings, images of objects, references, stack, reachability |
| `ImageWriter.Writer.PrepareNew` | compiler/image_writer.cc:1233-1374 | interning and native data by kind of object; the image is that of the dex file for classes and dex caches, and the one asked for otherwise |
| `ImageWriter.Writer.TryAssignBinSlot` | compiler/image_writer.cc:1225-1383 | the object behind the reference has a slot afterwards, in the image where it belongs; the result is null, the boot object, the interned string or the object itself, and the invariant holds |
| `ImageWriter.Writer.VisitReferences` | compiler/image_writer.cc:1473-1514 | every reference of the object is replaced by what it should be; new objects are tried in the image of the object, in the default image for boot image objects |
| `ImageWriter.Writer.ProcessTop` | compiler/image_writer.cc:1543-1551 | one round: fewer objects without a slot, or as many and a shorter stack |
| `ImageWriter.Writer.ProcessWorkStack` | compiler/image_writer.cc:1542-1552 | terminates with an empty stack and the invariant |
| `ImageWriter.Writer.VisitBootImage` | compiler/image_writer.cc:1630-1647 | for an app image every boot image object is visited |
| `ImageWriter.Writer.AssignBinSlots` | compiler/image_writer.cc:1603-1649 | strings, roots, stack, boot image, stack again: the walk is over and the invariant holds |
| `ImageTheorems.WalkIsExact` | compiler/image_writer.cc:1603-1655 | an object has a slot exactly if a path outside the boot image leads to it from a source in the original heap |
| `ImageTheorems.ObjectsGoHome` | compiler/image_writer.cc:1246-1262 | every reachable class and dex cache is in the image of its dex file; any other reachable object in an image it is a root of, in that of a reachable object that refers to it, or in the default image if the boot image refers to it |
| `ImageTheorems.ClassDataGoesHome` | compiler/image_writer.cc:1259-1332 | the field arrays, fields, method array and methods of a class are in the image of its dex file |
| `ImageTheorems.InternedGoWithTables` | compiler/image_writer.cc:1233-1245 | an interned string of the images is in the image whose table has it, and a lookup finds it |
| `ImageTheorems.ReferencesStayInside` | compiler/image_writer.cc:1491-1509 | references of walked objects are null, boot or slotted, and change only from a string to an equal string |
| `ImageTheorems.EqualStringsMeet` | compiler/image_writer.cc:1375-1381 | references of any walked objects, boot image objects included, to equal strings outside the boot image end at one object |
| `ImageTheorems.BootStringMeetsIff` | compiler/image_writer.cc:1228-1231 | a walked reference to a boot image string ends at the same object as one to an equal string outside exactly if it is the interned boot string of an app image |
| `ImageTheorems.WalkTwoStrings` | compiler/image_writer.cc:1228-1231 | in a run of the walk over one array with two equal strings, the boot image one not interned, the references end apart |
| `ImageWriter.Writer.EnsureBinSlotsAssigned` | compiler/image_writer.cc:1440-1446 | the check passes exactly if every object outside the boot image has a slot |
| `ImageState.SlotReadsBack` | compiler/image_writer.cc:656-670 | with bins below 2^27 bytes the slot in a lock word is the one assigned |
| `ImageWriter.Writer.UnbinObjects` | compiler/image_writer.cc:1452-1471 | every lock word ends with the offset of its object, whatever the visiting order |
| `ImageWriter.Writer.UpdateRelocations` | compiler/image_writer.cc:1728-1734 | every native relocation moves by the offset of its bin |
| `ImageTheorems.ObjectsAreInside` | compiler/image_writer.cc:360-372 | offsets are 8-aligned and objects lie between begin and the image end |
| `ImageTheorems.ObjectsAreApart` | compiler/image_writer.cc:608-625 | objects of an image do not overlap |
| `ImageTheorems.NativesAreBehind` | compiler/image_writer.cc:1920-1921 | native data lies behind the image end and inside its bin |
| `ImageTheorems.NativesAreApart` | compiler/image_writer.cc:1728-1734 | native data of an image does not overlap |
| `ImageTheorems.NativeBinsAreAligned` | compiler/image_writer.cc:1678-1702 | every native bin is aligned for what it holds, runtime methods included, for which the switch has no case |
| `ImageTheorems.NativesAreAligned` | compiler/image_writer.cc:1728-1734 | every piece of native data is aligned in the image |
| `ImageTheorems.DexCachesStayBlocks` | compiler/image_writer.cc:436-475 | in the image, the arrays of every dex file are at the offsets of the layout from one start |
| `ImageTheorems.FieldsStayArrays` | compiler/image_writer.cc:1923-1940 | in the image, field `i` is element `i` of the array behind the copied header |
| `ImageTheorems.MethodsStayArrays` | compiler/image_writer.cc:1930-1952 | the same for methods, with the header and element size of the target |
| `ImageTheorems.AddressesAreApart` | compiler/image_writer.h:94-102 | no two objects of any images overlap in memory |
| `ImageTheorems.AddressesAreFaithful` | compiler/image_writer.h:94-102 | two references have the same image address exactly if they are the same reference |
| `ImageWriter.Writer.CopyAndFixupObject` | compiler/image_writer.cc:2078-2106 | the copy is in the image and at the offset of its object and has the saved hash code or the default word, and the image addresses of the references |
| `ImageWriter.Writer.CopyAndFixupObjects` | compiler/image_writer.cc:2026-2036 | every object outside the boot image is copied, then saved hash codes are back in the originals and the map is empty |
| `ImageTheorems.CopyKeepsHash` | compiler/image_writer.cc:2093-2098 | the copy carries the lock word the original had before the walk |
| `ImageTheorems.OriginalIsRestoredIff` | compiler/image_writer.cc:2029-2035 | the original has its lock word back exactly if it had a hash code |
| `ImageFiles.CreateAllSections` | compiler/image_writer.cc:1708-1718 | every image has sections in order that cover its bins, and its file ends behind its objects and all its bins |
| `ImageFiles.WriteImages` | compiler/image_writer.cc:1554-1735 | a whole run: complete exactly if everything is reachable; sections and image positions as laid out; then all objects are copied to their places with their lock words and image addresses, all native relocations have moved, and originals have their lock words back exactly if they had hash codes |
| `ImageFiles.ReferencesMeetCopies` | compiler/image_writer.cc:2078-2106 | after a run, each reference of a copy is null, a boot image object, or the begin of an image plus the offset at which the copy of the object lies, inside the file of that image |
| `ImageFiles.CopiesAreAtAddresses` | compiler/image_writer.h:94-102 | the address of a copy, begin of its image plus its offset, is the one by which `AddressesAreApart` keeps objects apart |
| `ImageFiles.WriteTwoStrings` | compiler/image_writer.cc:2029-2035 | a complete run over a heap without hash codes: unless the bins are too large, an original does not get its lock word back |
| `OatVisits.VisitDexMethods` | compiler/oat_writer.cc:1671-1712 | every method of every class is visited once, in order, with its class and, as its slot, the number of compiled methods before it in the class |
| `OatVisits.KeysAreDistinct` | compiler/oat_writer.cc:651-674 | class index and slot identify a compiled method |
| `OatVisits.PlaceEntries` | compiler/oat_writer.cc:3097-3124 | entry positions and the bitmap, by rank among compiled methods |
| `OatVisits.MakeOatClass` | compiler/oat_writer.cc:3072-3146 | type, bitmap and positions, and `SizeOf` is the start of the entries plus all entries; a bitmap has a bit for every method and is the shortest of whole words |
| `OatVisits.EntriesAreDisjoint` | compiler/oat_writer.cc:3126-3146 | each compiled method has its own four bytes inside the record |
| `OatCode.Planner.NewQuickCodeOffset` | compiler/oat_writer.cc:929-943 | thunks, alignment, header, then the code offset with the Thumb bit as a 32-bit word |
| `OatCode.Planner.VisitMethod` | compiler/oat_writer.cc:752-865 | one planning step records the word of the planned offset, and is the step of the prefix plan if that has 32 bits |
| `OatCode.PlanCode` | compiler/oat_writer.cc:1815-1833 | the planned end and, for every compiled method up to the first whose offset has more than 32 bits, the planned offset as a word |
| `OatCode.Writer.VisitMethod` | compiler/oat_writer.cc:1225-1332 | one writing step: the stream stays at base plus offset, and the method is written exactly if its recorded offset lies ahead |
| `OatCode.WriteCode` | compiler/oat_writer.cc:2282-2303 | all writing steps and the thunks at the end |
| `OatCode.OffsetAheadIff` | compiler/oat_writer.cc:1243-1244 | comparing the recorded word with the offset tells new code from known code exactly at visits that are not blind and whose offset has 32 bits |
| `OatCode.InStepWithPlan` | compiler/oat_writer.cc:1182-1376 | up to the first visit that is blind or too far the writer is at the planned offset with the planned chunks |
| `OatCode.WritesThePlanIff` | compiler/oat_writer.cc:1182-1376 | the chunks written are the planned ones exactly if no visit is blind and all code offsets have 32 bits |
| `OatCode.EmptyThumbIsBlind` | compiler/oat_writer.cc:1243-1244 | two equal empty Thumb-2 methods in a row make a blind visit |
| `OatCode.FarMethodIsLost` | compiler/oat_writer.cc:1243-1244 | behind code that reaches 4 GiB, the header of the next method is planned and not written |
| `OatCode.NothingIsBlind` | compiler/dex/dex_to_dex_compiler.cc:340-367 | no visit is blind if empty code is never Thumb-2 |
| `OatCode.PlannedChunksTile` | compiler/oat_writer.cc:1225-1332 | planned chunks tile the file from base to the planned offset |
| `OatCode.MethodFindsItsCode` | compiler/oat_writer.cc:791-809 | every method's code is in the planned file at its planned offset less the Thumb bit, behind the header of the first method that shares it; if the patcher remembers the method, no other header or code in the file has its key |
| `OatCode.SharedCodeIsWrittenOnceIff` | compiler/oat_writer.cc:771-809 | one header in the file for all methods that share code, exactly if the app is not debuggable, the code is not empty, or there is one visit |
| `OatCode.WriteTwice` | compiler/oat_writer.cc:771-809 | both passes over a debuggable app with a code-less method that is visited twice: two headers |
| `OatCode.CodeIsInside` | compiler/oat_writer.cc:791-809 | code lies between base and planned end |
| `OatCode.CodeIsAligned` | compiler/oat_writer.cc:929-943 | code is aligned for its instruction set |
| `OatCode.CodeIsSharedIff` | compiler/oat_writer.cc:771-809 | two compiled methods have one code offset exactly if code, maps, method info and patches are the same arrays; in a debuggable app exactly if they are visits of one method with code |
| `OatCode.PlanAndWrite` | compiler/oat_writer.cc:2138-2139 | both passes: the file has the planned chunks and the final thunks exactly if no visit is blind and all offsets have 32 bits; then final offset and stream position are the planned size |
| `OatMaps.OffsetRoundTrip` | compiler/oat_writer.cc:811-826 | the relative field is nonzero, below the code offset, and decodes to the planned offset modulo 2^32, Thumb delta included |
| `OatMaps.PlanMaps` | compiler/oat_writer.cc:951-1032 | the planned end, and the negated planned offset in every header |
| `OatMaps.BelongsHere` | compiler/oat_writer.cc:1565-1592 | the writing test accepts exactly the first method with the table |
| `OatMaps.WriteMaps` | compiler/oat_writer.cc:1549-1668 | the planned chunks and the planned end, for both kinds of table |
| `OatMaps.HeaderDecodes` | compiler/oat_writer.cc:1565-1592 | the header gives back the planned offset |
| `OatMaps.TablesAreNewOnce` | compiler/oat_writer.cc:951-994 | two visits that write have different tables |
| `OatMaps.MethodFindsItsTable` | compiler/oat_writer.cc:951-994 | the bytes of every table that a method needs are at the planned offset, and no other chunk in the file holds that table |
| `OatQuickening.PlanQuickening` | compiler/oat_writer.cc:743-766 | the running offset and the offset recorded for each code-less method, as 32-bit words |
| `OatQuickening.WriteQuickening` | compiler/oat_writer.cc:1918-2005 | positions and contents written from the aligned end of the vdex file |
| `OatQuickening.RecordedOffsetsAreRightIff` | compiler/oat_writer.cc:827-840 | every recorded offset is where the info begins exactly if every method with info has a code item and all info begins below 4 GiB |
| `OatQuickening.WriteAndPlanQuickening` | compiler/oat_writer.cc:743-766 | both passes on one file: the stored header of every quickened method is the position of its data exactly on that condition; the ends are equal exactly if they have 32 bits and what only the planning pass counts is a multiple of 2^32 |
| `OatQuickening.QuickenWithoutCodeItem` | compiler/oat_writer.cc:755-840 | both passes on a quickened method without a code item: nothing is written and the ends differ |
| `OatQuickening.ReaderFindsInfo` | compiler/oat_writer.cc:827-840 | the header in the file before a quickened method's code offset, duplicate or not, holds the position in the vdex file of as many bytes as the method's own info, written for a method with that info |
| `OatLayout.PlanClasses` | compiler/oat_writer.cc:1738-1757 | records follow each other and describe their classes |
| `OatLayout.WriteClasses` | compiler/oat_writer.cc:3148-3185 | every record is written at its planned offset, and the stream ends where the records do |
| `OatLayout.PlanTrampolines` | compiler/oat_writer.cc:1778-1813 | each trampoline is at the first aligned address behind the one before it, its entry point has the Thumb bit, and the last one ends the part |
| `OatLayout.WriteTrampolines` | compiler/oat_writer.cc:2253-2280 | the stream ends where the plan does |
| `OatLayout.HeadersAreReady` | compiler/oat_writer.cc:811-826 | header fields after code planning decode as the map pass needs |
| `OatFile.PlanOatFile` | compiler/oat_writer.cc:559-605 | all planning passes in order establish what the writing passes need |
| `OatFile.WriteRodata` | compiler/oat_writer.cc:1872-1916 | records at their planned offsets, maps as planned; the executable part begins at the planned page |
| `OatFile.WriteText` | compiler/oat_writer.cc:2053-2143 | trampolines and code as planned; both final checks pass |
| `OatFile.WriteOatFile` | compiler/oat_writer.cc:2138-2139 | a whole oat file: records, tables, code and final thunks are where the plan has them, and the file ends at its planned size |
| `OatFile.MethodIsFound` | runtime/oat_quick_method_header.h:63-89 | in a written file, every compiled method of every class has its code at the offset recorded at its rank in its class, right behind a header; the code address less the offsets in the header is where its own stack maps and its own method info are |
| `ElfBuilder.Builder.Start` | compiler/elf_builder.h:123-153 | alignment, file offset and address of a new section |
| `ElfBuilder.Builder.End` | compiler/elf_builder.h:156-171 | size from the stream, address advanced for allocated sections |
| `ElfBuilder.Builder.WriteNoBitsSection` | compiler/elf_builder.h:193-200 | a section with an address range and no file range |
| `ElfBuilder.LoadsAreOk` | compiler/elf_builder.h:923-950 | after any prefix of the loop whose sections lie in the address space: loads page-congruent, ascending and disjoint, the last in step with the builder |
| `ElfBuilder.SectionsAreMappedIff` | compiler/elf_builder.h:923-950 | every loaded section is mapped at its own distance exactly if each ends less than 4 GiB behind the start of the segment it joins and, for 32-bit files, below 4 GiB |
| `ElfBuilder.SmallFilesFit` | compiler/elf_builder.h:923-950 | which holds if file and memory stay below 4 GiB |
| `ElfBuilder.ExtrasAreInside` | compiler/elf_builder.h:951-967 | extra entries describe bytes that a PT_LOAD maps |
| `ElfBuilder.AlignmentCheckPassesIff` | compiler/elf_builder.h:938-948 | the alignment CHECK passes exactly if every section that begins a segment is page-aligned |
| `ElfBuilder.MakeProgramHeaders` | compiler/elf_builder.h:898-973 | from the section headers, whose fields have 32 bits in a 32-bit file: headers exist exactly if there are sections and the checks pass; PT_PHDR describes the table; loads as above if the sections lie in the address space; behind them, in section order, one entry for each loaded section that declares a type, with its type, flags, place, size and alignment, and no others; every section is mapped with its flags exactly on the condition above, and then so are the extra entries and PT_PHDR (System V gABI chapter 5, section "Program Header") |
| `ElfDynamic.FindBaseName` | compiler/elf_builder.h:674-678 | the soname is what the recursive definition yields |
| `ElfDynamic.BaseNameIsLastPart` | compiler/elf_builder.h:674-678 | that is the longest end of the path without a slash |
| `ElfDynamic.BuildHash` | compiler/elf_builder.h:513-541 | one bucket that chains all symbols |
| `ElfDynamic.AddSymbols` | compiler/elf_builder.h:695-731 | dynamic symbols and string table size, by which sections are empty |
| `ElfDynamic.Prepare` | compiler/elf_builder.h:669-772 | the predicted addresses, sizes and symbols are those of the unbounded sums cut to 32 bits |
| `ElfDynamic.WriteOat` | compiler/elf_writer_quick.cc:196-220 | `.rodata` and `.text` have the announced sizes and the addresses that follow from them |
| `ElfDynamic.WriteBss` | compiler/elf_writer_quick.cc:222-230 | the same for `.bss` and the ABI flags |
| `ElfDynamic.WriteDynamic` | compiler/elf_builder.h:774-781 | `.dynstr`, `.dynsym`, `.hash` and `.dynamic` follow |
| `ElfDynamic.WriteElf` | dex2oat/dex2oat.cc:1900-1990 | the calls in the driver's order: the prediction, `.rodata` on the second page, and every section at the address that follows from the sizes before it |
| `ElfFile.HeadersExist` | compiler/elf_builder.h:938-973 | the checks pass for the sections of every oat file: what begins a segment is page-aligned and there are at most 16 entries |
| `ElfFile.WriteElfWithHeaders` | dex2oat/dex2oat.cc:1900-1990 | for all inputs and any further sections, `.shstrtab` last: program headers exist, with an entry for each section that declares one and PT_DYNAMIC with the place and size of `.dynamic` last; everything is mapped exactly on the condition of `SectionsAreMappedIff`, and then so are the extra entries |
| `ElfFile.WriteUnmapped` | compiler/elf_builder.h:936-941 | a written file whose `.rodata` ends at 4 GiB has a section that is not mapped |
| `ElfDynamic.SymbolsAreCounted` | compiler/elf_builder.h:695-731 | the number of dynamic symbols follows from which sections are empty |
| `ElfFile.AddressesAreRightIff` | compiler/elf_builder.h:686-757 | the predicted addresses of `.text`, `.bss`, `.dynstr`, `.dynsym` and `.hash` are those in the section headers exactly if the file is 32-bit or `.hash` begins below 4 GiB |
| `ElfFile.LoadedSizeIsRightIff` | compiler/elf_builder.h:686-781 | `.dynamic`'s predicted address is right exactly if both sizes lead to the same page and the file is 32-bit or the address below 4 GiB; both loaded-size checks pass exactly if the same holds with the loaded size; all from the sizes and the file name |
| `ElfFile.FileNamesFit` | compiler/elf_builder.h:758-772 | file names of up to 255 bytes lead to the same page |
| `ElfFile.LongNameMisplacesDynamic` | compiler/elf_builder.h:758-772 | with a 3922-byte name and no `.bss`, `.dynamic` is not at its predicted address and a loaded-size check fails |
| `ElfFile.WriteLongName` | compiler/elf_builder.h:758-781 | a written file with such a name fails a loaded-size check |
| `ElfFile.WriteWide` | compiler/elf_builder.h:686-781 | a written 64-bit file of 4 GiB with a short name: `.bss` is not where it was predicted, and a loaded-size check fails |
| `ElfFile.SymbolsAreInTheirSectionsIff` | compiler/elf_builder.h:695-731 | all symbols name the section that holds them exactly if `.text` is not empty or there is no `.bss`, and the file is 32-bit or the last symbol below 4 GiB |
| `ElfFile.SymbolsMarkSections` | compiler/elf_builder.h:695-731 | the dynamic symbols are, in order, the whole of `.rodata`, the whole and the last word of `.text`, or the last word of `.rodata` if `.text` is empty, then `.bss` up to its roots, its roots and its last word, all modulo 2^32, and no others |
| `ElfFile.WriteWithoutText` | compiler/elf_builder.h:713-731 | a written file with `.bss` and an empty `.text` has a symbol that names the wrong section |
| `Cfg.CollectTargets` | dexdump/dexdump_cfg.cc:38-72 | the jump targets of all branches and switches, as `dex_pc` plus offset in 32 bits |
| `Cfg.FormBlocks` | dexdump/dexdump_cfg.cc:74-139 | the two tables from pcs to node ids: two neighbours share a block exactly if the first is no branch, switch, return or throw and no instruction jumps to the second; otherwise the second begins the next block and has a node |
| `Cfg.EdgePass` | dexdump/dexdump_cfg.cc:159-289 | fall-through edges, jump edges, common exception edges and the blocks left for the detailed pass |
| `Cfg.DetailedPass` | dexdump/dexdump_cfg.cc:291-331 | the per-pc exception edges of exactly the marked blocks |
| `Cfg.GraphIsFlow` | dexdump/dexdump_cfg.cc:159-273 | edges and in-block adjacency are exactly fall-throughs and jumps |
| `Cfg.GraphIsSuccessorRelation` | runtime/dex_instruction.h:519-558 | they are the successor relation exactly if the flag agrees with the pass on every instruction with a next one that it does not jump to |
| `Cfg.UnusedOpcodeBreaksGraph` | runtime/dex_instruction_list.h:84 | an unused opcode, whose flags are 0, before a nop: the graph connects them, the successor relation does not |
| `Cfg.EachIdIsOneBlock` | dexdump/dexdump_cfg.cc:74-139 | node ids and blocks correspond one to one |
| `Cfg.ExceptionEdgesExact` | dexdump/dexdump_cfg.cc:254-331 | at block level the exception edges are exactly the handlers of instructions in the block that are instruction starts, and every edge leads to the block of its handler |
| `Cfg.MarkedIff` | dexdump/dexdump_cfg.cc:254-266 | a block is left to the detailed pass exactly if one of its instructions lacks a handler of the one before it |
| `CfgDump.BlocksAreRight` | runtime/dex_instruction.h:556-558 | two neighbours share a block exactly if the first is no branch, switch, return or throw and no instruction jumps to the second; otherwise the second begins the next block and has a node |
| `CfgDump.FlowEdgesAreRight` | dexdump/dexdump_cfg.cc:203-273 | the flow edges are exactly those from an instruction to its jump targets and, over a block boundary, to the next one unless the instruction is a return, a throw or an unconditional branch; each names the blocks of its ends |
| `CfgDump.ExceptionEdgesAreRight` | dexdump/dexdump_cfg.cc:254-331 | the exception edges are exactly those from each instruction to its handlers in a block where an instruction lacks a handler of the one before it, and from each block to what its last instruction has kept in common; in other blocks that is all handlers of the block |
| `CfgDump.CommonSpeaksForAllIff` | dexdump/dexdump_cfg.cc:254-266 | in a block without such an instruction, an edge of the whole node holds for every instruction exactly if the last one has no handler that the first one lacks |
| `CfgDump.LateHandlerIsCommon` | dexdump/dexdump_cfg.cc:254-266 | a nop without handlers before an instruction with one: the edge is that of the node |
| `CfgDump.DumpMethodCfg` | dexdump/dexdump_cfg.cc:31-352 | the whole dump: blocks, flow edges and exception edges as the rows above have them, in the fields of the instructions; every instruction is in one block |
| `CatchHandlers.SizeWalk` | dexlayout/dex_ir.cc:60-83 | the size computation stops at the end of the parsed list |
| `CatchHandlers.ReadPairs` | runtime/dex_file.cc:1518-1570 | the typed pairs of an entry and the cursor behind them |
| `CatchHandlers.IterateHandlers` | dexlayout/dex_ir.cc:611-643 | the pairs of any entry, value by value, and the value that ends it as the address of the catch-all if the size is not positive; it catches all exactly if one pair has no type |
| `CatchHandlers.WalkEntry` | dexlayout/dex_ir.cc:658-687 | the same pairs, the catch-all by the sign of the size, and the cursor at the end of the entry |
| `CatchHandlers.ReadingsAgreeIff` | dexlayout/dex_ir.cc:611-643 | this agrees with the sign of the size exactly if the entry catches all or every type is named |
| `CatchHandlers.UnnamedTypeIsReadTwice` | dexlayout/dex_ir.cc:611-643 | an entry on which the readings differ |
| `CatchHandlers.NamedEntriesAreExact` | dexlayout/dex_ir.cc:611-687 | otherwise whatever is filed for an entry is the entry itself |
| `CatchHandlers.FileTry` | dexlayout/dex_ir.cc:611-643 | a try item finds the handler that begins at its offset on file, or files it |
| `CatchHandlers.WalkStep` | dexlayout/dex_ir.cc:645-687 | one round advances by exactly one entry and files it if its offset is not on file |
| `CatchHandlers.AddUnreferenced` | dexlayout/dex_ir.cc:645-687 | the loop finds its list full at the last entry exactly if no two truncated offsets agree; then every entry is on file, otherwise the list is still short there |
| `CatchHandlers.WalkEndsInsideList` | dexlayout/dex_ir.cc:645-652 | the list is full at the last entry exactly if no two truncated offsets agree, however many entries were filed before |
| `CatchHandlers.SmallListsAreDistinct` | dexlayout/dex_ir.cc:650 | lists of up to 64 KiB have no collision |
| `CatchHandlers.SomeListsCollide` | dexlayout/dex_ir.cc:650 | a well-formed list on which the walk is not full at its end |
| `CatchHandlers.WalkColliding` | dexlayout/dex_ir.cc:645-687 | the loop on that list is at the last entry with fewer handlers than the list announces |
| `CatchHandlers.CreateHandlers` | dexlayout/dex_ir.cc:611-687 | for every well-formed list: handlers on file are entries, once each, every try item has the handler that begins at its offset, and the size walk ends at the last byte; every entry is filed exactly if the walk ends inside the list, which is the distinctness of the truncated offsets |
| `CatchEncoding.UlebRoundTrip` | runtime/leb128.h:212-222 | every unsigned 32-bit number reads back, wherever its bytes stand |
| `CatchEncoding.SlebRoundTrip` | runtime/leb128.h:250-261 | every signed 32-bit number reads back |
| `CatchEncoding.SizesAreRight` | runtime/leb128.h:195-210 | the sizes computed by multiplication and shift are the lengths of the encodings |
| `CatchEncoding.WriteUleb` | dexlayout/dex_writer.cc:118-122 | the whole encoding is written |
| `CatchEncoding.WriteSleb` | dexlayout/dex_writer.cc:112-116 | the same for signed numbers |
| `CatchEncoding.WriteHandler` | dexlayout/dex_writer.cc:443-455 | size, types and addresses of one handler |
| `CatchEncoding.HandlerReadsBack` | dexlayout/dex_writer.cc:443-455 | a writable handler reads back with every type, address and its catch-all, wherever its bytes stand |
| `CatchEncoding.ReadsBackIff` | dexlayout/dex_writer.cc:443-455 | a handler reads back exactly if it has a pair, all types but that of a final catch-all are named, and the catch-all flag says whether there is one |
| `CatchEncoding.WriteAndRead` | dexlayout/dex_ir.cc:611-687 | what the writer writes, the try item reader and the walk both return as the handler that was written |

## Left out

- ElfBuilder.MakeProgramHeaders: requires allocated sections before all others, and a file range for every section with an entry of its own, as every caller arranges.
- ElfDynamic.Prepare: sizes of sections and of the string table are 32-bit numbers, as the parameters are; numbers of 64 bits do not wrap.
- OatCode.PlanAndWrite: requires that keys identify code; running offsets are unbounded, while the relative patcher cuts them to 32 bits, which makes no difference before the first code offset that does not fit, where the writing pass has left the plan already (`WritesThePlanIff`); code and thunks in one place are below 4 and 2 GiB; in debuggable apps code-less methods are planned and written once per visit; method headers of duplicates are not compared, since the dedupe key ignores frame size and spill masks.
- OatFile.MethodIsFound: requires that methods which share code share their tables, as the dedupe key has it.
- OatFile.WriteOatFile: covers the file from the class records on, below 4 GiB; dex file records and class offset tables before them enter as the start offset.
- ImageFiles.WriteImages: dex cache arrays are placed before the walk instead of after it; nothing else goes into their bin. Objects appear in one visiting order that is given.
- ImageNative.AssignDexCacheArrays: dex files are distinct, and each has one dex cache and an image; contents of the arrays are not modelled.
- CatchEncoding.WriteHandler: numbers have 32 bits; one handler is written, not the list, in which every handler goes to the offset it was read from.
- DexCacheLayout.ElementsFit: reduction modulo the cache size for method types is that of the dex cache, since the layout has no element offset for them.
- ImageWriter.Writer.CopyAndFixupObject: the copied bytes other than lock word and references, and the fixups by class of object, are not modelled.
- ClassPruning.Pruner.PruneTable: a class table is a list of distinct classes; removal goes by class, while the source removes by descriptor, of which a table has one class each.
- ImageWriter.Writer.SetImageBinSlot: the 32-bit lock word is a value with five states; its read barrier bits are not modelled.
- The type loop of the dex cache pass, whose result depends on the initial contents, and the method and string loops.
- Class tables, pointer arrays and class loaders registered during the walk; contents of copied methods, tables and dex caches.
- The relative patcher, thunk contents, and the patching of instructions; both oat passes use one schedule of thunk sizes.
- Opening, reading, compressing and flushing files; failures of the output stream.
- Debug information, build ids and ABI flag values; symbol names other than their share of the string table.
- Decoding of instructions and switch payloads, and the printed form of the control flow graph.
- Command line handling of the tools.
