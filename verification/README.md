# Verification of pdbg's device tree engine and debug kernels

pdbg debugs IBM POWER processors from the outside. This project models, in Dafny, the parts of it that are hardest to get right and proves what they promise.

* **The flattened device tree engine (libfdt).** A tree lives in one byte buffer as a token stream and a string table (chapter 5 of the Devicetree Specification). The model has a byte layer (`Bytes`, `Memory`, `Structure`), in which `fdt_next_tag` is written as the C code writes it, 32-bit wrap-around included; a forest of properties, NOPs and nodes with its exact encoding (`Structure.At`); one-hole contexts of that forest (`Zipper`), so that an edit is the refilling of a hole and everything around it is visibly unchanged; and the tree that a forest stands for (`Tree`). On these rest the structure check (`Check`, `Full`), walking and lookup (`Walk`, `Lookup`, `Path`), in-place editing (`Edit`, `InPlace`, `Blob`, `Rw`), packing and moving (`Pack`), sequential writing (`Script`, `Sw`) and overlays (`Overlay`, `Merge`, `Phandle`, `Fixup`, `Fit`, `References`, `Local`, `Target`, `Apply`, `Room`).
* **The target tree (libpdbg).** Probing and releasing as a status machine (`Probe`); sorted children, paths and virtual targets (`Device`, `Virtual`).
* **Three kernels.** Instruction ramming (`Ram`), unaligned memory access over aligned devices (`Adu`, `Sbe`), and CRC-4 framing on the FSI bus (`Crc`).

Code that works by changing things step by step is a method with its loops, and is proved equal to a function or against the property itself; blobs, writers, target trees, threads and devices are classes. A node that an operation works on is given twice: by its offset, as in the source, and by a ghost context and forest that say where it is, so that a contract can name the new tree.

`dafny verify dfyconfig.toml` checks the whole project.

## Conventions

* Error codes are the negative FDT error numbers. An endless loop of the source appears as the result `DIVERGES`, and a read or write outside a block or buffer as `READS_OUTSIDE`, `WRITES_OUTSIDE`, `OUTSIDE`, `ReadsOutside` or `ReadsNull`; the contracts say exactly when that happens.
* Header fields of a blob are the fields of `Blob.Header`; the 40 header bytes themselves are not laid out in the buffer.
* Allocation succeeds. Hooks, device answers and faults are parameters of the operations.
* Buffers lie at eight-byte aligned addresses.

## Where the source and its promises differ

* Length words from 2^32 - 12 on wrap in `fdt_next_tag`. `fdt_check_full` then accepts values that lie outside the block, or does not return (`Check.WrapAccepted`, `Check.WrapDiverges`). `Check.LensAreValues` and `Check.CheckIff` give the exact condition.
* `fdt_check_full` accepts a block without any node; `Check.RootOk` says "at most one".
* A blob of 2^31 - 1 bytes passes `fdt_check_header`, but `fdt_ro_probe_` refuses it (`Full.HugeHeader`), so `fdt_check_full` reads the root's name through NULL or answers TRUNCATED for a well-formed blob of that size (`Full.UnprobedIs`).
* `fdt_open_into` keeps the size it needs in an int. Blocks of a blob that the header check accepts can overlap, and then the size can exceed it: the blocks are written outside the buffer (`Pack.OpenWraps`, exact condition in `Pack.OpenOutsideIff`).
* The reply buffer of `sbefifo_operation` has a size that wraps for windows near 2^32 (`Sbe.ReplyRoomWraps`, exact condition in `Sbe.ReplyFitsIff`).
* The room test of `fdt_add_string_` in fdt_sw.c is unsigned; `Sw.StringRoomIff` says exactly when it is right, and `Sw.Writer.Property` exactly when the name is copied outside the buffer.
* The length test of `fdt_setprop_inplace_namelen_partial` wraps (`Rw.PartWraps`); `Rw.PartFitsIff` says exactly when it is right, and `Rw.Fdt.SetpropInplacePartial` when the copy leaves the value. Local fixups read a listed word before that test: `References.FixErr` says exactly when this reads behind the blob.
* `overlay_update_local_references` reads its lists from the blob it changes. A fixup that names the fixup node itself moves lists that are still to be read (`Local.SelfListed`), so the references are what the lists ask for only under `Local.Selfless`, which compares each name below `__local_fixups__` with the node itself. The condition is sufficient; without it the outcome depends on the order of the lists and on the values in them.
* For an offset at or behind the end of the root `fdt_get_path` reads in front of its buffer instead of returning BADOFFSET (`Path.GetPath`), and `fdt_supernode_atdepth_offset` returns NOTFOUND or BADSTRUCTURE (`Path.SupernodeAtDepth`).
* `fdt_rw_probe_` forms 32-bit sums: `Blob.ProbeIsOrdered` says what it accepts, `Blob.ProbeWraps` what it should not.
* A system path can place a target below itself, and then `dt_get_path` never ends (`Virtual.BelowItself`); `Virtual.LinkIff` gives the exact condition.
* A name without unit address also matches a node that has one, so path lookup returns the node a path came from exactly when no earlier sibling matches (`Path.PathRoundTrip`).
* Probing two or more levels below a disabled target fails an assertion, although libpdbg/libpdbg.h says that what is below a disabled target is simply not probed; `Probe.ProbeStuck` gives the exact condition of every failing assertion.
* `ram_putgpr` on r0 and r1 does not stick (`Ram.PutGetGpr`), a fault in `ram_putnia` after its second opcode loses LR (`Ram.PutNiaFault`), and after any fault the last entry of the results array is overwritten.

## Model

| member | source | states |
|---|---|---|
| `Structure.NextTagScan` | libfdt/fdt.c:165-217 | fdt_next_tag, byte by byte, is NextTag: every tag, every error code, the 32-bit wrap of the property length included. |
| `Structure.NextTagProgress` | libfdt/fdt.c:183-217 | An accepted tag advances by at least one word if and only if it is not a property whose length word is 2^32 - 12. |
| `Structure.NextTagAt` | libfdt/fdt.c:165-217 | An encoded token is read as what it is and stepped over exactly. |
| `Structure.NextTagCut` | libfdt/fdt.c:173-212 | A block that ends inside an encoded token gives TRUNCATED inside the tag and BADSTRUCTURE anywhere behind it up to the padding. |
| `Check.ParseSound` | libfdt/fdt.c:165-217 | What parses is the encoding of what it parses to. |
| `Check.ParseComplete` | libfdt/fdt.c:165-217 | Every encoded forest parses back to itself: an encoding has one reading. |
| `Check.CheckLoop` | libfdt/fdt_check.c:38-92 | fdt_check_full's loop over offset, depth and expect_end gives the verdict of CheckTags, including endless walks and reads past the block; for a blob that fdt_ro_probe_ refuses, the verdict of UnprobedTags. |
| `Check.CheckIff` | libfdt/fdt_check.c:38-92 | When no length word wraps, the walk accepts if and only if the block is the encoding of one forest, with properties and NOPs and at most one nameless last node at the top, and all property names resolve. |
| `Check.LensAreValues` | libfdt/fdt_check.c:79-86 | No length word wraps if and only if every property value lies inside the block. |
| `Check.WrapAccepted` | libfdt/fdt.c:193-200 | A family of blocks with wrapping length words is accepted although a value lies outside the block. |
| `Check.WrapDiverges` | libfdt/fdt.c:193-200 | The length word 2^32 - 12 makes the walk never end. |
| `Check.CheckEncoded` | libfdt/fdt_check.c:38-92 | Every encoded forest with a sane top level and resolving names is accepted. |
| `Full.HeaderIff` | libfdt/fdt.c:52-141 | For version 17 fdt_check_header accepts exactly the headers whose blocks lie, as plain integers, between header and end. |
| `Full.NumMemRsv` | libfdt/fdt_ro.c:189-199 | fdt_num_mem_rsv as a loop. |
| `Full.RsvCount` | libfdt/fdt_ro.c:160-199 | If entry n is the first of size zero and lies inside, the count is n. |
| `Full.RsvEnds` | libfdt/fdt_ro.c:160-199 | Conversely, a count n means that entry n is the first of size zero. |
| `Full.CheckFull` | libfdt/fdt_check.c:13-93 | fdt_check_full accepts only sane headers in a large enough buffer whose reservation map ends inside the blob; then its verdict is the walk's. Below the largest size and with no wrapping length word it accepts if and only if the structure block is one well-formed forest; at the largest size if and only if it has neither node nor property. |
| `Full.CheckedForest` | libfdt/fdt_check.c:38-92 | As long as no length word wraps, the walk accepts exactly the blocks that hold one forest with a sane top level and resolving names. |
| `Full.HugeHeader` | libfdt/fdt.c:45-48 | fdt_ro_probe_ refuses exactly one size that fdt_check_header accepts, 2^31 - 1. |
| `Full.UnprobedIs` | libfdt/fdt_check.c:59-84 | At that size the walk ends at the first element that is not a NOP: a node is read through NULL, a property is TRUNCATED. |
| `Full.UnprobedIff` | libfdt/fdt_check.c:38-92 | At that size it accepts exactly the blocks of NOPs. |
| `Walk.NextNodeLoop` | libfdt/fdt.c:243-281 | fdt_next_node as a loop over offset and depth, with and without a depth counter. |
| `Walk.VisitsForest` | libfdt/fdt.c:243-281 | A walk over an encoded forest stops at exactly its nodes in document order with their depths, and leaves the counter as it was. |
| `Walk.VisitsBlock` | libfdt/fdt.c:243-281 | The walk over a whole block visits every node in document order and then reports NOTFOUND. |
| `Lookup.NodeEndLoop` | libfdt/fdt_wip.c:73-81 | fdt_node_end_offset_ as a loop. |
| `Lookup.NodeEndIs` | libfdt/fdt_wip.c:73-81 | A depth-counted walk from a node ends exactly after its matching END_NODE. |
| `Lookup.SubnodeLoop` | libfdt/fdt_ro.c:225-242 | fdt_subnode_offset_namelen as a loop. |
| `Lookup.SubnodeFinds` | libfdt/fdt_ro.c:13-32 | It finds the first child that matches, by its place in the encoded forest, and NOTFOUND exactly when none does. |
| `Lookup.NodenameEq` | libfdt/fdt_ro.c:13-32 | fdt_nodename_eq_ byte by byte: true exactly for a node of that very name, or of that name and an '@' in front of anything where the name has no '@' itself. |
| `Lookup.SubnodeByName` | libfdt/fdt_ro.c:225-242 | The k-th child is found exactly when its name is so called and no earlier child's is; NOTFOUND exactly when none is. |
| `Lookup.SubnodeUnit` | libfdt/fdt_ro.c:26-29 | A child name@unit is found by name exactly when that has no '@' and no earlier child has that name or begins with it and an '@'; a name with '@' finds only an equal name. |
| `Edit.FocusByName` | libfdt/fdt_ro.c:225-242 | The child of a forest that a name picks is the first that is so called, by the children's names. |
| `Lookup.FirstSubnodeIs` | libfdt/fdt.c:283-292 | fdt_first_subnode is the first child, and NOTFOUND exactly when there is none. |
| `Lookup.NextSubnodeLoop` | libfdt/fdt.c:294-309 | fdt_next_subnode as a loop. |
| `Lookup.NextSubnodeIs` | libfdt/fdt.c:294-309 | fdt_next_subnode is the next sibling node, and NOTFOUND exactly when there is none. |
| `Lookup.NextPropLoop` | libfdt/fdt_ro.c:201-223 | nextprop_ as a loop. |
| `Lookup.GetPropLoop` | libfdt/fdt_ro.c:394-422 | The property search as a loop. |
| `Lookup.GetPropIs` | libfdt/fdt_ro.c:338-422 | It finds the first property of that name among the node's leading properties, and NOTFOUND exactly when there is none. |
| `Blob.ProbeIsOrdered` | libfdt/fdt_rw.c:13-40 | A layout is ordered if and only if fdt_rw_probe_ accepts it and none of its sums wraps. |
| `Blob.ProbeWraps` | libfdt/fdt_rw.c:13-40 | A strings size of 2^32 - 1 is accepted although the block is not inside the blob. |
| `Blob.SplicedBlocks` | libfdt/fdt_rw.c:54-95 | A splice in the structure block keeps the other two blocks and everything before and after the spliced piece. |
| `Zipper.SpliceAt` | libfdt/fdt_rw.c:83-95 | Refilling a place of an encoded forest keeps the encoding of everything around it. |
| `Rw.FindString` | libfdt/fdt.c:311-321 | fdt_find_string_: the first place of a name in the strings, or none. |
| `Rw.Fdt.Probe` | libfdt/fdt_rw.c:25-47 | FDT_RW_PROBE and the version it sets. |
| `Rw.Fdt.Splice` | libfdt/fdt_rw.c:54-68 | fdt_splice_: exact error conditions; everything behind the piece moves, nothing before it changes. |
| `Rw.Fdt.SpliceStruct` | libfdt/fdt_rw.c:83-95 | fdt_splice_struct_: the structure block is spliced, reservations and strings are kept. |
| `Rw.Fdt.AppendString` | libfdt/fdt_rw.c:105-116 | fdt_splice_string_ and the copied name: old names keep resolving, the new one resolves. |
| `Rw.Fdt.FindAddString` | libfdt/fdt_rw.c:127-153 | fdt_find_add_string_: reuses a name if and only if it is in the table, otherwise the table is the old one with the name at its end; NOSPACE exactly when it must be added and does not fit. |
| `Rw.Fdt.ResizeProperty` | libfdt/fdt_rw.c:184-200 | fdt_resize_property_: exact errors; the value area has the new size and the old bytes up to it. |
| `Rw.Fdt.AddProperty` | libfdt/fdt_rw.c:202-233 | fdt_add_property_: NOSPACE exactly when name and property do not fit, and then header, strings and structure are as before, a fresh name rolled back. |
| `Rw.Fdt.Setprop` | libfdt/fdt_rw.c:258-289 | fdt_setprop refines the update of the node's property map; every other node and every resolved name stays; NOSPACE exactly when the data does not fit, with nothing changed. |
| `Rw.Fdt.Appendprop` | libfdt/fdt_rw.c:291-316 | fdt_appendprop refines appending to the value in the node's map, with the same frame and exact NOSPACE. |
| `Rw.Fdt.Delprop` | libfdt/fdt_rw.c:318-331 | fdt_delprop takes the first property of that name out of the node, uncovering a later one if there is any; NOTFOUND exactly when there is none. |
| `Edit.UniqueBelow` | libfdt/fdt_rw.c:318-331 | With distinct property names nothing is uncovered: deletion removes the name from the map. |
| `Rw.Fdt.AddSubnode` | libfdt/fdt_rw.c:333-380 | fdt_add_subnode adds one empty first child; EXISTS exactly when a child matches; NOSPACE exactly when it does not fit. |
| `Rw.Fdt.DelNode` | libfdt/fdt_rw.c:382-394 | fdt_del_node removes exactly the bytes of the subtree; the rest is encoded as before. |
| `Rw.Fdt.NopRegion` | libfdt/fdt_wip.c:51-57 | fdt_nop_region_: whole words of FDT_NOP, nothing else touched. |
| `Rw.Fdt.NopNode` | libfdt/fdt_wip.c:83-94 | fdt_nop_node reads as deletion and patches only the node's own bytes, so no other offset moves. |
| `Rw.Fdt.NopProperty` | libfdt/fdt_wip.c:59-71 | fdt_nop_property reads as fdt_delprop with an unchanged header. |
| `Rw.Fdt.SetpropInplacePartial` | libfdt/fdt_wip.c:13-31 | Overwrites part of a value in place: only those bytes change, inside the node's own properties, and the property stays where it is. Exact errors for every index: the copy leaves the value exactly where the sum in the length test wraps to something that fits. |
| `Rw.PartFitsIff` | libfdt/fdt_wip.c:26-27 | The length test is right if and only if its sum does not wrap to something that fits. |
| `Rw.PartWraps` | libfdt/fdt_wip.c:26-27 | One word at index 2^32 - 4 passes the test for a value of any length. |
| `Edit.DroppedReads` | libfdt/fdt_wip.c:59-71 | Cutting a property out and overwriting it with NOPs read the same. |
| `Overlay.ApplyProps` | libfdt/fdt_overlay.c:548-564 | The property loop: the overlay's properties are laid over the target's. |
| `Overlay.ApplyChild` | libfdt/fdt_overlay.c:566-584 | One subnode: added or found, then merged into. |
| `Overlay.ApplyKids` | libfdt/fdt_overlay.c:566-584 | The subnode loop: all children merged in turn. |
| `Overlay.ApplyNode` | libfdt/fdt_overlay.c:542-587 | overlay_apply_node makes the target the recursive merge of itself and the overlay node; NOSPACE exactly when the blob cannot hold the largest size on the way through all its property and node edits, and on success size and strings are exact too; whatever the result, everything outside the target and the target's own offset stay, through all nested splices. |
| `Overlay.PeakBound` | libfdt/fdt_overlay.c:542-587 | A merge never takes more room than the overlay node's own size and its property names. |
| `Room.NodeMeasures` | libfdt/fdt_overlay.c:542-587 | The peak of a merge is the largest partial sum over its edits in order: values grown or shrunk, properties with new names, nodes. It is reached, and nothing on the way is larger. |
| `Overlay.ChildToMerge` | libfdt/fdt_overlay.c:566-578 | The child to go on with: the one that matches, or a new first child; NOSPACE exactly when a new one is needed and does not fit. |
| `Merge.MergePropsIs` | libfdt/fdt_overlay.c:548-564 | With distinct property names the merge is the overlay's map laid over the base's: the overlay wins. |
| `Merge.MergeKidsIs` | libfdt/fdt_overlay.c:566-584 | With distinct sibling names each base child is merged with the one overlay child that matches it or kept as it was, and all others are added in front. |
| `Merge.ChildMerged` | libfdt/fdt_overlay.c:566-584 | Every child of an overlay node is found in the result by its name, as what that name found before, or a new node, with the child merged in. |
| `Merge.MergedAtPath` | libfdt/fdt_overlay.c:542-587 | Every overlay node is found in the result by its names, with the overlay's properties laid over those of the base node that the same names led to; where they led nowhere the node is new and has exactly the overlay's. |
| `Merge.KeptAtPath` | libfdt/fdt_overlay.c:542-587 | A base node that names lead to past the overlay is found by the same names, with everything below it as it was. |
| `Fixup.FindMaxPhandle` | libfdt/fdt_ro.c:114-140 | fdt_find_max_phandle: no node has a larger phandle, and some node has that one unless it is 0. |
| `Phandle.MaxIs` | libfdt/fdt_ro.c:114-140 | The maximum over the tree: above every node's phandle, and reached by one. |
| `Fixup.PhandleAtIs` | libfdt/fdt_ro.c:508-523 | fdt_get_phandle on the bytes: a phandle of one word, without one a linux,phandle of one word, else 0. |
| `Fixup.AddOffset` | libfdt/fdt_overlay.c:101-124 | overlay_phandle_add_offset: NOTFOUND exactly without the property, BADPHANDLE exactly for another length than four, NOPHANDLES exactly when word + delta is 2^32 - 1 or more, otherwise the sum is stored and nothing else changes. |
| `Fixup.AdjustNode` | libfdt/fdt_overlay.c:141-162 | overlay_adjust_node_phandles moves every phandle at or below a node by delta, changes no other value, not even one that a lookup does not see, and no layout; it succeeds exactly when all of them can move, otherwise with the error of the first in document order that cannot. |
| `Phandle.AdjustIff` | libfdt/fdt_overlay.c:101-162 | Moving succeeds if and only if every phandle and linux,phandle of every node is four bytes and its word + delta is below 2^32 - 1; otherwise the first offending property in document order decides: BADPHANDLE for its length, NOPHANDLES for its sum. |
| `Phandle.AdjustMoves` | libfdt/fdt_overlay.c:101-162 | At every node only the two phandle properties change, each by delta and below 2^32 - 1. |
| `References.FixProperty` | libfdt/fdt_overlay.c:239-267 | The inner loop, its list read from the blob being changed: the word at every listed offset moves, up to the first offset that is not inside the value; that one is BADOVERLAY, or a read outside exactly when the word lies behind the blob. |
| `References.FixCell` | libfdt/fdt_overlay.c:240-266 | One listed word, read before it is known to be inside the value: exactly when that reads behind the blob, when it is BADOVERLAY, and otherwise the word moved. |
| `References.UpdateProps` | libfdt/fdt_overlay.c:214-268 | The loop over the properties of a fixup node, read while the tree node changes. |
| `References.UpdateKids` | libfdt/fdt_overlay.c:270-288 | The loop over the subnodes of a fixup node, read while the tree node's children change. |
| `References.UpdateNode` | libfdt/fdt_overlay.c:205-291 | overlay_update_local_node_references, its lists read from the blob it changes, refines FixTree: the tree that the lists ask for, or exactly the source's error; outside the node no byte changes. The condition is that no list names a node that overlaps the lists. |
| `Phandle.FixTreeHits` | libfdt/fdt_overlay.c:205-291 | Every property changes by exactly the offsets that the fixups list for it, over the whole tree. |
| `Fit.FixIff` | libfdt/fdt_overlay.c:205-291 | The second pass succeeds if and only if every fixup node's names lead to a node and each of its lists is whole words, names a property there and points inside its value; otherwise the first fixup node in document order, and in it the first list, that does not fit decides the fault. |
| `Phandle.FixOnce` | libfdt/fdt_overlay.c:239-267 | A word listed exactly once moves exactly once, whatever else is listed. |
| `Phandle.ReferencesKept` | libfdt/fdt_overlay.c:825-833 | With delta the largest base phandle: overlay phandles exceed all base ones, equal and different ones stay so, and a reference listed once names a node afterwards if and only if it named it before. |
| `Local.UpdateLocalReferences` | libfdt/fdt_overlay.c:310-328 | overlay_update_local_references: the lists are those below the node that the path /__local_fixups__ finds; none means nothing to do; otherwise the result or error of FixTree on the whole overlay, and success exactly when all lists fit. |
| `Local.ListsByName` | libfdt/fdt_overlay.c:310-322 | The lists are the contents of the first child of the root called __local_fixups__, and none exactly when no child is called so. |
| `Local.MoveOverlay` | libfdt/fdt_overlay.c:815-833 | The first three steps of fdt_overlay_apply on one blob: after them every overlay phandle exceeds every base one, equal and different ones stay so, and every reference that the overlay's own lists, as they were before, list once names the node it named; otherwise exactly the source's error. Between and after the passes the overlay has changed only in values that a lookup sees. |
| `InPlace.Determined` | libfdt/fdt_overlay.c:141-291 | An overlay changed only in values that a lookup sees is determined by the tree that it reads as, properties that occur twice included. |
| `Local.BothPasses` | libfdt/fdt_overlay.c:141-291 | The first pass moves no list except lists of phandle properties, so the promise holds for the lists as they were before it. |
| `Local.SelfListed` | libfdt/fdt_overlay.c:214-288 | A fixup that names the fixups: read beforehand the lists fit, but the first moves the second behind its value. |
| `Target.NodeByPhandle` | libfdt/fdt_ro.c:681-704 | fdt_node_offset_by_phandle finds the first node in document order with that phandle, and NOTFOUND exactly when there is none. |
| `Target.FindIff` | libfdt/fdt_ro.c:681-704 | The position found is the first in document order whose node has that phandle; none is found exactly when no node has it. |
| `Target.PhandlePosition` | libfdt/fdt_ro.c:681-704 | The offset found and the position found in the tree are the same node. |
| `Target.PathPosition` | libfdt/fdt_ro.c:273-292 | The node that a path leads to on the bytes is the one that first matching children lead to in the tree. |
| `Target.AlongIff` | libfdt/fdt_ro.c:273-292 | A path leads to a position exactly when its names, however many slashes are around them, go down to it, each the first child so called. |
| `Target.Spell` | libfdt/fdt_ro.c:273-292 | Every text is such a path: names with slashes before, between and behind them. |
| `Target.RefillPuts` | libfdt/fdt_overlay.c:542-587 | Refilling the place of a node changes the tree at that node's position and nowhere else. |
| `Target.PutReplaces` | libfdt/fdt_overlay.c:542-587 | The node put at a position is there, every node that is neither above nor below it is as it was, and the nodes above it keep name, properties and number of children. |
| `Apply.TargetOffset` | libfdt/fdt_overlay.c:44-84 | fdt_overlay_target_offset: the offset of the first node in document order that has the target phandle, or without one of the node that the target-path leads to; BADPHANDLE, NOTFOUND and BADOVERLAY exactly under the conditions of Apply.NoTarget on the two properties and the tree. |
| `Apply.DestinationIff` | libfdt/fdt_overlay.c:44-84 | Where a fragment goes is exactly where its two properties and the tree send it (Apply.Goes), and it fails exactly for the reason they give (Apply.NoTarget). |
| `Apply.MergeFragment` | libfdt/fdt_overlay.c:608-631 | One fragment: skipped without __overlay__, otherwise merged into its target with every other node of the base kept, with exact errors. |
| `Apply.MergeFragments` | libfdt/fdt_overlay.c:604-634 | overlay_merge: the base becomes MergeAll of itself and the fragments in order, each target looked up in the base as it then is; NOSPACE exactly when the base cannot hold the largest size on the way, otherwise the error of the first fragment without target. |
| `Apply.MergeAllIs` | libfdt/fdt_overlay.c:604-634 | The merge is a run over the fragments that hold an overlay: each replaces the node where it goes in what the fragments before it have left, and nothing else; it fails exactly where the first fragment goes nowhere, with that error. |
| `Apply.OneMerge` | libfdt/fdt_overlay.c:604-634 | With a single fragment only the node where it goes has changed, into its merge with the overlay. |
| `Apply.AllPeak` | libfdt/fdt_overlay.c:604-634 | All fragments together never take more room than the overlay's own size and its property names. |
| `Room.AllMeasure` | libfdt/fdt_overlay.c:604-634 | The same for all fragments, each going into what the ones before it have left. |
| `Apply.ApplyOverlay` | libfdt/fdt_overlay.c:815-866 | fdt_overlay_apply for overlays without __fixups__ and __symbols__, on two live blobs: after success the base is the merge of all fragments of an overlay whose phandles exceed every base phandle and whose listed references name what they named; otherwise exactly the source's error, of the first pass, of the second pass on what the first one left, or of the merge; the base is untouched if the overlay's own passes fail, and the magic is erased as in the source. The merge is given as a run: each fragment into the node where its target phandle or path sends it, every other node kept. |
| `Apply.PassesUnique` | libfdt/fdt_overlay.c:825-833 | The overlay after either pass is determined by the overlay before it, every property value included. |
| `Sw.Create` | libfdt/fdt_sw.c:109-141 | fdt_create_with_flags: exact errors, an empty blob in the memrsv state. |
| `Sw.MoveBoth` | libfdt/fdt_sw.c:170-179 | The two copies of fdt_resize clobber nothing for any placement of the two buffers. |
| `Sw.Writer.Resize` | libfdt/fdt_sw.c:148-186 | fdt_resize keeps header part, structure and string tail for every placement and overlap, in both states; NOSPACE exactly when they do not fit. |
| `Sw.Writer.AddReservemapEntry` | libfdt/fdt_sw.c:188-206 | One more reservation, with exact errors. |
| `Sw.Writer.FinishReservemap` | libfdt/fdt_sw.c:208-217 | The empty entry and the struct state. |
| `Sw.Writer.GrabSpace` | libfdt/fdt_sw.c:94-107 | fdt_grab_space_: succeeds exactly when the space is there. |
| `Sw.Writer.NodeBegin` | libfdt/fdt_sw.c:219-234 | fdt_begin_node logs one BEGIN_NODE call, with exact errors. |
| `Sw.Writer.NodeEnd` | libfdt/fdt_sw.c:236-248 | fdt_end_node logs one END_NODE call, with exact errors. |
| `Sw.StringRoomIff` | libfdt/fdt_sw.c:250-260 | The unsigned room test of fdt_add_string_ is right if and only if strings and new name are no larger than the buffer. |
| `Sw.Writer.AddString` | libfdt/fdt_sw.c:250-265 | fdt_add_string_: all earlier names keep resolving, the new one resolves at its negative offset; the copy starts in front of the buffer exactly when strings and name are larger than the buffer. |
| `Sw.Writer.PlaceName` | libfdt/fdt_sw.c:276-308 | Name de-duplication: a name is reused exactly when it is there and the blob was not created without it. |
| `Sw.Writer.Property` | libfdt/fdt_sw.c:293-335 | fdt_property logs the property; NOSPACE exactly when name and property do not fit, with the name rolled back; exactly when the room test wraps the name is copied outside. |
| `Sw.Writer.CorrectNames` | libfdt/fdt_sw.c:358-372 | The walk of fdt_finish corrects the name offset of every property and touches nothing else. |
| `Sw.Writer.Finish` | libfdt/fdt_sw.c:337-384 | fdt_finish: a complete blob whose tokens say the logged calls through the relocated strings. |
| `Sw.FinishedTree` | libfdt/fdt_sw.c:337-384 | Any balanced list of calls finishes to a blob that decodes to exactly the tree described; with one nameless root the walk of fdt_check_full accepts it. |
| `Full.FinishedChecks` | libfdt/fdt_check.c:13-93 | Such a blob meets every condition of fdt_check_full, and its reservations read back and are counted exactly. |
| `Script.BuildIs` | libfdt/fdt_sw.c:219-335 | The tokens of a balanced list of calls are the encoding of one forest that reads as the calls say. |
| `Path.PathOffset` | libfdt/fdt_ro.c:250-293 | fdt_path_offset_namelen on a path that starts with a slash, as its loops. |
| `Path.GetPath` | libfdt/fdt_ro.c:542-592 | fdt_get_path with its pushes and pops in the buffer: the path, NOSPACE or BADOFFSET for offsets inside the root, and a read in front of the buffer if and only if the offset is at or behind the end of the root; an offset inside the root that is no node's is BADOFFSET. |
| `Path.GetPathExact` | libfdt/fdt_ro.c:542-592 | For a node: NOSPACE exactly when its path and the NUL do not fit, otherwise the text is its path. |
| `Path.PathRoundTrip` | libfdt/fdt_ro.c:250-293 | fdt_path_offset(fdt_get_path(n)) is n if and only if, on no level of the way down, an earlier sibling matches the name looked up there. |
| `Path.SupernodeAtDepth` | libfdt/fdt_ro.c:594-630 | fdt_supernode_atdepth_offset as a loop; the end of the root counts as a node of depth -1, and an offset behind it gives BADSTRUCTURE; one inside it that is no node's gives BADOFFSET. |
| `Path.SupernodeIs` | libfdt/fdt_ro.c:594-630 | It returns the true ancestor, NOTFOUND exactly for depths below the node, and the node's depth. |
| `Path.ParentOffset` | libfdt/fdt_ro.c:632-652 | fdt_parent_offset is the node just above, and NOTFOUND for the root. |
| `Pack.PackBlocks` | libfdt/fdt_rw.c:396-417 | fdt_packblocks_ lays the three blocks end to end intact, in place or apart. |
| `Pack.PackBlob` | libfdt/fdt_rw.c:487-500 | fdt_pack keeps tree and reservations, never grows, and leaves exactly PackHeader. |
| `Pack.PackedTwice` | libfdt/fdt_rw.c:487-500 | fdt_pack is idempotent: the header it leaves is one that it accepts and leaves as it is; a header is left as it is exactly when its blocks lie end to end. |
| `Pack.PackAgain` | libfdt/fdt_rw.c:487-500 | Packing again changes no byte. |
| `Pack.OpenInto` | libfdt/fdt_rw.c:419-485 | fdt_open_into keeps tree and reservations for ordered and misordered layouts and any placement of the buffers. In plain integers: blocks in order need room for the blob; others whose size fits an int need room for that size, and behind the blob's own end as well where the buffers overlap; otherwise NOSPACE. A write outside exactly where the size does not fit an int and the tests let it through. |
| `Pack.OpenErrIs` | libfdt/fdt_rw.c:448-469 | The same as a statement about the header and the two addresses alone. |
| `Pack.NewSizeIff` | libfdt/fdt_rw.c:454-458 | The size test is right if and only if the size fits an int, or the test refuses it all the same. |
| `Pack.OpenOutsideIff` | libfdt/fdt_rw.c:454-474 | Blocks to be put in order are written outside some buffer if and only if the size they need does not fit an int. |
| `Pack.OpenWraps` | libfdt/fdt_rw.c:454-474 | A sane header with two overlapping blocks that is written outside every buffer. |
| `Probe.Targets.Probe` | libpdbg/target.c:686-755 | pdbg_target_probe, its assertions as a failed result; every target it turns enabled and that has a hook has run it. |
| `Probe.Targets.Release` | libpdbg/target.c:758-772 | pdbg_target_release as its recursive loop over the children; every target it turns released and that has a hook has run it. |
| `Probe.ProbeLogs` | libpdbg/target.c:738-752 | A returning probe has run the hook of every target that it turned enabled and that has one, no release hook, and no hook of a target that has none. |
| `Probe.ReleaseLogs` | libpdbg/target.c:758-772 | A release has run the hook of every target that it turned released and that has one, and no other hook. |
| `Probe.ProbeKeeps` | libpdbg/target.c:686-755 | A returning probe keeps the invariant and changes the target and its ancestors only, forward only. |
| `Probe.ReleaseKeeps` | libpdbg/target.c:758-772 | A release keeps the invariant, releases only below the target, and leaves nothing enabled there. |
| `Probe.RunsAreSafe` | libpdbg/target.c:686-772 | Over every run of returning calls: enabled implies all ancestors enabled; no hook runs twice; probe hooks run below enabled ancestors; release hooks run when nothing below is enabled; every target that is enabled or released has run the hooks it has. |
| `Probe.ProbeStuck` | libpdbg/target.c:691-754 | A probe fails an assertion if and only if a condition on the nearest decided ancestor, its distance and the hooks holds; otherwise the resulting status is given. |
| `Probe.ProbeExact` | libpdbg/target.c:686-755 | The status of every target after a returning probe: the target and its ancestors up to the nearest decided one get what a probe of each would give, all others keep theirs. |
| `Device.CmpTrans` | libpdbg/device.c:133-154 | dt_cmp_subnodes is transitive on names with hex unit addresses. |
| `Device.CmpBack` | libpdbg/device.c:133-154 | dt_cmp_subnodes is antisymmetric. |
| `Device.HexIs` | libpdbg/device.c:140-147 | What strtoul computes digit by digit is the positional sum over the digits in base 16. |
| `Device.CmpNumbers` | libpdbg/device.c:140-150 | Units of one base name compare exactly as those numbers do. |
| `Device.CmpTexts` | libpdbg/device.c:152-153 | All other names compare as the first byte in which their texts differ, a prefix before what it begins. |
| `Device.Place` | libpdbg/device.c:168-183 | The search for the place: a duplicate is reported if and only if there is one. |
| `Device.Tree.Attach` | libpdbg/device.c:156-189 | dt_attach_node inserts exactly the child, keeps the children sorted, the units of one base name in ascending numeric order behind the name without unit, and refuses exactly duplicates. |
| `Device.SortedAscends` | libpdbg/device.c:133-154 | In sorted children the units of one base name ascend by number, behind the name without unit. |
| `Device.SplitText` | libpdbg/device.c:223-253 | __dt_path_split takes a name off a path as base name and unit address. |
| `Device.SplitAny` | libpdbg/device.c:223-253 | Any component, after any number of slashes, is split into what is in front of its first '@' and what is behind it, up to the next slash. |
| `Device.PathLength` | libpdbg/device.c:201-206 | The first loop of dt_get_path: the length. |
| `Device.GetPath` | libpdbg/device.c:191-221 | dt_get_path, filled from the end of the buffer, is the path of the target's place in the system tree. |
| `Device.WalkPath` | libpdbg/device.c:255-298 | dt_find_by_path with its second try at the linked target. |
| `Device.FindsItself` | libpdbg/device.c:270-284 | In sorted children a child's own name finds that child, because a plain name comes before its units. |
| `Device.PathRoundTrip` | libpdbg/device.c:191-298 | dt_find_by_path(dt_get_path(n)) is target_to_real(n) for every target of a tree. |
| `Virtual.LinkIff` | libpdbg/device.c:654-658 | dt_link_virtual keeps the system tree a tree if and only if the place is not below the real target's own place. |
| `Virtual.GrownFormed` | libpdbg/device.c:156-189 | Attaching a new virtual target below any target keeps the system tree a tree. |
| `Virtual.NewVirtual` | libpdbg/device.c:616-652 | dt_new_virtual makes a target if and only if the path has a last name, the path in front of it leads to a target and no child there compares equal; then the new target is a child of that target, with that name and in order, and every other target is as it was. |
| `Virtual.InitVirtual` | libpdbg/device.c:660-697 | pdbg_targets_init_virtual at one target: the place is what the path finds, or else the target made for it; it is linked exactly when it is virtual; a virtual target found is never linked already; and the result is a tree if and only if the place is not below the target. |
| `Virtual.BelowItself` | libpdbg/device.c:660-697 | A target /a with the system path /a/b: nothing is found, b can be made, and whatever is made for that path leads dt_get_path from a to a. |
| `Ram.RamInstructions` | libpdbg/chip.c:119-175 | With clean save and restore steps r0 and r1 keep their values whether all opcodes run or one faults, results before the fault are kept, and the rest of the thread is exactly what those opcodes made of it. |
| `Ram.GetGpr` | libpdbg/chip.c:180-188 | ram_getgpr reads the entry value of any register and changes nothing. |
| `Ram.PutGpr` | libpdbg/chip.c:190-197 | ram_putgpr sets r2 to r31 and leaves everything as it was for r0 and r1. |
| `Ram.PutGetGpr` | libpdbg/chip.c:180-197 | Put then get returns the value if and only if the register is r2 or above or held it already. |
| `Ram.PutNia` | libpdbg/chip.c:216-227 | ram_putnia sets NIA and nothing else, LR included, whether mtnia reads r0 or LR. |
| `Ram.PutNiaFault` | libpdbg/chip.c:216-227 | If ram_putnia faults after k opcodes, LR is kept if and only if k is at most 2 or LR held the value. |
| `Ram.PutGetSpr` | libpdbg/chip.c:229-246 | What ram_putspr put ram_getspr gets, and no other register changes. |
| `Adu.Read` | libpdbg/adu.c:115-168 | adu_read returns exactly memory[start..start+size) for every start, size and block size, and fails if and only if a block of the window is faulty. |
| `Adu.Write` | libpdbg/adu.c:232-273 | adu_write's requests cover the range once each, carry the right bytes in the lanes of their addresses, and change nothing else. |
| `Adu.ReadLanes` | libpdbg/adu.c:140-142 | Byte swap and shift bring a block from its lanes to the front. |
| `Adu.WriteLanes` | libpdbg/adu.c:258-262 | Copy, byte swap and shift bring a block into the lanes of its address. |
| `Adu.WriteThenRead` | libpdbg/adu.c:115-273 | What was written is read back, with any two block sizes. |
| `Sbe.Window` | libsbefifo/cmd_memory.c:41-42 | The aligned window contains the range, is whole doublewords and less than one alignment larger on each side. |
| `Sbe.MemGetPush` | libsbefifo/cmd_memory.c:27-66 | The request asks for the aligned window; exact errors. |
| `Sbe.Context.ParseOutput` | libsbefifo/operation.c:84-143 | sbefifo_parse_output: result, status and FFDC for every reply, and exactly when it reads past the reply. |
| `Sbe.ParseReply` | libsbefifo/operation.c:84-143 | A well-formed reply with status 0 gives back its data whatever FFDC comes with it; with another status it gives that status and all of the FFDC. |
| `Sbe.MemGetPull` | libsbefifo/cmd_memory.c:68-115 | The copy loop and the shift bring the bytes asked for to the front; they stay inside the buffers exactly when the reply's byte count is whole doublewords, is inside the reply and covers what is shifted. |
| `Sbe.MemGetReply` | libsbefifo/cmd_memory.c:143-156 | The second half of sbefifo_mem_get, for any reply: exact errors; if the device answers with the window, its size and the framing, the result is exactly the size bytes at the unaligned address. |
| `Sbe.ReplyFails` | libsbefifo/cmd_memory.c:143-150 | A well-formed reply with another status than 0 is ESBEFIFO, whatever it holds. |
| `Sbe.MemGet` | libsbefifo/cmd_memory.c:117-156 | sbefifo_mem_get against a device with memory: exactly the size bytes at an address of any alignment, for every window whose reply buffer does not wrap; EINVAL in the two cases of the request; for every other window the result is that of the reply cut to the buffer. |
| `Sbe.ReplyFitsIff` | libsbefifo/operation.c:164 | The whole reply fits the buffer if and only if the buffer's size does not wrap in 32 bits. |
| `Sbe.ReplyRoomWraps` | libsbefifo/operation.c:164 | A window of 2^32 - 0x8000 bytes gets a reply buffer of four. |
| `Crc.Crc4Bits` | libpdbg/bmcfsi.c:172-183 | The bit expressions of crc4 are the shift register of x^4 + x^2 + x + 1. |
| `Crc.SendSeq` | libpdbg/bmcfsi.c:241-270 | fsi_send_seq sends the payload and then its CRC, the start bit counted in. |
| `Crc.ReadResp` | libpdbg/bmcfsi.c:273-325 | fsi_read_resp: timeout, CRC error if and only if the residue is not zero, otherwise response code and data. |
| `Crc.ResponseBits` | libpdbg/bmcfsi.c:296-322 | Behind the start bit an ACK takes len + 4 bits and every other code 11; the CRC runs over all of them, and the data are those between the code and the last four. |
| `Crc.ResponseEnds` | libpdbg/bmcfsi.c:296-322 | No bit behind these makes a difference. |
| `Crc.ResponseLate` | libpdbg/bmcfsi.c:283-293 | Without a start bit among 512 the answer is a timeout. |
| `Crc.FrameAccepted` | libpdbg/bmcfsi.c:254-267 | Start bit, payload of any length and the sender's own CRC bits end at zero. |
| `Crc.FrameReads` | libpdbg/bmcfsi.c:295-324 | A frame read back is accepted and gives the payload's data. |
| `Crc.FrameAnswered` | libpdbg/bmcfsi.c:273-325 | A response that holds a sent frame behind its start bit, of len + 4 bits for an ACK and 11 for any other code, is read as that frame's code and data. |
| `Crc.FlippedResidue` | libpdbg/bmcfsi.c:172-183 | A frame with flipped bits is accepted if and only if the pattern of flips leaves no remainder. |
| `Crc.OddDetected` | libpdbg/bmcfsi.c:314-317 | Every odd number of flipped bits is detected. |
| `Crc.BurstDetected` | libpdbg/bmcfsi.c:314-317 | Every burst of at most four bits is detected. |
| `Crc.PolynomialUnseen` | libpdbg/bmcfsi.c:172-183 | The burst bound is tight: a five-bit burst, the polynomial itself, goes unseen. |
| `Structure.NextTag` | libfdt/fdt.c:165-217 | An accepted tag lies inside the block and is one of the five; next offsets are whole words; an error goes with FDT_END. |
| `Rw.Fdt.InsertSubnode` | libfdt/fdt_rw.c:350-375 | The second half of fdt_add_subnode_namelen: the new node goes behind the parent's properties, NOSPACE exactly when it does not fit. |
| `Rw.Fdt.AddNew` | libfdt/fdt_rw.c:258-289 | The adding half of fdt_setprop: the node's map gains the value, or NOSPACE exactly when property and name do not fit, and nothing changes. |
| `Edit.SkipRunIs` | libfdt/fdt_rw.c:353-358 | The loop over properties and NOPs stops at the first node or the end of the parent. |
| `Fixup.AdjustKids` | libfdt/fdt_overlay.c:155-159 | The loop over the subnodes while they change in place: every one adjusted and kept in order, or the first error returned. |
| `References.UpdateProp` | libfdt/fdt_overlay.c:214-267 | One property of a fixup node: BADOVERLAY for a ragged list or a missing property, otherwise its words moved. |
| `References.UpdateChild` | libfdt/fdt_overlay.c:270-288 | One subnode of a fixup node: BADOVERLAY when the tree has no child of that name; otherwise that child, and no byte outside it, fixed up, or its error. |
| `Path.PopOne` | libfdt/fdt_ro.c:557-562 | One component popped off the buffer; popping the only one reads in front of it. |
| `Path.PathTurn` | libfdt/fdt_ro.c:557-574 | One turn of the loop: deeper components popped, the new one pushed exactly when its parents are there and it fits; at depth -1 the pops leave the buffer. |
| `Device.MatchChild` | libpdbg/device.c:270-284 | The first child that matches a component. |
| `Device.FirstBy` | libpdbg/device.c:270-284 | A component without unit address finds the first child of that base name, one with a unit alone the first child of that unit, one with both the first child of that name; none exactly when there is none. |
| `Adu.ReadBlock` | libpdbg/adu.c:137-144 | One block out of the register is that block of memory. |
| `Adu.Prepare` | libpdbg/adu.c:247-264 | The next request: a whole block exactly where aligned and fitting, else one byte, the input bytes in the lanes of the address. |
| `Sbe.CopyEights` | libsbefifo/cmd_memory.c:96-107 | The copy loop, without ECC and TAG bytes, copies exactly the window. |
| `Crc.RunParity` | libpdbg/bmcfsi.c:172-183 | A run changes the parity of the remainder exactly when it has an odd number of set bits. |

## Left out

- FDT versions below 17, path aliases, `__fixups__` strings and overlay symbols: corner paths around the application that is proved.
- fdt_set_name, fdt_add_mem_rsv, fdt_del_mem_rsv and the string-list helpers: they would only add easier splices and searches of the same kind.
- Full.CheckFull: for version 17 and later headers.
- Blob.ProbeIsOrdered: for version 17 and later headers of complete trees.
- Rw.Fdt.Setprop: starts where FDT_RW_PROBE has passed, like every editing operation here; the probe is `Rw.Fdt.Probe`. Values and names are bounded so that the C code's int sums do not overflow.
- Rw.Fdt.AddNew: the bounds of Rw.Fdt.Setprop.
- Rw.Fdt.InsertSubnode: the bounds of Rw.Fdt.Setprop.
- Local.UpdateLocalReferences: for overlays in which no fixup names the fixup node; `Local.SelfListed` shows what happens otherwise.
- References.UpdateNode: under the byte-level form of that condition, `References.Clear`; on failure it says where nothing has changed, not how far the pass got.
- References.UpdateProps: the condition of References.UpdateNode.
- References.UpdateKids: the condition of References.UpdateNode.
- References.UpdateProp: the condition of References.UpdateNode; on failure it does not say which words had moved.
- References.UpdateChild: the condition of References.UpdateNode; on failure it does not say how far the child got.
- Fixup.AdjustKids: on failure it does not say which subnodes had been adjusted.
- References.FixProperty: for a list outside the tree node's own properties.
- Overlay.ApplyNode: for overlay blocks of at most 0x7fff0000 bytes, so that sizes fit an int; on failure it says that the target still encodes some node and that nothing outside has changed, not how far the merge got.
- Apply.ApplyOverlay: for overlays without `__fixups__` and `__symbols__` nodes, in two separate blobs for which the probes have passed, under the conditions of Overlay.ApplyNode and Local.UpdateLocalReferences.
- Apply.TargetOffset: a target path that goes through aliases is given the result ALIASED, about which nothing is said.
- Merge.MergedAtPath: for overlays whose sibling names do not match one another on any level and whose properties are distinct; where they do, a later overlay node can change what an earlier name finds.
- Merge.KeptAtPath: the same names as Merge.MergedAtPath.
- Merge.ChildMerged: the same names as Merge.MergedAtPath, on one level.
- Local.MoveOverlay: the condition of Local.UpdateLocalReferences.
- Path.PathRoundTrip: for names that are not empty and hold no slash, below a nameless root.
- Path.PathOffset: for paths that start with a slash, not aliases.
- Path.GetPath: for names without a slash, below a nameless root.
- Path.SupernodeAtDepth: for blocks with one root when the offset is not inside it.
- Path.PathTurn: names without a slash, as in Path.GetPath.
- Pack.PackBlob: for blobs whose reservation map ends before the structure block; the source's own probe looks at one entry only.
- Pack.OpenInto: for blobs of version 17 and later whose reservation map ends inside them.
- Probe.Targets.Probe: trees without linked virtual targets and without the Odyssey special cases; hooks do not change statuses.
- Device.Tree.Attach: names have hex unit addresses of at most sixteen digits, the names on which the order is one.
- Device.PathRoundTrip: for linked targets that share no base name among their children, as the lookup needs; that the system tree is a tree is what `Virtual` is about.
- Virtual.InitVirtual: one target, the walk over all of them is left out; links with the root are not said to be trees.
- Virtual.NewVirtual: for paths whose last name has a hex unit address or none.
- Ram.RamInstructions: instructions are given by what their opcodes say, not by their bits; setting up and leaving ram mode is not modelled. ram_getcr, ram_putcr and ram_getmem are not modelled.
- Adu.Write: what the chip-specific register programming does with a request is not modelled beyond "tsize bytes in the lanes of the address".
- Sbe.MemGetPull: without the ECC and TAG flags.
- Sbe.CopyEights: without the ECC and TAG flags, and for whole doublewords.
- Sbe.MemGet: timeouts are not modelled.
- Crc.ReadResp: line levels, clocking and polling are not modelled; the bit stream is a parameter.
- libcronus, the proxy, i2c, kernel and host backends, SCOM translation tables, thread control, HTM, the gdb server and option parsing: thin transport, finite tables or hardware polling.
