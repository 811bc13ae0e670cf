# ma_blocks block engine in Dafny

ma_blocks is a canvas of image blocks. Blocks can be chained together. The chained set can be
boxed into a group and unboxed again, dragged as one, or resized as one. The canvas reflows the
blocks into rows: groups come first, then images. This project models that engine and proves
what it promises about the blocks. It models three parts:

- **The block entity** (`src/block.rs`). `ImageBlock` is the datatype `Blocks.ImageBlock`. Its
  constructors, size bookkeeping, layout comparator, group naming, counter reset and animation
  toggle are functions on that value. The corner-handle resize loop over `&mut [ImageBlock]` is a
  method over an `array` (`Resizing.HandleBlocksResizing`).
- **`BlockManager`** (`src/block_manager.rs`). This is the class `Manager.BlockManager`. Its four
  fields are `blocks`, `rememberedChains`, `animationAccessOrder` and `nextBlockId`. Each method
  states its whole new state as a function of the old one. The modules `Chains`, `Grouping`,
  `Removal`, `Drop`, `Reflow`, `LayoutSort`, `Reorder`, `AnimationCache` and `Queries` define
  those functions and prove the invariants about them:
  - row packing stays inside the canvas;
  - groups and images are kept in separate rows;
  - reordering only permutes the blocks;
  - remembered chains stay disjoint;
  - boxing, unboxing and dropping neither lose nor duplicate a block;
  - the animation cache stays bounded.
- **The app's actions** (`src/main.rs`). This is the class `App.MaBlocksApp`. Its methods are:
  - the box/unbox toggle, a state machine over `last_unboxed_ids` and `last_boxed_id`;
  - the drag step;
  - counter and resize-handle handling;
  - the click dispatch.

  Each toggle method is proved equal to a function on an abstract view (`AppState.AppView`), and
  the state machine's properties are lemmas about those functions. The pure helpers
  `parse_remembered_chains`, `scaled_size` and `block_to_data` are in `AppHelpers`.

How the source's types are rendered:

| Source | Model |
|:---|:---|
| `f32` coordinates | `real` |
| `as i32` | `Geometry.TruncToI32`, which truncates toward zero and saturates |
| `Uuid` | `nat`; the nil uuid is `0` |
| fresh uuids | parameters |
| iteration order of a `HashSet` | an explicit `order` parameter |
| constants | `Constants`, transcribed from `src/constants.rs` |

The app keeps one invariant, `AppInvariant.AllAspects`: every block of every tree has a non-zero
aspect ratio. `reflow` divides by that ratio, so the invariant keeps it defined. Every app action
is proved to preserve it.

## Model

| member | source | states |
|---|---|---|
| Blocks.NewBlock | src/block.rs:148-193 | image block: aspect w/h when h > 0, else 1; preferred == image size; unchained, counter 0, at the origin, not animating |
| Blocks.NewGroup | src/block.rs:196-235 | group: DEFAULT_GROUP_SIZE square, aspect 1, full sequence, no frames, unchained, counter 0 |
| Blocks.OuterSize | src/block.rs:248-253 | outer size is the image size plus 2·BLOCK_PADDING on each axis |
| Blocks.SetPreferredSize | src/block.rs:255-258 | sets the preferred and current size to the given size and nothing else |
| Blocks.ResetToPreferredSize | src/block.rs:260-262 | current size := preferred size, nothing else changes |
| Blocks.ConstrainToWidth | src/block.rs:264-272 | unchanged when width ≤ max + EPSILON; else width = max(max, 1) and height·aspect = width; only the size changes (aspect kept); never grows for max ≥ 1 |
| Blocks.StopAnimation | src/block.rs:316-324 | playback off, frame 0, elapsed 0, nothing else changes |
| Blocks.ToggleAnimation | src/block.rs:306-314 | no-op for ≤ 1 frame; otherwise flips playback, and turning it off is StopAnimation |
| Blocks.ToggleAnimationTwice | src/block.rs:306-324 | toggling a stopped block twice returns it unchanged |
| Blocks.ResetCountersRecursive | src/block.rs:326-331 | every counter in the tree is 0 and nothing else in the tree changes |
| Blocks.SubtreeIdsSplit | src/block_manager.rs:142-147 | a tree's id list is its id followed by its descendants' ids in preorder |
| Blocks.CmpLayout | src/block.rs:333-351 | groups sort before non-groups whatever their positions |
| Blocks.CmpLayoutKeys | src/block.rs:333-351 | Less/Equal/Greater exactly when the key (category, truncated row, x) is less/equal/greater |
| Blocks.CmpLayoutAntisymmetric | src/block.rs:333-351 | swapping the arguments reverses the ordering |
| Blocks.CmpLayoutTransitive | src/block.rs:333-351 | the layout order is transitive, and strictly so when one step is strict |
| Blocks.SplitPath | src/block.rs:360-364 | path split at '/', at least one segment, none holding '/' |
| Blocks.SplitJoin | src/block.rs:360-364 | joining the segments gives back the path |
| Blocks.LastNormal | src/block.rs:360-364 | the chosen segment is one of the segments and is not empty, "." or ".." |
| Blocks.FileName | src/block.rs:360-364 | a file name is non-empty, not "." or "..", and holds no '/' |
| Blocks.NatToString | src/block.rs:358 | decimal digits, leading '0' only for zero |
| Blocks.NatToStringRoundTrip | src/block.rs:358 | the digits read back as the number |
| Blocks.GroupNameFor | src/block.rs:353-370 | "Empty Group" for 0 children, "Box: <file name or unnamed>" for 1, "Group of N" otherwise |
| Blocks.UpdateGroupName | src/block.rs:353-370 | no-op on non-groups; on a group only the name changes, to GroupNameFor(children) |
| Blocks.GroupNameCountsChildren | src/block.rs:357-358 | for > 1 children the name is "Group of " followed by digits whose value is the child count |
| Blocks.CountChained | src/block_manager.rs:252-254 | at most the length of the list; zero iff no block is chained |
| Blocks.BlockIndexInSlice | src/block.rs:550-552 | the first index holding the id, or None iff no block has it |
| Geometry.RectFromMinSize | src/block.rs:238-240 | the rect starts at the position and has the given width and height |
| Geometry.RectFromCenterSize | src/block.rs:601-603 | the rect has the given centre and size |
| Geometry.TruncToZero | src/block.rs:338-339 | truncation toward zero, for both signs |
| Geometry.TruncToI32 | src/block.rs:338-339 | within the i32 range, and equal to truncation toward zero inside that range |
| Geometry.TruncToI32Monotone | src/block.rs:338-339 | the cast is monotone |
| Geometry.TruncIsNotFloor | src/block.rs:338-339 | the cast differs from floor on negative rows (-0.5 gives 0, floor gives -1) |
| Chains.ChainedIds | src/block_manager.rs:257-263 | exactly the ids of the chained blocks |
| Chains.ChainedIndices | src/block_manager.rs:266-273 | exactly the chained indices, in increasing order |
| Chains.DisjointFrom | src/block_manager.rs:290-291 | keeps exactly the chains disjoint from the set, and keeps pairwise disjointness |
| Chains.RememberedDisjoint | src/block_manager.rs:286-298 | remembering a set of ≥ 2 ids appends it last and keeps the chains pairwise disjoint; a smaller set changes nothing |
| Chains.Elements | src/block_manager.rs:191 | exactly the ids of the list, as a set |
| Chains.Unchained | src/block_manager.rs:295-297 | every block unchained, nothing else changes |
| Chains.FirstChainWith | src/block_manager.rs:312-316 | the first remembered chain that holds the id, or None iff no chain holds it |
| Chains.ToggledChain | src/block_manager.rs:302-331 | toggling changes only chained flags and keeps the length |
| Chains.ToggleChainedBlock | src/block_manager.rs:328-330 | on → off unchains only that block |
| Chains.ToggleWithoutChain | src/block_manager.rs:325-327 | off → on with no remembered chain chains only that block |
| Chains.ToggleWithChain | src/block_manager.rs:318-324 | off → on chains exactly the blocks of the first remembered chain that holds the id, plus those already chained |
| Chains.ClearThenToggleRestores | src/block_manager.rs:286-331 | after clearing a chain of ≥ 2 blocks, toggling one of them restores the whole chain |
| Grouping.MinCorner | src/block_manager.rs:356-360 | the component-wise minimum of the positions, attained by some block or F32_MAX |
| Grouping.Reversed | src/block_manager.rs:363 | the reverse of the sequence |
| Grouping.BoxedGroup | src/block_manager.rs:365-377 | the new group has the given id, children and derived name; it sits at the children's minimum corner and is unchained |
| Grouping.Boxed | src/block_manager.rs:345-381 | the list after `box_chained`: unchanged when nothing is chained, else the new group of the chained blocks followed by the unchained ones; no contract of its own, its properties are BoxedNothing, BoxedShape, BoxedMembers and BoxedOwnership |
| Grouping.BoxedNothing | src/block_manager.rs:346-350 | boxing with nothing chained changes nothing |
| Grouping.BoxedShape | src/block_manager.rs:345-381 | boxing puts at index 0 a group of the chained blocks in their original order, followed by the unchained blocks in order |
| Grouping.BoxedMembers | src/block_manager.rs:345-381 | the group's children and the rest are a split of the old blocks into chained and unchained |
| Grouping.BoxedOwnership | src/block_manager.rs:345-381 | boxing keeps every id in the forest and adds only the group id |
| Grouping.UnboxedShape | src/block_manager.rs:385-404 | unboxing a group puts its children, unchained and contiguous, at the first non-group index; a non-group is just removed |
| Grouping.UnboxedOwnership | src/block_manager.rs:385-404 | unboxing loses exactly the group id (or the removed non-group's tree) and nothing else |
| Grouping.Unboxed | src/block_manager.rs:385-404 | the list after `unbox_group(index)`: the block at `index` removed and, for a group, its children spliced back unchained at the first non-group index; no contract of its own, its properties are UnboxedShape and UnboxedOwnership |
| Grouping.BoxThenUnbox | src/block_manager.rs:345-404 | unboxing the new group returns the chained ids in order and the unchained blocks as a multiset |
| Grouping.BoxedThenUnboxed | src/block_manager.rs:345-404 | box followed by unbox is the unchained blocks with the former chain spliced in at the first non-group index |
| Grouping.MoveSingle | src/block_manager.rs:426-444 | moving one block into a group shortens the top level by one |
| Grouping.MoveSingleShape | src/block_manager.rs:426-444 | the target group gains the block (unchained, not dragging) as last child and is renamed; all other blocks keep their order |
| Grouping.MoveSingleOwnership | src/block_manager.rs:426-444 | no id is lost or duplicated in the forest |
| Grouping.MoveSingleIds | src/block_manager.rs:426-444 | the top-level ids are the old ones without the moved block, in order |
| Grouping.MoveSingleTopIds | src/block_manager.rs:426-444 | top-level ids stay unique and are exactly the old ones except the moved block |
| Grouping.AdoptedIds | src/block_manager.rs:437-443 | the adopting group's tree gains exactly the moved block's tree |
| LayoutSort.InsertionPoint | src/block_manager.rs:561 | the first position whose block x sorts strictly before |
| LayoutSort.Sort | src/block_manager.rs:561 | the stable sort by `cmp_layout`; keeps the length; SortSorted, SortPermutation and SortStable state what it promises |
| LayoutSort.Insert | src/block_manager.rs:561 | inserting adds exactly x to the multiset |
| LayoutSort.SortSorted | src/block_manager.rs:561 | `sort_by(cmp_layout)` yields layout order |
| LayoutSort.SortPermutation | src/block_manager.rs:561 | the sort is a permutation |
| LayoutSort.SortStable | src/block_manager.rs:561 | blocks with equal layout keys keep their relative order |
| LayoutSort.SortOfSorted | src/block_manager.rs:561 | an already sorted list is unchanged |
| LayoutSort.InsertSorted | src/block_manager.rs:561 | inserting keeps a list sorted |
| LayoutSort.InsertKeyClass | src/block_manager.rs:561 | an inserted block lands behind every block with its key |
| LayoutSort.KeyClass | src/block_manager.rs:561 | the subsequence of blocks sharing a given layout key |
| LayoutSort.SortedGroupsFirst | src/block.rs:334-336 | in layout order every group precedes every non-group |
| Queries.MaxBlockHeight | src/block_manager.rs:458-464 | the largest preferred height of an image block, or 0 when there are none |
| Queries.FindGroupAtPos | src/block_manager.rs:447-451 | the first group, other than the excluded id, whose rect contains the point; None iff there is none |
| Queries.AnyDragging | src/block_manager.rs:610-612 | true iff some block is being dragged |
| Reflow.InnerWidth | src/block_manager.rs:468 | max(width, MIN_CANVAS_INNER_WIDTH) |
| Reflow.MaxImageWidth | src/block_manager.rs:470 | the inner width less the padding, at least MIN_BLOCK_SIZE |
| Reflow.Sized | src/block_manager.rs:472-475 | each block is reset to its preferred size and constrained: only the size changes; never wider than preferred or than the maximum, except for EPSILON |
| Reflow.PlaceAll | src/block_manager.rs:481-502 | placing changes only positions |
| Reflow.ReflowChangesOnlyGeometry | src/block_manager.rs:467-503 | reflow changes only size and position, and keeps order and membership |
| Reflow.Reflowed | src/block_manager.rs:467-503 | `reflow` on a list: every block sized, then the rows placed; keeps the length; the bounds, separation, row and idempotence lemmas below are about it |
| Reflow.PlaceAllIgnoresPositions | src/block_manager.rs:481-502 | placement does not depend on the old positions |
| Reflow.ReflowIgnoresGeometry | src/block_manager.rs:467-503 | reflow depends only on preferred sizes, order and width, not on old sizes or positions |
| Reflow.ReflowIdempotent | src/block_manager.rs:467-503 | reflowing twice gives the same blocks as reflowing once |
| Reflow.PlaceOne | src/block_manager.rs:492-501 | one placement keeps the cursor invariant and leaves the block clear of every block placed before |
| Reflow.PlaceAllSeparated | src/block_manager.rs:481-502 | placed blocks never overlap one another or earlier blocks |
| Reflow.PlaceAllBounds | src/block_manager.rs:481-502 | each placed block starts at or after the padding and ends inside the row limit unless it starts a row |
| Reflow.PlaceAllCategoryRows | src/block_manager.rs:483-489 | a change between group and image starts a new row |
| Reflow.SizedDimensions | src/block_manager.rs:472-475 | sizing keeps sizes non-negative |
| Reflow.ReflowBounds | src/block_manager.rs:467-503 | after reflow x, y ≥ CANVAS_PADDING and the right edge ≤ CANVAS_PADDING + inner width (+ EPSILON) |
| Reflow.ReflowSeparated | src/block_manager.rs:481-502 | after reflow no two blocks overlap and y is non-decreasing along the list |
| Reflow.ReflowCategoryRows | src/block_manager.rs:483-500 | where neighbours differ in category, the second is at x = CANVAS_PADDING on a strictly lower row |
| Reorder.ShouldInsertBeforeIsLayoutOrder | src/block_manager.rs:591-596 | within one category, should_insert_before is exactly cmp_layout's Less |
| Reorder.ShouldInsertBeforeExamples | src/block_manager.rs:626-647 | the four cases the source's tests check |
| Reorder.FirstNonGroup | src/block_manager.rs:548-551 | the index of the first non-group; every block before it is a group |
| Reorder.ShouldInsertBefore | src/block_manager.rs:591-596 | the (truncated row, x) test of `should_insert_before`; ShouldInsertBeforeIsLayoutOrder and ShouldInsertBeforeExamples state what it decides |
| Reorder.FirstInsertBefore | src/block_manager.rs:573-587 | the first index in the range that the leader should precede |
| Reorder.InsertIndex | src/block_manager.rs:567-588 | a group leader's index is ≤ the group boundary, an image leader's is ≥ it |
| Reorder.FindInsertIndex | src/block_manager.rs:567-588 | the loop computes InsertIndex |
| Reorder.MovedPart | src/block_manager.rs:518-530 | the drained run: the leader, or every chained block when the leader is chained |
| Reorder.KeptPart | src/block_manager.rs:518-530 | the blocks that stay |
| Reorder.PartsPermutation | src/block_manager.rs:518-530 | the moved and kept parts split the blocks |
| Reorder.Splice | src/block_manager.rs:556-559 | the run inserted contiguously at k, the rest in order around it, as a multiset union |
| Reorder.Arranged | src/block_manager.rs:507-562 | with a leader id that is not present the blocks are left exactly as they are |
| Reorder.LeaderMoves | src/block_manager.rs:532-536 | the leader is always in the moved run, so this empty-run branch is unreachable |
| Reorder.ArrangedPermutation | src/block_manager.rs:506-562 | reordering is a permutation |
| Reorder.ArrangedPlacement | src/block_manager.rs:538-559 | the moved run is contiguous, keeps its order, and sits at the insert index within the sorted remaining blocks |
| Reorder.SplicePlacement | src/block_manager.rs:548-559 | groups before a group run, images after an image run, and the run between the neighbours it should follow and precede |
| Reorder.ArrangedWithoutLeader | src/block_manager.rs:560-562 | without a leader it is a stable sort into layout order |
| Reorder.ArrangedReflowable | src/block_manager.rs:506-562 | reordering keeps the blocks reflowable |
| Reorder.ReorderedAndReflowed | src/block_manager.rs:506-564 | a missing leader is a complete no-op, with no sort and no reflow |
| Removal.RemovedAt | src/block_manager.rs:123-127 | the list without index i, others in order |
| Removal.RemoveWithChildrenOwnership | src/block_manager.rs:137-156 | removal loses exactly the removed tree's ids |
| Removal.CascadeOwnership | src/block_manager.rs:161-201 | a cascade removes exactly the chained trees and returns every chained id |
| Removal.CascadeHas | src/block_manager.rs:169-188 | every chained top-level id is in the removed list |
| Removal.RemovalCleanup | src/block_manager.rs:190-198 | no removed id stays in the access order or in a remembered chain; the chains stay disjoint |
| Drop.DropChainAgrees | src/block_manager.rs:411-419 | when the target is not in the chain the as-written drop never panics and equals the corrected one |
| Drop.DropChainCounterexample | src/block_manager.rs:411-419 | the concrete chained target where the as-written drop panics or moves the target group into an image |
| Drop.DropChainOwnership | src/block_manager.rs:411-419 | the corrected chain drop loses no id in the forest |
| Drop.DropChainTopIds | src/block_manager.rs:411-419 | top-level ids stay unique; what is left is the target and every non-dropped id |
| Drop.DropChainAsWritten | src/block_manager.rs:411-419 | the chain loop as written: every id of the iteration order, the target's own included, is moved into the block then holding the target id; `None` where the index panics; DropChainAgrees and DropChainCounterexample are about it |
| Drop.DropChain | src/block_manager.rs:411-419 | the chain loop with the target's own id skipped; DropChainOwnership, DropChainTopIds and DropChainPlacement are about it |
| Drop.DropIntoGroup | src/block_manager.rs:407-423 | `drop_into_group`: the single move for an unchained block, else the corrected chain loop over the iteration order; DropIntoGroupFacts is about it |
| Drop.Lookup | src/block_manager.rs:84-86 | the block `index_of` finds is a top-level block holding the id |
| Drop.AdoptIds | src/block_manager.rs:426-444 | a target adopting trees as its last children owns its own ids followed by theirs, in order |
| Drop.ChainTreesIds | src/block_manager.rs:411-419 | the trees the loop moves hold exactly the ids of the iteration order that are at the top level, the target's excepted |
| Drop.DropChainPlacement | src/block_manager.rs:411-419 | the target becomes the target with the moved trees appended as children, in the loop's order, and renamed; every other top-level block is an old one outside the chain, unchanged and in its order |
| Drop.DropChainedPlacement | src/block_manager.rs:411-419 | with the order listing the chain: the target adopts the old chained top-level blocks other than itself, and the blocks outside the chain stay as they were |
| Drop.DropSinglePlacement | src/block_manager.rs:420-422 | an unchained drop: the target adopts the dragged block alone, and the other blocks stay as they were |
| Drop.DropIntoGroupIds | src/block_manager.rs:407-423 | the drop keeps every forest id, keeps top-level ids unique, and takes exactly the moved ids off the top level |
| Drop.DropIntoGroupPlacement | src/block_manager.rs:407-423 | the drop makes the moved trees, which are old top-level blocks holding exactly the taken ids, the target's last children; the rest stays in order |
| Drop.DropIntoGroupFacts | src/block_manager.rs:406-423 | drop-into-group keeps every id and top-level ids unique; the dragged block, or every chained block but the target, leaves the top level and becomes (in the loop's order) the target's last children, none dragged or chained, so the target's tree gains exactly their ids; the name is recomputed; every other top-level block stays as it was, in its order |
| AnimationCache.Without | src/block_manager.rs:221 | exactly the order without the id; unchanged when absent |
| AnimationCache.Touched | src/block_manager.rs:221-222 | the access order with the id moved to, or added at, the most recent end; MarkedLast and MarkedMembers state what it keeps |
| AnimationCache.MarkedOrder | src/block_manager.rs:219-229 | the access order after `mark_animation_used`: Touched, less its front entry when it overflows; MarkedLast, MarkedMembers, MarkedBounded and EvictsOldest are about it |
| AnimationCache.WithoutAll | src/block_manager.rs:151-153 | exactly the order without any of the ids |
| AnimationCache.WithoutNoDuplicates | src/block_manager.rs:221 | removal keeps the order duplicate-free |
| AnimationCache.Evicted | src/block_manager.rs:224-227 | the evicted id, if any, is an old entry other than the marked one |
| AnimationCache.MarkedLast | src/block_manager.rs:219-223 | the marked id is last and appears exactly once |
| AnimationCache.MarkedMembers | src/block_manager.rs:219-229 | the entries are the old ones except the evicted one, plus the marked id |
| AnimationCache.MarkedBounded | src/block_manager.rs:219-229 | duplicate-free and ≤ MAX_CACHED_ANIMATIONS entries is preserved |
| AnimationCache.EvictsOldest | src/block_manager.rs:224-227 | on overflow the front entry is evicted |
| AnimationCache.PurgedBlock | src/block_manager.rs:234-238 | frames cut to 1, not a full sequence, playback stopped at frame 0 |
| AnimationCache.Purged | src/block_manager.rs:232-240 | `purge_animation_frames` on the top-level list; keeps the length; PurgeOnlyTarget states which block changes |
| AnimationCache.PurgeOnlyTarget | src/block_manager.rs:232-240 | only the first top-level block with the id changes, and only if it is a full sequence with > 1 frame |
| AnimationCache.MarkedBlocks | src/block_manager.rs:219-229 | blocks untouched when nothing is evicted |
| Resizing.ChainedWidth | src/block.rs:612 | max(h·aspect, MIN_BLOCK_SIZE) |
| Resizing.LeaderResized | src/block.rs:580-604 | the block under the handle, re-centred on its old centre with width LeaderWidth and height width / aspect; LeaderWidthCases and RecentredFacts are about it |
| Resizing.FollowerResized | src/block.rs:609-622 | another chained block re-centred on its own centre with the leader's height and width ChainedWidth(height, own aspect); ResizeFollower is about it |
| Resizing.LeaderWidth | src/block.rs:566-596 | the leader's new width is ≥ MIN_BLOCK_SIZE |
| Resizing.LeaderWidthCases | src/block.rs:580-591 | the width comes from the dominant delta axis, through the height and aspect when y dominates |
| Resizing.RecentredFacts | src/block.rs:599-604 | the new rect keeps the centre, and the size is the preferred size |
| Resizing.Resized | src/block.rs:555-627 | an unknown id is a no-op |
| Resizing.ResizedElements | src/block.rs:561-625 | each block is the resized leader, a resized follower, or unchanged |
| Resizing.ResizeUntouched | src/block.rs:606-625 | blocks that are not followers are unchanged |
| Resizing.ResizeFollower | src/block.rs:609-622 | a follower takes the leader's height and width ChainedWidth(h, own aspect), centred on its old centre |
| Resizing.HandleBlocksResizing | src/block.rs:555-627 | the in-place loop over the array computes Resized |
| Resizing.ResizeLeader | src/block.rs:561-604 | computes the leader's new block |
| Resizing.PropagateHeight | src/block.rs:606-625 | the propagation loop resizes exactly the other chained blocks |
| Manager.PlaceBlock | src/block_manager.rs:483-501 | one loop step of reflow: the slot and the advanced cursor |
| Manager.MinPosition | src/block_manager.rs:356-360 | the loop computes the minimum corner of the taken blocks |
| Manager.CollectForestIds | src/block_manager.rs:142-147 | the loop collects the preorder ids of the forest |
| Manager.CollectChildIds | src/block_manager.rs:142-147 | the recursion appends the preorder ids of the children |
| Manager.BlockManager.constructor | src/block_manager.rs:29-36 | empty blocks, chains and access order, next id 0 |
| Manager.BlockManager.AllocateBlockId | src/block_manager.rs:73-77 | returns the counter and increments it |
| Manager.BlockManager.Push | src/block_manager.rs:113-115 | appends the block |
| Manager.BlockManager.Insert | src/block_manager.rs:118-120 | inserts the block at the index |
| Manager.BlockManager.Remove | src/block_manager.rs:123-127 | removes and returns the block and forgets its id in the access order |
| Manager.BlockManager.RemoveById | src/block_manager.rs:130-132 | removes the first block with the id; no-op returning None when absent |
| Manager.BlockManager.ForgetAll | src/block_manager.rs:151-153 | drops every removed id from the access order |
| Manager.BlockManager.RemoveWithChildren | src/block_manager.rs:137-156 | removes the tree and returns its id then its descendants in preorder |
| Manager.BlockManager.TakeChained | src/block_manager.rs:352-362 | removes the chained blocks in reverse index order and returns them in that order |
| Manager.BlockManager.RemoveCascade | src/block_manager.rs:161-201 | unchained: as RemoveWithChildren; chained: removes every chained block and drops intersecting chains |
| Manager.BlockManager.Clear | src/block_manager.rs:204-207 | no blocks and an empty access order |
| Manager.BlockManager.PurgeAnimationFrames | src/block_manager.rs:232-240 | blocks become Purged |
| Manager.BlockManager.MarkAnimationUsed | src/block_manager.rs:219-229 | the order becomes MarkedOrder and the evicted block is purged |
| Manager.BlockManager.SetRememberedChains | src/block_manager.rs:281-283 | replaces the remembered chains |
| Manager.BlockManager.ClearChainGroup | src/block_manager.rs:286-298 | unchains all blocks and remembers the chained set |
| Manager.BlockManager.ToggleChain | src/block_manager.rs:302-331 | blocks become ToggledChain |
| Manager.BlockManager.EnforceChainConstraints | src/block_manager.rs:334-338 | leaves the whole state unchanged |
| Manager.BlockManager.BoxChained | src/block_manager.rs:345-381 | blocks become Boxed; returns nil and keeps the counter when nothing is chained, else returns the group id and bumps the counter |
| Manager.BlockManager.UnboxGroup | src/block_manager.rs:385-404 | blocks become Unboxed; returns the children's ids |
| Manager.BlockManager.MoveSingleIntoGroup | src/block_manager.rs:426-444 | blocks become MoveSingle |
| Manager.BlockManager.DropIntoGroup | src/block_manager.rs:407-423 | blocks become the corrected drop |
| Manager.BlockManager.Reflow | src/block_manager.rs:467-503 | blocks become Reflowed |
| Manager.BlockManager.ResizeAll | src/block_manager.rs:472-475 | the sizing loop gives Sized |
| Manager.BlockManager.PlaceRows | src/block_manager.rs:477-502 | the placement loop gives PlaceAll |
| Manager.BlockManager.ReorderAndReflow | src/block_manager.rs:506-564 | blocks become ReorderedAndReflowed |
| Manager.BlockManager.MoveRun | src/block_manager.rs:507-559 | drains, sorts and splices the moved run: Arranged |
| Manager.BlockManager.SpliceRun | src/block_manager.rs:538-559 | sorts the kept blocks and inserts the run at the insert index |
| Manager.BlockManager.Drain | src/block_manager.rs:518-530 | empties the list into the moved and kept parts |
| Manager.BlockManager.InsertRun | src/block_manager.rs:557-559 | inserts the run at k |
| Manager.BlockManager.ResetAllCounters | src/block_manager.rs:603-607 | every tree's counters are zero, and nothing else changes |
| AppHelpers.ParseChain | src/main.rs:1223-1226 | exactly the ids that parse |
| AppHelpers.ParseRememberedChains | src/main.rs:1219-1230 | every kept chain has ≥ 2 ids |
| AppHelpers.ParseKeepsLargeChains | src/main.rs:1219-1230 | a chain is kept iff its parsed ids number ≥ 2 |
| AppHelpers.SerializeRememberedChains | src/main.rs:1232-1238 | every id written with the string conversion, shape kept |
| AppHelpers.ParseWrittenChain | src/main.rs:1223-1236 | a written chain parses back to its id set |
| AppHelpers.RememberedChainsRoundTrip | src/main.rs:1219-1238 | parse after serialize gives back the remembered chains |
| AppHelpers.ScaleFactor | src/main.rs:1266-1268 | 0 < scale ≤ 1, both scaled dimensions ≤ MAX_BLOCK_DIMENSION, and the bound is tight |
| AppHelpers.ScaledSizeKeepsAspect | src/main.rs:1265-1270 | one scale for both axes: the aspect ratio is kept |
| AppHelpers.ScaledSize | src/main.rs:1265-1270 | `scaled_size`: the size times ScaleFactor; ScaledSizeKeepsAspect, ScaledSizeBounds, ScaledSizeFits and ScaledSizeIdempotent are about it |
| AppHelpers.ScaledSizeBounds | src/main.rs:1265-1270 | never upscales, and both dimensions are ≤ MAX_BLOCK_DIMENSION |
| AppHelpers.ScaledSizeFits | src/main.rs:1265-1270 | a size that already fits is unchanged |
| AppHelpers.ScaledSizeIdempotent | src/main.rs:1265-1270 | scaling twice is scaling once |
| AppHelpers.BlockToData | src/main.rs:1198-1217 | every saved field copied, and children converted in order |
| AppHelpers.BlockToDataIds | src/main.rs:1198-1217 | the saved tree has the same ids in preorder |
| AppHelpers.PickHandleQuadrant | src/main.rs:1030-1035 | the handle is the quadrant of the pointer relative to the centre |
| AppHelpers.PickHandle | src/main.rs:1030-1035 | the corner handle of the pointer's quadrant relative to the centre; PickHandleQuadrant states it |
| AppInvariant.AllAspectsReflowable | src/block.rs:264-272 | non-zero aspects make every width reflowable |
| AppInvariant.ReflowedAspects | src/block_manager.rs:467-503 | reflow keeps the invariant |
| AppInvariant.UnchainedAspects | src/block_manager.rs:295-297 | unchaining keeps the invariant |
| AppInvariant.ToggledAspects | src/block_manager.rs:302-331 | toggling a chain keeps the invariant |
| AppInvariant.BoxedAspects | src/block_manager.rs:345-381 | boxing keeps the invariant |
| AppInvariant.UnboxedAspects | src/block_manager.rs:385-404 | unboxing keeps the invariant |
| AppInvariant.MarkedAspects | src/block_manager.rs:219-240 | marking and purging keep the invariant |
| AppState.ChainMatching | src/main.rs:515-521 | exactly the blocks whose id is listed become chained, and nothing else changes |
| AppState.MatchingWithoutMatch | src/main.rs:515-527 | with no match the blocks are unchanged |
| AppState.MatchingAspects | src/main.rs:515-521 | chaining matches keeps the invariant |
| AppState.ChainedGroups | src/main.rs:552-557 | exactly the chained groups, in order |
| AppState.UnboxSingle | src/main.rs:551-571 | acts iff exactly one chained group; no change otherwise |
| AppState.Rebox | src/main.rs:509-528 | no change when it does not act |
| AppState.Box | src/main.rs:594-597 | box then reflow, remember the new group, forget the unboxed ids; keeps AllAspects; BoxFacts states the new view |
| AppState.UnboxAt | src/main.rs:541-547 | remember the children's ids, unbox, reflow, forget the boxed group; keeps AllAspects; UnboxAtFacts states the new view |
| AppState.ToggleCompact | src/main.rs:574-598 | `toggle_compact_group` on the view; keeps AllAspects; the Toggle lemmas below state each case and the two- and three-toggle round trips |
| AppState.UnboxLast | src/main.rs:531-548 | no change when it does not act |
| AppState.BoxFacts | src/main.rs:493-497 | box: a group of the chained blocks at index 0, the rest unchained; last_boxed_id set, last_unboxed_ids cleared, counter + 1 |
| AppState.BoxedFacts | src/block_manager.rs:345-381 | the boxed list: length, group at 0, unchained rest, nothing chained |
| AppState.UnboxAtFacts | src/main.rs:541-547 | unbox: the ids are the others plus the children; last_unboxed_ids is the children's ids, last_boxed_id cleared |
| AppState.ToggleIdle | src/main.rs:577-586 | with nothing chained and nothing remembered the toggle does nothing |
| AppState.ToggleBoxesChained | src/main.rs:593-597 | with chained blocks and not exactly one chained group, it boxes them and records the group |
| AppState.ToggleIsBox | src/main.rs:588-597 | that case is exactly Box |
| AppState.ToggleUnboxesSingleGroup | src/main.rs:588-591 | with exactly one chained group it unboxes that group, even if images are chained too |
| AppState.ToggleAfterBox | src/main.rs:577-586 | right after a box the toggle unboxes the recorded group |
| AppState.ToggleTwiceUnboxes | src/main.rs:573-598 | toggling twice returns the same blocks, unchained, and remembers the chain to rebox |
| AppState.ToggleTwiceIsUnbox | src/main.rs:573-598 | two toggles are box then unbox at index 0 |
| AppState.ToggleThriceReboxes | src/main.rs:573-598 | a third toggle reboxes the same blocks into the new group |
| AppState.ToggleReboxes | src/main.rs:577-580 | with nothing chained and remembered ids on the canvas it reboxes them |
| AppState.ToggleIsRebox | src/main.rs:509-528 | that case is chain-the-matches then Box |
| AppState.MatchingChains | src/main.rs:515-527 | a match leaves something chained, so the box goes ahead |
| App.WrapI32 | src/main.rs:1014 | two's-complement reduction into the i32 range; identity inside it |
| App.Incremented | src/main.rs:1014 | counter + 1, wrapping at I32_MAX |
| App.Decremented | src/main.rs:1021 | (counter − 1).max(0): never negative |
| App.CounterRoundTrip | src/main.rs:1014-1021 | up then down restores a non-negative counter |
| App.CounterAfter | src/main.rs:1010-1023 | after a secondary click it is non-negative; with no counter click it is unchanged |
| App.Interacted | src/main.rs:1010-1023 | keeps the length |
| App.InteractedChanges | src/main.rs:1010-1023 | only chained flags and that block's counter change |
| App.InteractedAspects | src/main.rs:1010-1023 | the interaction keeps the invariant |
| App.ResizeStart | src/main.rs:1025-1041 | the resize state records the id, the pointer and the rect, with the handle of the pointer's quadrant |
| App.Dragged | src/main.rs:1086-1108 | keeps the length |
| App.DragMovesChainRigidly | src/main.rs:1086-1108 | the leader lands at the new position; chained others keep their offset to it; all others stay; only positions change |
| App.DraggedAspects | src/main.rs:1086-1108 | the drag keeps the invariant |
| App.ClickOutcomeFor | src/main.rs:973-995 | ctrl toggles the chain; a skeleton requests its load; a full sequence toggles playback; otherwise nothing |
| App.BoxView | src/main.rs:493-497 | the app state after the box step is Box of the old one |
| App.MaBlocksApp.constructor | src/main.rs:174-198 | the fresh app: empty manager, no resize, working width CANVAS_WORKING_WIDTH, nothing remembered |
| App.MaBlocksApp.ReflowBlocks | src/main.rs:474-476 | blocks become Reflowed at the working width |
| App.MaBlocksApp.ClearChainGroup | src/main.rs:482-485 | the manager's clear, and skip_chain_cancel reset |
| App.MaBlocksApp.ToggleChainForBlock | src/main.rs:487-490 | the manager's toggle, and skip_chain_cancel set |
| App.MaBlocksApp.BoxGroup | src/main.rs:493-497 | box then reflow; returns the new id or nil |
| App.MaBlocksApp.UnboxGroup | src/main.rs:499-502 | unbox then reflow |
| App.MaBlocksApp.ChainMatchingBlocks | src/main.rs:515-521 | the loop chains exactly the listed ids and reports whether any matched |
| App.MaBlocksApp.TryReboxLastUnboxed | src/main.rs:509-529 | the state becomes Rebox |
| App.MaBlocksApp.BoxAndRemember | src/main.rs:524-527 | the state becomes Box |
| App.MaBlocksApp.UnboxAndForget | src/main.rs:541-547 | the state becomes UnboxAt |
| App.MaBlocksApp.TryUnboxLastBoxed | src/main.rs:531-549 | the state becomes UnboxLast |
| App.MaBlocksApp.UnboxSingleChainedGroup | src/main.rs:551-572 | the state becomes UnboxSingle |
| App.MaBlocksApp.ToggleCompactGroup | src/main.rs:574-598 | the state becomes ToggleCompact |
| App.MaBlocksApp.DragBlock | src/main.rs:1086-1108 | the drag loop gives Dragged |
| App.MaBlocksApp.HandleBlockInteraction | src/main.rs:997-1045 | blocks become Interacted; resizing starts exactly on a secondary press over the block, away from the controls and with a pointer; returns true iff a counter was clicked |
| App.MaBlocksApp.HandleBlockClick | src/main.rs:973-995 | the state per outcome: chain toggled, nothing, load requested, or playback toggled with the animation marked used only when now playing |

## Left out

- Rendering: `ImageBlock::render`, `block_control_rects`, `BlockControlHover` hit-testing,
  textures, `color_from_uuid` and the colour fields. These are painting. The hover state arrives
  as `App.ControlHover`.
- `update_animation` and `time_until_next_frame`: wall-clock frame timing with textures.
- Floating point. Coordinates are `real`, so the NaN and infinity fallbacks of the resize code
  (src/block.rs:593-595) and of `partial_cmp` in `cmp_layout` have no counterpart.
- Blocks.ConstrainToWidth: requires a non-zero aspect ratio (`CanConstrain`) because it divides by
  it. The app keeps that invariant (`AppInvariant.AllAspects`). A zero-width image (aspect 0) is
  outside the model: `ImageBlock::new` accepts it, but the app invariant `AllAspects` excludes it.
- Resizing.Resized: requires the leader to have a non-zero aspect (`LeaderHasAspect`) for the same
  reason.
- Manager.BlockManager.Reflow: requires `Reflowable` (every preferred size can be constrained) for
  the same reason.
- Manager.BlockManager.ResizeAll: takes the canvas width as a ghost parameter next to the maximum
  image width it actually uses.
- AppHelpers.ParseRememberedChains: `Uuid::parse_str` and `to_string` are function parameters. The
  round trip assumes only that parsing undoes printing.
- LayoutSort.Sort: the standard library's stable sort is modelled as a stable insertion sort. Only
  its observable contract is claimed: sorted, a permutation, stable.
- Drop.DropIntoGroup: a `HashSet`'s iteration order is an explicit `order` parameter. The manager
  uses the corrected drop (see Findings).
- AnimationCache.PurgeOnlyTarget: like the source, purging looks only at top-level blocks. An
  evicted id inside a group keeps its frames, so the frame bound covers top-level blocks only.
- Chains.ToggledChain: the source's guard against an empty block list is unreachable once
  `index < len` holds, so it is not modelled.
- Reorder.Arranged: the branch for an empty moved run is kept as written.
  `Reorder.LeaderMoves` shows it cannot be taken.
- App.Incremented: `counter += 1` overflows at `i32::MAX`. This is modelled as the release build's
  wrap-around; a debug build panics.
- App.MaBlocksApp.DragBlock: the pointer, scroll and zoom arithmetic of `process_block_drag` that
  produces the new position is left out. The new position is a parameter.
- App.MaBlocksApp.HandleBlockInteraction: the world-space pointer `(m_pos - canvas_origin) / zoom`
  is a parameter.
- App.MaBlocksApp.HandleBlockClick: the skeleton case returns `LoadRequested(path)`. The decode
  thread (`trigger_image_load`) is I/O and is left to the caller.
- The rest of `process_block_drag` is not part of this model: auto-scrolling, drag start and stop,
  and the drop into a group when a drag ends. The manager's `DropIntoGroup` is modelled, but its
  call from the drag is not.
- The final `chained_count > 0` test of `toggle_compact_group`: it always holds on that path, so
  `AppState.ToggleCompact` boxes directly.
- Accessors with no logic are plain field reads or sequence indexing: `blocks`, `blocks_mut`,
  `len`, `is_empty`, `block_ids`, `next_block_id`, `get`, `get_mut`, `get_by_index`,
  `get_by_index_mut`, `can_chain`, `remembered_chains`. `index_of` is `Blocks.BlockIndexInSlice`.
- Session save and load are left out, along with file dialogs, serde JSON, eframe storage,
  auto-save, zoom and scroll input, the image loader (src/image_loader.rs) and directory setup
  (src/paths.rs). `block_to_data` is modelled, but its colour field is not.
- Uuid generation: fresh ids are parameters.
- The "nesting depth at most 2" rule is not enforced by the code. `box_chained` also absorbs
  chained groups, so the rule is neither modelled nor proved.

## Findings

| source | as written | input that shows it | evidently intended | confidence | as-written member | corrected member |
|---|---|---|---|---|---|---|
| src/block_manager.rs:407-423 | dropping a chained block moves every chained id into the target with `move_single_into_group`. If the target group is itself chained, its own id comes up too. The group is then moved into the block after it, or the lookup fails and the call panics when it was last | a chained group 1 and a chained image 2; dropping into group 1 with iteration order [1, 2] leaves image 2 with group 1 as its child; with order [2, 1] it panics | skip the target's own id, so the other chained blocks all end up inside the target group | not executed | Drop.DropChainAsWritten, Drop.DropChainCounterexample | Drop.DropChain, Drop.DropChainPlacement |

The UI reaches this case. `toggle_chain` chains any block, groups included. When a drag ends,
only a dragged group is kept out of the drop, and `find_group_at_pos` excludes only the dragged
block's own id (src/main.rs:1123-1134). So dragging a chained image onto a chained group and
releasing it runs the faulty loop.
