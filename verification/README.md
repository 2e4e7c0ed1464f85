# A verified model of the PerconaFT fractal tree

PerconaFT keeps a dictionary in a fractal tree, a B-epsilon tree. A write becomes a
message with an increasing message sequence number (MSN). Messages wait in buffers, one
per child of a nonleaf node, and are flushed towards the leaves; nodes are split, merged
and rebalanced on the way, by client threads, background flushers, the cleaner and hot
optimization. A leaf is divided into basement nodes, each with the highest MSN applied to
it. The design rests on one claim: reading a key gives what applying every injected
message in order would give. This project models that machinery in Dafny and proves the
claim over every run, together with what the parts promise on their own.

`dafny verify dfyconfig.toml` checks everything. Every induction is written out; no lemma needs
Dafny's automatic one (`--manual-lemma-induction`).

## How the model is laid out

- **Values.** `Keys`, `Messages`, `Entries`, `Nodes`: keys with an order, messages with an
  unknown effect on a leaf entry, nodes with buffers and basements. `Nodes.Probe` collects
  all that a reader of one key depends on; `Nodes.NodeOk` is the well-formedness that the
  tree verifier checks, plus the MSN rules that make flushing safe. Keys are real numbers
  because only their order matters: `ByteKeys` embeds byte strings under the default
  comparison into that order, and `Orders` shows that any other comparison function loses
  nothing, since the finitely many keys of a run can be numbered in its order.
- **Operations on nodes.** `PutMsg`, `Leaves`, `LeafMerge`, `Splitting`, `Halves`, `Parents`
  as functions with their laws; `InPlace` has the same operations as loops over arrays in
  objects, each proved equal to the function.
- **The protocol.** `Paths`, `Edges`, `Reshape`, `Readings`, `Query` and `Protocol`: a state
  machine whose steps are what threads do under locks (inject, lock, detach a buffer, apply
  it later, split, merge, rebalance, grow a root, answer a query, evict, write out), in any
  order. The main theorem is `Protocol.TreeMeansItsMessages`; `Verify` adds that the tree
  verifier accepts every reachable tree; `Rightmost`, `Shortcut`, `ShortcutTree`,
  `ShortcutRuns`, `CodeRuns` and `ShortcutExample` treat the shortcut for sequential inserts:
  what it does to readers, when it is an injection of the protocol, and runs that obey the
  code's size rules in which it loses an update.
- **The algorithms.** `Flusher`, `FtTree`, `Promotion`, `HotOptimizer`, `Searching` and
  `KeysRange` are methods that perform steps of the protocol on a tree object, with
  termination: the mutually recursive flusher, promotion, hot optimization, search and range
  counting. Flusher and promotion work in one subtree and leave the rest of the tree, with the
  locks of other threads, as it is. `Pool` bounds them by the finite set of keys a tree is made of; `Pins` follows the
  locks; `Routing` has the binary searches.
- **Storage.** `Bytes`, `MsgBuffer`, `MsgTrees`, `BnData`, `BnSerial`: the packed message
  buffer, the trees of fresh and stale messages that index it, and the basement's index and
  memory pool, as classes that refine a plain sequence (a sorted one for the basement), and
  the serialized forms.
- **Lifetime.** `RefCount`: the two-lock reference count of a tree object.

## What came out differently from what one would expect

- Leaves may be merged only under locks that were taken from the root down through empty
  buffers (or passed on from such a lock). The merge drops an empty last basement, so keys
  change the MSN they are filtered by; `Readings.MergeNeedsTopDown` shows a message lost
  otherwise. The code does take the locks that way: the cleaner starts over at the root.
- The shortcut into the rightmost leaf names a basement itself. It names the right one for
  all keys it inserts exactly on the leaves that `Shortcut.ShortcutBasement` describes, and
  exactly on these are its updates seen (`ShortcutTree.ShortcutSafeIff`).
  `ShortcutExample.ShortcutLosesUpdate` is a run, with the splits and guards that node sizes
  cause in the code (`CodeRuns.ByCode`), to a state with the score at its threshold, in which
  the last basement of the rightmost leaf is empty and an update goes to a basement that
  readers of the key do not look at.
- The score is read before the leaf is locked. If a broadcast is injected in between, the
  insert gets a newer MSN than the broadcast and hides it from readers of the basement
  (`ShortcutRuns.RaceHidesBroadcast`; `ShortcutExample.RaceHappens` is a run to such a state);
  if other threads inject nowhere but into the rightmost leaf, the insert is safe
  (`ShortcutRuns.ScoreStillGood`). `ShortcutTree.ShortcutExact` is the exact condition for
  both.
- Range counting marks the middle three numbers as exact also for two equal keys, and then
  the number in the middle wraps around unless no entry has the key, to a value near 2^64; for
  a right key below the left one, with more entries between them, it wraps to a value near 2^32;
  without a left key the marked numbers contain a guess (`KeysRange.KeysRange` says exactly when they are right).
- Pivots of a node are strictly below its upper bound in every reachable tree; the verifier
  of the tree asks only for "not above".
- The comments on writing a leaf out speak of all messages above having been applied. What is
  needed, and kept, is less: all basements of a dirty leaf are on one side of every message
  above (`Nodes.Uniform`).

## Model

| member | source | states |
|---|---|---|
| `Keys.Route` | ft/node.cc:1778-1807 | a key belongs to the first child whose pivot is not below it, else to the last |
| `ByteKeys.KeyCompareIsRealOrder` | ft/ft-ops.cc:5239-5253 | comparing byte strings is comparing their embeddings into the reals, in all three outcomes, and equality is equality of the strings |
| `ByteKeys.KeyCompareTotalOrder` | ft/ft-ops.cc:5239-5253 | the default comparison is antisymmetric, total and transitive |
| `Orders.RankIsOrder` | ft/comparator.h:63-145 | any strict total order on finitely many keys is the order of real numbers |
| `Orders.RouteByRank` | ft/node.cc:1778-1807 | routing with any comparison function is routing by these numbers |
| `Routing.WhichChild` | ft/node.cc:1778-1807 | the binary search, with its first probe at the last pivot, returns the child that routing names |
| `Routing.HotNextChild` | ft/node.cc:1810-1830 | the binary search returns the first child whose pivot is above the key, else the last |
| `Routing.FindZero` | ft/bndata.h:160-180 | the binary search returns where a key is, or would be, and whether it is there |
| `Entries.ApplyToEntriesOk` | ft/node.cc:1377-1675 | a message changes the sorted entries of a basement exactly as it acts on one value, at every key, and keeps them sorted and in range |
| `PutMsg.LeafPutProbe` | ft/node.cc:2069-2148 | one message put into a leaf acts on the value of every key once, unless its basement has already seen it; broadcasts reach every basement |
| `PutMsg.LeafPutAllProbe` | ft/ft-flusher.cc:1551-1623 | a whole flushed buffer acts on every key as exactly the messages newer than the key's basement, in order |
| `PutMsg.LeafPutAllUniform` | ft/ft-flusher.cc:1551-1623 | flushing older messages keeps all basements of a leaf on one side of a message above |
| `PutMsg.InnerPutOk` | ft/node.cc:1849-1873 | a message newer than everything below lands behind older ones in buffers of the right range, keeping the node well-formed |
| `PutMsg.InnerPutAllProbe` | ft/ft-flusher.cc:1551-1623 | a flush into a nonleaf node appends to the pending messages of every key exactly those that concern it |
| `PutMsg.InnerPutAllOk` | ft/ft-flusher.cc:1551-1623 | a flush of an increasing buffer keeps the nonleaf node well-formed |
| `Leaves.SplitKeyOk` | ft/ft-flusher.cc:669-852 | the split key is not below any key on the left, is below every key on the right, and lies in the leaf's range, for all boundary and empty cases |
| `Leaves.LeftUsed` | ft/ft-flusher.cc:669-852 | the left half has the chosen number of basements and one pivot less, or as many (one trailing slack pivot) |
| `Leaves.RightUsed` | ft/ft-flusher.cc:669-852 | the right half has at least one basement and a matching number of pivots, slack pivot included |
| `Leaves.LeftLeafOk` | ft/ft-flusher.cc:669-852 | the left half is a well-formed leaf up to the split key |
| `Leaves.RightLeafOk` | ft/ft-flusher.cc:669-852 | the right half is a well-formed leaf above the split key |
| `Leaves.SplitKeepsEntries` | ft/ft-flusher.cc:669-852 | the entries of the halves, concatenated, are the entries of the leaf |
| `Leaves.SplitKeepsValues` | ft/ft-flusher.cc:669-852 | every key finds its old value in the half it now belongs to |
| `LeafMerge.MergeOk` | ft/ft-flusher.cc:1019-1087 | merging two neighbouring leaves gives a well-formed leaf, with and without an empty last basement on the left |
| `LeafMerge.MergeKeepsEntries` | ft/ft-flusher.cc:1019-1087 | the merged leaf has the entries of the left leaf followed by those of the right leaf |
| `LeafMerge.MergeKeepsValues` | ft/ft-flusher.cc:1019-1087 | every key finds its old value in the merged leaf |
| `LeafMerge.WriteOutOk` | ft/node.cc:832-1011 | repacking a leaf keeps it well-formed and gives all basements one MSN, the largest |
| `LeafMerge.WriteOutKeepsValues` | ft/node.cc:832-1011 | repacking keeps the value of every key, in memory and on disk |
| `Splitting.DiskSize` | ft/ft-flusher.cc:558-568 | the disk size of a leaf is the sum over all its entries |
| `Splitting.EvenCut` | ft/ft-flusher.cc:571-636 | an even split aborts exactly for a leaf without entries and for one basement with one entry; otherwise the cut is behind the entry that reaches half the size, or in front of it if it is the last, and with two entries or more neither side exceeds half the size (rounded up) by more than the largest entry |
| `Splitting.LastCut` | ft/ft-flusher.cc:612-626 | a cut behind the last entry is moved in front of it, across a basement boundary if needed |
| `Splitting.LeftHeavyCut` | ft/ft-flusher.cc:582-590 | a left-heavy split leaves every entry on the left, and an empty leaf on the right exactly if the last basement has entries |
| `Splitting.RightHeavyCut` | ft/ft-flusher.cc:591-595 | a right-heavy split leaves one entry on the left, or none if the first basement is empty |
| `Halves.SplitOk` | ft/ft-flusher.cc:855-905 | splitting a node of either kind gives two well-formed nodes with the split key between them |
| `Halves.InnerSplitProbe` | ft/ft-flusher.cc:855-905 | after a nonleaf split every key sees in its half what it saw before |
| `Halves.MergeInnerOk` | ft/ft-flusher.cc:1145-1177 | merging two nonleaf neighbours, with the parent's pivot between them, is well-formed |
| `Halves.MergeInnerProbe` | ft/ft-flusher.cc:1145-1177 | after a nonleaf merge every key sees what it saw before |
| `Parents.SplitParentOk` | ft/ft-flusher.cc:456-542 | the parent of a split child is well-formed with the new child and pivot in place |
| `Parents.SplitParentProbe` | ft/ft-flusher.cc:456-542 | keys outside the split child are read as before, keys inside in the half that the split key decides |
| `Parents.MergeParentOk` | ft/ft-flusher.cc:1312-1326 | the parent of two merged children is well-formed without the pivot between them |
| `Parents.MergeParentProbe` | ft/ft-flusher.cc:1312-1326 | keys outside the merged children are read as before, the others in the merged child |
| `InPlace.LeafNode.PutMsg` | ft/node.cc:2069-2148 | the basement array is updated in place to the value of the put |
| `InPlace.LeafNode.FlushBuffer` | ft/ft-flusher.cc:1551-1623 | the loop over the buffer leaves the leaf with the value of the whole flush |
| `InPlace.LeafNode.Split` | ft/ft-flusher.cc:669-852 | the loops that move basements leave both nodes with the values of the two halves |
| `InPlace.LeafNode.Merge` | ft/ft-flusher.cc:1019-1087 | the loop that moves basements leaves the left node with the value of the merge and the right one empty |
| `InPlace.InnerNode.PutMsg` | ft/node.cc:1849-1873 | the buffer array is updated in place to the value of the put |
| `InPlace.InnerNode.HandleSplitOfChild` | ft/ft-flusher.cc:456-542 | the loop that slides the children over leaves the node with the value of the split |
| `InPlace.InnerNode.RemoveMergedChild` | ft/ft-flusher.cc:1312-1326 | closing the gap leaves the node with the value of the merge |
| `InPlace.InnerNode.Split` | ft/ft-flusher.cc:855-905 | moving the right half of the children leaves both nodes and the split key with the values of the split |
| `InPlace.InnerNode.Merge` | ft/ft-flusher.cc:1145-1177 | appending the children and pivots leaves the node with the value of the merge |
| `Edges.DropAheadUniform` | ft/ft-flusher.cc:134-150 | once the clean basements ahead of the parent are dropped, all basements are on one side of every message above the parent |
| `Edges.DetachOk` | ft/ft-flusher.cc:1391-1450 | detaching a buffer and locking the child keeps the tree well-formed, whatever is above |
| `Edges.ApplyOk` | ft/ft-flusher.cc:1482-1500 | applying the detached buffer later keeps the tree well-formed, whatever was injected above meanwhile |
| `Edges.EvictOk` | ft/ft-ops.cc:1017-1038 | evicting a basement of a clean leaf keeps the tree well-formed |
| `Edges.WriteLeafOk` | ft/node.cc:832-1011 | writing a dirty leaf out keeps the tree well-formed, locked or not |
| `Reshape.SplitKidOk` | ft/ft-flusher.cc:916-968 | splitting a drained child keeps the whole tree well-formed; the rightmost leaf keeps its blocknum on the right |
| `Reshape.MergeKidsOk` | ft/ft-flusher.cc:1243-1389 | merging two drained children keeps the whole tree well-formed; a merged rightmost leaf keeps its blocknum |
| `Reshape.RebalanceIsMergeSplit` | ft/ft-flusher.cc:1089-1103 | rebalancing two leaves is a merge followed by a split |
| `Reshape.GrowRootOk` | ft/ft-ops.cc:1364-1433 | a new root above the old one, under the root's constant blocknum, is well-formed and one higher |
| `Reshape.GrowRootProbe` | ft/ft-ops.cc:1364-1433 | no key notices the new root |
| `Readings.DetachKeeps` | ft/ft-flusher.cc:1391-1450 | no reader notices that a buffer is detached, dropped basements included |
| `Readings.ApplyKeeps` | ft/ft-flusher.cc:1482-1500 | no reader notices that the detached buffer is applied; pending messages leave oldest first |
| `Readings.EvictKeeps` | ft/ft-ops.cc:1017-1038 | no reader notices an eviction, because the disk image with its MSN reads the same |
| `Readings.WriteLeafKeeps` | ft/node.cc:832-1011 | no reader notices that one MSN stands for all basements of a written leaf |
| `Readings.SplitKidKeeps` | ft/ft-flusher.cc:916-968 | no reader notices a split |
| `Readings.MergeKidsKeeps` | ft/ft-flusher.cc:1243-1389 | no reader notices a merge |
| `Readings.MergeNeedsTopDown` | ft/ft-flusher.cc:335-402 | two leaves and a waiting message for which a merge without locks from the root down would lose the message: why the cleaner starts over at the root |
| `Query.CatchUpOk` | ft/node.cc:532-567 | a basement brought up to date for a query takes, at every key, exactly the ancestors' messages newer than itself, once and in order |
| `Query.BumpIsCatchUp` | ft/ft-cachetable-wrappers.cc:232-256 | raising the MSN of a basement that no ancestor's message concerns is the same as bringing it up to date |
| `Query.QueryOk` | ft/ft-cachetable-wrappers.cc:193-258 | a query keeps the tree well-formed, although basements overtake messages that stay in their ancestors |
| `Query.QueryKeeps` | ft/ft-cachetable-wrappers.cc:193-258 | a query is invisible to every later reader |
| `Query.QueryThenFlush` | ft/node.cc:532-567 | flushing the messages of all ancestors, after a query has applied them, gives the same value at every key as flushing alone |
| `MsgTrees.SelectedSame` | ft/node.cc:384-530 | applying any choice of a buffer's messages that has the newer ones of a basement's range, each key's in MSN order, is applying the whole buffer in MSN order |
| `MsgTrees.FindBounds` | ft/node.cc:300-377 | the two searches delimit exactly the messages of a tree with keys in the basement's range |
| `MsgTrees.ChildInfo.InsertMsg` | ft/node.cc:1707-1732 | a new message goes to the one structure of its kind; the trees stay ordered by key and MSN; basements marked stale-applied still have seen all stale messages of their range after a fresh message or a broadcast |
| `MsgTrees.ChildInfo.ApplyTo` | ft/node.cc:384-530 | whichever of fresh tree, stale tree and broadcast list are read, and in whichever order, the basement ends up as if the whole buffer had been applied in MSN order; the fresh messages of its range are marked; what other basements have seen stays right |
| `MsgTrees.ChildInfo.MoveToStale` | ft/node.cc:789-794 | exactly the marked messages move from the fresh tree to the stale one, and basements marked stale-applied have seen them |
| `MsgTrees.PassOn` | ft/ft-flusher.cc:1551-1623 | a flush to a buffer one level down keeps a message fresh or stale, and what basements marked stale-applied have seen stays right |
| `MsgTrees.ApplyAncestors` | ft/node.cc:532-567 | the loop over all ancestors leaves the basement as catching up with them does, and marked stale-applied with every stale or marked message of its range seen |
| `MsgTrees.SeenPart` | ft/serialize/ft_node-serialize.cc:1000-1018 | part of a basement, or one read again from disk, has seen what its mark says |
| `MsgTrees.ChildInfo.VerifyTrees` | ft/ft-verify.cc:137-408 | the verifier's checks on the structures of a buffer succeed exactly if every message is in one structure, the one of its kind, in order, with matching flags and marks |
| `Protocol.InjectSeen` | ft/ft-ops.cc:1435-1524 | an injected message acts on the reading of every key exactly once, and only on the keys it concerns |
| `Protocol.ReorganizeOk` | ft/ft-flusher.cc:1391-1549 | every step but an injection (lock, unlock, detach, apply, split, merge, rebalance, root growth, query, eviction, write-out) keeps the tree well-formed and is invisible to all readers |
| `Protocol.StepSafe` | ft/ft-flusher.cc:1774-1921 | one step of any thread keeps the tree's invariant and the agreement with its history |
| `Protocol.TreeMeansItsMessages` | ft/ft-ops.cc:1461-1466 | after every interleaving of steps, reading a key gives what applying all injected messages in order gives, and the messages still pending for a key are its most recent ones, each in one place and in MSN order from the leaf up |
| `Verify.VerifyBuffer` | ft/ft-verify.cc:253-325 | the scan of a buffer succeeds exactly if its messages are in place, have increasing MSNs and do not exceed the node's |
| `Verify.VerifyEntries` | ft/ft-verify.cc:405-424 | the scan of a basement, which compares neighbours, succeeds exactly if all entries are sorted and in range |
| `Verify.VerifyPivots` | ft/ft-verify.cc:349-366 | the two pivot loops succeed exactly if the pivots increase and lie in the node's bounds |
| `Verify.VerifyNode` | ft/ft-verify.cc:434-498 | the recursive walk succeeds exactly if height, pivots, buffers, entries and MSN order are right everywhere below |
| `Verify.VerifyFt` | ft/ft-verify.cc:501-522 | the verifier accepts every tree that satisfies the invariant |
| `Verify.ReachableTreesVerify` | ft/ft-verify.cc:39-45 | the verifier accepts every tree that any run of the protocol reaches |
| `Flusher.StepReorganizes` | ft/ft-flusher.cc:1391-1549 | every flusher step keeps meaning, height and the set of keys: no key is made that was not a pivot, an entry or a message key |
| `Flusher.HotSplit` | ft/ft-hot-flusher.cc:170-190 | after the child it picked was split, hot picks one of the two halves and its keys stay right |
| `Flusher.HotMerge` | ft/ft-hot-flusher.cc:98-152 | after the child it picked was merged, hot goes on in the merged node and its keys stay right |
| `Flusher.HotKidDone` | ft/ft-hot-flusher.cc:98-152 | when hot has flushed into a leaf, nothing is pending for any key the pass covers |
| `FtTree.Ft.FindHeaviestChild` | ft/ft-flusher.cc:79-98 | the first child of greatest weight |
| `FtTree.Ft.PickChild` | ft/ft-flusher.cc:296-308 | the flusher and the cleaner pick a heaviest child, a cleaner's leaf merge the child its saved pivot leads to, hot the first child beyond what it has covered |
| `FtTree.Ft.FlushInto` | ft/ft-flusher.cc:1391-1502 | one flush: the child holds the whole detached buffer, other children and everything outside the node are unchanged, locks of other threads included, and the parent stays locked exactly while the child may need to be split or merged |
| `FtTree.Ft.FlushSomeChild` | ft/ft-flusher.cc:1391-1549 | the recursion ends and leaves the subtree unlocked, everything outside it as it was, whatever other threads have locked there, the tree well-formed and nothing visible changed; a pass of hot has flushed all it covers |
| `FtTree.Ft.SplitChild` | ft/ft-flusher.cc:916-968 | splits evenly, unlocks node and halves, goes on with at most one half, and changes nothing outside the subtree |
| `FtTree.Ft.MergeOrBalance` | ft/ft-flusher.cc:1106-1231 | two drained children are merged, rebalanced or left alone exactly by the size rule, with the locks accounted for in each case and nothing changed outside the node |
| `FtTree.Ft.MergeChild` | ft/ft-flusher.cc:1243-1389 | drains and merges a child with a neighbour and ends with the subtree unlocked and nothing changed outside it |
| `FtTree.Ft.CleanerRestart` | ft/ft-flusher.cc:335-402 | the cleaner's leaf merge gives up its locks and starts over at the root, with a smaller measure |
| `HotOptimizer.Pass` | ft/ft-hot-flusher.cc:249-303 | one traversal strictly raises the highest key and leaves nothing pending for the keys it covers |
| `HotOptimizer.HotOptimize` | ft/ft-hot-flusher.cc:225-333 | ends after at most one pass more than the tree has keys, although its passes split and merge nodes; unless stopped, every message for a key above left and up to right is then in a leaf |
| `Promotion.InjectAt` | ft/ft-ops.cc:1435-1524 | injecting at the end of a path of empty buffers adds exactly one message, with the next MSN, to the history, and changes nothing outside the subtree, whatever other threads have locked there |
| `Promotion.FlushInBackground` | ft/ft-flusher.cc:1859-1921 | the background hand-off, with the buffer detached by the client or not, ends with the subtree unlocked, nothing changed outside it and nothing visible changed |
| `Promotion.PromotionCut` | ft/ft-ops.cc:1578-1588 | a leaf at the right edge keeps everything, one at the left edge at most one entry, any other is cut evenly; only at the right edge is a cut behind the last entry |
| `Promotion.ProcessMaybeReactiveChild` | ft/ft-ops.cc:1534-1644 | a child that is split or merged on the way down changes nothing visible and nothing outside its parent |
| `Promotion.PushSomethingInSubtree` | ft/ft-ops.cc:1693-1890 | promotion goes down through empty buffers only, ends, injects the message exactly once, and changes nothing outside the subtree |
| `Promotion.RightmostSetByPromotion` | ft/ft-ops.cc:1740-1747 | the rightmost blocknum is set exactly when promotion first reaches a non-root leaf at the right edge only |
| `Promotion.SplitRoot` | ft/ft-ops.cc:1364-1433 | the root grows by one level, stays in place, and needs no second split |
| `Promotion.RootPutMsg` | ft/ft-ops.cc:1892-2016 | whatever is split, merged or flushed on the way, the tree's history grows by exactly this message |
| `Rightmost.RightStepOk` | ft/ft-flusher.cc:497-508 | every step keeps blocknums distinct, the rightmost blocknum at the rightmost leaf, and a positive score only with nothing pending on the way there |
| `Rightmost.OnlyRightLeaf` | ft/ft-ops.cc:2171-2188 | the rightmost blocknum leads to the rightmost leaf and to no other node |
| `Rightmost.RightmostNamesRightLeaf` | ft/ft-ops.cc:1672-1685 | in every reachable state the rightmost blocknum, once set, names the rightmost leaf and not the root, and a positive score means an empty right edge |
| `Rightmost.RightmostConfirmed` | ft/ft-ops.cc:1672-1685 | reaching a leaf on the right edge again meets the recorded blocknum |
| `Shortcut.LeftmostEntry` | ft/ft-ops.cc:2039-2053 | the first entry of the leaf, over empty basements |
| `Shortcut.RightmostEntry` | ft/ft-ops.cc:2055-2070 | the last entry of the leaf, over empty basements |
| `Shortcut.RelativeKeyPos` | ft/ft-ops.cc:2072-2141 | where the key lies, whether a live entry has it, and which basement it is sent to |
| `Shortcut.ShortcutBasement` | ft/ft-ops.cc:2072-2141 | every key that the shortcut inserts goes to the basement that routing would pick if and only if the leaf has one basement, or no entries, or ends that are safe: entries in the last basement and, unless it has one key only, in the first; for unique inserts an end is also safe if its only misplaced key is a live one |
| `ShortcutTree.ShortcutExact` | ft/ft-ops.cc:2147-2235 | in every state, an insert through the shortcut leaves every reader with what the message history says, whatever its effect, if and only if it goes to the key's own basement and no message waiting above would change a key of that basement |
| `ShortcutTree.WrongBasement` | ft/ft-ops.cc:2147-2235 | an update that the shortcut puts into another basement is not seen by readers of its key |
| `ShortcutTree.ShortcutSafeIff` | ft/ft-ops.cc:2147-2235 | with a positive score the shortcut is right for all keys it inserts and all effects if and only if the rightmost leaf is safe |
| `ShortcutTree.ShortcutIsInject` | ft/ft-ops.cc:2147-2235 | on a safe leaf, with a positive score and no lock on the way, the tree after the shortcut is the tree after an injection by promotion |
| `ShortcutRuns.ShortcutsMeanMessages` | ft/ft-ops.cc:2147-2235 | in every run that also inserts through the shortcut on safe leaves, each key reads as its message history says |
| `ShortcutRuns.ScoreStillGood` | ft/ft-ops.cc:2167-2188 | a score read before the leaf is locked still holds when it is, if other threads have injected nowhere but into the rightmost leaf meanwhile |
| `ShortcutRuns.RaceHidesBroadcast` | ft/ft-ops.cc:2167-2222 | a broadcast injected at the root between reading the score and the insert is hidden from readers by the insert |
| `ShortcutExample.ShortcutLosesUpdate` | ft/ft-ops.cc:2147-2235 | a run that follows the size rules of the code reaches a state, with the score at its threshold and nothing locked, in which the shortcut passes all its tests (the leaf is stable) and the update is lost |
| `ShortcutExample.RaceHappens` | ft/ft-ops.cc:2167-2222 | such a run reaches a state in which the shortcut would be right, until a broadcast at the root comes between reading the score and the insert and is hidden |
| `Shortcut.ShortcutIsPromotion` | ft/ft-ops.cc:2147-2235 | with a positive score, a key not left of the leaf's entries is routed from the root to this very leaf through empty buffers |
| `Shortcut.ShortcutSeesTheValue` | ft/ft-ops.cc:2198-2222 | the uniqueness check on the leaf alone sees what a query of the tree would return |
| `Searching.SearchWhichChild` | ft/ft-ops.cc:3641-3697 | the child that is searched leaves out only keys that fail the test or were searched before, and reaches beyond the saved bound |
| `Searching.SearchBasement` | ft/ft-ops.cc:3338-3448 | the first entry that passes the test and is not deleted; without one, none within the bound, although the bound is looked at only every 64 deleted entries |
| `Searching.PinForQuery` | ft/ft-cachetable-wrappers.cc:193-258 | the basement that is searched shows, for every key it covers, what the whole history of the tree says |
| `Searching.AfterNotFound` | ft/ft-ops.cc:3699-3729 | the saved bound and the decision to try again are justified by what was searched in vain |
| `Searching.SearchNode` | ft/ft-ops.cc:3731-3824 | one descent finds the first answer, or proves there is none in the node's range, or saves a bound strictly beyond the old one |
| `Searching.FtSearchAll` | ft/ft-ops.cc:3826-3948 | the search ends; it returns the least (or greatest) visible key that passes the test, and NOTFOUND means there is none, or none up to the bound |
| `Searching.CursorSearchesMonotone` | ft/cursor.cc:169-397 | every compare function of the cursor is monotone in the direction it is used with |
| `Searching.CursorShortcut` | ft/cursor.cc:256-306 | bulk fetch delivers consecutive visible entries of the basement, in range, and stops only when none is left, the next one is out of range, or the callback wants no more |
| `Searching.BulkFetchIsRepeatedSearch` | ft/cursor.cc:256-306 | each entry a bulk fetch delivers is what a single search for the next key would find |
| `MsgBuffer.UnpackAt` | ft/msg_buffer.cc:173-220 | a packed entry decodes to its message wherever it stands |
| `MsgBuffer.MessageBuffer.Enqueue` | ft/msg_buffer.cc:173-198 | appends one message, in place or in a larger array, and hands out its offset |
| `MsgBuffer.MessageBuffer.GetMessage` | ft/msg_buffer.cc:210-220 | an offset handed out decodes to its message |
| `MsgBuffer.MessageBuffer.SetFreshness` | ft/msg_buffer.cc:200-203 | one message changes its freshness and nothing else changes |
| `MsgBuffer.MessageBuffer.Iterate` | ft/msg_buffer.h:90-103 | iteration yields exactly the enqueued messages, in order, at their offsets |
| `MsgBuffer.MessageBuffer.Serialize` | ft/msg_buffer.cc:263-274 | writes the count and every message in order |
| `MsgBuffer.MessageBuffer.Deserialize` | ft/msg_buffer.cc:65-107 | rebuilds the buffer from its serialized form and collects the offsets of fresh, stale and broadcast messages |
| `MsgBuffer.WireSize` | ft/msg.cc:97-109 | a message takes exactly total_size bytes when serialized |
| `MsgBuffer.ReadWireAt` | ft/msg.cc:51-63 | a serialized message reads back as it was |
| `MsgBuffer.ImageRoundTrip` | ft/msg_buffer.cc:65-107 | a serialized buffer reads back as its messages, and exactly the bytes written are consumed |
| `MsgBuffer.OffsetsPartition` | ft/msg_buffer.cc:83-104 | every message's offset is in the list of its class and in no other |
| `MsgBuffer.TypesCovered` | ft/msg_buffer.cc:96-99 | what does not apply once applies to all or is FT_NONE: the check made while loading never fails |
| `MsgBuffer.Deserialize13` | ft/msg_buffer.cc:109-152 | a version-13 buffer loads with MSNs taken off the shared counter, all messages fresh, and the offsets of single-key and broadcast messages collected |
| `MsgBuffer.UpgradedMsnsDisjoint` | ft/msg_buffer.cc:109-152 | those MSNs strictly increase within a buffer and are disjoint between buffers |
| `BnData.Data.FindZero` | util/dmt.cc:914-945 | the binary search returns the index of the key, or the one at which it belongs in the sorted sequence |
| `BnData.Data.Locate` | ft/node.cc:1400-1425 | looking at the last key first, while inserts come in order, finds the same position |
| `BnData.Data.Apply` | ft/node.cc:1148-1200 | after an insert, an overwrite or a deletion the sequence is sorted and holds the new entry, or none, for the key and the old entries for all others |
| `BnData.Data.Insert` | ft/bndata.cc:417-436 | at the index that the search returns, the new pair is put between smaller and larger keys and all others are unchanged; the sequence stays sorted, sizes stay exact sums, entries in bounds and disjoint |
| `BnData.Data.Overwrite` | ft/bndata.cc:387-415 | one leaf entry is replaced, its old bytes become fragmentation, the rest is unchanged and sorted |
| `BnData.Data.Delete` | ft/bndata.cc:313-322 | one pair disappears; the sequence stays sorted and sizes exact |
| `BnData.Data.Place` | ft/bndata.cc:377-385 | allocation after compaction always succeeds |
| `BnData.Data.Compress` | ft/bndata.cc:331-371 | compaction keeps the sequence, and makes room; a forced one leaves the entries in key order without fragmentation |
| `BnData.Data.Split` | ft/bndata.cc:494-539 | both objects hold their part of the sequence, sorted and compact, with exact sizes |
| `BnData.Data.Fetch` | ft/bndata.cc:636-646 | the pair at an index, or not found |
| `BnData.Data.DiskSize` | ft/bndata.cc:541-544 | the disk size is the exact sum over keys and leaf entries |
| `BnSerial.SerializeFixed` | ft/bndata.cc:127-174 | keys of one length: header, key area and the compacted pool, of exactly the disk size |
| `BnSerial.SerializeInterleaved` | ft/bndata.cc:102-138 | other keys: header and interleaved entries, of exactly the disk size |
| `BnSerial.LoadInterleaved` | ft/bndata.cc:203-288 | the loop rebuilds the sorted basement and consumes exactly the bytes written |
| `BnSerial.LoadFixed` | ft/bndata.cc:72-99 | index, pool and sizes are rebuilt from the key area and the value area |
| `BnSerial.Deserialize` | ft/bndata.cc:177-297 | from the bytes written in either layout the object is rebuilt with the same sequence, and exactly these bytes are consumed |
| `BnSerial.BasementRoundTrip` | ft/bndata.cc:72-297 | in both layouts, deserializing a serialized basement returns the same keys and leaf entries and consumes exactly the bytes written |
| `RefCount.StepOk` | ft/ft.cc:922-956 | every lock operation of every thread keeps the reference-count invariant |
| `RefCount.NeverMissing` | ft/ft.cc:780-784 | a callback never finds the reference it removes missing |
| `RefCount.EvictedOnce` | ft/ft.cc:464-485 | over every interleaving the object is evicted at most once, only without references, and is otherwise about to be evicted by the holder of the open/close lock |
| `RefCount.LastRemovalHasBothLocks` | ft/ft.cc:922-956 | the count reaches zero only in a thread with both locks, which evicts the object next |
| `RefCount.OpenFindsItNeeded` | ft/ft.cc:288-299 | whoever finds the object under the open/close lock finds it alive and referenced |
| `KeysRange.LeafPartition` | ft/ft-ops.cc:3995-4061 | in one basement the outer two of the middle numbers are exact, and the one between them is exact for ordered keys; else it counts back the entries from the right key to the left one: from 2^32 if any but that of the left key is among them, for the indices are subtracted at 32 bits, and from 2^64 if not |
| `KeysRange.Internal` | ft/ft-ops.cc:4063-4190 | if both keys lead to one basement the same holds for everything below the node; two equal keys always do; the number on the left is the position in the basement plus the guess for what is left of it |
| `KeysRange.KeysRange` | ft/ft-ops.cc:4192-4365 | the exact flag means the true counts over the whole tree if and only if the right key is missing or above the left one or no entry lies between them; for equal keys the flag is always set, right exactly if no entry has the key, and the number in the middle is 2^64 - 1 if one has; without a left key the flag is right exactly if the guess for the basements on the left is |
| `KeysRange.ToldExactly` | ft/ft-ops.cc:4024-4042 | the middle numbers of one basement are the true counts exactly if the keys are in order or nothing lies between them |
| `KeysRange.TrueLess` | ft/ft-ops.cc:4238-4365 | the entries below a key are those left of its basement and those in front of it there |

## Left out

- Aliasing of nodes on the heap: the protocol works on trees as values, with the blocknum of every node kept and proved distinct; the in-place loops over a node's arrays are in `InPlace`.
- Cachetable, disk, compression, logging, recovery and checkpoint files: locks are states of an edge, "clean", "evict" and "write out" are steps, and input and output do not appear.
- Shared locks: a reader's lock is the requirement that nothing on its path is write-locked at the moment of its step.
- Protocol.TreeMeansItsMessages: buffers are sequences in MSN order; that a query which reads the fresh and stale message trees instead does the same is `MsgTrees.ChildInfo.ApplyTo`. The rightmost-leaf shortcut is not a step; `ShortcutRuns.ShortcutsMeanMessages` has the runs with it.
- MsgTrees.ChildInfo.ApplyTo: what a basement marked stale-applied has seen is kept by inserts, queries, moves to the stale tree, flushes to a lower buffer, splits and reloads of the basement; a leaf merge, which widens the range of a basement, is not followed.
- Verify.VerifyBuffer: the counts in the message trees are checked apart from the buffer, in `MsgTrees.ChildInfo.VerifyTrees`.
- Verify.VerifyNode: the message trees of the node's buffers are left to `MsgTrees.ChildInfo.VerifyTrees`.
- Verify.VerifyFt: trees of the protocol have no message trees, so their checks are not part of it.
- Verify.ReachableTreesVerify: as for `Verify.VerifyFt`.
- Leaf entries with several transactions (MVCC) and their garbage collection: a message's effect on a leaf entry is an arbitrary function, and a leaf entry shows only whether it is deleted and how many bytes it has.
- Heuristics (flow, gorged nodes, cheap locks, dirty children, node sizes): arbitrary functions, because no statement about all runs depends on them; statements that a run exists fix them (`ShortcutExample.Small`) and obey the code's rules on them (`CodeRuns.ByCode`).
- Logical row counts, statistics, progress percentages, key prefetching and interrupt callbacks: reporting only, or easy additions.
- Nonleaf nodes on disk, and a dirty leaf whose buffers above are written in another order: a written image is kept for leaves only.
- Splitting.EvenCut: sizes are unbounded; a leaf of four gigabytes or more, for which the 32-bit counter would wrap, is not described.
- MsgBuffer.MessageBuffer.Enqueue: sizes are unbounded; the limit of a signed 32-bit offset is not described.
- KeysRange.KeysRange: says nothing about the numbers that are not marked as exact; they are estimates.
- Rightmost.RightmostNamesRightLeaf: the score is counted per step; lost updates of the unlocked counter between threads are not described.
- ShortcutTree.ShortcutIsInject: needs that no node on the way to the rightmost leaf is write-locked; what readers see while ancestors are locked is in `ShortcutTree.ShortcutSafeIff`.
- FtTree.Ft.FlushSomeChild: no other thread holds a lock inside the subtree, where the code would wait for it; the cleaner, which may start over at the root, and hot need the whole tree. Interleavings of flushes are the subject of `Protocol`.
- FtTree.Ft.CleanerRestart: no other thread holds a lock, since it starts over at the root.
- Promotion.FlushInBackground: the background job runs at once.
- Promotion.SplitRoot: no other thread holds a lock, since the subtree is the whole tree.
- Promotion.RootPutMsg: no other thread holds a lock at the start, since the subtree is the whole tree; injections between the steps of a flush are steps of `Protocol`.
- HotOptimizer.HotOptimize: runs without concurrent injections, as its promise requires.
- Searching.FtSearchAll: runs on a tree that no one else changes; the callback that may reject an answer is not modelled, nor is the range lock taken at the end of a basement.
- RefCount.EvictedOnce: redirecting handles from one tree object to another, and the check for a closing file in recovery, are not described.
- BnData.Data.Insert: the balanced tree under the index is a sequence, and keys are ordered by the default comparison.
