# Solpipe: a verified model of its data structures, payout scheduler and router

Solpipe follows the accounts of a Solana program and decides when a payout of a
pipeline has to be cranked, its bids closed and the payout itself closed.  This
project models the parts of it that everything else rests on, and proves what
they are for.

**The radix tree** (`ds/radix`).  `Keys` has byte strings and their order.
`Trie` is the tree as a value: a map from the full key of each node to its prefix,
leaf and children.  `WellFormed` is what every operation keeps; `Compressed` says
that no node but the root is a dead end or a mere relay.  Insert and Delete keep it;
DeletePrefix keeps it exactly if it deletes everything or nothing.  `Radix` is the tree in the heap, with nodes, edge lists and a size that
are changed in place; its ghost field `V` is the value it shows.  `TrieTheory`
says what shape and walks are determined by, `RadixRuns` what whole runs come to.

**The list and its client** (`ds/list`, `state/pipeline`).  `List` is the doubly
linked list with stable node handles.  A callback is a function of what it has been
shown so far; it may delete the node it is being shown and may end the iteration.
`PayoutList` is the insertion into a pipeline's list of payouts, sorted by start.

**The hub** (`ds/sub`).  `Hub` tells the story of one subscriber as a sequence of
events, and the hub with all the subscribers there ever were as a class.

**The payout scheduler** (`scheduler/payout`).  `PayoutTheory` says what the history
of the scheduler should be, by the events it takes alone and with no state, and
`PayoutStreams` what each subscriber has seen, by the events, requests and reads alone.
`PayoutScheduler` is the event loop with its flags, cancel functions, history and
hub, proved to produce that history.  `Clock` and `Watcher` are the two loops that
feed it; `ClockTheory` and `WatcherTheory` say what they send.  `PayoutSystem` puts
the three together as one transition system: handing over an event is a
rendezvous, the note from the clock to the watcher goes through a buffer with one
slot, and any other sender may send what it likes at any time.

**The router** (`state/router`).  `Router` joins payouts, receipts, validators,
pipelines, bid lists and period rings that arrive in any order.  `RouterTheory` says
what it has handed out by the messages alone.

Results a reader might not expect, all of them about the code as it is:

- DeletePrefix leaves the emptied node in the tree.  Minimum finds nothing exactly if
  some emptied node precedes every stored key, and Maximum exactly if one follows them
  all; otherwise they return the first and the last entry of Walk, and so they always
  do in a compressed tree.  `RadixRuns.MinimumMissesKey` and `RadixRuns.MaximumMissesKey`
  are runs after which they find nothing though a key is stored.
- The scheduler stores the cancel function of the set-payout trigger in the field
  for the withdraw trigger, so START cancels nothing and the guard against a second
  trigger never holds: the history has one SET_PAYOUT for each PRE_START taken before the
  start was noticed (`PayoutTheory.SetPayoutsWhenDue`), so at most one exactly if there is
  at most one such PRE_START.  The clock sends only one, so in the composed system there
  is never a second (`PayoutSystem.NoRunSetsPayoutTwice`).
- BID_CLOSED makes the bids final, but does not cancel the crank: its context is done
  exactly once BID_FINAL was taken (`PayoutScheduler.Internal.CrankDoneIff`), and
  `PayoutScheduler.CrankOutlivesBids` is a run after which the bids are closed and it is not.
- A new subscriber has its stream before the history is sent to it, so what a history
  larger than its buffer comes to depends on when it reads.  It is put at least what fits
  the buffer; what is dropped leaves a gap, and later values may follow (`Hub.ReplayLeavesGap`).
  `Hub.SawIsCaught` says when there is none.
- START, FINISH and the clock's last event come in order for every sequence of
  slots if and only if the period is not empty and none of the sums wraps around
  (`ClockTheory.OrderIffNoWrap`).
- A payout for which receipts were waiting clears the receipts that wait for a
  *validator* with the payout's id.  `RouterTheory.ValidatorReceiptsHanded` says exactly
  which receipts were handed to their validator, `RouterTheory.SharedIdLosesReceipt` gives a
  sequence of messages after which one never was, and `RouterTheory.NothingLost` shows that
  each is handed over where no account is both.
- on_payout_insert refuses a new payout exactly when it ties with the tail
  (`PayoutList.NewIsAddedOnce`).

## Model

| member | source | states |
|---|---|---|
| Keys.SharedPrefix | ds/radix/radix.go:137-149 | the scan finds the length of the shared prefix: equal up to there, different bytes after it |
| Keys.AscendingIsUnique | ds/radix/radix.go:88-104 | a strictly increasing list of keys is determined by its elements |
| Trie.SetLeafKeeps | ds/radix/radix.go:160-174 | writing a leaf at a node keeps the tree well formed, and adds, replaces or removes that one binding |
| Trie.GrowKeeps | ds/radix/radix.go:182-196 | a new leaf under a free label keeps both invariants and adds exactly its binding |
| Trie.SplitKeeps | ds/radix/radix.go:206-218 | splitting an edge where a key leaves it keeps the tree well formed and the map unchanged, and compressed but for the new node |
| Trie.DropKeeps | ds/radix/radix.go:287-290 | unlinking a node without leaf and edges keeps the tree well formed and the map unchanged |
| Trie.MergeKeeps | ds/radix/radix.go:353-359 | a relay that takes over its child keeps the tree well formed and the map unchanged |
| Trie.PruneKeeps | ds/radix/radix.go:316-335 | cutting at a node removes exactly the bindings at and below it and keeps the tree well formed |
| Trie.ConsumePrefix | ds/radix/radix.go:383-388 | following an edge either consumes the child's prefix or shows that the key is not a node |
| TrieTheory.NodesOfCompressed | ds/radix/radix.go:287-300 | the nodes of a compressed tree are the root, the stored keys and the branching points of pairs of them |
| TrieTheory.ShapeIsDetermined | ds/radix/radix.go:153-304 | two compressed trees that hold the same map are equal: nodes, prefixes, leaves, edges in order |
| TrieTheory.ListingIsSorted | ds/radix/radix.go:545-575 | a pre-order walk lists each stored key at or below a node once, in strictly increasing byte order |
| TrieTheory.WalkIsTheSortedMap | ds/radix/radix.go:476-478 | a complete walk shows the bindings of the map, all of them and no others, in increasing order of keys |
| TrieTheory.ListingUnderPrefix | ds/radix/radix.go:481-508 | the walk below the node that covers a prefix is the subsequence of the whole walk that starts with it |
| TrieTheory.WalkedIsSorted | ds/radix/radix.go:543-575 | a complete walk from a node shows the entries below it, all of them and no others, in increasing order of keys |
| TrieTheory.WalkedUnderIsSorted | ds/radix/radix.go:480-508 | the walk under a prefix shows the entries whose keys start with it, all of them and no others, in increasing order of keys |
| TrieTheory.AboveIsSorted | ds/radix/radix.go:510-541 | the walk along a path shows the entries whose keys are prefixes of it, all of them and no others, in increasing order of keys |
| TrieTheory.StartingWithKeepsOrder | ds/radix/radix.go:480-508 | that subsequence has exactly the keys that start with the prefix, in increasing order |
| TrieTheory.StoredPrefixesIsExact | ds/radix/radix.go:510-541 | the keys visited along a path are exactly the stored prefixes of the path, in increasing length |
| TrieTheory.CompressedHasNoDeadEnd | ds/radix/radix.go:435-473 | in a compressed tree no emptied node precedes or follows all stored keys, unless there are none |
| TrieTheory.LeftmostIsFirst | ds/radix/radix.go:435-453 | the leaf that first edges lead to holds the first entry of a complete walk; there is none exactly if an emptied node precedes every stored key, which in a compressed tree means the empty map |
| TrieTheory.RightmostIsLast | ds/radix/radix.go:455-473 | the same for last edges, the last entry, and an emptied node that follows every stored key |
| TrieTheory.PruneCounts | ds/radix/radix.go:318-334 | a subtree deletion removes as many bindings as the walk below it counts |
| TrieTheory.CompressedAfterPrune | ds/radix/radix.go:306-351 | a subtree deletion leaves a compressed tree compressed if and only if the prefix is empty or no stored key starts with it |
| TrieTheory.RelayGoes | ds/radix/radix.go:324-335 | the parent of the emptied node is merged away if and only if it is a relay |
| TrieTheory.LastIsLongest | ds/radix/radix.go:394-433 | the last entry on the path of a key is that of its longest stored prefix, and there is none exactly if no stored key is a prefix of it |
| TrieTheory.UntilStopConcat | ds/radix/radix.go:545-558 | a visitor that stops in one part of a walk sees nothing of the next |
| TrieTheory.UntilStopIsExact | ds/radix/radix.go:545-558 | a visitor sees the entries in order, up to and with the first visit at which it says stop, and all of them if there is no such visit; the walk tells which of the two it was |
| Radix.Node.Search | ds/radix/radix.go:44-46 | the binary search finds the first edge whose label is not below the given one |
| Radix.Node.AddEdge | ds/radix/radix.go:42-51 | the edge goes to the one position where the labels stay sorted |
| Radix.Node.UpdateEdge | ds/radix/radix.go:53-63 | the edge with the label gets the new node, nothing else changes; the panic is reached exactly if no edge has the label |
| Radix.Node.GetEdge | ds/radix/radix.go:65-74 | returns the node of the edge with the label, and nil exactly if there is none |
| Radix.Node.DelEdge | ds/radix/radix.go:76-86 | removes the edge with the label, if there is one, and nothing else |
| Radix.Node.MergeChild | ds/radix/radix.go:353-359 | the node gets the joined prefix, the leaf and the edges of its first child |
| Radix.Tree.Get | ds/radix/radix.go:363-392 | lookup in the map, with the presence flag |
| Radix.Tree.Locate | ds/radix/radix.go:153-204 | the search loop of Insert ends at the key's node, at a free label, or inside an edge at the first difference |
| Radix.Tree.Insert | ds/radix/radix.go:151-245 | update of the map; returns the previous value and whether there was one; size stays the number of keys; keeps both invariants |
| Radix.Tree.Delete | ds/radix/radix.go:247-304 | removal from the map; returns the deleted value and whether there was one; size stays the number of keys; keeps both invariants |
| Radix.Tree.MergeIfRelay | ds/radix/radix.go:292-300 | merging restores the strong invariant and leaves the map unchanged |
| Radix.Tree.Tidy | ds/radix/radix.go:287-300 | once a leaf is gone, the steps of Delete leave no node but the root without leaf and with fewer than two edges |
| Radix.Tree.DeletePrefix | ds/radix/radix.go:306-351 | removes exactly the keys that start with the prefix, keeps every other binding, returns how many there were; size stays the number of keys; the node that covers the prefix is left emptied, but for a relay above it that absorbs it; a compressed tree stays compressed exactly if everything goes or nothing |
| Radix.Tree.DeletePrefixFrom | ds/radix/radix.go:314-351 | the recursion: the same, for what is left of the prefix below a node |
| Radix.Tree.DeleteBelow | ds/radix/radix.go:316-335 | key exhaustion: everything at and below the node goes, and is counted |
| Radix.Tree.Walk | ds/radix/radix.go:475-478 | the visitor sees the entries of the map in increasing order of keys, up to and with the first visit at which it says stop |
| Radix.Tree.RecursiveWalk | ds/radix/radix.go:543-575 | the same for the subtree of a node, after what was visited before; tells whether it was stopped |
| Radix.Tree.WalkPrefix | ds/radix/radix.go:480-508 | the same for the entries whose keys start with the prefix |
| Radix.Tree.WalkPath | ds/radix/radix.go:510-541 | the same for the entries whose keys are prefixes of the path |
| Radix.Tree.LongestPrefix | ds/radix/radix.go:394-433 | the entry of the longest stored prefix of the key, and false exactly if no stored key is a prefix of it; it is the last that WalkPath visits |
| Radix.Tree.Minimum | ds/radix/radix.go:435-453 | the first entry of Walk, or false; false exactly if an emptied node precedes every stored key, so in a compressed tree exactly if the map is empty |
| Radix.Tree.Maximum | ds/radix/radix.go:455-473 | the last entry of Walk, or false; false exactly if an emptied node follows every stored key, so in a compressed tree exactly if the map is empty |
| Radix.Tree.NewFromMap | ds/radix/radix.go:120-128 | a compressed tree that holds the given map |
| Radix.Tree.ToMap | ds/radix/radix.go:577-585 | the map that the tree holds |
| Radix.Tree.Len | ds/radix/radix.go:130-133 | the number of keys |
| Radix.Tree.SameShape | ds/radix/radix.go:106-113 | two trees in the heap that are compressed and hold the same map agree on nodes, prefixes, leaves and edge labels |
| RadixRuns.Apply | ds/radix/radix.go:153-351 | one operation does what it does to a finite map, and keeps a compressed tree compressed if and only if it is not the deletion of a subtree that is neither all nor nothing |
| RadixRuns.ApplyAll | ds/radix/radix.go:153-351 | after any run of Insert, Delete and DeletePrefix the tree holds what a finite map would; compressed if, since everything was deleted or since the start, no operation failed to keep it so |
| RadixRuns.TwoRuns | ds/radix/radix.go:153-351 | history independence: two such runs that come to the same map leave equal shapes and sizes |
| RadixRuns.MinimumMissesKey | ds/radix/radix.go:306-453 | a run on an empty tree after which the tree is not compressed, the map holds one key and Minimum returns false |
| RadixRuns.MaximumMissesKey | ds/radix/radix.go:306-473 | the same for Maximum |
| List.WrapIsModulo | ds/list/list.go:11 | the size and the indices are numbers modulo 2 to the 32 |
| List.Node.ChangeValue | ds/list/list.go:231-233 | the handle gets the new value |
| List.Generic.constructor | ds/list/list.go:16-22 | an empty list |
| List.Generic.Append | ds/list/list.go:24-38 | a fresh handle at the end; all other handles keep their values and their order |
| List.Generic.Remove | ds/list/list.go:162-185 | the handle leaves the sequence, and keeps its own links; nil is ignored |
| List.Generic.Pop | ds/list/list.go:70-83 | removes and returns the first element, if there is one |
| List.Generic.Insert | ds/list/list.go:187-210 | a fresh handle right after the given one; without one only an empty list takes the value, and the list is unchanged otherwise |
| List.Generic.Iterate | ds/list/list.go:95-106 | shows what `Forward` says and leaves the handles it says, even if the callback deletes the current node or ends the iteration |
| List.ForwardShowsAll | ds/list/list.go:95-106 | an iteration shows the elements once and in order, up to the first error that the callback returns, which is the one it ends with, and all of them if there is none; it leaves exactly those it has not both shown and deleted, in their order |
| List.ForwardIndices | ds/list/list.go:96-103 | each element is shown with its original position, modulo 2 to the 32 |
| List.ForwardLeavesTheRest | ds/list/list.go:100-102 | an iteration that an error ends leaves everything it has not shown |
| List.Generic.IterateReverse | ds/list/list.go:138-151 | shows what `Backward` says and leaves the handles it says |
| List.BackwardShowsAll | ds/list/list.go:138-151 | the same from the last element to the first |
| List.BackwardIndices | ds/list/list.go:139-149 | each element is shown with its original position, although the index is counted down from the size |
| List.Generic.Array | ds/list/list.go:153-160 | the whole sequence of values; the list is unchanged |
| List.Generic.Head | ds/list/list.go:52-60 | the first value, if there is one |
| List.Generic.Tail | ds/list/list.go:85-93 | the last value, if there is one |
| List.Generic.OnlyValuesChanged | ds/list/list.go:231-233 | changing values through handles leaves the links as they are |
| PayoutList.OnPayoutInsert | state/pipeline/update.go:107-138 | the list becomes what `Inserted` says, or stays unchanged if it refuses; returns the handle that now holds the payout |
| PayoutList.PlacedAt | state/pipeline/update.go:124-137 | where the scan stops: at the first payout with the same id or a later start |
| PayoutList.PutBefore | state/pipeline/update.go:129-134 | inserting the displaced value behind its handle and overwriting the handle puts the payout before it |
| PayoutList.KnownIsReplaced | state/pipeline/update.go:125-128 | a payout in the list, whose start did not change, is replaced where it stands and nothing else changes |
| PayoutList.KnownIsMoved | state/pipeline/update.go:111-137 | a known payout whose start has changed is replaced in place if and only if the new start is not before the payout ahead of it nor after the last one; otherwise the list holds it twice |
| PayoutList.NewIsAddedOnce | state/pipeline/update.go:111-137 | a new payout is refused exactly if it ties with the tail; else it is added once, nothing is lost or duplicated, and the order is kept |
| Hub.QueueIsBounded | ds/sub/sub.go:86-87 | a stream never holds more than its buffer may, and no more is read than was put |
| Hub.NoRoomIff | ds/sub/sub.go:86-87 | a value finds no room if and only if as many values wait to be read as the buffer holds |
| Hub.ReadsTakeOne | ds/sub/sub.go:114-119 | a read takes the oldest value that waits and leaves the others in order; nothing else takes a value, and none is taken back |
| Hub.ErrorIsFinal | ds/sub/sub.go:88-93 | the one error never changes, and after it nothing more is put |
| Hub.GapFree | ds/sub/sub.go:82-112 | after a replay or none, a registered subscriber was put every broadcast that passed its filter; one that is not, all up to the event that ended it, with an error exactly if its queue was full then |
| Hub.PutIsPrefix | ds/sub/sub.go:82-96 | what was put is always a prefix of what was replayed and then offered |
| Hub.WhyTold | ds/sub/sub.go:86-112 | a subscriber is told of a full queue exactly if a value it should have had found no room, and told nil exactly if it left or all were closed, while registered |
| Hub.ReplayFits | scheduler/payout/internal.go:101-110 | a replay that fits the buffer is put whole |
| Hub.LateSubscriberCatchesUp | scheduler/payout/internal.go:101-127 | the replay, then all later broadcasts that pass the filter, in this order |
| Hub.LateEqualsEarly | scheduler/payout/internal.go:101-127 | a late subscriber was put the same as one that was there from the start |
| Hub.SawIsPut | scheduler/payout/internal.go:101-127 | a registered subscriber was put what it caught of the replay and then all later values that pass its filter; one that is not, a prefix of that; for any reads in between |
| Hub.SawIsCaught | scheduler/payout/internal.go:105-110 | what is caught of a replay has at least the first values, as many as fit the buffer; it is a subsequence, all of it exactly if no value found the buffer full, and all of it if it fits the buffer |
| Hub.ReplayLeavesGap | scheduler/payout/internal.go:105-110 | logs in which a read during the replay makes room: more is put than fits the buffer, and what is put need not be a prefix of the history |
| Hub.ReplaysRead | scheduler/payout/internal.go:105-110 | a new subscriber reads as often as it was to, before each value of the history that it is sent |
| Hub.Subscriber.Deliver | ds/sub/sub.go:84-94 | one round of Broadcast: the value, or the error into a slot that is free |
| Hub.Subscriber.Receive | ds/sub/sub.go:114-119 | the subscriber gets the oldest value that waits, if there is one; what it has got and what waits is all that was put, in order |
| Hub.SubHome.Receive | ds/sub/sub.go:114-124 | a fresh subscription with a new id, an empty stream and an empty error channel |
| Hub.SubHome.Broadcast | ds/sub/sub.go:82-96 | every subscriber there ever was sees the value pass once; ids are the order of registration and are never used twice |
| Hub.SubHome.Delete | ds/sub/sub.go:98-104 | the subscriber is sent nil and is gone; an unknown id changes nothing |
| Hub.SubHome.Close | ds/sub/sub.go:106-112 | exactly the registered subscribers are sent nil, and none is left |
| PayoutTheory.TriggerOrder | scheduler/payout/event.go:10-135 | for all events in any order: what may come before what in the history; CRANK, CLOSE_BIDS and CLOSE_PAYOUT at most once and in this order, after all SET_PAYOUT; no crank after bid-final or bid-closed; no SET_PAYOUT after START; nothing but an event after CLOSE_PAYOUT |
| PayoutTheory.HistoryTells | scheduler/payout/run.go:35-147 | what each kind in the history says of the events taken |
| PayoutTheory.ClosesWhenComplete | scheduler/payout/run.go:76-103 | CLOSE_PAYOUT is in the history if and only if BID_CLOSED, VALIDATOR_HAVE_WITHDRAWN and DELAY_CLOSE_PAYOUT were all taken, and then it is the last but one entry |
| PayoutTheory.CranksWhenDue | scheduler/payout/run.go:34-55 | CRANK is in the history if and only if the start was noticed, by START or a later clock event, before the bids were final |
| PayoutTheory.ClosesBidsWhenDue | scheduler/payout/run.go:57-74 | CLOSE_BIDS is in the history if and only if the finish was noticed before the bids were closed |
| PayoutTheory.TriggersWhenDue | scheduler/payout/run.go:34-147 | every kind of trigger is in the history as often as there are events that call for it, by their kind and the kinds that were taken before |
| PayoutTheory.EventsInOrder | scheduler/payout/event.go:10-43 | without the triggers, the history is the events that were taken, each once and in order |
| PayoutTheory.HistoryGrows | scheduler/payout/event.go:38-42 | an event that is taken is the last of the history, after the triggers it causes, and nothing is ever taken back |
| PayoutTheory.SetPayoutsWhenDue | scheduler/payout/run.go:105-124 | the number of SET_PAYOUT in the history is the number of PRE_STARTs taken before the start was noticed |
| PayoutTheory.SetPayoutOnceIff | scheduler/payout/run.go:105-124 | SET_PAYOUT is sent at most once if and only if at most one PRE_START was taken before the start was noticed |
| PayoutTheory.TwoPreStartsSetPayoutTwice | scheduler/payout/run.go:105-124 | two PRE_STARTs, and SET_PAYOUT is sent twice |
| PayoutTheory.WithdrawsWhenDue | scheduler/payout/run.go:134-147 | the number of WITHDRAW_RECEIPT in the history is the number of STAKER_HAVE_WITHDRAWN taken before a VALIDATOR_HAVE_WITHDRAWN |
| PayoutScheduler.DoneWhenOver | scheduler/payout/event.go:91-110 | a trigger's context is done exactly if it is a CRANK and BID_FINAL was taken, or a CLOSE_BIDS and BID_CLOSED was taken |
| PayoutScheduler.Internal.constructor | scheduler/payout/internal.go:71-90 | the initial state accounts for no events |
| PayoutScheduler.Internal.Broadcast | scheduler/payout/internal.go:124-127 | the event is appended to the history and passes every subscriber there ever was, and nothing else happens to any (`Served`) |
| PayoutScheduler.Internal.RunCrank | scheduler/payout/run.go:34-55 | CRANK exactly if started, bids not final, and none was sent |
| PayoutScheduler.Internal.RunCloseBids | scheduler/payout/run.go:57-74 | CLOSE_BIDS exactly if bids are not closed and none was sent |
| PayoutScheduler.Internal.RunClosePayout | scheduler/payout/run.go:76-103 | CLOSE_PAYOUT and the end of the loop exactly if all three events were taken |
| PayoutScheduler.Internal.RunValidatorSetPayout | scheduler/payout/run.go:105-124 | SET_PAYOUT every time before the start; its cancel function lands in the withdraw field |
| PayoutScheduler.Internal.RunValidatorWithdraw | scheduler/payout/run.go:134-147 | WITHDRAW_RECEIPT exactly if no validator withdrawal was taken; its cancel function replaces the one in the withdraw field |
| PayoutScheduler.Internal.OnPreStart | scheduler/payout/event.go:45-50 | the triggers that PRE_START causes |
| PayoutScheduler.Internal.OnStart | scheduler/payout/event.go:53-63 | the crank, if it is due; no context is cancelled |
| PayoutScheduler.Internal.OnFinish | scheduler/payout/event.go:66-78 | stands for START too if that was not taken; the crank and CLOSE_BIDS, if they are due |
| PayoutScheduler.Internal.OnClockClosePayout | scheduler/payout/event.go:80-89 | stands for FINISH too if that was not taken; the triggers that it causes |
| PayoutScheduler.Internal.OnBidFinal | scheduler/payout/event.go:91-98 | cancels the crank's context |
| PayoutScheduler.Internal.OnBidClosed | scheduler/payout/event.go:100-110 | cancels the context of CLOSE_BIDS, makes the bids final too; closes the payout if that completes the three |
| PayoutScheduler.Internal.OnValidatorIsAdding | scheduler/payout/event.go:112-116 | sets its flag and causes no trigger |
| PayoutScheduler.Internal.OnValidatorHaveWithdrawn | scheduler/payout/event.go:118-124 | closes the payout if that completes the three |
| PayoutScheduler.Internal.OnStakerIsAdding | scheduler/payout/event.go:126-129 | sets its flag and causes no trigger |
| PayoutScheduler.Internal.OnStakerHaveWithdrawn | scheduler/payout/event.go:131-135 | WITHDRAW_RECEIPT, if it is due |
| PayoutScheduler.Internal.OnEvent | scheduler/payout/event.go:10-43 | the history grows by the triggers that the event causes and then the event; an unknown event is an error and changes nothing |
| PayoutScheduler.Internal.Join | scheduler/payout/internal.go:101-111 | a new subscriber is registered and is sent the history, what does not fit being dropped; it may read before each send; nothing happens to the others |
| PayoutScheduler.Internal.Leave | scheduler/payout/internal.go:99-100 | a registered subscriber is told nil and is gone; nothing happens to the others, or to anyone if the id is not registered |
| PayoutScheduler.Internal.Loop | scheduler/payout/internal.go:89-115 | on any inputs: flags, contexts and history are those that the events account for, and there is one stream for each request, with its buffer and filter, that has seen exactly what `PayoutStreams.Logs` says; it ends exactly when the three events were taken, an unknown one comes or it is cancelled |
| PayoutScheduler.Internal.StreamsAreAsSaid | ds/sub/sub.go:67-124 | each stream is in the state that the inputs alone determine: what its subscriber has got and what waits for it is what it was put, in order; it is registered exactly if it was told nothing |
| PayoutScheduler.Internal.Read | ds/sub/sub.go:114-119 | a subscriber gets the oldest value that waits for it, if there is one; nothing happens to the others |
| PayoutScheduler.Internal.ContextDoneIff | scheduler/payout/event.go:91-110 | the context of a CRANK is done if and only if BID_FINAL was taken, that of a CLOSE_BIDS if and only if BID_CLOSED was, and no other ever is |
| PayoutScheduler.Internal.CrankDoneIff | scheduler/payout/event.go:91-110 | the context of a CRANK is done if and only if BID_FINAL was taken |
| PayoutScheduler.CrankOutlivesBids | scheduler/payout/event.go:100-110 | a run after which the bids are final and closed, and the crank's context is not done |
| PayoutStreams.EndsAreJoins | scheduler/payout/internal.go:101-104 | there are as many subscribers as there were requests |
| PayoutStreams.EachJoined | scheduler/payout/internal.go:101-104 | each subscriber has its request among the inputs, the one that comes after as many others as there were before it |
| PayoutStreams.SawSinceJoin | scheduler/payout/internal.go:101-127 | the subscriber of a request has the buffer and filter it asked for, was replayed the history of that time, and was passed by all that came later |
| PayoutStreams.LateSubscriber | scheduler/payout/internal.go:101-127 | a registered subscriber was put what it caught of the history of the time it joined and then all that came later and passes its filter, one that is no longer registered a prefix of that; it caught at least what fits its buffer, and all of it exactly if nothing was dropped |
| PayoutStreams.AllAreEqual | scheduler/payout/internal.go:101-127 | registered subscribers that take everything and had room for the history when they joined have all been put the whole history |
| PayoutStreams.ToldWhy | ds/sub/sub.go:82-104 | a subscriber is told nil if and only if it asked to leave when it was registered, and of a full queue if and only if an event that it should have had found no room |
| PayoutStreams.OnlyReadsTake | ds/sub/sub.go:114-119 | a subscriber that reads takes the oldest value that waits for it; no other input takes a value from it, and what it was put is never taken back |
| Clock.LoopClock | scheduler/payout/clock.go:16-98 | for every period and every sequence of slots, the events and the note are those that `Emitted` says by first slots; it ends exactly when the closing slot was reached; the times are start, start + length - 1 and start + length + 99 unless a sum is too large |
| Clock.Loop | scheduler/payout/clock.go:41-91 | the loop itself, with the three times given |
| ClockTheory.SentWhenDue | scheduler/payout/clock.go:42-90 | each event is sent if and only if a slot calls for it |
| ClockTheory.ClockOrder | scheduler/payout/clock.go:42-90 | for every sequence of slots, even one that goes backwards: no event twice, START, FINISH and CLOSE in the order of their times; when slots never decrease, PRE_START before START, and before the others unless their times are before the start |
| ClockTheory.StateChangeWhenSeenBefore | scheduler/payout/clock.go:51-90 | START, FINISH and CLOSE are sent at the first slot to reach their time, and marked as a state change exactly if there was a slot before |
| ClockTheory.PreStartIsStateChange | scheduler/payout/clock.go:61-69 | PRE_START is sent at the first slot before the start, always as a state change |
| ClockTheory.ClockOnTime | scheduler/payout/clock.go:31-90 | in numbers of any size: unless a sum is too large, PRE_START is sent if and only if a slot is before the start, START if and only if one reaches it, FINISH if and only if one reaches start + length - 1, and CLOSE if and only if one reaches start + length + 99 |
| ClockTheory.OrderIffNoWrap | scheduler/payout/clock.go:31-40 | the three come one after the other for every sequence of slots if and only if length is at least 1 and start + length + 99 fits 64 bits |
| Watcher.PayoutEventInfo.OnInput | scheduler/payout/close.go:65-108 | one round of the loop: the flags and the events sent become what `React` says |
| Watcher.PayoutEventInfo.LoopPayoutEvent | scheduler/payout/close.go:26-118 | flags and events after any inputs; it ends exactly when the bids are closed and the validators have withdrawn |
| Watcher.PayoutEventInfo.OnBidClosed | scheduler/payout/close.go:145-156 | the flag, one BID_CLOSED, and the end of the other watchers |
| WatcherTheory.WatchedTells | scheduler/payout/close.go:49-108 | what each flag says of the account: bids seen closed; validators seen; validators seen and later none, or none seen when the clock's note came |
| WatcherTheory.WatchedSends | scheduler/payout/close.go:49-108 | each event is sent once, exactly when its flag is set |
| WatcherTheory.WatchedIsMarked | scheduler/payout/close.go:49-156 | what each event says besides its kind: BID_CLOSED is no state change exactly if the bids were closed at first, a withdrawal on the clock's note repeats what the note says, and all else is a state change |
| WatcherTheory.WatchedInOrder | scheduler/payout/close.go:91-107 | the events of an earlier input come first, and of the events of one input BID_CLOSED is the first |
| PayoutSystem.RunFits | scheduler/payout/internal.go:41-115 | an invariant of every run of the three loops and the other senders |
| PayoutSystem.RunMerges | scheduler/payout/internal.go:58-100 | in every run the scheduler takes the events of the clock, and those of the watcher, each once and in the order in which they were sent |
| PayoutSystem.RunNotes | scheduler/payout/clock.go:82-87 | in every run the clock's note, and what the watcher takes of it, says whether the closing slot was not the first |
| PayoutSystem.QuietRunClosesOnce | scheduler/payout/run.go:77-103 | in every interleaving in which a closing slot is seen, the bids get closed and the validator count is never positive or returns to zero: when no loop has a step left, the history has exactly one CLOSE_PAYOUT |
| PayoutSystem.NoRunClosesTwice | scheduler/payout/run.go:76-103 | no run, whatever the account does, has two |
| PayoutSystem.NoRunSetsPayoutTwice | scheduler/payout/run.go:105-124 | no run of the composed system sends SET_PAYOUT twice, because the clock sends PRE_START once |
| PayoutSystem.ClosesOnlyWhenOver | scheduler/payout/run.go:77-103 | CLOSE_PAYOUT never comes early: a closing slot was read, the bids were seen closed, and the validators were seen to leave or none was there when the note came |
| PayoutSystem.LoopsEnd | scheduler/payout/close.go:65-108 | every step of a loop uses up some of a bounded measure, so the loops do run out of steps |
| Router.Internal.OnPayout | state/router/payout.go:48-114 | the payout gets its parked bid list and receipts, goes to its pipeline or is parked, and clears the receipts that wait for a validator with its id if receipts waited for it; an update of a known payout is handed over once more, and so is each receipt that is parked for it |
| Router.Internal.LookupAddPayout | state/router/payout.go:31-46 | the payout is known; the table by pipeline and start has an entry for each payout's, keeps the entries it has, and has no others |
| Router.Internal.OnReceipt | state/router/receipt.go:23-97 | a new receipt goes to its payout and its validator, once, or is parked; a known one changes nothing |
| Router.Internal.OnPipeline | state/router/pipeline.go:30-82 | a new pipeline gets its parked period ring and payouts, each once; nothing changes if it cannot be made |
| Router.Internal.OnPeriod | state/router/pipeline.go:84-94 | the ring goes to its pipeline, once, or replaces the parked one |
| Router.Internal.OnValidator | state/router/validator.go:43-86 | a new validator gets its parked receipts; nothing changes if it cannot be made |
| Router.Internal.OnBid | state/router/bid.go:8-16 | the list goes to its payout, once, or replaces the parked one |
| Router.Internal.HandleAll | state/router/internal.go:94-148 | after any messages in any order and with any repetition the tables and all that was handed out are as the messages say |
| RouterTheory.SaidIs | state/router/internal.go:94-148 | who is known and who names whom depends on which messages came, not on their order |
| RouterTheory.SaidFirsts | state/router/receipt.go:23-40 | of each receipt the first message counts |
| RouterTheory.PayoutsKnown | state/router/payout.go:31-71 | the router's table has of each payout what the first message about it says |
| RouterTheory.SaidBids | state/router/bid.go:8-16 | of each payout's bid lists the last one counts |
| RouterTheory.SaidRings | state/router/pipeline.go:84-94 | of each pipeline's period rings the last one counts |
| RouterTheory.SaidAwaited | state/router/receipt.go:56-97 | a payout was waited for exactly if the first message about some receipt of it came before it was seen |
| RouterTheory.LostIff | state/router/payout.go:85-93 | the receipts that the joins drop are those that waited for a validator when a payout with the validator's id, which receipts had waited for, was seen |
| RouterTheory.PayoutsHanded | state/router/internal.go:94-148 | a payout was handed to a pipeline exactly if the pipeline was made and a message about the payout named it |
| RouterTheory.PayoutsCounted | state/router/payout.go:94-107 | how often a payout was handed to a pipeline: once for each message about it that names the pipeline when that is known, and once when the pipeline is made if it was named before |
| RouterTheory.ReceiptsHanded | state/router/internal.go:94-148 | a receipt was handed to a payout exactly if the payout was seen and the first message about the receipt named it |
| RouterTheory.ValidatorReceiptsHanded | state/router/payout.go:85-93 | a receipt was handed to a validator exactly if the validator was made, the first message about the receipt named it, and no message lost it; and never twice |
| RouterTheory.BidsHanded | state/router/bid.go:8-16 | the bid list that a payout was handed last is a given one exactly if the payout was seen and that list is the latest for it |
| RouterTheory.RingsHanded | state/router/pipeline.go:84-94 | the same for period rings and pipelines |
| RouterTheory.NothingLost | state/router/payout.go:92 | where no account is both a payout and a validator, every receipt was handed to its validator once both are known |
| RouterTheory.SharedIdLosesReceipt | state/router/payout.go:92 | a run in which all three accounts are known and the receipt was never handed to its validator |

## Left out

- Everything that talks to the network, a database or a user: RPC, websocket, gRPC, Tor, TLS, SQL, the command line, script building, generated protobuf code.
- Goroutines, channels and contexts as such: a channel is the sequence of what was sent, a rendezvous a step of the transition system; the cancellation of all contexts when the scheduler ends is not modelled, so done contexts are those cancelled by a handler.
- Failing subscriptions: the streams of slots and of account states end or go on, but do not break.
- Hub.Subscriber.Deliver: a subscription with buffer size 0 whose reader is already waiting can be sent a value in the source; here its queue is always full.
- Radix.Tree.Walk: the visitor does not change the tree; the source adjusts its index for visitors that delete, which does not cover every merge.
- Radix.Tree.RecursiveWalk: the same, and so the check for a node whose last edge was deleted is never reached.
- Radix.Tree.WalkPrefix: the same.
- Radix.Tree.WalkPath: the visitor does not change the tree.
- Radix leaves are values inside nodes, so the sharing of a leaf between a merged node and its former child, which is no longer linked, is not modelled.
- List.Generic.Iterate: the callback deletes at most the node it is shown, and only once; deleting other nodes meanwhile is not modelled.
- List.Generic.IterateReverse: the same.
- List.Generic.Remove: requires the handle to be in the list; a second removal of the same handle would corrupt it.
- List.Generic.Insert: requires the handle to insert after, if there is one, to be in the list; the source does not check it.
- List.Generic.Array: requires fewer than 2 to the 32 elements; beyond that the wrapped size is too small and the source panics.
- list Prepend and InsertSorted, because Prepend links the new node to itself; RadixIndex, which treats a fresh key as a failure; SyncList, which repeats the list with locks.
- PayoutList.OnPayoutInsert: the map from payout ids to list nodes is not modelled; the swap moves the displaced value to a node that the map does not record.
- The loops that watch bid finality and stakers: their events are arbitrary inputs to the scheduler, at any time and in any number.
- Watcher.PayoutEventInfo.LoopPayoutEvent: the branch for the clock's start note is not modelled, because nothing is ever sent on its channel; nor is the copy of the closing note to the watcher of the stakers.
- PayoutScheduler.Internal.Broadcast: the history, a linked list in the source, is a sequence here; what Append and Array do is proved of `List.Generic`.
- PayoutScheduler.Internal.Loop: requests that only read the internal state or ask for a close signal are not modelled.
- Clock.LoopClock: cancellation and a failing slot subscription are not modelled; a clock that stops early is one that gets no more slots.
- Clock.Loop: the same.
- Closing and reopening of accounts in the router, the staker join, and the tables of unmatched accounts that are filled at start-up and never read.
- Router.Internal.HandleAll: messages that close or reopen an account, and those about stakers, are not among the messages.
- Router.Internal.OnReceipt: receipts are handed to payouts at least once; parked ones are handed over again with each update of the payout, because the table they are parked in is never cleared.
- Router.Internal.OnValidator: the registration of validators with pipelines by the periods they selected, and the table by vote, are not modelled.
- Rate limiters, transactions per second and stake shares (floating point), the ring buffer and the Merkle tree wrapper.
