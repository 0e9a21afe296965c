# A verified model of the chain's state machinery

This project models, in Dafny, the parts of the BNB Beacon Chain fork of the Cosmos SDK on which the
meaning of its state depends: how values are encoded, how caches are stacked and written back, how
transactions change accounts, how coins move, how governance keeps deposits, how cross-chain packages
are numbered, how snapshots are cut and put together again, and how the concurrent client orders its
work. `dafny verify dfyconfig.toml` checks everything.

Each area has an independent reference that the modelled code is proved against:

- **RLP** (`Rlp`, `RlpEncode`, `RlpDecode`, `RlpRaw`). The reference is the recursive encoding of
  Appendix B of the Yellow Paper. The encoder's flat buffer with back-patched list headers, read out by
  any of its three routes, gives exactly those bytes; the stream decoder accepts exactly those bytes,
  and no counter of its list stack ever passes its bound.
- **Stores** (`Listing`, `Overlays`, `MergeIterator`, `CacheStore`, `PrefixStore`). The reference is a
  flat map and its sorted listing. Caches stacked to any depth, merged iteration in both directions
  and nested prefixes all refine it.
- **Accounts and transactions** (`AccountCache`, `Transactions`, `Sequences`, `Blocks`). Account caches
  hold mutable objects, so the model has them on the heap; clients may change an object they hold at any
  time, and nothing shows it until they save it. On top of that a transaction is accepted exactly if it
  is signed as it should be, it takes effect as a whole or not at all, and over any number of blocks a
  signed transaction succeeds at most once.
- **Coins and bank** (`MapSum`, `Coins`, `Bank`). The reference is the amount per denomination, with
  64-bit overflow. A MsgSend that succeeds preserves the supply of every denomination.
- **Concurrent client** (`AsyncClient`). A step machine over its locks, queues, worker pools and wait
  group. The invariants hold in every interleaving; there is no deadlock, and without new calls every
  run ends.
- **Governance** (`Decimal`, `Tally`, `Proposals`, `Gov`). Rounding is exact round-half-even, the tally
  and its total are within a stated distance of the exact ones, and over every run on all chains that
  share the escrow account every record goes where its proposal's fate says, and the account stays
  solvent, so that no payment out of it can fail.
- **State sync** (`Snapshot`, `Recovery`). Cutting stores into chunks and recovering them, in any order
  of arrival, gives back every node in its own store, exactly if no chunk is empty.
- **Merkle proofs** (`MerkleProofs`). The references are the Merkle Tree Hash and audit path of
  sections 2.1 and 2.1.1 of RFC 6962.
- **Cross-chain packages** (`Ibc`, `Oracle`, `OracleRuns`). The reference is a flat world of accounts, an
  application's store and the keepers' store. Handling a claim in nested caches refines it. Over every
  run of claims mixed with other transactions, only packages of claims that won are executed, those of each
  channel carry the sequences 0, 1, 2 and so on, and an application that fails or crashes leaves nothing
  of what it did. What is sent is numbered without gaps and stays stored until it is confirmed.

Where the code differs from its own comments, the model follows the code:

- `Coins.IsValid` says that no amount is zero, but with two or more coins it does not look at the first
  (types/coin.go:116-137); `Coins.ZeroFirst` is such a list, and `Coins.IsValid` states what is accepted.
- `Coins.IsGTE` subtracts by adding a negative (types/coin.go:187-200). So the least 64-bit integer,
  which is its own negative, is never covered, as `Coins.LeastIsNotCovered` shows, and comparing the
  greatest one with minus one panics, as `Coins.MostPanics` shows. `Coins.IsGTE` has both conditions, in
  terms of the amounts compared.
- The loop over packages says that the rest get a chance to execute after a failure, but it returns
  (x/oracle/handler.go:63-66); `Oracle.HandleClaim` reverts the whole claim.
- Writing an empty chunk is called a waste of at most one chunk, but recovery refuses it
  (store/statesync_helper.go:185-187, 447-453); `Recovery.RoundTrip` has the exact condition, and
  `Recovery.OversizedRefused` takes and refuses the snapshot of a store that does not meet it.

Panics appear as the value `None`, as a result of their own, or as `ok == false`, as each contract
says. 64-bit wrap-around is written out with `Wrap` where the source can reach it.

## Model

| member | source | states |
|---|---|---|
| `Rlp.HeaderParses` | bsc/rlp/decode.go:857-917 | every header read back gives the kind and size it was made from, whatever bytes follow |
| `Rlp.ParsedHeaderIsCanonical` | bsc/rlp/decode.go:857-917 | conversely, any header that parses is byte for byte the canonical header of the size read |
| `Rlp.PrefixFree` | bsc/rlp/encode.go:163-201 | no two items have encodings that both start the same byte string: RLP is injective and self-delimiting |
| `RlpEncode.PutInt` | bsc/rlp/encode.go:548-603 | the bytes written are the shortest big-endian digits, and nothing else in the buffer changes |
| `RlpEncode.IntSize` | bsc/rlp/encode.go:606-612 | the size computed is the number of digits that PutInt would write |
| `RlpEncode.PutHead` | bsc/rlp/encode.go:123-131 | the bytes written are the canonical header, and nothing else in the buffer changes |
| `RlpEncode.SizeOf` | bsc/rlp/encode.go:190-201 | string data and closed list headers together always have the length of the recursive encoding |
| `RlpEncode.SpliceItem` | bsc/rlp/encode.go:203-219 | putting the headers of an item back at their offsets gives its recursive encoding, whatever follows in the buffer |
| `RlpEncode.SpliceWhole` | bsc/rlp/encode.go:203-219 | a buffer that holds one item splices to exactly its recursive encoding |
| `RlpEncode.EncBuf.EncodeString` | bsc/rlp/encode.go:174-182 | appends the recursive encoding of the string |
| `RlpEncode.EncBuf.WriteUint` | bsc/rlp/encode.go:361-375 | an integer is appended as the encoding of the string of its shortest bytes |
| `RlpEncode.EncBuf.ListEnd` | bsc/rlp/encode.go:190-197 | back-patches one header with the size since the list was opened and counts exactly that header's bytes |
| `RlpEncode.EncBuf.EncodeItem` | bsc/rlp/encode.go:442-476 | any nesting appends its data and its closed headers, and leaves the headers of lists still open alone |
| `RlpEncode.EncBuf.ToBytes` | bsc/rlp/encode.go:203-219 | the array is filled exactly by the spliced encoding |
| `RlpEncode.EncBuf.ToWriter` | bsc/rlp/encode.go:221-243 | on success the writer got the spliced encoding, on failure a prefix of it |
| `RlpEncode.EncReader.Next` | bsc/rlp/encode.go:279-310 | pieces come without gap or overlap: the piece and what is ahead make up what was left |
| `RlpEncode.EncReader.Read` | bsc/rlp/encode.go:254-275 | a read fills the buffer from what is left, and end of file is reported exactly when nothing is left to come |
| `RlpEncode.EncodeToBytes` | bsc/rlp/encode.go:70-78 | the deferred-header encoder returns the recursive encoding of every item |
| `RlpEncode.EncodeToSink` | bsc/rlp/encode.go:53-66 | the writer receives the recursive encoding, or a prefix of it if it fails |
| `RlpEncode.EncodeAndRead` | bsc/rlp/encode.go:85-92 | under any sequence of read-buffer sizes the pieces concatenate to the recursive encoding, all of it once the end is reported |
| `RlpDecode.Stream.constructor` | bsc/rlp/decode.go:778-811 | a fresh stream over any input meets the invariant of nested lists within their parents |
| `RlpDecode.Stream.WillRead` | bsc/rlp/decode.go:971-989 | bytes may be taken exactly if the innermost list and the input limit allow it; no list passes its size, and every inner list stays within its parent |
| `RlpDecode.Stream.ReadFull` | bsc/rlp/decode.go:945-958 | succeeds exactly if the bytes are allowed and there, in whatever portions the reader gives them |
| `RlpDecode.Stream.ReadUint` | bsc/rlp/decode.go:919-943 | the value of the next bytes, refused as non-canonical exactly if a longer one starts with zero |
| `RlpDecode.Stream.ReadKind` | bsc/rlp/decode.go:857-917 | succeeds for every canonical header that is allowed, and only for canonical ones |
| `RlpDecode.Stream.GetKind` | bsc/rlp/decode.go:824-855 | reports the end of a list exactly at its end, remembers the header it read, and never lets a value exceed its list |
| `RlpDecode.Stream.List` | bsc/rlp/decode.go:711-723 | entering a list keeps it within what its parent has left |
| `RlpDecode.Stream.ListEnd` | bsc/rlp/decode.go:727-742 | leaving is refused exactly outside a list or before its end, and otherwise counts the list's bytes in its parent without passing the parent's size |
| `RlpDecode.Stream.Bytes` | bsc/rlp/decode.go:602-623 | returns a string only after reading exactly its canonical encoding, and always if that lies ahead |
| `RlpDecode.Stream.Raw` | bsc/rlp/decode.go:626-648 | returns the value ahead byte for byte as it stood in the input, header included |
| `RlpDecode.Stream.Uint` | bsc/rlp/decode.go:657-688 | returns an integer only for its canonical encoding within the width, and always if that lies ahead |
| `RlpDecode.Stream.DecodeItem` | bsc/rlp/decode.go:478-500 | returns an item only after reading exactly its encoding, and always if that lies ahead |
| `RlpDecode.Stream.DecodeElems` | bsc/rlp/decode.go:289-316 | the elements returned are exactly those whose encodings fill the list |
| `RlpDecode.RunCalls` | bsc/rlp/decode.go:602-989 | whatever is called in whatever order on whatever input, no position passes its list's size and every inner list stays within its parent's remainder, so no counter underflows |
| `RlpDecode.DecodeFirst` | bsc/rlp/decode.go:78-84 | a value is returned exactly if some encoding within the limit starts the input, and it is that one |
| `RlpDecode.DecodeBytes` | bsc/rlp/decode.go:88-102 | accepts exactly the encodings, and returns what was encoded |
| `RlpDecode.RoundTrip` | bsc/rlp/decode.go:88-102 | what the buffered encoder writes, the stream decoder reads back, for every item |
| `RlpDecode.Reencode` | bsc/rlp/decode.go:88-102 | what the stream decoder accepts re-encodes to the same bytes; what it refuses is no item's encoding |
| `RlpRaw.ReadKindExact` | bsc/rlp/raw.go:86-156 | accepts exactly the canonical headers of values that are there in full |
| `RlpRaw.Split` | bsc/rlp/raw.go:39-45 | header, content and rest partition the input |
| `RlpRaw.SplitEncoding` | bsc/rlp/raw.go:39-45 | splitting an encoding gives back kind, content and whatever followed |
| `RlpRaw.SplitIsCanonical` | bsc/rlp/raw.go:39-58 | a string that splits off stood in the input as exactly its canonical encoding |
| `RlpRaw.CountValues` | bsc/rlp/raw.go:74-84 | terminates; counts the values the input consists of, and fails exactly if one of them is malformed or cut short |
| `RlpRaw.ValuesOfPayload` | bsc/rlp/raw.go:74-84 | the values of a list's payload are the encodings of its elements, in order |
| `RlpRaw.CountElements` | bsc/rlp/raw.go:74-84 | on the payload of any encoded list the count is its number of elements |
| `MergeIterator.MergeIsOverlay` | store/cachemergeiterator.go:50-224 | in both directions the merged listing is in strict key order and lists exactly the overlaid map, tombstones hidden |
| `MergeIterator.RestrictListing` | store/memiterator.go:18-30 | filtering a listing by a domain keeps its order and restricts the map it lists |
| `MergeIterator.MemIterator.constructor` | store/memiterator.go:18-30 | holds the items of the domain, in order |
| `MergeIterator.CacheMergeIterator.SkipCacheDeletes` | store/cachemergeiterator.go:163-170 | skipping tombstones hides nothing that would be shown, stops only at the limit, and makes progress |
| `MergeIterator.CacheMergeIterator.SkipUntilExistsOrInvalid` | store/cachemergeiterator.go:175-224 | ends, changes nothing that is shown, and reports valid exactly if something is left |
| `MergeIterator.CacheMergeIterator.Next` | store/cachemergeiterator.go:55-82 | moves on by exactly one entry of the merged listing |
| `MergeIterator.CacheMergeIterator.Key` | store/cachemergeiterator.go:85-112 | the key of the next entry of the merged listing |
| `MergeIterator.CacheMergeIterator.Value` | store/cachemergeiterator.go:115-142 | the value of the next entry of the merged listing |
| `MergeIterator.Collect` | store/cachemergeiterator.go:50-142 | a whole walk yields exactly the merged listing |
| `CacheStore.Store.Get` | store/cachekvstore.go:43-57 | the value the layer shows; remembering it changes what no layer shows |
| `CacheStore.Store.Set` | store/cachekvstore.go:60-66 | the layer shows the new value, and the layers beneath are untouched |
| `CacheStore.Store.Delete` | store/cachekvstore.go:75-81 | the layer no longer shows the key, and the layers beneath are untouched |
| `CacheStore.Store.Write` | store/cachekvstore.go:89-119 | the parent comes to show exactly what the layer showed, at any depth |
| `CacheStore.Store.Iterate` | store/cachekvstore.go:138-183 | the sorted listing of what the layer shows within the domain, through any number of merges |
| `CacheStore.Run` | store/cachekvstore.go:43-183 | any program of reads, writes, iterations and nested caches, written back or thrown away, behaves as on one flat map: same contents, same answers |
| `CacheStore.RunNested` | store/cachekvstore.go:125-127 | code in a cache of its own changes the store beneath exactly if the cache is written back |
| `CacheStore.NestedMeans` | store/cachekvstore.go:89-127 | on the flat map, a cache that is written back is as if there were none, and one thrown away leaves nothing |
| `PrefixStore.PrefixEndBytes` | types/store.go:289-310 | the end returned bounds exactly the keys with the prefix, for every byte string |
| `PrefixStore.PrefixRange` | types/store.go:289-310 | a key has prefix p exactly when p <= key < end of p, with no end as infinity |
| `PrefixStore.NestedPrefix` | store/prefixstore.go:73-75 | a prefix of a prefix shows what one concatenated prefix shows |
| `PrefixStore.DisjointPrefixes` | store/prefixstore.go:28-34 | writes under one prefix do not show under another if neither extends the other |
| `PrefixStore.ViewIsUnder` | store/prefixstore.go:73-75 | however deeply prefixes are nested, the store shows the part under their concatenation |
| `PrefixStore.DomainUnder` | store/prefixstore.go:79-109 | the translated domain holds exactly the prefixed keys of the domain asked for |
| `PrefixStore.Get` | store/prefixstore.go:52-55 | lookup in the part under the prefix |
| `PrefixStore.Set` | store/prefixstore.go:63-65 | changes exactly the prefixed key beneath, and the part under the prefix accordingly |
| `PrefixStore.Delete` | store/prefixstore.go:68-70 | removes exactly the prefixed key beneath |
| `PrefixStore.PrefixIterator.Next` | store/prefixstore.go:141-149 | moves on by one stripped entry and stays consistent with the iterator beneath |
| `PrefixStore.Iterate` | store/prefixstore.go:79-128 | in either direction the walk equals filter-then-strip of the parent |
| `Coins.SafePlus` | types/coin.go:82-88 | the wrap-around test panics exactly if the sum leaves 64 bits |
| `Coins.AmountOfIsAmount` | types/coin.go:261-282 | on a sorted list binary search finds what plain search finds |
| `Coins.Plus` | types/coin.go:141-172 | the merge loop computes the sum that the next four rows are about |
| `Coins.SumIsPointwise` | types/coin.go:141-172 | on sorted lists the sum is sorted and adds every denomination |
| `Coins.SumNoZero` | types/coin.go:141-172 | zero-free lists have zero-free sums |
| `Coins.SumPanics` | types/coin.go:141-172 | given a panic, finds a denomination whose sum leaves 64 bits |
| `Coins.PlusPanics` | types/coin.go:141-172 | on sorted lists Plus panics exactly if the sum of some denomination leaves 64 bits |
| `Coins.NegatedIsPointwise` | types/coin.go:175-184 | negation is pointwise, with wrap-around, and keeps the order |
| `Coins.DifferenceIsPointwise` | types/coin.go:187-189 | on sorted lists the difference is sorted and pointwise, with the wrapped negative |
| `Coins.DifferenceCovers` | types/coin.go:187-200 | the difference has no negative amount exactly if every denomination is covered and the subtrahend has no least 64-bit integer |
| `Coins.LeastIsNotCovered` | types/coin.go:175-200 | the least 64-bit integer is at most nothing, and yet subtracting it leaves it |
| `Coins.MinusPanics` | types/coin.go:187-189 | on sorted lists Minus panics exactly if, for some denomination, the amount plus the wrapped negative leaves 64 bits |
| `Coins.MostPanics` | types/coin.go:187-200 | the greatest 64-bit integer covers minus one, which has a negative, and yet their difference panics |
| `Coins.IsGTE` | types/coin.go:194-200 | panics exactly if, for some denomination, the amount plus the wrapped negative leaves 64 bits; otherwise true exactly if every denomination is covered and the right side has no least 64-bit integer |
| `Coins.IsValid` | types/coin.go:117-137 | accepts exactly the strictly sorted lists with no zero after the first, or with no zero if there is one coin |
| `Coins.ZeroFirst` | types/coin.go:124-135 | a list that IsValid accepts though its first amount is zero |
| `Bank.PositiveUnique` | x/bank/msgs.go:50-53 | sorted lists of positive amounts that agree in every denomination are equal |
| `Bank.SumProper` | x/bank/keeper.go:203-212 | a sum of balances panics exactly on overflow and is a balance otherwise |
| `Bank.DifferenceProper` | x/bank/keeper.go:191-200 | a difference of balances never panics, and is not negative exactly if there is enough of everything |
| `Bank.Keeper.SubtractCoins` | x/bank/keeper.go:191-200 | succeeds exactly if the difference is not negative, and then changes only this balance |
| `Bank.Keeper.AddCoins` | x/bank/keeper.go:203-212 | succeeds exactly if the sum fits and is not negative, and then changes only this balance |
| `Bank.Keeper.InputOutputCoins` | x/bank/keeper.go:232-252 | succeeds exactly if every account can pay the sum of its inputs and none overflows; then every account ends with its balance less its inputs plus its outputs, repeated addresses included |
| `Bank.Keeper.SendCoins` | x/bank/keeper.go:216-228 | a transfer with exactly stated success, insufficiency and overflow, that changes two balances by the amount |
| `Bank.ValidateEntry` | x/bank/msgs.go:98-141 | accepts exactly full-length addresses with sorted, positive coins |
| `Bank.AddUp` | x/bank/msgs.go:37-49 | the running total is defined exactly if all entries are acceptable and no total overflows, and adds every denomination |
| `Bank.ValidateBasic` | x/bank/msgs.go:27-55 | accepts exactly the messages whose inputs and outputs agree in every denomination |
| `Bank.HandleSend` | x/bank/handler.go:23-52 | a MsgSend that passes ValidateBasic and succeeds preserves the supply of every denomination and keeps all balances non-negative; it succeeds exactly if funded and in range |
| `AccountCache.Layer.GetAccount` | x/auth/mapper.go:231-243 | the account shown, as an object that no cache holds, at any depth |
| `AccountCache.Layer.GetThrough` | x/auth/mapper.go:356-369 | a cache fills itself from beneath without changing what any layer shows |
| `AccountCache.Layer.SetAccount` | x/auth/mapper.go:245-304 | the layer shows the account as it is now; objects are cloned, so later changes do not show |
| `AccountCache.Layer.Delete` | x/auth/mapper.go:256-308 | hides the account in a cache, and panics exactly on the account store itself |
| `AccountCache.Layer.Write` | x/auth/mapper.go:320-354 | the parent comes to show what the layer showed; fails exactly if it would delete from the account store itself |
| `AccountCache.Same` | x/auth/mapper.go:356-381 | what a layer shows depends only on the layers beneath and on objects that they own |
| `AccountCache.Run` | x/auth/mapper.go:210-381 | any program that fetches, creates, edits, saves, removes and nests behaves as on a flat map: edits of held accounts do not show until saved, nothing beneath changes until written back |
| `AccountCache.RunNested` | x/auth/mapper.go:314-354 | code in a cache of its own changes the accounts beneath exactly if the cache is written back |
| `AccountCache.QuietShowsNothing` | x/auth/mapper.go:231-304 | code that fetches, makes and changes accounts shows nothing, at any depth, until it saves or removes one |
| `AccountCache.SavedShows` | x/auth/mapper.go:245-308 | a saved account is shown under its own address, a removed one is not, and no other changes |
| `AccountCache.FlatOpsKeyed` | x/auth/mapper.go:95-106 | handlers, who save accounts under their own addresses, keep every account under its own address |
| `Transactions.AcceptedIsSigned` | x/auth/ante.go:125-206 | an accepted signer has an account; its signature carries that account's number, or 0 at height 0, and its sequence; where signatures are checked it verifies under the account's key or, if there is none, one that hashes to the address; it is charged that sequence and given that key |
| `Transactions.AcceptedIsBasic` | x/auth/ante.go:92-112 | an accepted transaction has as many signatures as signers and, unless rechecked, at least one and a memo of at most 100 characters |
| `Transactions.FittingIsAccepted` | x/auth/ante.go:21-206 | conversely, a transaction all of whose signers have accounts that number, sequence and key of their signatures fit is accepted, accounts without a key included |
| `Transactions.SignerAccounts` | x/auth/ante.go:114-123 | fetches the signers' accounts exactly if all exist, and changes nothing |
| `Transactions.ValidateAccounts` | x/auth/ante.go:125-148 | accepts exactly matching account numbers and sequences |
| `Transactions.Ante` | x/auth/ante.go:21-89 | passes exactly if every signature fits an account, and then has charged every signer once, in the accounts and in the objects held |
| `Transactions.AnteCharges` | x/auth/ante.go:45-89 | what it leaves: every signer's sequence one higher and its key set, no other account changed, and the charged accounts in hand |
| `Transactions.RunOn` | baseapp/baseapp.go:821-925 | the charged signers and all that the handler did take effect on accounts and stores alike exactly if the transaction is accepted, its handler succeeds and it is not simulated; otherwise nothing does; the layers beneath are untouched |
| `Transactions.App.RunTx` | baseapp/baseapp.go:821-880 | a rejected, failed, panicking or simulated transaction leaves its state as it was and is not reported ok; any other charges its signers and keeps all its handler did; check and deliver state never affect each other |
| `Transactions.FlatTxAtomic` | baseapp/baseapp.go:821-925 | the flat transaction that RunOn ends as is all or nothing in this sense |
| `Transactions.App.Commit` | baseapp/baseapp.go:941-973 | the roots and the new check state show what was delivered; fails exactly if an account was removed in the block |
| `Sequences.DeliverAll` | baseapp/baseapp.go:650-682 | a run of deliveries on layered caches ends as the run on flat maps that the next rows are about |
| `Sequences.DeliveryAtomic` | baseapp/baseapp.go:650-682 | every delivery of a run takes effect as a whole exactly if valid, accepted, successful and not simulated |
| `Sequences.StepSequence` | x/auth/ante.go:45-89 | a delivery raises a sequence by one exactly if it succeeds and the account signed |
| `Sequences.SequenceRises` | x/auth/ante.go:152-174 | over every run whose successful handlers leave sequences alone, a sequence rises by exactly the number of successful transactions the account signed |
| `Sequences.AtMostOnce` | x/auth/ante.go:125-148 | one signed transaction succeeds at most once in any run of fewer than 2^64 deliveries |
| `Blocks.BlocksAreOneRun` | baseapp/baseapp.go:508-535 | whatever is begun, checked and committed in between, every delivery of every block runs on what all deliveries before it have made |
| `Blocks.CommittedIsRun` | baseapp/baseapp.go:941-973 | right after a commit the committed state and the check state are both the run of all deliveries so far |
| `Blocks.ChecksAreOneRun` | baseapp/baseapp.go:560-640 | whatever is delivered in between, transactions are checked one after another on what was last committed |
| `Blocks.NextSteps` | baseapp/baseapp.go:508-973 | a block begins on what is committed; a delivery concerns the deliver state and any other transaction the check state, each all or nothing; a commit makes what was delivered the committed and the check state; nothing else changes |
| `Blocks.AtMostOnceOverBlocks` | x/auth/ante.go:125-148 | one signed transaction succeeds at most once over all blocks, in fewer than 2^64 deliveries |
| `Blocks.CommitBlock` | baseapp/baseapp.go:941-973 | the roots and a fresh check state come to show what was delivered; fails exactly if an account was removed in the block |
| `Blocks.Run` | baseapp/baseapp.go:508-973 | any run of block beginnings, checks, deliveries and commits on layered caches ends as the flat node that the rows above are about, every happening doing what NextSteps says, unless a commit fails |
| `AsyncClient.MoveKeeps` | server/concurrent/async_local_client.go:191-316 | every step of a call keeps the invariant on locks, queues and count |
| `AsyncClient.WorkKeeps` | server/concurrent/async_local_client.go:110-152 | every step of a worker keeps it |
| `AsyncClient.RunKeeps` | server/concurrent/async_local_client.go:110-316 | it holds after every interleaving of any number of clients and calls |
| `AsyncClient.WaitGroupCounts` | server/concurrent/async_local_client.go:191-233 | in every interleaving the wait group is the number of items counted and not completed; it is never negative, though items are queued before they are counted |
| `AsyncClient.BlockRunsAlone` | server/concurrent/async_local_client.go:257-316 | Commit and EndBlock run with no item outstanding, every queue empty, every worker idle, no pre-check going on and no other call in the application |
| `AsyncClient.CompletesInOrder` | server/concurrent/async_local_client.go:132-152 | each client's items complete in the order of submission |
| `AsyncClient.BlocksRunAlone` | server/concurrent/async_local_client.go:257-316 | the same after every legal interleaving from the start, of any clients and calls |
| `AsyncClient.RunsCompleteInOrder` | server/concurrent/async_local_client.go:132-152 | order of completion, after every legal interleaving from the start |
| `AsyncClient.NoDeadlock` | server/concurrent/async_local_client.go:191-316 | unless all is quiet, some step is possible that needs no new call, even though a full worker pool makes callers wait |
| `AsyncClient.RunsEnd` | server/concurrent/async_local_client.go:110-316 | without new calls every run is bounded, and one that cannot go on has returned every call and completed every item |
| `Decimal.Add` | types/decimal.go:154-160 | panics exactly if the sum leaves 64 bits |
| `Decimal.Sub` | types/decimal.go:163-169 | panics exactly if the difference leaves 64 bits |
| `Decimal.ChopExact` | types/decimal.go:239-270 | dropping the precision is rounding to nearest, ties to even, for both signs |
| `Decimal.MulExact` | types/decimal.go:172-180 | a product is r exactly if r is nearest to the exact product, ties to even |
| `Decimal.QuoNear` | types/decimal.go:193-208 | a quotient is within 1/2 + 1/10^8 units of the exact one |
| `Tally.PowerNear` | x/gov/tally.go:61-62 | the power of one delegation is within the stated margin of the exact share of the validator's power |
| `Tally.CountVotes` | x/gov/tally.go:37-73 | deductions, own votes, results and total are what the delegations add up to; no panic if all is countable |
| `Tally.CountValidators` | x/gov/tally.go:75-87 | whatever the order of the validators, each option has the power behind it |
| `Tally.ByOption` | x/gov/tally.go:64-86 | the powers behind the options sum to the counted total |
| `Tally.ValidatorNear` | x/gov/tally.go:54-86 | with n delegators voting apart, the power counted for a validator differs from its power P by at most (n+1)*(P*(1/2+1/K)/K + 1/2) |
| `Tally.CountedIsTotal` | x/gov/tally.go:54-86 | the powers counted for the single validators sum to the total |
| `Tally.TotalNear` | x/gov/tally.go:54-98 | the total that the decision divides by is within the sum of the margins of what the voting validators have and the delegators of the others were counted for |
| `Tally.NoneEmpty` | x/gov/tally.go:64-86 | if no vote is empty, no delegation counts for the empty option |
| `Tally.EachForItsOption` | x/gov/tally.go:37-73 | the power of delegators behind an option is all the power of the votes for it, and of no others |
| `Tally.LastVote` | x/gov/tally.go:44-52 | a validator that has shares votes as the last vote in its name says, and any other not at all |
| `Tally.DecisionRuled` | x/gov/tally.go:98-122 | exactly: a proposal passes if and only if there is power, the rounded turnout reaches the quorum, somebody took sides, the rounded veto does not exceed its limit and the rounded share of Yes exceeds the threshold; deposits go back if and only if it passes or the first three fail |
| `Tally.PassesMeans` | x/gov/tally.go:98-122 | whatever passes has its deposits refunded and, up to the rounding of one quotient, met quorum, stayed below the veto and exceeded the threshold |
| `Tally.FailsMeans` | x/gov/tally.go:98-122 | a failed proposal is refunded only if there was no power, the quorum was missed or all abstained, and otherwise was vetoed or short of votes, up to the same rounding |
| `Tally.Tally` | x/gov/tally.go:16-123 | the results are the powers behind the options, they make up the total, of which nothing is empty if no vote is; the decision is the one that DecisionRuled states and is justified by results and total as PassesMeans and FailsMeans state, in any map order |
| `Proposals.SubmittedOrderly` | x/gov/keeper.go:117-136 | submitting keeps both queues in order and uses a number that was never used |
| `Proposals.Push` | x/gov/keeper.go:541-569 | the loop inserts where InsertedOrder says |
| `Proposals.InsertedOrder` | x/gov/keeper.go:541-569 | the active queue stays sorted by voting expiry and gains exactly the new proposal |
| `Proposals.DepositedOrderly` | x/gov/keeper.go:281-286 | a deposit, with or without activation, keeps the queues in order, each voting proposal queued exactly once |
| `Proposals.DepositedMeans` | x/gov/keeper.go:281-286 | a deposit changes the total of one proposal and one record; if the vote opens it does so now and the proposal joins the active queue; nothing else changes |
| `Proposals.PopInactiveOrderly` | x/gov/handler.go:161-187 | ids at the head of the queue resolve, and taking one off keeps the queues in order |
| `Proposals.PopActiveOrderly` | x/gov/handler.go:190-233 | closing a vote keeps the queues in order and moves only voting to passed or rejected |
| `Proposals.InactiveInTime` | x/gov/handler.go:238-250 | once the first loop stops, no deposit period is overdue anywhere in the queue |
| `Proposals.ActiveInTime` | x/gov/handler.go:252-261 | once the second loop stops, no voting period is overdue anywhere in the queue |
| `Proposals.SettlingEnds` | x/gov/handler.go:152-236 | once nothing is overdue every proposal is dropped, decided or kept exactly as its own times and tally say, and no tally of an overdue proposal panicked |
| `Proposals.SettledDecides` | x/gov/handler.go:152-236 | a proposal is gone exactly if submitted at least the deposit period ago and still short of deposits, passed or rejected by its tally exactly if its vote started at least its voting period ago, and otherwise as it was |
| `Proposals.AllGone` | x/gov/handler.go:152-236 | the records that are gone are exactly those to be returned and those forfeited, and all others stay |
| `Proposals.ProgressTransitive` | x/gov/handler.go:152-236 | over any number of steps a settled proposal stays as it is and one that is gone does not come back |
| `Gov.DepositedBooked` | x/gov/keeper.go:418-438 | a deposit keeps the total of an open proposal equal to the sum of its records |
| `Gov.DepositAdds` | x/gov/keeper.go:419-437 | what a depositor can pay never overflows the total or the record |
| `Gov.ClosedSolvent` | x/gov/keeper.go:450-496 | closing a proposal and paying its records leaves the escrow covering all others on all chains |
| `Gov.Keeper.AddDeposit` | x/gov/keeper.go:396-441 | refused exactly if unknown, finished or not covered; otherwise the same amount goes from the depositor into escrow, record and total, voting opens now exactly if the total covers the minimum, and nothing else changes |
| `Gov.Keeper.Submit` | x/gov/handler.go:38-69 | a submission without enough funds leaves nothing behind; otherwise one proposal is new, under the next number and submitted now, and its first deposit is its total and its only record |
| `Gov.Keeper.RefundDeposits` | x/gov/keeper.go:450-466 | every depositor gets exactly the record back; no payment fails |
| `Gov.Keeper.DistributeDeposits` | x/gov/keeper.go:469-496 | exactly the sum of the records goes to the block proposer; neither sum nor payment fails |
| `Gov.Keeper.DropFirst` | x/gov/handler.go:161-169 | a proposal still short of deposits goes away and its deposits go to the block proposer; any other only leaves the queue |
| `Gov.Keeper.CloseFirst` | x/gov/handler.go:199-224 | the verdict decides the status and whether depositors or the block proposer are paid |
| `Gov.Keeper.Settle` | x/gov/handler.go:152-236 | panics exactly if the tally of some overdue vote does; otherwise exactly the overdue proposals are dropped or decided, every depositor gets back the records on votes that passed or are refunded, the block proposer gets the records of all others that ended, the escrow pays exactly these, and no other balance changes; it stays solvent and no payment fails |
| `Gov.SettlingPaid` | x/gov/handler.go:161-224 | once all is settled, the payments made are those that the old chain, the times and the tally call for |
| `Gov.Run` | x/gov/keeper.go:396-496 | over every run of submissions, deposits, transfers and settlements on all chains: every step does exactly what the rows above say, the escrow holds at least all live deposits per denomination, no payment out of it fails, queues stay in order, proposals only make progress; a run stops early only where a tally panics |
| `Snapshot.CutNode` | store/statesync_helper.go:454-469 | the parts of an oversized node are marked first, middle and last, fit a chunk and join to the node |
| `Snapshot.AddNode` | store/statesync_helper.go:440-477 | one more node keeps: all nodes so far are held exactly once, in bounded chunks, and a chunk is empty exactly if an oversized node came first or after another |
| `Snapshot.TakeSnapshot` | store/statesync_helper.go:387-498 | the chunks hold every node of every store exactly once within the size limit; none is empty exactly if no oversized node comes first or directly after another |
| `Snapshot.OversizedFirst` | store/statesync_helper.go:443-457 | a store in which an oversized node comes first |
| `Recovery.Helper.StartRecovery` | store/statesync_helper.go:139-175 | stores get adjacent ranges of node numbers by the manifest's counts, and hashes the order of the chunks |
| `Recovery.Helper.SaveNode` | store/statesync_helper.go:353-376 | a node goes to the one store whose range holds it, and the first of a store adds its only info |
| `Recovery.Helper.WriteRecoveryChunk` | store/statesync_helper.go:177-242 | refused exactly if it has no nodes; what is gathered is exactly what has arrived, and with the completion flag all is rebuilt |
| `Recovery.Helper.PrepareEmptyStores` | store/statesync_helper.go:262-277 | exactly the stores without nodes get an info |
| `Recovery.Helper.SaveIncompleteChunks` | store/statesync_helper.go:279-320 | in any map order every cut node is joined and saved once, and no check fails |
| `Recovery.SortedParts` | store/statesync_helper.go:283-292 | once all parts have arrived, sorting by chunk number puts them as they were cut |
| `Recovery.CheckAndJoin` | store/statesync_helper.go:285-310 | the checks accept exactly consecutive parts with the right marks, and the result is their concatenation |
| `Recovery.Recover` | store/statesync_helper.go:177-320 | fed in any order, once each, with the flag on the last, the chunks rebuild every node in its store and one info per store; refused exactly if some chunk is empty |
| `Recovery.RoundTrip` | store/statesync_helper.go:139-498 | snapshot and recovery together: with distinct chunk hashes, in any order of arrival, the stores come back exactly if no oversized node comes first or directly after another |
| `Recovery.OversizedRefused` | store/statesync_helper.go:185-187 | one store with one oversized node: its snapshot has an empty chunk, and recovery is refused, in any order of arrival |
| `MerkleProofs.SplitPointSplits` | store/proofs/convert.go:87-98 | the bit arithmetic gives the one largest power of two below the length |
| `MerkleProofs.BuildPathIsAudit` | store/proofs/convert.go:72-85 | the path has the length and the sides of the audit path of section 2.1.1 of RFC 6962 |
| `MerkleProofs.ConvertInnerOps` | store/proofs/convert.go:45-67 | fails exactly on a wrong number of aunts, and otherwise puts each aunt on its side |
| `MerkleProofs.FoldIsTreeHash` | store/proofs/convert.go:45-85 | folding the converted operations from the leaf hash gives the Merkle Tree Hash of section 2.1 of RFC 6962, for every list and index |
| `MerkleProofs.CreateExistenceProof` | store/proofs/create.go:103-121 | made exactly for keys in a map without an empty key, and leads from key and value to the root |
| `MerkleProofs.CreateMembershipProof` | store/proofs/create.go:39-53 | made exactly for non-empty keys in a map without an empty key, and leads to the root |
| `MerkleProofs.Search` | store/proofs/create.go:69-70 | binary search finds the first key not below the one sought |
| `MerkleProofs.CreateNonMembershipProof` | store/proofs/create.go:59-101 | made exactly for missing non-empty keys, and names the adjacent neighbours on both sides, each with a proof that leads to the root |
| `Ibc.FixedOrder` | x/ibc/key.go:23-33 | numbers of one width are ordered as their bytes |
| `Ibc.KeyInjective` | x/ibc/key.go:23-44 | keys determine channel and sequence, and within a channel are ordered as sequences |
| `Ibc.SequenceOfKey` | x/ibc/keeper.go:146-151 | the sequence read from a key is the one it was built from |
| `Ibc.KeyReads` | x/ibc/key.go:23-44 | a key holds prefix, source, destination, channel and sequence, big-endian, in this order |
| `Ibc.ChannelKeyReads` | x/sidechain/key.go:31-48 | a key of a counter or permission holds prefix, destination and channel in this order |
| `Ibc.ChannelKeyInjective` | x/sidechain/key.go:30-46 | keys of counters and permissions determine what they are for and the channel |
| `Ibc.CounterBumped` | x/sidechain/keeper.go:204-226 | a step raises one counter by one, modulo 2^64, and no other |
| `Ibc.CreatePackage` | x/ibc/keeper.go:82-111 | forbidden exactly for Syn on a channel without permission, a duplicate exactly if the next key is taken; otherwise exactly one package is stored under the next sequence and its counter raised; layers beneath are untouched |
| `Ibc.PermissionMeans` | x/ibc/keeper.go:85-87 | forbidden exactly if Syn and the channel has no entry or one that does not start with 1; then nothing is stored |
| `Ibc.SentWindow` | x/ibc/keeper.go:82-111 | while stored packages are windows the duplicate check never fires, and sending widens one window by one |
| `Ibc.Cleanup` | x/ibc/keeper.go:131-156 | stopping at the first later sequence still deletes exactly the packages of the channel up to the confirmed one, whatever is in the store |
| `Ibc.CleanedWindow` | x/ibc/keeper.go:131-156 | confirming moves the low end of one window, never past what was sent |
| `Ibc.OpKeepsWindows` | x/ibc/keeper.go:82-156 | every send, confirmation and change of permission keeps the windows and moves no counter back |
| `Ibc.RunObeys` | x/sidechain/keeper.go:121-133 | over every run, a send is forbidden exactly if it is Syn and the last change of permission of its channel closed it, or there was none and it was closed at the start |
| `Ibc.RunNumbers` | x/ibc/keeper.go:89-101 | over every run, the sequences given out on a channel are consecutive, from where its counter stood to where it stands |
| `Ibc.RunDelivers` | x/ibc/keeper.go:82-156 | over every run, a package that was given a sequence is stored under it, byte for byte, exactly until that sequence is confirmed |
| `Ibc.Run` | x/ibc/keeper.go:82-156 | over every run of sends, confirmations and changes of permission on all channels, all three rows above hold, stored packages are exactly those from the lowest unconfirmed to the next sequence, and no send is refused as a duplicate |
| `Oracle.HeaderRoundTrip` | x/sidechain/types/types.go:23-39 | a package arrives with the type, the fee and the load it was sent with |
| `Oracle.Admit` | x/oracle/handler.go:88-110 | a package is let in exactly if it is the next of a channel with an application, and has a valid header and fee; nothing changes |
| `Oracle.Pay` | x/bank/keeper.go:163-200 | succeeds exactly if the peg account, which comes into being if missing, has enough; then accounts, and the account number if it was new, are as on flat maps |
| `Oracle.Execute` | x/oracle/handler.go:132-135 | what an application does to accounts, its store, packages and permissions, in caches of its own, takes effect as a whole if it succeeded and not at all otherwise |
| `Oracle.Answer` | x/oracle/handler.go:148-176 | sends exactly the answer that is due, and fails exactly if its fee is unknown or the send is refused |
| `Oracle.Perform` | x/oracle/handler.go:112-176 | once a package is admitted, fee, execution and answer take effect one on top of the other as on flat maps, and it fails exactly if the fee or the answer does |
| `Oracle.HandlePackage` | x/oracle/handler.go:85-176 | accepts and changes exactly as on flat maps: fee, execution if it succeeded, answer, and one step of the sequence; what is beneath the caches is untouched |
| `Oracle.HandlePackages` | x/oracle/handler.go:61-74 | succeeds exactly if every package is accepted in turn on what those before it have made |
| `Oracle.TryClaim` | x/oracle/handler.go:31-83 | refused, waiting or done as turn, vote, payload and packages say, with the effect that HandleClaim states |
| `Oracle.HandleClaim` | x/oracle/handler.go:31-83 | a claim in the caches of its transaction is done, and changes accounts and stores, exactly if it is next, has won and all its packages are accepted in turn; it waits exactly if it is next and undecided or lost; unless it is done everything is as it was |
| `OracleRuns.PackageCounts` | x/oracle/handler.go:88-110 | an accepted package carries the sequence its channel is at, a full header of a known type and a fee that is not negative, and exactly that channel advances by one, whatever its application did |
| `OracleRuns.AllExecuted` | x/oracle/handler.go:61-74 | packages are accepted together exactly if all of them are executed, each on what the one before it left |
| `OracleRuns.EventComes` | x/oracle/handler.go:31-83 | a claim leaves what its last package left, with the claim counted, exactly if it won, is next and all its packages were executed, and otherwise nothing |
| `OracleRuns.OnlyWonExecuted` | x/oracle/handler.go:45-52 | over every run, every package executed came with a claim that won |
| `OracleRuns.RunInOrder` | x/oracle/handler.go:31-83 | over every run of claims and other transactions, the packages executed on a channel carry, in order and without gap or repeat, all sequences from where its counter stood to where it stands |
| `OracleRuns.ClaimsInOrder` | x/oracle/handler.go:35-38 | the same for the claims of a chain that were done |
| `OracleRuns.FromZero` | x/oracle/handler.go:93-96 | from a counter at zero, with fewer than 2^64 packages, these are 0, 1, 2 and so on |
| `OracleRuns.FailedLeavesNothing` | x/oracle/handler.go:112-176 | of an application that failed or crashed nothing remains: only the peg account differs, by the fee; the application store is as it was; keepers differ in counters and, if an answer is due, one new package, which is that answer |
| `OracleRuns.CrashedSyn` | x/oracle/handler.go:148-164 | for a crashed Syn package that new package is a FailAck that carries it back, with the fee that was looked up |
| `OracleRuns.AnsweredSyn` | x/oracle/handler.go:165-176 | for a Syn package whose application gave an answer it is an Ack that carries the answer, with the fee that was looked up, on the channel the package came on |
| `OracleRuns.NotAnswered` | x/oracle/handler.go:148-176 | for any other package nothing is sent besides what the application sent itself |
| `OracleRuns.PaidExactly` | x/oracle/handler.go:112-116 | the fee can be paid exactly if the peg account has it and nothing negative |
| `OracleRuns.SucceededKeepsAll` | x/oracle/handler.go:132-176 | of an application that succeeded everything remains as on flat maps, after the fee, and besides it only counters and the answer |
| `OracleRuns.RunFaithful` | x/oracle/handler.go:31-83 | over every run, every package executed had the effect that FailedLeavesNothing or SucceededKeepsAll states, as its application ended |
| `OracleRuns.PackageWindows` | x/oracle/handler.go:85-176 | while stored packages are windows a package is accepted exactly if it is next on a channel with an application, its header is full, of a known type and its fee not negative, the fee can be paid and the fee of a due answer is known; they stay windows |
| `OracleRuns.RunWindows` | x/oracle/handler.go:31-83 | over every run of claims mixed with sends, confirmations and changes of permission, stored packages stay windows of sequences |
| `OracleRuns.Run` | x/oracle/handler.go:31-83 | any run of claims and other transactions in caches ends as the flat run; every event came to what EventComes states; every executed package came with a claim that won and had its effect and no other; every channel executed its sequences in order; what is beneath the caches is untouched |

## Left out

- RLP for Go types: reflection, struct tags, the type cache, pointers, booleans, big integers and custom encoders are not modelled; items are byte strings and lists.
- RlpEncode.EncBuf.ListEnd: a list header is known by its position in the buffer, not by a pointer to it.
- RlpEncode.EncReader.Read: the header piece is a copy, so that a piece of the shared nine-byte buffer kept across reads is not modelled; neither is the pool of buffers.
- RlpDecode.DecodeBytes: inputs of 2^64 bytes and more are excluded, since stream counters have 64 bits.
- Go's strings and slices have no nil here: `Set` with a nil value is not modelled, and a missing key is `None`.
- Amino and JSON codecs, hashes, signatures and key addresses are uninterpreted functions or inputs; `iavl.MakeNode` is the identity on bytes and does not fail.
- The IAVL tree, the databases under it, flushing in batches and the commit of the multistore are maps; pruning, versions and store upgrades are not modelled.
- Gas, tracing, logging, tags, events, metrics, the address pool and the in-memory fee pool do not appear.
- `AccountCache.Layer.Remember`: the LRU cache may drop anything at any time, which stands for every capacity.
- Transactions.App.RunTx: a message handler is any program over accounts and stores that then succeeds or fails; several messages in one transaction are one such program.
- Transactions.Ante: fees and message-specific checks are not part of it.
- Sequences.AtMostOnce: states runs of fewer than 2^64 deliveries, because a 64-bit sequence then comes round again.
- Bank.HandleSend: registered scripts and the mini-token check before the transfer are not modelled.
- AsyncClient.RunKeeps: rests on the source's assumption that DeliverTx never overlaps Commit or EndBlock; the preference of waiting writers, stopping the client and the synchronous variants are not modelled.
- Gov.Run: votes, hooks on submission and parameter changes are not steps; the verdict of a tally, or its panic, is an input of settling, block times and proposal numbers are unbounded integers, and depositors and senders are other than the escrow account.
- Tally.Tally: the sets of validators, delegations and votes are inputs; deleting the votes afterwards is not modelled.
- Recovery.Recover: chunks are those of one snapshot and arrive once each; waiting for the manager, retries and the height of the manifest are not modelled.
- MerkleProofs.SimpleProofFor: stands for the tree of the Merkle library, which is outside this repository, as the tree and audit path of RFC 6962; the bytes of a leaf are an uninterpreted function of key and value.
- Blocks.Run: the hooks at the beginning and end of a block are not happenings of a run; delivering or committing without a deliver state, where the source would dereference nil, does nothing.
- Ibc.CreatePackage: a relayer fee of more than 32 bytes, on which the header encoding panics, and the collector of packages for publication are not modelled.
- Ibc.Counter: a stored counter that is not eight bytes long, which is never written, reads as zero; the source panics on a shorter one and reads the first eight bytes of a longer one.
- Ibc.SentWindow: sequences stay below 2^64 - 1, because after that a counter comes round to packages that may still be stored.
- Oracle.HandleClaim: counting the votes of a prophecy is an input, and so are the packages its payload decodes to and the relayer fee of an answer; what an application does is any list of account operations, store operations and messages to the keepers, each list run in the cache of its own component; the stores of the keepers and the account number are one store in which their keys differ.
- OracleRuns.RunInOrder: the channel that counts claims has no application, as it is registered (x/oracle/plugin.go:13).
- Staking, slashing, distribution, mint, parameters, token modules, the client, REST and command-line code, keys, ledgers and server start-up are not modelled.
