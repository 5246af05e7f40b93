# Sneakernet, modelled and proved

Sneakernet moves 4 KiB blocks between stores that are rarely connected. Blocks are named by the
hash of their payload and ranked by proof of work. This project models the parts of it that have
to be right together: the block store, the page cursors every consumer relies on, the Bloom
filters that peers exchange, the protocols built on them, and the readers that consume the store
incrementally.

| file | what it models |
|---|---|
| Types, Bytes, Sorting, SetSize | identifiers, big-endian numbers, `sort.Slice`, set sizes |
| Listing | traversal keys, page cursors, the contract of one page, whole scans of a changing store |
| Database, StoreRuns | the three key families of BadgerStore, its write transactions, every run of them |
| Eviction, Median, Badger | the reservation-aware eviction, the advertised floor, the class itself |
| Bloom, Relay | the levelled Bloom filter, `handleDelta`, `Delta`, `Pull` |
| Session, SessionOutcome | the Bluetooth exchange as interleaved steps of two peers, and what it achieves |
| SessionStall | one endpoint of it against a peer that sends anything, malformed frames included |
| Framing, SessionBytes | frames as bytes, and the exchange over bounded byte streams |
| Scrape | the checkpointed reader |
| FlatFile, Index | the one-file-per-block store and its sharded index |
| Stores, Sync | the Store interface, store-to-store sync, the two-way USB sync |
| Rotation | the peer scheduler |
| ThreadOrder | the message ordering of the web page |

SHA-256, Argon2, the TTL curve and the Bloom hash are fields of `Types.Env`, so every theorem holds
for all of them; decryption is a field of `Scrape.Config`. Time is a non-decreasing number of
seconds, passed in. What `db.Size()` answers and which pulls succeed are parameters. So are the ids
that a store fails to list, read, look up or write, in the sync, the session, the scrape and the
flat-file store, where the code goes on after such a failure; where it stops, see "Left out". An id is the number its 32 bytes spell in big-endian order;
`Bytes.LexIsNumeric` and `Index.ShardIsFirstByte` justify that reading.

## Main results

- **Session.** In every interleaving, over links of any capacity down to a rendezvous, a finished
  session does to each block exactly what the two starting stores and their failures determine: a
  block whose id and capped level the receiver's own starting filter claims is left alone, and so is
  one that the sender could not list or read or the receiver could not write; any other arrives and
  gives the pointwise maximum, unless a tombstone barred it (`SessionMerges`). In numbers, for an id
  whose Bloom slots no other block shares: the receiver takes the block, to the byte, if and only if
  it lacked it or min(its work factor, 16) was smaller (`SessionUpgrades`). Nothing is echoed
  (`NoEcho`), nobody gets stuck (`Progress`), nothing runs forever (`Terminates`). The same holds over
  byte streams on which frames are written and read piece by piece through bounded pipes
  (`BytesMerge`, `BytesProgress`, `BytesTerminate`).
- **Pagination.** Whatever happens to the store between pages, a scan lists every qualifying entry
  that stayed exactly once and in order (`ScanComplete`), and it ends (`ScanTerminates`).
- **Eviction.** The greedy choice is min-max optimal against every other set of as many victims
  (`MinMaxOptimal`), respects reservations while others have surplus (`ReservationKept`, `SparedByOthers`), and takes
  the soonest to expire within each tag (`Badger.BadgerStore.Evict`).
- **Store.** The traversal index never drifts from the blocks (`RunKeepsRep`), evicted ids stay out
  for twice their TTL (`EvictedStaysOut`) and not a second longer (`ReadmittedExactly`), and every Put
  leaves its id seen (`PutIsSeen`).
- **Consumers.** A delta is exactly what the filter rejects (`DeltaExactly`, in numbers
  `DeltaBetween`); a sync between any two stores counts every block once and copies exactly the wanted
  ones (`SyncStores`, `CleanSync`); every message row goes back to a listed block that opens to its
  content (`RowOrigin`); healthy peers are served round robin (`RoundRobin`); a thread is ordered so
  that replies follow what they answer, except on and below cycles (`TopoSort`).

## Where the code falls short

Each failure comes with the condition under which the promise does hold.

- A Put reads the clock before its transaction, and a scrape passes over a block it fails to read. Over
  every run, a live block older than the checkpoint has been tried if and only if it can be read and a
  page read after its commit passed its key (`TriedIffPassed`). `LateCommit` and `UnreadableMissed` are
  runs that lose a block, and `MissedForGood` says that the first stays lost. If a Put commits at the time
  it carries, exactly the unreadable blocks are missed (`NothingMissed`).
- A sync passes over a file whose header it cannot read without a word, and counts a failed read of the
  destination's work factor as "already present". A sync that reports no error is the pointwise maximum if
  and only if no wanted block is unlisted and no block held at less work than the source's is one whose
  lookup fails (`ErrorFree`, `UsbSync`); `HeaderFaultHides` and `LookupFaultHides` are the inputs.
- The sender of a session goes on to its blocks if and only if the first item it hears that is not a
  well-formed BLOCK is a well-formed BLOOM; it gives up if and only if that item is a BLOOM of the wrong
  length, a length over the cap, or the end of the stream; on any other stream it waits for good
  (`Outcome`). `DoneFirst` is a run that stalls, and `StalledForGood` says that nothing changes afterwards.
- The flat-file limit holds if and only if the files whose header cannot be read, which are never evicted,
  would keep it on their own (`FlatFile.FlatFileStore.Put`). Such a file is replaced even by a worse block.
- The scan and the deletes of `Evict` are separate transactions. A delete based on a stale scan keeps
  the store invariant if and only if the block is gone or still has the creation time that was scanned
  (`StaleDrop`); an upgrading Put in between leaves an orphan traversal key (`UpgradeLeavesOrphan`).
- The index of the median is out of range if and only if the limit is below two blocks and the store
  is not empty (`ComputeFloor`). For an even capacity the floor is the median of the zero-padded array
  except when the store is exactly half full with a positive smallest work factor (`PaddedMedian`).
- Backoff works for 1 to 62 failures in a row and is gone from the 63rd on (`BackoffValue`). A failure
  does not move the time of the last pull, so such peers then take every tick between them (`Starves`).
- A filter is documented to claim id at k if and only if it holds id at k or more
  (transport/relay/bloom.go:20-22). Levels are capped at 16, so a block held at work factor 16 or more is
  never upgraded by a session (`NoUpgradeAbove16`), and slots collide: `ClaimsExactly` says when a filter
  claims, and for an id that collides with nothing it is when min(k, 16) <= min(wf, 16) (`HeldExactly`).
- A flat-file ref carries no creation time, so resuming from its token shows the block again unless
  it was created at time 0 (`FlatTokenRelists`). With limit 0 a Badger page always offers another
  page (`Badger.BadgerStore.ListBlocks`).
- The record count of an index is a uint32: parsing gives back the first count mod 2^32 records
  (`IndexRoundTrip`).

Code and documentation disagree in three places, and the model follows the code: tombstones last
2 TTL(wf), not the remaining TTL (blockstore/blockstore.go:66); the floor is `wfs[len-half]`, not
`wfs[half]` (blockstore/design.md:185, blockstore/badger_test.go:65); FlatFileStore does evict and does
have a limit (blockstore/design.md:173).

## Model

| member | source | states |
|---|---|---|
| `Bytes.LexIsNumeric` | blockstore/badger.go:167-176 | on equally long byte strings, `bytes.Compare` order and the order of the big-endian numbers are the same |
| `Bytes.FromBEofBE` | blockstore/blockstore.go:81-97 | reading a big-endian field gives back the number written |
| `Bytes.BEofFromBE` | blockstore/blockstore.go:88-97 | every byte string is the encoding of the number it spells |
| `Listing.KeyBytesOrder` | blockstore/badger.go:167-176 | the byte order of traversal keys is exactly (created_at, id) order, and keys are injective |
| `Listing.CursorRoundTrip` | blockstore/blockstore.go:81-97 | decoding an encoded cursor gives the same time, negative ones included, and the same id |
| `Listing.CursorOnto` | blockstore/blockstore.go:88-97 | every 40-byte token is the encoding of the cursor it decodes to |
| `Listing.CursorIsKey` | blockstore/blockstore.go:81-97 | a token is the traversal key of its entry without the leading byte |
| `Listing.PageUnique` | blockstore/blockstore.go:59-63 | the page contract determines the page and the next cursor completely |
| `Listing.PageExists` | blockstore/blockstore.go:59-63 | every request has a page |
| `Listing.CollectIsPage` | blockstore/badger.go:400-459 | the seek-and-walk from any position that skipped nothing wanted yields a page |
| `Listing.PageCovers` | blockstore/badger.go:415-457 | every wanted entry is on the page or strictly beyond the cursor it returns |
| `Listing.ScanInvariant` | blockstore/badger.go:367-459 | after any number of pages over changing snapshots: strictly increasing, and every entry that stayed is listed or still ahead |
| `Listing.ScanComplete` | blockstore/badger.go:367-459 | a finished scan lists every entry that stayed, with work factor at least the floor and time at least `since`, exactly once, in increasing (created_at, id) order, even if the entries its cursors name were deleted |
| `Listing.ScanSound` | blockstore/badger.go:367-459 | everything listed was present and qualified when its page was read |
| `Listing.ScanTerminates` | blockstore/badger.go:367-459 | if only the keys of a finite set are ever present, the number of pages is bounded by its size over the limit, plus one |
| `Database.CommitKeepsRep` | blockstore/badger.go:195-249 | a Put transaction that carries the present or an earlier time keeps the representation invariant: one traversal key per block with its time, work factor and tag, no orphan, genuine ids and work factors, no id both live and tombstoned |
| `Database.CommitWrites` | blockstore/badger.go:200-249 | a commit changes the offered id exactly when no tombstone of it lies in the future and nothing as good is held, to exactly the offered block, and no other id |
| `Database.CommitEffect` | blockstore/badger.go:195-249 | a commit loses no work, and leaves the id held at the offered work factor unless a tombstone bars it |
| `Database.EvictWrites` | blockstore/badger.go:571-588 | an eviction takes its victims away and leaves each a tombstone until now + 2 TTL(wf); no other block and no other tombstone changes |
| `Database.EvictKeepsRep` | blockstore/badger.go:576-585 | evicting any set of blocks keeps the representation invariant |
| `Database.EvictOneMore` | blockstore/badger.go:576-588 | the per-block delete transactions add up to the eviction of the whole set |
| `Database.TickKeepsRep` | blockstore/badger.go:583 | tombstone expiry keeps the representation invariant |
| `Database.RepMeans` | blockstore/badger.go:195-249 | the representation invariant written out for one id and one traversal key |
| `Database.StaleDrop` | blockstore/badger.go:491-585 | a delete based on an earlier scan keeps the invariant if and only if the block is gone or has the creation time that was scanned |
| `Database.UpgradeLeavesOrphan` | blockstore/badger.go:491-585 | an upgrading Put between scan and delete leaves a traversal key without a block |
| `StoreRuns.NextKeepsRep` | blockstore/badger.go:195-267 | each Put (with its own eviction, and with a time read before its transaction), Evict and tick keeps the invariant |
| `StoreRuns.RunKeepsRep` | blockstore/badger.go:195-267 | every state of every run satisfies the representation invariant |
| `StoreRuns.WorkNeverDecreases` | blockstore/badger.go:212-230 | over any stretch of a run that does not evict it, a live id stays live and its work factor never drops |
| `StoreRuns.EvictedStaysOut` | blockstore/badger.go:571-588 | an id evicted at time t is not live before t + 2 TTL(wf), whatever is offered, and its tombstone is visible until then; wf is the stored work factor, or that of a better block the same call has just stored |
| `StoreRuns.TombOfLast` | blockstore/badger.go:571-588 | from one eviction of an id to the next its tombstone is the one the first of them left, until t + 2 TTL(wf) |
| `StoreRuns.ReadmittedExactly` | blockstore/badger.go:200-249 | after an eviction at time t, a Put of the id leaves it live, at no less than the offered work, if and only if it comes at t + 2 TTL(wf) or later |
| `StoreRuns.PutLetsIn` | blockstore/badger.go:200-249 | a Put that does not evict its own block leaves it live exactly if it was live or no tombstone was visible |
| `StoreRuns.PutIsSeen` | blockstore/badger.go:195-267 | after every Put, `Has` holds for the id, even when the call's own eviction removed it; otherwise it is live at the offered work factor unless it was tombstoned |
| `Eviction.GreedyStep` | blockstore/badger.go:547-569 | taking the soonest-expiring block of the tag furthest over its reservation keeps the choice greedy |
| `Eviction.MinMaxOptimal` | blockstore/badger.go:546-589 | no other set of as many victims leaves a smaller largest excess, in bytes left (4113 per block) minus the reservation if there is one, over the tags left non-empty |
| `Eviction.ReservationKept` | blockstore/badger.go:546-589 | with non-negative reservations, a tag whose blocks take no more bytes than its reservation has no victim while the demand is at most the total surplus |
| `Eviction.SparedByOthers` | blockstore/badger.go:546-589 | for any reservations, such a tag has no victim if there is a set of at least as many blocks that could go without taking from a tag that is by then within its reservation |
| `Eviction.SurplusIsMost` | blockstore/badger.go:546-589 | the total surplus is the largest size of such a set |
| `Eviction.SomeTagSpared` | blockstore/badger.go:546-589 | of two victim sets, one that is not larger but takes more of a tag takes fewer of another |
| `Median.ComputeFloor` | blockstore/badger.go:42-80 | with half = limit / 4113 / 2, or 10 GiB / 4113 / 2 for limit 0, the floor is the half-th largest stored work factor, or 0 while half or fewer are stored; it fails exactly when the limit is below two blocks and the store is not empty |
| `Median.FloorUnique` | blockstore/badger.go:42-80 | the order statistic that defines the floor has one value |
| `Median.PutNeverLowers` | blockstore/badger.go:42-80 | no Put without eviction lowers the floor, whatever time it carries |
| `Median.PaddedPosition` | blockstore/badger.go:76-79 | the indexed element is the one at capacity - half of the sorted zero-padded array |
| `Median.PaddedMedian` | blockstore/badger.go:76-79 | for even capacity the answer is the middle of the padded array if and only if the store is not exactly half full or its smallest work factor is 0 |
| `Badger.BadgerStore.RefreshMedian` | blockstore/badger.go:18-27 | the cached floor becomes the floor of the current contents, or stays when the computation fails |
| `Badger.BadgerStore.Has` | blockstore/badger.go:319-339 | true exactly for a live block or a tombstone whose end lies in the future |
| `Badger.BadgerStore.Put` | blockstore/badger.go:195-267 | the call is one Put step of the store's runs; nothing is evicted within the limit, and over it exactly min(excess / 4113 + 10, live) blocks are |
| `Badger.BadgerStore.EvictBlock` | blockstore/badger.go:571-588 | the delete transaction drops the block, the traversal key of the scanned creation time, and writes a tombstone until now + 2 TTL(wf) |
| `Badger.BadgerStore.Evict` | blockstore/badger.go:484-591 | exactly min(n, live) blocks go, each with a tombstone until now + 2 TTL(wf); none that stays has a smaller created_at + TTL(wf) than a victim of its tag; the victims are greedy across tags; the rest of the database is untouched; the invariant is kept |
| `Badger.BadgerStore.EvictLoop` | blockstore/badger.go:546-590 | the loop over the candidate lists realises the greedy choice and stops at n or when nothing is left |
| `Badger.GroupByTag` | blockstore/badger.go:529-544 | the candidate lists hold each block once under its tag, sorted by logical expiry, with the bytes used |
| `Badger.PickTarget` | blockstore/badger.go:548-565 | the picked tag has the largest 4113 * blocks - reservation among the tags with blocks; none is picked only when nothing is left |
| `Badger.BadgerStore.ListBlocks` | blockstore/badger.go:384-459 | from a cursor or the beginning: the page of the request for limit >= 1; with limit 0 it is empty and still names a next page; with a negative limit it is empty and final |
| `Badger.BadgerStore.ListToken` | blockstore/badger.go:367-459 | from the bytes of a token: refused exactly when not empty and not 40 bytes; a token with a negative time gives the page from (0, id) on, that entry included |
| `Badger.Walk` | blockstore/badger.go:415-447 | the loop collects the first `limit` qualifying entries from a position on |
| `Bloom.LevelsDiffer` | transport/relay/bloom.go:27-34 | one id at two different levels never shares a slot at the same offset |
| `Bloom.SlotReads` | transport/relay/bloom.go:27-34 | at level 0 the slot is what the third and fourth byte from the offset on spell |
| `Bloom.SlotsShared` | transport/relay/bloom.go:27-34 | at any level two ids share their slot of an offset exactly if they do at level 0 |
| `Bloom.NeverFalseNegative` | transport/relay/bloom.go:49-62 | after any sequence of Adds, an id added at wf is claimed at every level up to min(wf, 16) |
| `Bloom.SlotsClaim` | transport/relay/bloom.go:36-62 | a filter holding the bits of Add(id, wf) claims id at k whenever min(k, 16) <= min(wf, 16) |
| `Bloom.StoreClaims` | transport/relay/bloom.go:81-100 | the filter of a store claims every block at every capped level up to its own |
| `Bloom.ClaimsExactly` | transport/relay/bloom.go:36-100 | in general: the filter of a store claims an id at wf if and only if each of its three slots at level min(wf, 16) is one of some stored block at a level up to its own |
| `Bloom.AddedExactly` | transport/relay/bloom.go:36-62 | if no two levels of an id share a slot, then after Add(id, wf) alone Has(id, k) holds if and only if min(k, 16) <= min(wf, 16) |
| `Bloom.HeldExactly` | transport/relay/bloom.go:36-100 | if no slot of an id is one of another stored id or of another level, the filter of a store claims it at k if and only if the store holds it with min(k, 16) <= min(wf, 16) |
| `Bloom.ListedBits` | transport/relay/bloom.go:83-100 | adding a whole listing gives exactly the slots of every block up to its capped work factor |
| `Bloom.SetBit` | transport/relay/bloom.go:44 | or-ing one bit into the byte array adds exactly that slot |
| `Bloom.Filter.Add` | transport/relay/bloom.go:36-47 | the set of one-bits grows by exactly the three slots of each level up to min(wf, 16) |
| `Bloom.Filter.Has` | transport/relay/bloom.go:49-62 | true exactly when the bits of the three slots at level min(wf, 16) are set |
| `Bloom.Filter.Bytes` | transport/relay/bloom.go:64-69 | the wire form has 8192 bytes and the same one-bits |
| `Bloom.FilterFromBytes` | transport/relay/bloom.go:71-79 | fails exactly on a wrong length; otherwise the same one-bits, in fresh memory |
| `Relay.BloomOfStore` | transport/relay/bloom.go:81-100 | the one-bits of the filter are exactly the slots of every block in the store up to its capped work factor |
| `Relay.MissingExactly` | transport/relay/server.go:209-213 | an id is reported exactly when one of its listed entries is not claimed |
| `Relay.HandleDelta` | transport/relay/server.go:195-221 | the paging loop lists every block meeting the larger floor and the time, and returns those the filter rejects, in order |
| `Relay.DeltaExactly` | transport/relay/server.go:195-221 | an id is in the answer if and only if the relay has it, it qualifies, and the client's filter rejects it at its work factor |
| `Relay.OfferedIsNew` | transport/relay/server.go:195-221 | nothing offered is held locally at an equal or higher capped level |
| `Relay.DeltaBetween` | transport/relay/server.go:195-221 | between two stores, for an id whose slots stand apart: it is offered if and only if the relay has it, at no less than both floors and not before the time, and the client lacks it or has it with a smaller min(wf, 16) |
| `Relay.Delta` | transport/relay/client.go:132-178 | filter, bytes, filter again, paging: the ids returned are exactly those offered |
| `Relay.StaysHeld` | transport/relay/client.go:278-292 | held-or-tombstoned survives any later Put and the eviction it causes |
| `Relay.PutHeldOrBarred` | transport/relay/client.go:287-291 | after a Put the id is held at the offered work factor or tombstoned |
| `Relay.PullOne` | transport/relay/client.go:283-291 | one fetched block is stored and earlier results are not undone |
| `Relay.Pull` | transport/relay/client.go:264-294 | returns exactly the ids offered and still present (for ids whose slots stand apart, in numbers); each is then held at least at the relay's work factor or tombstoned; none was held with an equal or larger min(wf, 16) before |
| `Framing.ReadWritten` | transport/bluetooth/session.go:197-229 | a frame is written as type, length and data, and reading it returns it and consumes exactly its bytes, whatever follows |
| `Framing.ReadPartial` | transport/bluetooth/session.go:212-229 | a frame of which only a part has arrived is waited for |
| `Framing.RefusedExactly` | transport/bluetooth/session.go:212-229 | a stream is refused exactly when the length it announces is over 2^20 |
| `Framing.ReadAllWritten` | transport/bluetooth/session.go:197-229 | on any concatenation of frames cut off anywhere, the complete frames come back in order and the partial one stays unread |
| `Session.InitialInv` | transport/bluetooth/session.go:52-63 | two fresh peers with empty links satisfy the session invariant |
| `Session.NextInv` | transport/bluetooth/session.go:52-195 | every step of either peer's sender or receiver, and every rendezvous, keeps the session invariant |
| `Session.NoBlockBeforeBloom` | transport/bluetooth/session.go:104-195 | no BLOCK frame is on its way to a peer whose own filter is not complete and sent |
| `Session.NoEcho` | transport/bluetooth/session.go:104-195 | every BLOCK frame carries, to the byte, a block its sender started with, unclaimed by the receiver's starting filter, and nothing the receiver started with equals or betters it |
| `Session.BuildFilter` | transport/bluetooth/session.go:104-112 | the filter built page by page ends up exactly that of the store the session started with |
| `Session.FetchIsMine` | transport/bluetooth/session.go:128-152 | a listed block the peer's filter does not claim is, to the byte, one the sender started with, although the receiver writes to the store meanwhile |
| `Session.FilterClaims` | transport/bluetooth/session.go:104-126 | the filter of a starting store claims every block of it at every capped level up to its own |
| `Session.ReadWire` | transport/bluetooth/session.go:157-195 | receiving follows the order BLOOM, BLOCK*, DONE, PEERS, never reads past it, and learns the sender's filter and relay list unchanged |
| `SessionOutcome.RunInv` | transport/bluetooth/session.go:52-195 | the invariant holds in every state of every interleaving |
| `Session.ChangedByRead` | transport/bluetooth/session.go:179-188 | a block changes in the receiver's store only by a BLOCK frame with its id that the store could write |
| `Session.BehindStays` | transport/bluetooth/session.go:128-156 | what the sender's listing has got past stays behind it, and a failing listing sends nothing after it |
| `SessionOutcome.Delivered` | transport/bluetooth/session.go:104-195 | at the end the other side holds everything one side started with, unless the filter of its starting store claims it, a tombstone barred it, or a store error dropped it |
| `SessionOutcome.WithheldUntouched` | transport/bluetooth/session.go:128-188 | a block that the filter of the receiver's starting store claims, that the sender failed to list or read, or that the receiver failed to write, is never delivered |
| `SessionOutcome.SessionMerges` | transport/bluetooth/session.go:52-195 | in every interleaving that ends, for every id: untouched if the sender lacked it, the filter claims it or a store error drops it, else the pointwise maximum unless tombstoned at the start, and absent under a tombstone still visible; the first 20 relay addresses of either side reach the other |
| `SessionOutcome.SessionUpgrades` | transport/bluetooth/session.go:52-195 | in numbers, for an id whose slots stand apart, with no store error or tombstone in the way: the receiver ends with the sender's block, stamp and payload, if and only if the sender started with it and the receiver did not, or with a smaller min(wf, 16); otherwise its own is unchanged |
| `SessionOutcome.NoUpgradeAbove16` | transport/bluetooth/session.go:133-136 | a block held at work factor 16 or more is never upgraded by a session |
| `SessionOutcome.Progress` | transport/bluetooth/session.go:52-195 | in every reachable state that is not final there is a next state, over links of any capacity, rendezvous included |
| `SessionOutcome.NextDecreases` | transport/bluetooth/session.go:52-195 | every step decreases a lexicographic measure |
| `SessionOutcome.Terminates` | transport/bluetooth/session.go:52-195 | no session takes infinitely many steps |
| `SessionOutcome.Completes` | transport/bluetooth/session.go:52-195 | from every reachable state there is a path to a final one |
| `SessionStall.OnlyIfDecided` | transport/bluetooth/session.go:161-195 | in any state of any run, the sender streams only if the first item that is not a BLOCK is a BLOOM, and has given up only if that item closes the channel |
| `SessionStall.Outcome` | transport/bluetooth/session.go:104-229 | against any stream, malformed frames included: an endpoint that has done all it can is streaming if and only if the first item that is not a well-formed BLOCK is a well-formed BLOOM, has given up if and only if that item is a BLOOM of the wrong length, a length over the cap or the end of the stream, and otherwise waits |
| `SessionStall.OutcomeAt` | transport/bluetooth/session.go:104-229 | the same by position: what stands after the leading BLOCKs decides, and which of the three it is |
| `SessionStall.DecisiveMeans` | transport/bluetooth/session.go:161-195 | the recursive choice of the decisive item is the one about positions |
| `SessionStall.WaitShortens` | transport/bluetooth/session.go:104-195 | every step before the decision decreases a measure, so an endpoint comes to rest or streams |
| `SessionStall.DoneFirst` | transport/bluetooth/session.go:189-190 | a run against a stream that starts with DONE, ending where no action is left and the sender waits |
| `SessionStall.StalledForGood` | transport/bluetooth/session.go:115-126 | from such a state on the endpoint does not change, whatever the peer sends |
| `SessionBytes.CarriesRead` | transport/bluetooth/session.go:212-229 | the bytes a reader has got are a whole frame exactly when it has all of the first one written, and then nothing else; before that it waits for more |
| `SessionBytes.StepRefines` | transport/bluetooth/session.go:52-229 | every step over byte streams, partial writes and reads included, is a step over frames, or leaves the frames as they are and moves bytes on |
| `SessionBytes.BytesInv` | transport/bluetooth/session.go:52-229 | in every state of every run over bytes the session invariant holds of the frames in flight |
| `SessionBytes.BytesMerge` | transport/bluetooth/session.go:52-229 | a session over byte streams that ends has merged both stores |
| `SessionBytes.BytesTerminate` | transport/bluetooth/session.go:52-229 | no session over byte streams takes infinitely many steps |
| `SessionBytes.BytesProgress` | transport/bluetooth/session.go:52-229 | in every state of a run over byte streams that is not final there is a next step, through pipes that hold one byte or more, if the frames can be encoded |
| `Scrape.NextInv` | client/client.go:34-92 | clock readings, commits, evictions, ticks and every step of a scrape, including aborts, keep clocks, rows and store in order |
| `Scrape.RunInv` | client/client.go:34-92 | in every state of every run no block has two rows, every message tried has one, and every row carries what opening a payload tried under its id gave |
| `Scrape.TryRefAdds` | client/client.go:57-82 | trying a listed block adds a row, with the id and the message, if and only if the block can be read, opens to a message and has no row yet |
| `Scrape.RowOrigin` | client/client.go:34-92 | in every state of every run each row goes back to the try of a listed, readable block with that id whose stored payload opens to that content |
| `Scrape.RowsStay` | client/store.go:112-134 | rows stay, in order and unchanged |
| `Scrape.ListsSince` | client/client.go:36-53 | a scrape lists only blocks of the store created since the checkpoint |
| `Scrape.NothingMissed` | client/client.go:34-92 | if Puts commit at the time they carry, a live block older than the checkpoint has been tried if and only if it can be read, and then its message, if any, has a row, which carries it unless another payload has the same id |
| `Scrape.TriedIffPassed` | client/client.go:34-92 | over every run, a live block older than the checkpoint and unseen when committed has been tried if and only if it can be read and a page read after its commit passed its key |
| `Scrape.MissedForGood` | client/client.go:34-92 | a block committed unseen with a time before the checkpoint is never tried while it lives |
| `Scrape.LateCommit` | blockstore/badger.go:198-200 | a run in which a Put reads the clock before a scrape begins and commits after it ends, and the block is unseen below the checkpoint |
| `Scrape.UnreadableMissed` | client/client.go:55-59 | a run in which a scrape lists a block, fails to read it, and moves the checkpoint past it |
| `Scrape.FoundCounts` | client/client.go:42-91 | while a scrape runs, found equals the rows inserted since it began |
| `Scrape.ScrapedFacts` | client/store.go:112-134 | saving keeps earlier rows, never two for one block, every listed message gets one, and every new row is that of a listed block and carries what its payload opens to |
| `Scrape.Client.TryBlock` | client/client.go:57-82 | a row is added if and only if the block can be read, opens to a message and has no row yet; it carries the id and the message; the result says whether it was |
| `Scrape.SavedStays` | client/client.go:47-89 | a finished scan over changing snapshots leaves a row for every message since the checkpoint that stayed readable throughout, and a new one carries it |
| `Scrape.Client.Scrape` | client/client.go:34-92 | over a store that may change between pages: every new row carries what the payload of a listed, readable block of its page opens to, and only blocks since the checkpoint are listed; a call that finishes has a row for every message since the checkpoint that stayed readable and moves the checkpoint to the start of the scan; a cancelled one keeps its rows and the old checkpoint; found counts the new rows in both |
| `Stores.ListRefs` | blockstore/blockstore.go:59-63 | both stores list the page of the request, as ids and work factors; a directory leaves out the files whose header cannot be read |
| `Stores.Put` | blockstore/blockstore.go:53-54 | a Put into either store, without a limit, is the Put transaction on what it holds |
| `Sync.Decide` | cmd/snk/main.go:317-350 | a listed block that cannot be read is an error; one not wanted, or held where its work factor cannot be read, is skipped; one that cannot be written is an error; any other is copied |
| `Sync.SyncOne` | cmd/snk/main.go:317-350 | only a copied block changes the destination, by the Put transaction |
| `Sync.SyncStores` | cmd/snk/main.go:309-363 | between any two stores every block that the source lists is counted once under its outcome; only the copied ones change the destination; the source is untouched |
| `Sync.ErrorFreeAt` | cmd/snk/main.go:309-363 | with no error reported, an id ends at the pointwise maximum (as it was, if tombstoned) if and only if it was listed or not wanted, and no failed lookup hid it |
| `Sync.ErrorFree` | cmd/snk/main.go:309-363 | with no error reported, the destination is the pointwise maximum off tombstones if and only if no wanted block is unlisted and no block held at less work than the source's fails its lookup |
| `Sync.CleanSync` | cmd/snk/main.go:309-363 | with nothing failing: no error, and exactly the blocks the destination lacks or has at less work, and no visible tombstone bars, are copied, stamp, payload and work factor as in the source; every other block stays |
| `Sync.LookupFaultHides` | cmd/snk/main.go:333-340 | one block held at less work whose lookup fails: no error, one already present, and the lesser block stays |
| `Sync.HeaderFaultHides` | blockstore/flatfile.go:240-243 | one file whose header cannot be read: nothing is counted, and the destination stays as it was |
| `Sync.SecondRun` | cmd/snk/main.go:309-363 | after an error-free run that missed nothing, a later one copies exactly the ids whose tombstone has expired since, as far as it can list, read and write them; at once it copies nothing |
| `Sync.TwoWay` | cmd/snk/main.go:392-397 | after pull and push without errors, both sides hold an id at the pointwise maximum if and only if no unreadable header hid a wanted file and no failed lookup hid the better block in either direction |
| `Sync.CleanRound` | cmd/snk/main.go:386-397 | with nothing failing, files and store end up with what either held, at the larger work factor, on every id without a visible tombstone |
| `Sync.UsbSync` | cmd/snk/main.go:386-397 | the round between a directory of files and the store: when neither half reports an error, both hold the pointwise maximum on ids not tombstoned in the store, exactly where no unreadable header hid a wanted file and no failed lookup hid the better block |
| `Rotation.BackoffValue` | cmd/snk/main.go:626-631 | skipRounds after k failures in a row is min(2^k, 64) for 1 <= k <= 62, and positive only for those k |
| `Rotation.PeerTracker.AddPeer` | cmd/snk/main.go:592-603 | a peer is added exactly when it is not this node, unknown, and the table is not full; the table stays within 200 |
| `Rotation.PeerTracker.DoSync` | cmd/snk/main.go:705-739 | one rotate tick: peers in backoff count down, a least recently pulled ready peer is pulled, nobody else changes |
| `Rotation.PeerTracker.SyncOne` | cmd/snk/main.go:605-645 | a failure adds one to the failures, keeps the last pull time and sets skipRounds to min(2^k, 64) for k up to 62 and to none after; a success resets both counts and records the pull time; an unknown peer is left alone |
| `Rotation.LeastRecent` | cmd/snk/main.go:718-728 | the pick has the smallest last pull time among the ready peers |
| `Rotation.SkippedExactly` | cmd/snk/main.go:622-645 | after its k-th failure in a row, 1 <= k <= 62, a peer is skipped for exactly min(2^k, 64) ticks |
| `Rotation.FailuresInARow` | cmd/snk/main.go:622-645 | after a successful pull and no other since, the count of failures is the number of pulls since, and the last pull time is that of the success |
| `Rotation.OthersBetween` | cmd/snk/main.go:705-739 | between two pulls of one healthy peer every other peer is pulled |
| `Rotation.RoundRobin` | cmd/snk/main.go:705-739 | any N consecutive ticks pull each of N healthy peers exactly once |
| `Rotation.OnceIn65` | cmd/snk/main.go:705-739 | a failing peer at full backoff is tried at most once in any 65 ticks |
| `Rotation.HealthyShare` | cmd/snk/main.go:705-739 | with F failing peers at full backoff at least 65 - F of any 65 consecutive ticks go to healthy peers |
| `Rotation.Starves` | cmd/snk/main.go:622-645 | peers with 62 failures that are due, less recently pulled than all others, and keep failing take every tick between them from then on |
| `FlatFile.FlatFileStore.Put` | blockstore/flatfile.go:79-129 | keeps an equally good file that it can read; otherwise writes, after evicting only soonest-expiring readable files and only when usage had reached the limit; from any usage it ends below limit plus one file, and within a limit that is a multiple of the file size, if and only if the unreadable files and this one alone would |
| `FlatFile.FlatFileStore.MakeRoom` | blockstore/flatfile.go:65-106 | at a usage of 4120 per file that has reached the limit, min(excess / 4120 + 11, readable) files go; what is left is below the limit, with room for a file when the limit is a multiple of the file size, unless the unreadable files alone fill it; then exactly they are left |
| `FlatFile.FlatFileStore.Evict` | blockstore/flatfile.go:298-336 | exactly min(n, readable files) files go and no readable file that stays expires strictly before one that goes |
| `FlatFile.WalkDir` | blockstore/flatfile.go:231-251 | the directory walk collects exactly the files with a readable header that meet the floor and the time |
| `FlatFile.ListBlocks` | blockstore/flatfile.go:217-284 | filter, sort, skip and stop yield the page of the request over the files with a readable header, without times and tags; a limit below 1 is never reached, except that limit 0 on no result names a next page |
| `FlatFile.ListingsAgree` | blockstore/flatfile.go:217-284 | for equal contents, request and cursor, Badger and flat-file listings give the same ids, work factors and next token |
| `FlatFile.PutRefines` | blockstore/flatfile.go:79-129 | without a limit, a flat-file Put is the BadgerStore Put transaction on the database the files represent |
| `FlatFile.FlatTokenRelists` | blockstore/blockstore.go:46-50 | resuming from the token of a flat-file ref shows its block again if and only if it was created after time 0 |
| `Index.Search` | blockstore/index.go:102-118 | binary search finds a record with the id exactly when there is one |
| `Index.WriteShards` | blockstore/index.go:192-211 | the 256 shards laid end to end are the sorted records again, and each holds exactly one first byte, in order |
| `Index.ShardIsFirstByte` | blockstore/index.go:175-177 | the shard of an id is its first byte |
| `Index.ShardsAre` | blockstore/index.go:192-211 | each shard is exactly the records with that first byte, in order |
| `Index.Reopen` | blockstore/index.go:157-264 | writing an index and opening it gives back the first count mod 2^32 records |
| `Index.Lookup` | blockstore/index.go:102-264 | cutting into shards, writing the shard an id names, opening it and searching it finds the id exactly when the file holds it: exactly when it is in the list, if the shard has fewer than 2^32 records |
| `Index.RecordRoundTrip` | blockstore/index.go:224-262 | a record is written as id, work factor, expiry and a zero byte, and decoding gives it back |
| `Index.EncodeIndex` | blockstore/index.go:213-236 | the file is the magic, the count modulo 2^32, and record i at byte 8 + 38 i |
| `Index.ParseIndex` | blockstore/index.go:238-264 | parsing succeeds exactly on a whole header with the magic and enough bytes, and decodes each record slice |
| `Index.IndexRoundTrip` | blockstore/index.go:213-264 | an encoded index parses, and gives back the first count mod 2^32 records: all of them below 2^32 |
| `ThreadOrder.RootedIffNoCycle` | ui/template.html:2088-2116 | a chain of references leaves the list if and only if it does not run into a cycle |
| `ThreadOrder.Links` | ui/template.html:2092-2100 | the in-degree of a message is 1 if it refers to a message of the list, else 0, and the successors of a message are those that refer to it |
| `ThreadOrder.KahnLoop` | ui/template.html:2101-2112 | the loop ends with every ready message emitted, each an earliest received of those ready |
| `ThreadOrder.TopoSort` | ui/template.html:2088-2116 | the result is a permutation; the first n are exactly the messages from which following the references never returns to a message already met; each of them stands after the message of the list it refers to; the rest follow by time of receipt |
| `ThreadOrder.RepliesFollow` | ui/template.html:2088-2116 | a message of the first part that refers to a message of the list stands after it |
| `ThreadOrder.EarliestFirst` | ui/template.html:2101-2112 | of the messages that stand from a position of the first part on and refer to none of these, the one at it was received first |
| `ThreadOrder.CycleMeans` | ui/template.html:2088-2116 | a message is on or below a cycle exactly if a trail of references from it through the list returns to a message on it |

## Left out

- Cryptography, key handling, mining and the numeric TTL curve: parameters. The float-to-Duration overflow of TTL near work factor 49, and of its double near 46, is therefore not captured; `ttl` is an unbounded natural number.
- Base64, hex, JSON, HTTP, zlib, SQLite and BadgerDB itself: replaced by sequences, maps and atomic steps. Byte sizes of a BadgerDB are unknown, so no byte bound is claimed for BadgerStore.
- Badger.BadgerStore.Evict: is one step, as if nothing ran between its scan and its deletes; `StaleDrop` says exactly what a stale delete does. Database errors in the middle are not modelled.
- Sub-second parts of tombstone lifetimes; times are whole seconds.
- Block and file byte layouts and legacy headers: blocks and files are records. A file that cannot be read is one of the ids given as unreadable.
- Session.NextInv: covers two conforming peers whose stores evict nothing during the session. Context cancellation, transport errors and a failure while the filter is built end a session early and are not modelled there; `SessionStall` covers every stream one endpoint can hear, up to the decision of its sender. The ids a store fails on are fixed for a session.
- SessionBytes.BytesMerge: takes the layout inside a frame (filter bytes, stamp and payload, JSON) as a codec that round-trips; the filter's byte form is proved separately (`Bloom.Filter.Bytes`, `Bloom.FilterFromBytes`).
- Scrape.Client.Scrape: lists and reads each page from one state of the store; the runs of the state machine above it let the store change between any two reads. The set of keys, and of ids that cannot be read, is fixed.
- Relay.Pull: covers a pull without store errors or cancellation; a block that cannot be fetched is skipped, as in the source.
- Sync.SyncStores: the destination has no limit, so it evicts nothing; the clock and the ids that fail stand still during one sync; a failure of a whole listing returns an error at once and is not modelled.
- ThreadOrder.TopoSort: assumes distinct block ids, which the message table guarantees.
- Rotation: peers found through gossip during a tick and the non-rotating mode, which pulls from every ready peer.
- Index expiry: `Has` and `Records` differ when now equals ExpiresAt (blockstore/index.go:33-35, blockstore/index.go:92); lookup is stated without expiry.
- FlatFile.FlatFileStore.Put: assumes that removals succeed, and writes one file as one step; the sibling temporary file is not modelled.
- Push, the mobile tracker, SQLiteStore, GeoIP, LAN scanning, gossip URL parsing, command-line flags, the browser cipher, message formats and the simulator: input and output, or straight-line code.
