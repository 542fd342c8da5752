# QueryMT core protocols and codecs in Dafny

A model of the stateful and concurrent cores of QueryMT, with proofs of what they promise over all
inputs, all runs and all interleavings. `dafny verify dfyconfig.toml` checks everything.

## What is modelled

- **Model inventory refresh** (`Inventory`, `InventoryProtocol`, `InventoryInvariant`, `InventoryTheorems`,
  `InventoryCalls`, `InventoryLimits`). Callers trigger, join and invalidate while a background task fetches, stores snapshots,
  signals waiters and re-arms itself; `invalidate_*` calls may be dropped at any point. Each mutex region,
  snapshot store, fetch and spawn is one step of a state machine; the class performs the same regions on
  mutable fields. Each fetch returns the data of the moment it runs. The theorems hold for any debounce
  interval and over steady runs: no local-only cycle ends with a rerun requested, which is exactly what single
  flight needs (`InventoryTheorems.SingleFlightExactly`). That no invalidation is lost is about gentle runs: no
  local-only cycle starts while an invalidation waits for its own, and none is recorded while one runs. Runs
  without `ensure_local_refresh` are gentle, and gentle runs are steady.
- **Invites** (`InviteWire`, `InviteToken`, `MembershipPayload`, `InviteStore`, `InviteHistory`, `Durations`, over
  `BigEndian`, `Hex`, `Base64Url`, `Utf8`). The binary grant, the token and URL, the signed payload, and the use-counting
  store with its file. A run of the store is any sequence of operations, each with its own save outcome, and
  restarts from the file; what callers asked for and were told is recorded, and the laws are about that record.
- **Pipe descriptors** (`PipeRegistry`, `PipeProtocol`, `PipeTheorems`). Descriptors move between threads that
  register, the table, collections, handshakes and connections; drops close them. A step is one lock region
  or one action outside the lock.
- **Events** (`EventSink`, `EventTheorems`). Append, then publish, by any number of emitters, and a subscriber
  that joins a replayed page of the journal with what it hears live.
- **Profile runtimes** (`ProfileRuntimes`, `ProfileTheorems`). The double-checked insertion racing with
  reloads, shutdown, dropped calls and mesh propagation.
- **Command-line chat** (`ChatStream`, `ChatTranscript`, `ChatTurns`). Assembly of interleaved chunks, and the transcript
  the response loop leaves behind on each of its exits.
- **Sequential pieces** (`ModelRefs` over `Strings`, `JsonDefaults`, `Dedupe`).

Clocks, fresh ids, storage outcomes, handshake outcomes, provider replies and tool results are inputs of
the steps or operations.

## Where the code differs from what one might expect

- An empty snapshot can be seen with no refresh running and no trigger pending, because an invalidator empties
  it before it takes the mutex (`InventoryLimits.EmptyWhileAnotherInvalidates`). No stale data is ever seen
  then.
- A local-only cycle that ends with a rerun requested spawns it without raising the flags, and two refreshes
  can run at once (`InventoryLimits.UnflaggedRerunRunsTwice`). Single flight holds all along a run if and only
  if no local-only cycle in it ends like that (`InventoryTheorems.SingleFlightExactly`).
- A local-only cycle started while an invalidation waits for its own fetches the local side alone: the
  remote one is not refetched (`InventoryLimits.LocalOnlyCycleLosesInvalidation`). At rest local data is fresh
  if and only if `last_triggered_at` is set, remote data if and only if a cycle of both sides began after the
  last invalidation (`InventoryTheorems.FreshnessExact`); on gentle runs the two conditions are one.
- An invalidation dropped before its trigger can leave stale data with nothing running
  (`InventoryLimits.DroppedTriggerLeavesStaleData`). `last_triggered_at` tells: stored data at rest is fresh if
  and only if it is set (`InventoryTheorems.InvalidationNeverLost`), and while it is not, the next trigger
  always starts a cycle (`InventoryTheorems.DroppedTriggerIsMadeUpFor`).
- A name registered again during its own handshake leaks descriptors (`PipeTheorems.ReregisteredNameLeaks`),
  and so does a dropped collection with descriptors pending (`PipeTheorems.DroppedCollectionLeaks`); nothing
  else does (`PipeTheorems.LeakFreeExactly`).
- A replay page is cut at 10,000 rows when no limit is given. A cut page loses events published before the
  subscription (`EventTheorems.CutPageLosesEvents`). An emitter dropped between storing and publishing leaves an
  event that only a replay shows. `EventTheorems.CompleteExactly` says exactly when a subscriber has everything.
- `parse_duration_secs` multiplies in u64: a long number with a unit wraps around in a release build
  (`Durations.ReadsUnitExact`). So does `now + ttl` in `create_invite`: `InviteStore.ExpiryExact` says what becomes
  of the expiry, and `InviteStore.LongestTtlIsBornExpired` is an invite that is created and never usable.
- `parse_model_ref` strips every leading "file:", so a path that starts with it again is not stable
  (`ModelRefs.FileReparseExact`), and a repo that itself holds a colon re-parses differently
  (`ModelRefs.HfReparseExact`).
- A revocation whose save fails is reported as failed, holds in memory and is gone after a restart
  (`InviteStore.FailedSaveIsForgotten`); `InviteStore.RestartKeepsStatus` says exactly when a status survives.
- `shutdown` of the profile manager leaves the fingerprints behind; a later insertion overwrites them.

## Model

| member | source | states |
|---|---|---|
| `InventoryTheorems.InvalidationNeverLost` | crates/agent/src/model_inventory.rs:329-601 | on every gentle run, with no cycle in flight: each snapshot that holds data is fresh (from a cycle started after the last invalidation, and no older than it) if and only if `last_triggered_at` is set; while it is set a side is empty only if another invalidator of that very side has emptied it and waits for the mutex, or was dropped waiting; after an invalidation it is unset only while a trigger is still coming or was dropped since the last cycle, and with no trigger coming exactly then |
| `InventoryTheorems.FreshnessExact` | crates/agent/src/model_inventory.rs:329-641 | on every steady run, with no cycle in flight: stored local data is fresh if and only if `last_triggered_at` is set, stored remote data if and only if a cycle of both sides began after the last invalidation; a side fetched since and nevertheless empty was emptied by an invalidator that waits for the mutex or was dropped waiting |
| `InventoryTheorems.DroppedTriggerIsMadeUpFor` | crates/agent/src/model_inventory.rs:345-379 | on every steady run, while an invalidation has had no cycle and nothing runs, its trigger is still coming or was dropped, and the next trigger by whomever and whenever is not debounced but starts a cycle |
| `InventoryTheorems.FullRunsAreGentle` | crates/agent/src/model_inventory.rs:387-429 | every run that never calls `ensure_local_refresh` is gentle |
| `InventoryTheorems.GentleRunsAreSteady` | crates/agent/src/model_inventory.rs:387-634 | on a gentle run no local-only cycle ends with a rerun requested, and when any cycle began after the last invalidation one of both sides did |
| `InventoryTheorems.UndroppedRunsOweNothing` | crates/agent/src/model_inventory.rs:432-476 | on runs that drop no `invalidate_*` call no trigger is owed and no snapshot is wiped |
| `InventoryTheorems.AtMostOneCycle` | crates/agent/src/model_inventory.rs:334-374 | on every steady run at most one refresh is before its final step; the local flag is up exactly while there is one, the remote flag exactly while it is a full one; cycles started = cycles completed + cycles in flight |
| `InventoryTheorems.SingleFlightExactly` | crates/agent/src/model_inventory.rs:329-641 | for every run whatsoever: at most one refresh is in flight with the flags saying so in all its states if and only if no local-only cycle in it ends with a rerun requested |
| `InventoryTheorems.RerunLeavesUnflagged` | crates/agent/src/model_inventory.rs:618-634 | a local-only cycle that ends with a rerun requested leaves a task in flight with both flags down |
| `InventoryTheorems.WakeUpIsExact` | crates/agent/src/model_inventory.rs:122-135 | on every steady run a live waiter is released exactly when the cycle it joined has made its final step: no early wake-up and none missed |
| `InventoryTheorems.VersionCountsCompletedCycles` | crates/agent/src/model_inventory.rs:570-634 | on every run, steady or not, the update version equals the number of completed cycles of both kinds |
| `InventoryTheorems.RefreshRateBound` | crates/agent/src/model_inventory.rs:345-369 | on every steady run the cycles started in any time span number at most 1 + span / debounce + the invalidations in the span |
| `InventoryTheorems.StartsArePaid` | crates/agent/src/model_inventory.rs:345-369 | each start after the first in a span is paid for by a debounce interval or by an invalidation of its own |
| `InventoryCalls.CallsExact` | crates/agent/src/model_inventory.rs:329-429 | on every steady run, by the history alone: `trigger_refresh` and `ensure_local_refresh` start a cycle if and only if none runs and none has started yet, or an invalidation came since, or the debounce interval is over; the new task, the handle for the new or joined cycle, and no change at all when debounced |
| `InventoryCalls.DispositionExact` | crates/agent/src/model_inventory.rs:329-429 | on every run, steady or not: a trigger starts a cycle if and only if no flag is up and every start so far has an invalidation after it or lies a debounce interval back; `ensure_local_refresh` does so too without local data |
| `InventoryCalls.InvalidationExact` | crates/agent/src/model_inventory.rs:432-476 | an `invalidate_*` call without interruption, from any state and for each scope: which snapshots it empties, which timestamps it unsets, when it asks for a rerun, and that nothing else changes before its trigger |
| `InventoryCalls.FullCycleDelivers` | crates/agent/src/model_inventory.rs:514-601 | a cycle of both sides without interruption, from any state where it is about to be spawned: both snapshots hold the data of its fetches, both timestamps and the counts are set, its waiters are released, and it starts over if and only if a rerun was requested |
| `InventoryCalls.LocalCycleDelivers` | crates/agent/src/model_inventory.rs:613-641 | a local-only cycle without interruption, from any state where it is about to be spawned: the local snapshot holds the data of its fetch, its timestamp is set, waiters are released, the remote side is as it was, and without a rerun request everything is at rest |
| `InventoryLimits.EmptyWhileAnotherInvalidates` | crates/agent/src/model_inventory.rs:432-444 | a run with no dropped call in which no cycle and no trigger is pending and a snapshot is nevertheless empty: a second invalidator has cleared it and waits for the mutex |
| `InventoryLimits.LocalOnlyCycleLosesInvalidation` | crates/agent/src/model_inventory.rs:387-429 | a local-only cycle started while an invalidation waits for its cycle swallows it: the remote side is never refetched |
| `InventoryLimits.UnflaggedRerunRunsTwice` | crates/agent/src/model_inventory.rs:618-634 | an invalidation recorded during a local-only cycle makes its rerun start without flags, and the next trigger puts a second refresh in flight |
| `InventoryLimits.DroppedTriggerLeavesStaleData` | crates/agent/src/model_inventory.rs:432-444 | an `invalidate_local` dropped between its mutex region and its trigger leaves data from before the invalidation with nothing running |
| `InventoryInvariant.StepKeeps` | crates/agent/src/model_inventory.rs:329-641 | every step of callers, invalidators (dropped ones too) and refresh tasks of both kinds, except the end of a local-only cycle with a rerun requested, keeps single flight, debounce spacing, the cycle count, the waiter bookkeeping, the age of fetched data, the coverage of the last invalidation per side and the local timestamp |
| `InventoryInvariant.RunKeeps` | crates/agent/src/model_inventory.rs:329-641 | the same along every steady run |
| `InventoryInvariant.FinishLocalIsEnd` | crates/agent/src/model_inventory.rs:618-634 | unless a rerun was requested, a local-only cycle ends like a full one after a timestamp |
| `InventoryProtocol.StepsAreRegions` | crates/agent/src/model_inventory.rs:329-641 | the steps of the protocol act on the shared fields exactly as the mutex regions do |
| `Inventory.ModelInventory.TriggerRefresh` | crates/agent/src/model_inventory.rs:329-379 | joins the active cycle, is debounced, or starts a cycle with a channel of its own; the whole new state and the handle |
| `Inventory.ModelInventory.EnsureLocalRefresh` | crates/agent/src/model_inventory.rs:387-429 | the same with the remote flag down and the debounce only when local data exists |
| `Inventory.ModelInventory.InvalidateRegion` | crates/agent/src/model_inventory.rs:432-476 | timestamps cleared by scope, debounce lifted, a rerun asked for only while a cycle runs |
| `Inventory.ModelInventory.BeginCycle` | crates/agent/src/model_inventory.rs:362-369 | flags up, rerun request down, a new completion channel |
| `Inventory.ModelInventory.Signal` | crates/agent/src/model_inventory.rs:575 | a send without live receivers leaves the channel value as it is |
| `Inventory.ModelInventory.FinishRefresh` | crates/agent/src/model_inventory.rs:570-590 | flags down, waiters signalled, version counted, and a new cycle begun in the same region when a rerun was asked for |
| `Inventory.ModelInventory.FinishLocalRefresh` | crates/agent/src/model_inventory.rs:618-634 | the local-only end spawns its rerun without raising the flags |
| `InviteWire.ToWireBytes` | crates/querymt-remote/src/invite.rs:195-230 | fills the buffer field by field: the wire form, or the error for a UUID, PeerId or name it cannot carry |
| `InviteWire.ReadsBack` | crates/querymt-remote/src/invite.rs:233-333 | reading a written grant back, whatever bytes follow, gives its normal form and consumes exactly the written bytes |
| `InviteWire.RoundTripExact` | crates/querymt-remote/src/invite.rs:195-333 | write then read is the identity, with the exact length consumed, if and only if the grant is canonical |
| `InviteWire.AcceptedIsRewritten` | crates/querymt-remote/src/invite.rs:233-333 | an accepted message is the written form of the grant it carries, except that the six unused flag bits come out clear |
| `InviteWire.SameGrantSameBytes` | crates/querymt-remote/src/invite.rs:212-333 | two accepted messages carry the same grant if and only if their consumed bytes agree up to the unused flag bits |
| `InviteWire.WireLayout` | crates/querymt-remote/src/invite.rs:195-230 | which grants can be written, and where each field stands in the bytes, with version 3, the multihash codes and the flag bits |
| `InviteWire.ReadsExactly` | crates/querymt-remote/src/invite.rs:233-333 | exactly the messages that are read: this version, an identity PeerId of at most 42 bytes, all fields there and a name in UTF-8 |
| `InviteToken.TokenRoundTripExact` | crates/querymt-remote/src/invite.rs:403-453 | `decode` inverts `encode` and `to_url` if and only if the grant is canonical and the signature is 64 bytes of lower-case hex |
| `InviteToken.DecodedIsCanonical` | crates/querymt-remote/src/invite.rs:412-448 | an accepted token decodes to a canonical signed grant, and re-encodes to itself if and only if no unused flag bit is set |
| `InviteToken.UrlReadsLikeToken` | crates/querymt-remote/src/invite.rs:412-453 | the URL form decodes like the bare token: an encoded token never starts with the prefix |
| `InviteToken.TokenLayout` | crates/querymt-remote/src/invite.rs:403-453 | the bytes of a token are the written grant and the decoded signature, a part that fails being left out; the URL is the prefix and the token |
| `InviteToken.DecodesExactly` | crates/querymt-remote/src/invite.rs:412-448 | a token is accepted if and only if its bytes are a grant with just 64 bytes behind it, which are its signature in hex; the error is that of the part that fails |
| `Base64Url.DecodeEncode` | crates/querymt-remote/src/invite.rs:408-416 | base64url without padding, section 5 of RFC 4648: decoding inverts encoding |
| `Base64Url.EncodeDecode` | crates/querymt-remote/src/invite.rs:408-416 | an accepted text is the only one for its bytes |
| `Base64Url.EncodeAlphabet` | crates/querymt-remote/src/invite.rs:408 | only symbols of the URL-safe alphabet are written |
| `Base64Url.EncodeExact` | crates/querymt-remote/src/invite.rs:408 | every three bytes are one number in base 64, most significant digit first, with the symbols of table 2 of RFC 4648 and zeros filled in at the end; the length of the text |
| `Hex.DecodeEncode` | crates/querymt-remote/src/invite.rs:405-446 | hex decoding inverts encoding, which writes lower case |
| `Hex.EncodeDecode` | crates/querymt-remote/src/invite.rs:405-446 | re-encoding gives the same text if and only if it was lower case |
| `Hex.EncodeExact` | crates/querymt-remote/src/invite.rs:405-446 | byte i gives its high and its low digit at 2i and 2i + 1 |
| `Hex.DecodesExactly` | crates/querymt-remote/src/invite.rs:406-446 | exactly the texts of even length with nothing but hexadecimal digits are read |
| `BigEndian.FromTo` | crates/querymt-remote/src/invite.rs:224-225 | reading a big-endian integer inverts writing it |
| `BigEndian.ToFrom` | crates/querymt-remote/src/invite.rs:284-293 | writing a big-endian integer inverts reading it |
| `Utf8.FrontIsScalar` | crates/querymt-remote/src/invite.rs:303-308 | what is accepted as one character is the encoding, by section 3 of RFC 3629, of a Unicode scalar value |
| `Utf8.ScalarIsFront` | crates/querymt-remote/src/invite.rs:303-308 | the encoding of any Unicode scalar value is accepted as one character, whatever follows |
| `BigEndian.MostSignificantFirst` | crates/querymt-remote/src/invite.rs:284-293 | the first byte counts most |
| `MembershipPayload.SignableBytes` | crates/querymt-remote/src/invite.rs:144-162 | the payload, or an error exactly when one of the four strings is longer than 65535 bytes |
| `MembershipPayload.Buffer.PushStr` | crates/querymt-remote/src/invite.rs:702-713 | appends a two-byte length and the bytes, or leaves the buffer alone and fails |
| `MembershipPayload.FieldSplits` | crates/querymt-remote/src/invite.rs:702-713 | a length-prefixed field ends where it says: equal concatenations have equal first fields and equal rests |
| `MembershipPayload.PayloadInjective` | crates/querymt-remote/src/invite.rs:144-162 | two payloads are equal if and only if the tokens agree on version, the four strings, both timestamps, `can_invite` and whether the role is "client" |
| `MembershipPayload.PayloadLayout` | crates/querymt-remote/src/invite.rs:144-162 | which tokens have a payload, and where each field stands in it, with its two-byte length or its flag bit |
| `InviteStore.UseLimitHolds` | crates/querymt-remote/src/invite.rs:489-635 | over every run of create, admit, consume and revoke with failing saves, failing token issue and restarts, an invite with limit n > 0 is reported used at most n times |
| `InviteStore.CounterAddsUp` | crates/querymt-remote/src/invite.rs:524-614 | in memory the uses remaining and the users recorded always add up to the limit, and an exhausted invite is not pending |
| `InviteStore.RevocationIsFinal` | crates/querymt-remote/src/invite.rs:616-624 | after a reported revocation no use of that invite is ever reported, restarts included |
| `InviteStore.StatusOnlyAdvances` | crates/querymt-remote/src/invite.rs:480-635 | over every run, between any two points with no restart between them the status of an invite only moves from pending to consumed to revoked and no record disappears |
| `InviteStore.RestartKeepsStatus` | crates/querymt-remote/src/invite.rs:480-486 | over every run, a restart leaves the status of an invite as it is if and only if some save worked, or some restart happened, after which no step changed that status; otherwise the status goes back or the record is gone |
| `InviteStore.DiskIsBehind` | crates/querymt-remote/src/invite.rs:633-635 | over every run, restarts included, the file never holds an invite that memory lacks nor a status ahead of memory |
| `InviteStore.RevocationSurvives` | crates/querymt-remote/src/invite.rs:616-624 | a revocation survives a restart right after it if and only if its save worked or the file already said revoked |
| `InviteStore.LimitIsReached` | crates/querymt-remote/src/invite.rs:581-614 | nothing is withheld after any run from the empty store: of k uses of an unexpired, unrevoked invite exactly as many succeed as uses remain, all of them without a limit |
| `InviteStore.ExpiryExact` | crates/querymt-remote/src/invite.rs:498 | the expiry is now + ttl if and only if that fits a u64; a new invite is born expired if and only if the sum is above 2^64, and never expires if and only if the sum is 2^64 or 0 |
| `InviteStore.LongestTtlIsBornExpired` | crates/querymt-remote/src/invite.rs:489-522 | the longest time to live gives an invite that is created and refused at once |
| `InviteStore.FailedSaveIsForgotten` | crates/querymt-remote/src/invite.rs:616-624 | a run in which a revocation whose save failed is undone by a restart |
| `InviteStore.RunKeeps` | crates/querymt-remote/src/invite.rs:480-635 | memory, file and what callers were told stay consistent for each invite along every run |
| `InviteHistory.CreateExact` | crates/querymt-remote/src/invite.rs:489-522 | a creation succeeds if and only if the grant can be written and signed and the save works; the grant is field by field what was asked for, and without a time to live expired at no time; the new record, and the store otherwise untouched |
| `InviteHistory.RecordIsAsAsked` | crates/querymt-remote/src/invite.rs:489-522 | over every run, the record of an invite carries inviter, mesh name, limit, permissions, expiry and creation time of its request |
| `InviteHistory.MembershipIsAsAsked` | crates/querymt-remote/src/invite.rs:489-574 | over every run with restarts and failing saves, a membership handed out carries the permissions asked for when its invite was created and the expiry that follows from that request, and its peer was told of the use |
| `InviteHistory.UseExact` | crates/querymt-remote/src/invite.rs:525-614 | over every run, what a use comes to by the record and the request behind it: not found, revoked, used up, expired, not saved, not issued, or accepted, each if and only if its condition holds |
| `InviteHistory.UsersAreRecorded` | crates/querymt-remote/src/invite.rs:525-614 | over every run, the peers a use was reported to are listed with the invite in that order, in memory and in the file |
| `InviteStore.InviteStore.LoadOrCreate` | crates/querymt-remote/src/invite.rs:480-486 | an unreadable file is an error and nothing else is; otherwise the store starts with the records of the file, or none |
| `InviteStore.InviteStore.CreateInvite` | crates/querymt-remote/src/invite.rs:489-522 | the whole new state and result, including an insert that stays in memory when the save fails |
| `InviteStore.InviteStore.AdmitPeer` | crates/querymt-remote/src/invite.rs:525-574 | every refusal, the decrement, the switch to consumed, the failure after the save when no token can be issued, and the issued token: its peers, invite, times, and the permissions and expiry of the grant |
| `InviteStore.InviteStore.ValidateAndConsume` | crates/querymt-remote/src/invite.rs:581-614 | every refusal, the decrement and the switch to consumed |
| `InviteStore.InviteStore.RevokeInvite` | crates/querymt-remote/src/invite.rs:616-624 | revoked in memory even when the save fails |
| `InviteStore.InviteStore.SaveRecords` | crates/querymt-remote/src/invite.rs:633-635 | a save replaces the file or leaves it |
| `Durations.DecimalRoundTrip` | crates/querymt-remote/src/invite.rs:686 | parsing the decimal digits of a u64 gives it back |
| `Durations.ReadsUnit` | crates/querymt-remote/src/invite.rs:670-687 | a number with a unit suffix is read as the product modulo 2^64 |
| `Durations.ReadsUnitExact` | crates/querymt-remote/src/invite.rs:670-687 | for every text: it is accepted if and only if a number stands before d, h, m or s, or alone; the value is their product modulo 2^64 with factors 86400, 3600, 60 and 1, and the true product if and only if that fits |
| `Durations.ParseU64Exact` | crates/querymt-remote/src/invite.rs:686 | a text is a number if and only if it is digits behind at most one plus sign that stand for less than 2^64, and it is that number; the running overflow check is the check of the whole |
| `Durations.PrintsLargest` | crates/querymt-remote/src/invite.rs:689-699 | the unit printed is the largest one that divides the duration |
| `Durations.DurationRoundTrip` | crates/querymt-remote/src/invite.rs:670-699 | every u64 duration is read back from its printed form, with no overflow on the way |
| `PipeTheorems.OwnershipIsLinear` | crates/querymt-mobile-ffi/src/mcp.rs:60-373 | over every interleaving of registrations, collections (dropped ones too), handshakes and removals, a descriptor has at most one owner, is handed to at most one handshake and is closed at most once, and then has no owner |
| `PipeTheorems.LeakFreeExactly` | crates/querymt-mobile-ffi/src/mcp.rs:60-367 | a run leaks no descriptor if and only if it drops no server that is connected and still holds descriptors of its own, and no collection with descriptors pending |
| `PipeTheorems.DroppedCollectionLeaks` | crates/querymt-mobile-ffi/src/mcp.rs:301-339 | dropping a collection with descriptors pending leaks them, after any run |
| `PipeTheorems.CalmRunsLeakNothing` | crates/querymt-mobile-ffi/src/mcp.rs:149-402 | on runs where no name is registered again during its own handshake and no collection is dropped with descriptors pending, every created descriptor is owned or was closed, never both |
| `PipeTheorems.ReregisteredNameLeaks` | crates/querymt-mobile-ffi/src/mcp.rs:348-352 | a legal run that registers a name again during its handshake and leaks the new pair |
| `PipeTheorems.StepKeeps` | crates/querymt-mobile-ffi/src/mcp.rs:60-402 | every step keeps single ownership, open descriptors, single hand-out and single close |
| `PipeProtocol.ReleasedIsOwned` | crates/querymt-mobile-ffi/src/mcp.rs:60-75 | what a step closes was fresh or had one owner until then, and is closed once by it |
| `PipeProtocol.OthersStay` | crates/querymt-mobile-ffi/src/mcp.rs:149-352 | a descriptor that a step neither closes nor forgets is found at one definite new place |
| `PipeProtocol.MovesFrom` | crates/querymt-mobile-ffi/src/mcp.rs:149-352 | whatever a step leaves at a place was at one definite place before |
| `PipeRegistry.Registry.Insert` | crates/querymt-mobile-ffi/src/mcp.rs:161-174 | inserting replaces and drops an older server of the same name |
| `PipeRegistry.Registry.TakePending` | crates/querymt-mobile-ffi/src/mcp.rs:304-327 | phase 1: exactly the unconnected servers of the agent with both descriptors are emptied and handed over, and exactly the connected ones are listed, in any visiting order |
| `PipeRegistry.TakenExact` | crates/querymt-mobile-ffi/src/mcp.rs:304-327 | server by server: taken if and only if it is of the agent, not connected and holds both descriptors; what it is left with and what the collection has |
| `PipeRegistry.Registry.Store` | crates/querymt-mobile-ffi/src/mcp.rs:348-353 | phase 3: the connection replaces an older one, which is dropped, or is dropped itself when the registration is gone |
| `PipeRegistry.Registry.Drop` | crates/querymt-mobile-ffi/src/mcp.rs:60-75 | an unconnected server closes its descriptors, a connected one only those of its connection |
| `PipeRegistry.Registry.Unregister` | crates/querymt-mobile-ffi/src/mcp.rs:377-413 | removes and drops the server, and reports whether there was one |
| `PipeRegistry.Registry.UnregisterAll` | crates/querymt-mobile-ffi/src/mcp.rs:370-373 | drops the agent's servers one after the other, in any order, and keeps all others |
| `PipeRegistry.Registry.RefuseDuplicate` | crates/querymt-mobile-ffi/src/mcp.rs:149-159 | a name already registered is refused and costs exactly the new pair; the table stays as it is |
| `EventTheorems.FanoutIsJournalled` | crates/agent/src/event_sink.rs:48-69 | over every interleaving of emitters each durable envelope on the fanout is journalled and appears once, and a journalled event is missing from the fanout if and only if its publish is pending or its emitter was dropped |
| `EventTheorems.ViewExact` | crates/agent/src/event_sink.rs:285-321 | which events a subscriber has that replays a session and then listens: those up to the end of its page, and those published since it subscribed |
| `EventTheorems.NothingTwice` | crates/agent/src/event_sink.rs:285-321 | replay joined with live delivery never holds a sequence number twice |
| `EventTheorems.CompleteExactly` | crates/agent/src/event_sink.rs:285-321 | with no publish pending for the session, the subscriber has every event beyond its cursor if and only if nothing beyond its page was published before it subscribed or abandoned by a dropped emitter |
| `EventTheorems.UncutPageDeliversAll` | crates/agent/src/session/sqlite_storage/event_journal.rs:76-104 | after a page shorter than its limit, the subscriber has every event if and only if none was stored after the page and then abandoned |
| `EventTheorems.CutPageLosesEvents` | crates/agent/src/session/sqlite_storage/event_journal.rs:85 | a reachable state in which a page cut by its limit loses an event |
| `EventTheorems.RunsJoin` | crates/agent/src/event_sink.rs:48-113 | the three states of a join along any run satisfy what the delivery theorems need |
| `EventTheorems.JournalExact` | crates/agent/src/session/sqlite_storage/event_journal.rs:13-68 | after any run the journal is what emitters stored, in order, with the event passed in and a number spent on each attempt that reached storage |
| `EventTheorems.ReplayExact` | crates/agent/src/session/sqlite_storage/event_journal.rs:84-104 | after any run, a replay without cursor and limit holds in ascending order all rows of the session when there are at most 10,000, and otherwise the first 10,000 |
| `EventSink.PageExact` | crates/agent/src/session/sqlite_storage/event_journal.rs:76-104 | with or without cursor and limit: a page holds exactly the session's rows after the cursor, or from the beginning, and up to its own end, at most the limit, or 10,000, and all of them when shorter |
| `EventSink.PageIsFirst` | crates/agent/src/session/sqlite_storage/event_journal.rs:76-104 | a page is the first of those rows in ascending order: as many as there are, or as the limit allows |
| `EventSink.EventSink.Emit` | crates/agent/src/event_sink.rs:98-113 | durable kinds are stored then published, ephemeral kinds only published, and an event that could not be stored is not published |
| `EventSink.EventSink.EmitDurableWithOrigin` | crates/agent/src/event_sink.rs:48-69 | the whole new journal and fanout for each outcome of storage |
| `EventSink.EventSink.EmitEphemeralWithOrigin` | crates/agent/src/event_sink.rs:77-94 | published and never stored |
| `EventSink.EventSink.AppendDurable` | crates/agent/src/session/sqlite_storage/event_journal.rs:13-68 | a failed insert still spends a sequence number |
| `ProfileTheorems.CallsAgree` | crates/agent/src/profiles.rs:731-756 | calls for one profile with no eviction of it between them return the same runtime, and the cache still holds it |
| `ProfileTheorems.ReloadIsExact` | crates/agent/src/profiles.rs:676-704 | a reload keeps a cached runtime, and its recorded fingerprint, if and only if it is still listed with the fingerprint that runtime was built from |
| `ProfileTheorems.MeshReachesAll` | crates/agent/src/profiles.rs:893-911 | after a `set_mesh` with no rival setter, until the next write, every cached runtime carries the mesh, also one built or inserted while it ran and one inserted later |
| `ProfileTheorems.SetAllExact` | crates/agent/src/profiles.rs:906-911 | the visit hands the mesh to the cached runtimes and to no other |
| `ProfileTheorems.MissIsCached` | crates/agent/src/profiles.rs:731-756 | an undisturbed call that misses caches and returns a new runtime with the fingerprint of its configuration and the mesh the cell holds, a rival's too, and leaves everything else alone |
| `ProfileTheorems.StepKeeps` | crates/agent/src/profiles.rs:676-931 | every step keeps the lock discipline, the privacy of uncached runtimes, own fingerprints and agreement of returns |
| `ProfileRuntimes.ProfileRuntimeManager.Publish` | crates/agent/src/profiles.rs:742-755 | an existing entry wins; otherwise the mesh, the fingerprint and the entry are set together |
| `ProfileRuntimes.ProfileRuntimeManager.Reload` | crates/agent/src/profiles.rs:690-702 | the retained runtimes and fingerprints, in any visiting order |
| `ProfileRuntimes.ProfileRuntimeManager.SetAll` | crates/agent/src/profiles.rs:906-911 | every cached runtime object gets the mesh |
| `ProfileRuntimes.ProfileRuntimeManager.SetMeshHandle` | crates/agent/src/profiles.rs:893-895 | writes the cell and touches no runtime |
| `ProfileRuntimes.ProfileRuntimeManager.Shutdown` | crates/agent/src/profiles.rs:926-931 | empties the cache; the recorded fingerprints stay |
| `ChatStream.InterleavingDoesNotMatter` | crates/cli/src/chat.rs:104-211 | two streams with the same text, the same thinking and the same chunks per tool index assemble to the same reply |
| `ChatStream.CallsAreOrderedFolds` | crates/cli/src/chat.rs:196-211 | the tool calls come in strictly increasing index order, exactly one per index that has a call, each built from its own chunks alone |
| `ChatStream.FoldParts` | crates/cli/src/chat.rs:121-181 | text, thinking and each tool call depend only on their own chunks |
| `ChatStream.SortedExact` | crates/cli/src/chat.rs:196-211 | sorting the collected calls lists each entry of the map once, by increasing index |
| `ChatStream.ReadStream` | crates/cli/src/chat.rs:121-189 | the chunk loop reads up to the first chunk that ends the stream and reports how it ended |
| `ChatTurns.StreamEndExact` | crates/cli/src/chat.rs:121-189 | the chunks that count are those before the first end, interruption or error, which decides how the stream ends |
| `ChatTurns.TurnExact` | crates/cli/src/chat.rs:104-224 | the turn of a streamed reply: its calls by strictly increasing index, each built from its own chunks and one for every index that has one, none if and only if no index has one; text and thinking as streamed, or extracted from the text if and only if no thinking was |
| `ChatTranscript.PairingIsKept` | crates/cli/src/chat.rs:100-432 | pairing of tool uses with results that held before the loop holds after it on every exit, and a normal exit ends with a tool-free assistant message |
| `ChatTranscript.ConversePaired` | crates/cli/src/chat.rs:100-432 | the same for what the loop appends |
| `ChatTurns.TranscriptExact` | crates/cli/src/chat.rs:90-435 | what the loop appends, message by message: for each reply that asks for tools its text, its calls in order with parsed arguments, its thinking, and the outcome of each tool with failures marked; then the last message, or the interruption, error or wait that ends it |
| `ChatTranscript.Conversation.HandleAnyResponse` | crates/cli/src/chat.rs:90-435 | the transcript and the exit for any replies, tool outcomes, interruptions and errors |
| `ChatTranscript.Conversation.Exchange` | crates/cli/src/chat.rs:248-401 | one assistant message with the tool uses in order, then one user message with their results |
| `ChatTranscript.Conversation.ReadReply` | crates/cli/src/chat.rs:103-246 | text, thinking and calls of one reply, with extraction from the text only when no thinking was streamed |
| `ModelRefs.HfIdRoundTripExact` | crates/provider-common/src/lib.rs:74-152 | a Hugging Face id is parsed back if and only if the repo has no colon and the file no trailing space |
| `ModelRefs.FileIdRoundTripExact` | crates/provider-common/src/lib.rs:94-156 | a file id is parsed back if and only if the path is non-empty, trimmed and does not itself start with "file:" |
| `ModelRefs.HfReparseExact` | crates/provider-common/src/lib.rs:74-152 | for a parsed Hugging Face reference, printing the canonical id and parsing again is stable if and only if the repo has no colon |
| `ModelRefs.FileReparseExact` | crates/provider-common/src/lib.rs:74-156 | the same for a parsed local path, if and only if it does not start with "file:" |
| `ModelRefs.HfExactly` | crates/provider-common/src/lib.rs:80-126 | exactly the inputs that give a given Hugging Face file: `hf:` around the first colon, or owner/name and selector around the last |
| `ModelRefs.PathExactly` | crates/provider-common/src/lib.rs:94-140 | exactly the inputs that give a given local path: behind `file:`, a drive path, or without a colon what looks like a path |
| `ModelRefs.RepoExactly` | crates/provider-common/src/lib.rs:128-144 | exactly the inputs that give a bare repo |
| `ModelRefs.RefusedExactly` | crates/provider-common/src/lib.rs:74-144 | which inputs are refused, and for which reason |
| `ModelRefs.GgufRoundTripExact` | crates/provider-common/src/lib.rs:162-293 | the metadata of an inferred file name gives back base name and upper-case quantization if and only if there is a base name and the selector is one quantization segment, not a file name |
| `ModelRefs.InferExact` | crates/provider-common/src/lib.rs:286-293 | the file inferred for owner/name: the selector when it is a file, otherwise name without its -GGUF, a dash, the selector and .gguf |
| `ModelRefs.MetadataExact` | crates/provider-common/src/lib.rs:162-180 | what any file name says: around its last dash the family and the quantization, when the last piece is a q and has a digit behind it, in either case; otherwise the whole stem and "unknown" |
| `ModelRefs.ParseGgufMetadata` | crates/provider-common/src/lib.rs:162-180 | splitting at every dash, testing the last piece and joining the rest gives what one cut at the last dash gives |
| `ModelRefs.SplitAtLastDash` | crates/provider-common/src/lib.rs:167-172 | the last of the pieces and the others joined again are the two sides of the last dash |
| `Strings.JoinSplit` | crates/provider-common/src/lib.rs:167-172 | joining the pieces of a split gives the text back |
| `Strings.SplitAppend` | crates/provider-common/src/lib.rs:167-172 | a last piece without the separator comes off whole |
| `JsonDefaults.ApplyIdempotent` | crates/agent/src/model_heuristics.rs:48-131 | applying the defaults a second time, even with another session id, changes nothing, for any JSON |
| `JsonDefaults.UserValuesWin` | crates/agent/src/model_heuristics.rs:48-89 | every key the user set keeps its value; an Anthropic system prompt keeps its texts in order |
| `JsonDefaults.FieldsExact` | crates/agent/src/model_heuristics.rs:48-131 | for any JSON and any key: a user value stays, a default and nothing else is added (the four sampling fields word for word, an option path by path like the original), and then an Anthropic system prompt is rewritten; what is not an object stays as it is |
| `JsonDefaults.SubstitutionExact` | crates/agent/src/model_heuristics.rs:149-166 | at every path of any JSON value substitution leaves the same kind, keys and length, and every leaf as it was, except that the placeholder becomes the session id |
| `JsonDefaults.ReplacesOne` | crates/agent/src/model_heuristics.rs:149-166 | there is only one value that is path by path like the original with the session id in place of the placeholder |
| `JsonDefaults.InsertedHoldsNoPlaceholder` | crates/agent/src/model_heuristics.rs:79-85 | an inserted value holds the placeholder if and only if its option did and the session id is the placeholder |
| `JsonDefaults.NoPlaceholderLeft` | crates/agent/src/model_heuristics.rs:149-166 | substitution leaves the placeholder in a JSON value if and only if it was there and the session id equals it |
| `JsonDefaults.OptionOrderDoesNotMatter` | crates/agent/src/model_heuristics.rs:79-85 | visiting the options in any order gives the same object |
| `JsonDefaults.SystemMeaningKept` | crates/agent/src/model_heuristics.rs:94-131 | caching keeps every text in its place, marks every object block, leaves no plain string, and does nothing the second time |
| `JsonDefaults.CachingExact` | crates/agent/src/model_heuristics.rs:94-131 | block by block: text becomes a text block with an ephemeral cache mark, an object gains that mark unless it has one and keeps its fields, anything else stays |
| `JsonDefaults.SystemHolds` | crates/agent/src/model_heuristics.rs:94-131 | caching neither brings in nor removes the placeholder |
| `JsonDefaults.Config.ApplyTo` | crates/agent/src/model_heuristics.rs:48-89 | the merged configuration; JSON that is not an object stays as it is |
| `JsonDefaults.Config.FillOptions` | crates/agent/src/model_heuristics.rs:79-85 | the options filled in, in any order |
| `JsonDefaults.Config.ApplySystemCaching` | crates/agent/src/model_heuristics.rs:94-131 | the rewritten system prompt; an unexpected type stays as it is |
| `JsonDefaults.SubstituteSessionId` | crates/agent/src/model_heuristics.rs:149-166 | the recursive replacement, map entries in any order |
| `Dedupe.DedupeModels` | crates/agent/src/model_registry.rs:371-387 | the nested loops compute the entries kept, pass by pass |
| `Dedupe.DedupeMembers` | crates/agent/src/model_registry.rs:371-387 | the entries of the result are exactly the first ones of the best-ranked source of their id |
| `Dedupe.KeptExact` | crates/agent/src/model_registry.rs:371-387 | an entry is kept if and only if its source is one of custom, cached, catalog, preset, no entry with its id has a source named before it, and none with its id and source stands before it |
| `Dedupe.DedupeIds` | crates/agent/src/model_registry.rs:371-387 | the ids of the result are exactly the input ids with a ranked source |
| `Dedupe.DedupeOrder` | crates/agent/src/model_registry.rs:371-387 | the result has distinct ids, is ordered by rank, and entries of one source keep their input order |
| `Dedupe.DedupeIdempotent` | crates/agent/src/model_registry.rs:371-387 | a second pass changes nothing |

## Left out

- Inventory runs that are not steady: of these only the update version, when a call starts a cycle, the failure of single flight and what one call or region does are stated; waiters, freshness, spacing and the refresh rate are not, since a second refresh may signal, store and lower the flags of the first.
- The mesh fetch, provider enumeration, panics, cancelled refresh tasks; builds of the inventory without remote support; `get_snapshot` and staleness times.
- Tokio watch and broadcast internals: a channel is its value, its live sender and receivers; a broadcast subscriber that lags more than 1024 events behind loses some.
- Ed25519 signatures, text forms of UUIDs and PeerIds, and key validation inside a PeerId: a UUID text is hyphenated, otherwise spelled, or invalid; a PeerId is an identity key, a SHA-256 digest, or invalid.
- `mesh_id_for`, the join handler and membership verification.
- Torn writes and the JSON format of the invite file: a failed save leaves the previous file, a successful one replaces it whole.
- Panics on overflow in debug builds, where the model wraps around as release builds do.
- Swift-side descriptors, and which peers a collection returns in the end.
- The two nested maps of the pipe registry are one map on agent and name.
- Journal rows written by forking a session and rows deleted by undo; the global stream; sequence numbers beyond i64.
- Publish order between concurrent emitters: live events of one session may arrive out of sequence order.
- Deadlock freedom of the profile manager: `reload_profiles` and `runtime_for_profile` take its two locks in opposite orders.
- ProfileTheorems.MeshReachesAll: no rival setter between the write and the visit, and none afterwards, because a rival's mesh would replace it.
- Session bindings, the active profile and the profile watcher.
- `extract_thinking`, argument parsing, tool policies and prompts, spinners and printing in the chat: each is an input; a response loop dropped in the middle of its tools is not modelled.
- `Path::exists` is an uninterpreted predicate; downloading and listing cached models.
- JSON is a value: in-place mutation and sharing inside one tree are not modelled; numbers are reals, so f32 rounding and NaN are not; the tables that compute the defaults of a model.
- Caches of the model registry and remote enumeration.
- Unicode strings are sequences of characters; only mesh names and payload fields are bytes.
