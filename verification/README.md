# Sesame server: a verified model

A Dafny model of the parts of the Sesame server whose correctness cannot be read off a single function, with proofs of
what they guarantee over every input, every run or every interleaving. `dafny verify dfyconfig.toml` checks all of it.

| part | modules | subject |
|---|---|---|
| canonical bytes | `Canonical`, `Records` | the length-prefixed encoding under every signature and digest |
| device list | `DeviceLog`, `LogAcceptance`, `DeviceListObject` | the signed membership log, its replay and its historical lookups |
| headers, checkpoints | `Headers`, `Checkpoints`, `HeaderAcceptance` | the snapshot header chain and signed positions in it |
| sync service | `Tables`, `Operations`, `Retention`, `Lookups`, `Service` | the tables, the transactions, eviction, the running service object |
| what the service keeps | `VaultInvariant`, `VaultSteps`, `UploadStep`, `ServiceRuns`, `ServicePromises`, `Provenance`, `CheckpointHistory` | invariants over every run and what clients get from them |
| which requests are accepted | `RequestSignatures`, `ListRequests`, `UploadAcceptance`, `PairingRequests`, `DeviceRequests` | the exact condition of every operation over the stored tables, and the state it leaves |
| replay protection | `ReplaySafety`, `SpentNonces`, `CrossedWrites`, `SecondUses` | nonces, clock skew, retention and the second write of a spent nonce |
| restore | `Restore`, `RestoreReruns`, `RestoreDirectory` | the journalled swap of a data directory and its recovery |
| audit log | `AuditChain` | the hash chain and its signed checkpoints |
| releases | `Texts`, `Lexicographic`, `SemVer`, `VersionOrder`, `Releases` | version texts, their order, the release offered |
| limiter | `Limiter` | sliding windows over a bounded table of keys |
| proxies | `AddressBits`, `TrustedProxies`, `LocalRanges` | address ranges checked by their endpoints |
| account capabilities | `AccountLinks`, `CapabilitySafety`, `CapabilityFlows`, `CapabilityIsolation` | link codes and email-change tokens under row locks |

How it is put together:

- Transactions of the sync service are functions from state to state in `Operations`; `Service` holds the methods with the
  loops and the in-place updates, each proved equal to its function. Lemmas speak about the functions.
- SHA-256, Ed25519, base64url and the database's text rendering are parameters. Nothing is assumed of them. Where a
  property needs the hash to be good, the statement is "or these very inputs exhibit a collision".
- The five clock readings of a request (owner lookup, skew check, nonce stamp, nonce record, operation) are separate
  parameters, so a request may stall between any two of them.
- The service object carries the events it has been through, so every theorem about runs is about its tables.
- Integer widths are explicit: 64-bit counters with their checked successor, Go's `int` to `uint64` conversion, the
  saturating conversion of version numbers, octets and bits of addresses.

Four promises turned out to hold only under a condition; each has a failing input and the exact condition:

- Recovery after a crash is re-runnable from the first and the last phase of a restore, but not from the middle one: a
  recovery cut off after it has put an old item back can delete that item when run again
  (`RestoreReruns.SecondRecoveryDeletes`); `RestoreReruns.InstallingRecoversIff` says exactly when it does not.
- A signed request is accepted at most once as long as its second use stalls at most 59 s between its skew check and
  recording its nonce (`ReplaySafety.AtMostOnce`). With a longer stall there are runs that accept it twice
  (`SecondUses.SlowUseIsAccepted`), so the bound is exact (`SecondUses.AcceptedTwiceIff`).
- A request that failed after spending its nonce stays refused once the nonce's second write is in, unless a shorter
  record of the same nonce was written first (`SpentNonces.FailedRequestStaysSpent`);
  `CrossedWrites.CrossedWritesReopen` is a run in which that lets the failed request through, and
  `SpentNonces.RefusedForGoodIff` says exactly which record refuses a request for good.
- Version comparison follows section 11 of Semantic Versioning 2.0.0 for a version against all others exactly when each of
  its numeric pre-release identifiers is below the largest 64-bit number (`VersionOrder.OrderIsExactIff`,
  `VersionOrder.TieAtTheLimit`).

## Model

| member | source | states |
|---|---|---|
| Canonical.WriteUint64 | internal/syncproto/constants.go:18-23 | The downward shifting loop writes the eight-byte big-endian form, from which the value can be read back |
| Canonical.BigEndianRoundTrip | internal/syncproto/constants.go:18-23 | Reading a big-endian field of sufficient width gives the number back |
| Canonical.Builder.constructor | internal/syncproto/canonical.go:35-37 | A new builder holds the encoding of the label alone |
| Canonical.Builder.Add | internal/syncproto/canonical.go:39-45 | The output is always the encoding of the sequence of parts added so far |
| Canonical.FrameIsPrefixFree | internal/syncproto/canonical.go:39-45 | Two length-prefixed parts that start equal byte strings are equal, and so are the rests |
| Canonical.FramesInjective | internal/syncproto/canonical.go:35-57 | Equal encodings come from equal sequences of parts, whatever bytes these hold |
| Canonical.NumberInjective | internal/syncproto/canonical.go:51-53 | Equal decimal texts come from equal numbers |
| Records.TagNamesKind | internal/syncproto/canonical.go:11-20 | The label of a payload identifies its kind of record |
| Records.PayloadsInjective | internal/syncproto/devicelist.go:39-60 | Equal payload bytes come only from records of one kind that agree on every covered field, over all ten kinds |
| Records.PayloadCollisionIsHashCollision | internal/syncproto/canonical.go:59-62 | Two different records share a digest if and only if the digests of their bytes collide; with a text encoding that decodes back, if and only if the SHA-256 sums of two different byte strings are equal |
| Records.BuildPayload | internal/syncproto/header.go:31-52 | Adding label and fields one after the other builds the payload of every kind of record |
| DeviceLog.ReplayWellFormed | internal/syncproto/devicelist.go:231-269 | A verified list has one digest and one epoch per entry, and its entries are numbered from one without gaps |
| DeviceLog.CurrentIsHolder | internal/syncproto/devicelist.go:194-202 | The current members are what reading the log line by line says, with no index or tombstone involved |
| DeviceLog.MemberAtIsPrefixReplay | internal/syncproto/devicelist.go:180-192 | A lookup at index i equals the current membership after replaying the first i entries, keys in force at i included, and what the first i log lines say |
| DeviceLog.ExtendKeepsHistory | internal/syncproto/devicelist.go:299-326 | No extension changes a membership lookup at an index the list already had |
| DeviceLog.ExtendKeepsColumns | internal/syncproto/devicelist.go:161-173 | No extension changes a digest or an epoch at an index the list already had |
| DeviceLog.AddedIndexNames | internal/syncproto/devicelist.go:342-350 | A member's join index is the position of the entry that created or added it |
| DeviceLog.MembersHaveJoined | internal/syncproto/devicelist.go:271-297 | The members, removed ones included, are exactly the subjects of create and add entries |
| DeviceLog.EpochCountsRekeys | internal/syncproto/devicelist.go:299-335 | The epoch is one plus the number of removals and rotations in the log |
| DeviceLog.EpochAtIsPrefixReplay | internal/syncproto/devicelist.go:161-173 | The epoch and digest at an index are those of the list cut off there |
| DeviceLog.EveryEntryIsAuthorised | internal/syncproto/devicelist.go:231-269 | Each later entry is signed with the key of a device that was a member just before it, and names the digest of the entry before |
| DeviceLog.AtMostTenDevices | internal/syncproto/devicelist.go:284-297 | A verified list never has more than ten current members |
| LogAcceptance.ValidIsWellShaped | internal/syncproto/devicelist.go:62-126 | An entry is valid exactly when it has the shape its kind prescribes: which keys of which lengths, a label or none, its own signer, a floor or none |
| LogAcceptance.AppendIff | internal/syncproto/devicelist.go:231-335 | A verified list takes one more entry if and only if the log lines before it say so: right shape, next index, digest of the last entry, signature under the key the log gives its signer, and what its kind needs of the log; otherwise it is invalid or broken by the shape |
| LogAcceptance.VerifiesIff | internal/syncproto/devicelist.go:221-229 | A list verifies if and only if every entry continues the ones before it in that sense |
| LogAcceptance.FounderSigned | internal/syncproto/devicelist.go:271-282 | Every verified list begins with a creation by its own subject, signed with the key it enters |
| DeviceLog.DigestPinsHistory | internal/syncproto/devicelist.go:231-269 | Verified lists with one digest at an index hold identical entries up to it, or exhibit a collision |
| DeviceLog.DigestPinsMembership | internal/syncproto/devicelist.go:161-192 | Such lists agree on every member, key and epoch up to that index, and on the vault |
| DeviceListObject.DeviceList.Extend | internal/syncproto/devicelist.go:231-269 | Extending in place has exactly the effect of one replay step, and a refused entry leaves the list untouched |
| DeviceListObject.DeviceList.ExtendAdd | internal/syncproto/devicelist.go:284-297 | An added device enters, or the list stays as it was with the same fault |
| DeviceListObject.DeviceList.ExtendRemove | internal/syncproto/devicelist.go:299-312 | A removed device is marked as of the entry, or the list stays as it was with the same fault |
| DeviceListObject.DeviceList.ExtendKey | internal/syncproto/devicelist.go:314-326 | A key replacement records the displaced key, or the list stays as it was with the same fault |
| DeviceListObject.DeviceList.MemberAt | internal/syncproto/devicelist.go:180-192 | The loop over recorded replacements finds the member with the package key in force at the index |
| DeviceListObject.VerifyDeviceList | internal/syncproto/devicelist.go:221-229 | The loop yields the replay of the entries, or the fault of the first bad one |
| Headers.VerifyChain | internal/syncproto/header.go:147-156 | The loop that carries the previous header along decides the chain |
| Headers.ChainSplits | internal/syncproto/header.go:147-156 | Verifying in pages accepts and refuses exactly as verifying in one go, with the same fault |
| Headers.ChainSuffix | internal/syncproto/header.go:97-156 | Dropping the oldest headers leaves a chain that verifies by itself |
| Headers.ChainIsMonotone | internal/syncproto/header.go:133-145 | Along a chain revisions count up by one and neither list index nor epoch goes back |
| Headers.HeaderIsStable | internal/syncproto/header.go:97-131 | A later list entry changes neither acceptance nor fault of a header within the list |
| Headers.ChainIsStable | internal/syncproto/header.go:147-156 | A chain that verifies keeps verifying however the list grows |
| Headers.HeaderPinsList | internal/syncproto/header.go:97-131 | A header that verifies against two lists pins identical entries up to its index in both, or a collision shows |
| Headers.HeaderDigestPinsHistory | internal/syncproto/header.go:133-156 | Verified histories whose last headers share a digest are the same as far back as both reach, or a collision shows |
| Headers.HeaderSignerWasMember | internal/syncproto/header.go:97-131 | The signer of a verified header was a member, by the log itself, at the index named, and the epoch is the log's there |
| Checkpoints.CheckpointPinsList | internal/syncproto/checkpoint.go:79-97 | A checkpoint two lists both agree with pins identical entries up to its index in both, or a collision shows |
| Checkpoints.CheckpointIsStable | internal/syncproto/checkpoint.go:79-97 | A list's verdict on a checkpoint it can judge never changes as the list grows |
| HeaderAcceptance.HeaderIff | internal/syncproto/header.go:54-145 | A header verifies if and only if it has the right shape, names digest and epoch of a point of the log, was signed by a device that was a member there, and follows the header before it |
| HeaderAcceptance.ChainIff | internal/syncproto/header.go:147-156 | A chain verifies if and only if every header does and follows the one before it |
| HeaderAcceptance.MatchesIsDescribed | internal/syncproto/header.go:85-95 | A body matches exactly the headers that carry its length and its SHA-256 sum |
| HeaderAcceptance.CheckpointIff | internal/syncproto/checkpoint.go:39-97 | A checkpoint agrees with a list if and only if it has the right shape, names a point of the log, and was signed by a device that was a member there |
| Retention.MakeRoomLoop | internal/syncsvc/service.go:789-811 | The loop with the running byte count frees exactly what evicting oldest first frees, and fails exactly when that fails |
| Retention.OldestCiphertext | internal/syncsvc/memstore/memstore.go:359-372 | The scan finds the least stored revision, and nothing only in an empty table |
| Retention.CiphertextBytes | internal/syncsvc/memstore/memstore.go:351-357 | The scan totals the sizes of all stored bodies |
| Retention.EvictKeepsSuffix | internal/syncsvc/service.go:789-811 | What is kept is a suffix of the run that includes the current revision and fits, and one more revision would not have fitted |
| Retention.MakeRoomSucceedsIff | internal/syncsvc/service.go:789-811 | Room is refused if and only if the current body and the new one together exceed the budget |
| Retention.TwoBodiesAlwaysFit | internal/syncsvc/service.go:789-811 | With a budget of two largest bodies no upload of a permitted size is refused for space |
| VaultSteps.PairingStepKeeps | internal/syncsvc/service.go:321-382 | Answering, confirming and cancelling a pairing keep the vault invariant |
| VaultSteps.ApproveKeeps | internal/syncsvc/service.go:389-451 | Approving keeps the vault invariant: log and table in step, one role per token, the new device served |
| VaultSteps.ActivateKeeps | internal/syncsvc/service.go:473-493 | Activating keeps the vault invariant |
| VaultSteps.EverySurvivorServed | internal/syncsvc/service.go:539-566 | As many packages as survivors, none repeated, none unexpected: every survivor gets one that verifies, for the new epoch |
| VaultSteps.RekeyKeeps | internal/syncsvc/service.go:517-607 | Removing a device and rotating the key keep the vault invariant; nobody who stays is locked out |
| VaultSteps.UpgradeKeyKeeps | internal/syncsvc/service.go:609-645 | Replacing a package key keeps the vault invariant |
| VaultSteps.PutCheckpointKeeps | internal/syncsvc/service.go:739-771 | Storing a checkpoint keeps the vault invariant |
| UploadStep.UploadKeeps | internal/syncsvc/service.go:658-737 | An accepted upload extends the verified history, leaves exactly the retained headers, and keeps the bodies a matching run |
| UploadStep.UploadQuota | internal/syncsvc/service.go:698-703 | Space is refused exactly when current and new body exceed the budget, and never to a valid header within the default budget |
| UploadAcceptance.AcceptedUploadIff | internal/syncsvc/service.go:658-737 | In every reachable state an upload by a caller with an activated device's token is accepted if and only if the request is signed with an unused nonce, the header continues the stored tables, the device signed it, the body matches and there is room beside the current one; it leaves the new header and body, the last headers, and the longest run of older bodies that fits, or none after the epoch rose |
| ListRequests.AcceptedRemovalIff | internal/syncsvc/service.go:509-607 | In every reachable state a removal by a caller with an activated device's token is accepted if and only if the request is signed with an unused nonce, the entry is the next one, in the next epoch, signed with the row's key, its subject is a member by the log, and there is exactly one signed package of the new epoch for each other member; the whole new state of the vault |
| ListRequests.AcceptedRotationIff | internal/syncsvc/service.go:513-607 | The same for a rotation, which has no subject |
| ListRequests.AcceptedApprovalIff | internal/syncsvc/service.go:389-451 | An approval is accepted if and only if the request is signed with an unused nonce, the entry is the next one in the same epoch, a confirmed pairing that has not expired has its keys, the vault has fewer than ten members, and the package is for the new device; the whole new state of the vault |
| ListRequests.AcceptedUpgradeIff | internal/syncsvc/service.go:609-645 | A key upgrade is accepted if and only if the request is signed with an unused nonce and a device with a key of the old kind signed the next entry in the same epoch; the whole new state of the vault |
| ListRequests.DistributeIff | internal/syncsvc/service.go:551-573 | Striking recipients off succeeds exactly when each package serves an expected recipient and none comes twice |
| PairingRequests.AcceptedCreationIff | internal/syncsvc/service.go:168-205 | A vault is created if and only if the owner has none, the entry founds a list, the request is signed with the key it enters and has an unused nonce, and the id is free; the whole new vault |
| PairingRequests.AcceptedOfferIff | internal/syncsvc/service.go:214-278 | An offer is accepted if and only if its parts have the right shape, it is signed with the offered key and has an unused nonce, nobody's live device has the token, the id was never a device's, and fewer than three pairings of others wait; it replaces the caller's own |
| PairingRequests.AcceptedConfirmationIff | internal/syncsvc/service.go:346-387 | The offering device, known by its token and signing with the offered key, confirms exactly an answered pairing, and cancels its own at any stage |
| PairingRequests.OffersOnlyConfirm | internal/syncsvc/service.go:127-142 | It gets nothing else done |
| PairingRequests.MaintenanceIsExact | internal/syncsvc/service.go:932-936 | Maintenance drops exactly the pairings and nonces that have expired |
| DeviceRequests.AcceptedAnswerIff | internal/syncsvc/service.go:321-344 | An answer is accepted if and only if an activated device sends it, signed with an unused nonce, for an offered pairing that has not expired |
| DeviceRequests.AcceptedCancelIff | internal/syncsvc/service.go:368-387 | Any approved device drops any pairing with a signed request and an unused nonce |
| DeviceRequests.AcceptedActivationIff | internal/syncsvc/service.go:473-493 | A device is activated if and only if its signed request names the digest of the package of the current epoch that waits for it |
| DeviceRequests.AcceptedCheckpointIff | internal/syncsvc/service.go:739-771 | A checkpoint is stored if and only if it is the activated device's own, signed with its key, at most five minutes off, and goes forward from the one stored |
| DeviceRequests.AcceptedResetIff | internal/syncsvc/service.go:916-930 | An approved device resets the vault if and only if its request is signed with an unused nonce and names the current epoch; the vault goes and nothing else changes |
| DeviceRequests.OnlyDevicesAct | internal/syncsvc/service.go:127-142 | Over every run, these operations are accepted only from callers with the token of an approved device, and all but resets and activations only of an activated one |
| DeviceRequests.SnapshotIff | internal/syncsvc/service.go:854-880 | In every reachable state the snapshot is read exactly by approved devices, once there is one |
| CheckpointHistory.CheckpointNeverGoesBack | internal/syncsvc/service.go:758-761 | Over every run, while the vault stands, a device's stored checkpoint never goes back, and a removed device has none again |
| ServiceRuns.CreateKeeps | internal/syncsvc/service.go:168-205 | Creating a vault keeps every vault sound and vault ids distinct |
| ServiceRuns.BeginKeeps | internal/syncsvc/service.go:214-278 | Offering a pairing, with the purge in it, keeps every vault sound |
| ServiceRuns.PurgeKeeps | internal/syncsvc/service.go:932-936 | Maintenance keeps every vault sound |
| ServiceRuns.SubmitKeeps | internal/syncsvc/nonce_keeper.go:39-58 | A signed request of any kind, accepted or rolled back, keeps every vault sound |
| ServiceRuns.EveryReachableStateOk | internal/syncsvc/service.go:168-811 | The whole invariant holds after any sequence of requests, second writes, maintenance and resets, with any clocks and callers |
| ServicePromises.DeviceTableIsTheLog | internal/syncsvc/service.go:389-451 | In every reachable state the rows are the devices the signed log ever created or added, and a row is approved if and only if the log makes the device a member, with the same keys and join index; head and epoch are the log's |
| ServicePromises.OneLiveRole | internal/syncsvc/service.go:214-278 | In every reachable state a token has at most one live device or pairing, no id is both, and at most three pairings wait |
| ServicePromises.RetainedHeadersVerify | internal/syncsvc/service.go:675-732 | In every reachable state the stored headers are exactly the last retained revisions, and a client replaying them against the list accepts them |
| ServicePromises.TokenFindsDevice | internal/syncsvc/service.go:60-95 | Whoever presents the token of an approved row is taken for that device |
| ServicePromises.DeviceRequestIff | internal/syncsvc/service.go:97-125 | A request on the vault by an approved device, known by its token, is accepted if and only if it is signed with the row's key over its own six fields at most five minutes off, its nonce is unused, and the operation accepts that device |
| RequestSignatures.PassesIff | internal/syncproto/request.go:33-56 | An authorised request passes if and only if its own verb, target, body sum, bearer sum, timestamp and nonce were signed together, at most five minutes off and with a sixteen-byte nonce that is unused |
| RequestSignatures.AcceptedWasSigned | internal/syncproto/request.go:20-49 | Over every run, if the key only ever signed the payloads of a set, an accepted request's own six fields are in it |
| RequestSignatures.AcceptedBytesWereSigned | internal/syncproto/request.go:20-31 | The same over the signed bytes: no other record the key signed, of whatever kind, passes for the request |
| ServicePromises.SnapshotIsServed | internal/syncsvc/service.go:854-880 | In every reachable state a caller with an approved row's token gets the latest snapshot once there is one; header and body verify |
| ServicePromises.StoredBodies | internal/syncsvc/service.go:698-727 | In every reachable state the bodies are an unbroken run up to the current revision, within budget; there is a full chain of headers that verifies and extends the stored ones, and each body is the one its header there signed, all of the latest epoch |
| ServicePromises.PackageWaits | internal/syncsvc/service.go:453-467 | In every reachable state an approved device not yet activated has a package for the current epoch, signed by a device of the vault |
| ServicePromises.ActivationIsOpen | internal/syncsvc/service.go:473-493 | A caller with that device's token is activated by a request with the package's digest if and only if it is signed with an unused nonce, and only its row changes |
| Provenance.EveryRowIsTraced | internal/syncsvc/service.go:214-451 | In every reachable state each device was created with the present vault, or was offered, answered, confirmed and approved in this order with one set of keys, answer and approval coming from devices that were activated members of the vault at that point, and the present vault stood from the first of these events on; each pairing has its part of that trace |
| ReplaySafety.RecordCatches | internal/syncproto/canonical.go:27-28 | The record of a first use is in force when a second use of the request records, if the second stalls at most 59 seconds, less what the clock read before 1970 |
| ReplaySafety.RetentionIsExact | internal/syncproto/request.go:51-56 | The clock arithmetic of it: every second use is caught if and only if its stall stays within 59 seconds, less what the clock may read before 1970; the first use may take as long as it likes |
| ReplaySafety.AcceptedNonces | internal/syncsvc/service.go:97-114 | An accepted request was within the skew, found its nonce unused or expired, and recorded it; only an offer may purge as well |
| ReplaySafety.RefusedNonces | internal/syncsvc/nonce_keeper.go:23-58 | A refused request leaves the store unchanged, and what it spent is its own nonce with its own expiry |
| ReplaySafety.AtMostOnce | internal/syncsvc/service.go:97-114 | Over every run, in whatever order overlapping requests are serialised and however long they take, two uses of one signed request in one scope are never both accepted, as long as nothing in between that could take the first record away reads a clock past the end of that record |
| ReplaySafety.AtMostOnceInOrder | internal/syncsvc/memstore/memstore.go:79-97 | On a store that runs one transaction at a time, on a clock that does not go back, that needs nothing of the events in between |
| SecondUses.SecondUseIff | internal/syncsvc/memstore/memstore.go:455-462 | A creation used again after a reset and a purge is accepted the second time if and only if the record ended by the time the second use recorded, or by the time the purge read |
| SecondUses.SlowUseIsAccepted | internal/syncproto/request.go:51-56 | Every signed creation is accepted twice by a run whose second use takes longer than 59 seconds |
| SecondUses.AcceptedTwiceIff | internal/syncproto/canonical.go:27-28 | Over all environments and all runs on one clock, a request can be accepted twice if and only if its second use may take longer than 59 seconds |
| SpentNonces.FailedRequestStaysSpent | internal/syncsvc/nonce_keeper.go:39-58 | Once the second write of a failed request is in, the request is refused for good in every run, overlapping or not, unless a shorter record of the same nonce was written in between, or something that could take the record away read a clock past its end |
| SpentNonces.RetriesStaySpent | internal/syncsvc/nonce_keeper.go:39-58 | However requests overlap and second writes cross, a request whose nonce was only used to retry it is refused for good from the first second write on |
| SpentNonces.RefusedForGoodIff | internal/syncsvc/memstore/memstore.go:455-462 | The record of a nonce refuses a signed request, against every continuation that leaves it in place, overlapping or not, and every prompt later use, if and only if it reaches the request's deadline; otherwise the use at the last moment passes |
| CrossedWrites.CrossedWritesReopen | internal/syncsvc/nonce_keeper.go:39-58 | The failing case: two failures four seconds apart with one nonce and two timestamps, whose second writes cross; the later request is accepted 656 seconds on, every request being prompt |
| CrossedWrites.ReopeningHappens | internal/syncsvc/nonce_keeper.go:39-58 | Such a run exists |
| Lookups.DeviceByTokenScan | internal/syncsvc/memstore/memstore.go:200-215 | The scan finds a live row before a revoked one, then the latest added, whatever the iteration order |
| Lookups.PairingByTokenScan | internal/syncsvc/memstore/memstore.go:430-437 | The scan finds the pairing of a token, if there is one |
| Lookups.ActorForScan | internal/syncsvc/service.go:60-95 | The caller is the live device or unexpired pairing of the token, or is refused with the right error |
| Lookups.PageIsSlice | internal/syncsvc/memstore/memstore.go:230-238 | A page after an index is the slice that follows it |
| Lookups.LoadList | internal/syncsvc/service.go:144-162 | Paging through the stored list and verifying on the way yields the replay of all of it |
| Lookups.DistributeLoop | internal/syncsvc/service.go:552-566 | Striking recipients off the expected set one package at a time computes the package table or the first fault |
| Lookups.LatestHeaderScan | internal/syncsvc/memstore/memstore.go:310-322 | The scan finds the header with the greatest revision |
| Service.ApproveBody | internal/syncsvc/service.go:389-451 | The statements of an approval, with the paged load of the list, compute the transaction and keep a sound vault sound |
| Service.RekeyBody | internal/syncsvc/service.go:517-607 | The statements of a removal or rotation compute the transaction the lemmas are about |
| Service.RekeyRows | internal/syncsvc/service.go:575-591 | Rewriting the rows one at a time gives the whole rewritten device table |
| Service.UpgradeKeyBody | internal/syncsvc/service.go:609-645 | The statements of a key upgrade, with the paged load of the list, compute the transaction and keep a sound vault sound |
| Service.UploadBody | internal/syncsvc/service.go:658-737 | The statements of an upload, eviction loop included, compute the transaction the lemmas are about |
| Service.BeginBody | internal/syncsvc/service.go:214-278 | The statements of an offer compute the transaction the lemmas are about |
| Service.NewService | internal/syncsvc/service.go:28-42 | A service is made exactly when the receipt key has the size of a private key, and it is empty |
| Service.SyncService.constructor | internal/syncsvc/service.go:35-41 | A new service has seen no event and is empty, with defaults where limits are missing |
| Service.SyncService.Update | internal/syncsvc/nonce_keeper.go:39-58 | The tables are those the run so far leads to, extended by the request and, after a failure that spent its nonce, by the second write |
| Service.SyncService.Maintain | internal/syncsvc/service.go:932-936 | Expired pairings and nonces go, as the next event of the run |
| Service.SyncService.AdminReset | internal/syncsvc/service.go:992-1000 | The owner's vault goes entirely and nothing else changes, as the next event of the run; refused exactly when there is none |
| Service.SyncService.Snapshot | internal/syncsvc/service.go:854-880 | What is returned matches its header, and a caller with an approved row's token is never refused once there is a revision |
| Restore.AllOrNothing | internal/selfhost/ops/restore.go:125-203 | A crash after any step, then a completed recovery: exactly the old items before the commit, exactly the new ones with the old intact aside from it on, never a mix |
| Restore.NoStaleSideFiles | internal/selfhost/ops/restore.go:99-101 | After a committed restore no side file of the old database is left beside the new one |
| Restore.MovingStates | internal/selfhost/ops/restore.go:145-160 | The disk after each step of the first phase |
| Restore.InstallingStates | internal/selfhost/ops/restore.go:164-178 | The disk after each step of the second phase |
| Restore.CommittedStates | internal/selfhost/ops/restore.go:182-193 | The disk after the commit and each step that follows it |
| RestoreReruns.MovingPhaseRerunnable | internal/selfhost/ops/restore.go:309-370 | From the first phase recovery may be cut off at any steps any number of times; the one that completes restores the old items |
| RestoreReruns.CrashWhileMoving | internal/selfhost/ops/restore.go:145-163 | So a swap that crashed at any step of the first phase ends with exactly the old items, however often its recovery is cut off |
| RestoreReruns.CommittedPhaseRerunnable | internal/selfhost/ops/restore.go:363-370 | After the commit recovery may be cut off at will; the new items stay in place and the old aside |
| RestoreReruns.CrashAfterCommit | internal/selfhost/ops/restore.go:182-192 | So a swap that crashed at any step from the commit on ends with exactly the new items, and the old ones aside |
| RestoreReruns.InstallingRecoversIff | internal/selfhost/ops/restore.go:309-361 | From the middle phase recovery restores the old items if and only if none is already back over a staged version that is gone |
| RestoreReruns.InstallingCrash | internal/selfhost/ops/restore.go:164-178 | A swap that crashed in the middle phase meets that condition |
| RestoreReruns.InstallingInterrupt | internal/selfhost/ops/restore.go:309-361 | A recovery cut off at any step loses no old item itself; whether the next one does is decided by that condition |
| RestoreReruns.SecondRecoveryDeletes | internal/selfhost/ops/restore.go:309-361 | The failing case: for every old and new database there is a crash and a cut-off recovery after which the next recovery deletes the old database |
| RestoreDirectory.DataDirectory.RunSwap | internal/selfhost/ops/restore.go:125-203 | The loops of the swap, crashing after any number of steps, leave the disk the plan says |
| RestoreDirectory.DataDirectory.RunRecovery | internal/selfhost/ops/restore.go:309-370 | The loops of the recovery, by phase and cut off anywhere, leave the disk the plan says |
| RestoreDirectory.DataDirectory.RestoreOnce | internal/selfhost/ops/restore.go:292-307 | A swap with a crash anywhere and the recovery at the next start: all old, or all new with the old aside |
| AuditChain.VerifyChain | internal/admin/audit_chain.go:63-107 | The loop verifies exactly the chained logs and names their head, or names the first row that breaks, with the reason |
| AuditChain.CheckpointOf | internal/admin/audit_chain.go:127-181 | A checkpoint is taken exactly when the keys are usable and the log has a hashed head that no earlier checkpoint covers; it names that row, its hash, the trimmed key id and the time cut to microseconds |
| AuditChain.TakenHolds | internal/admin/audit_chain.go:154-159 | A checkpoint just taken verifies, under the public key of its signing key, in every log that begins with the one it was taken from |
| AuditChain.TakenVerifies | internal/admin/audit_chain.go:127-238 | Appended to checkpoints that held, it leaves them all holding, and it is the one a verification reports as the latest |
| AuditChain.CheckpointTakenOnce | internal/admin/audit_chain.go:146-153 | Once a checkpoint is taken there is nothing to take until the log grows |
| AuditChain.VerifyCheckpoints | internal/admin/audit_chain.go:183-238 | Refuses a key of the wrong size; otherwise succeeds exactly when every checkpoint of the trimmed key id is signed and matches its row, or stops at the first that fails; reports the good one that covers the most |
| AuditChain.SameHashSameLog | internal/admin/audit_chain.go:63-107 | Equal hashes at two positions of two verified logs: equal positions and equal rows up to them, unless the logs exhibit a collision or a preimage of the genesis hash |
| AuditChain.CheckpointPinsLog | internal/admin/audit_chain.go:127-238 | Any later log that passes both verifications begins with exactly the log the checkpoint was taken from, under the same proviso |
| SemVer.ParseVersion | internal/releases/semver.go:25-67 | The parser accepts exactly the texts of well-formed versions, and yields the version whose text it was given |
| SemVer.PrintOfParse | internal/releases/semver.go:25-67 | Printing a parsed version gives back the input |
| SemVer.ParseOfPrint | internal/releases/semver.go:25-67 | Parsing the text of a well-formed version gives the version back |
| SemVer.ParseUint | internal/releases/semver.go:40-62 | The conversion of digits to 64 bits: the value, or failure with the largest number on overflow |
| SemVer.CheckIdentifierBytes | internal/releases/semver.go:122-129 | The scan accepts exactly the texts of letters, digits and hyphens |
| SemVer.CheckDigits | internal/releases/semver.go:131-138 | The scan accepts exactly the texts of digits |
| VersionOrder.CompareVersions | internal/releases/semver.go:74-120 | The scans over core numbers and identifiers decide the lexicographic comparison |
| VersionOrder.CompareIsPreorder | internal/releases/semver.go:74-120 | Swapping versions swaps the sign and the order is transitive, on all versions |
| VersionOrder.FittingVersionsAgree | internal/releases/semver.go:74-120 | When all numbers fit in 64 bits the comparison is the order of section 11 of Semantic Versioning 2.0.0, zero only for equal versions |
| VersionOrder.OrderIsExactIff | internal/releases/semver.go:55-62 | A version is ordered correctly against every other, and equal to no other, if and only if its numeric identifiers are below the largest 64-bit number |
| VersionOrder.SaturatedTie | internal/releases/semver.go:55-62 | For every version with a larger one there is another, later by section 11, that compares equal to it |
| VersionOrder.TieAtTheLimit | internal/releases/semver.go:55-62 | The failing case: identifiers 2^64-1 and 2^64 compare equal |
| Releases.HighestEligible | internal/httpapi/desktop_updates.go:126-140 | Nothing is chosen exactly when nothing is eligible; the choice is newer than current, in rollout, maximal, and the first such |
| Releases.HighestIsNewest | internal/httpapi/desktop_updates.go:126-140 | With a bounded version the choice comes, by section 11, after the current version and after or level with every eligible one |
| Releases.RolloutOnlyGrows | internal/httpapi/desktop_updates.go:167-177 | Widening a rollout keeps every account it had |
| Releases.CohortIsRemainder | internal/httpapi/desktop_updates.go:167-177 | The cohort is the remainder by 100 of the first two hash bytes as a big-endian number |
| Releases.RolloutInputInjective | internal/httpapi/desktop_updates.go:167-177 | Different pairs of release and account are hashed from different bytes |
| Releases.RolloutShare | internal/httpapi/desktop_updates.go:167-177 | Of the 65536 values of the two bytes a rollout of p percent selects p percent, and less than 0.04 points more |
| Limiter.AuthLimiter.constructor | internal/httpapi/request_security.go:30-34 | A new limiter has seen no call |
| Limiter.AuthLimiter.Attempt | internal/httpapi/request_security.go:148-180 | Map and recency list follow the calls; with ordered clocks and a fixed budget the answer is the sliding-window reference |
| Limiter.EveryTableIsValid | internal/httpapi/request_security.go:153-167 | After any calls map and list are in bijection with at most 4096 keys |
| Limiter.RecencyIsUseOrder | internal/httpapi/request_security.go:162-167 | The list is the keys in the order of their last call, latest first |
| Limiter.LeastRecentlyUsedGoes | internal/httpapi/request_security.go:154-161 | A key is dropped only for a new key at a full table, and every other key was used after it |
| Limiter.SlidingWindow | internal/httpapi/request_security.go:168-180 | Any limit plus one successive allowed attempts of a key not dropped in between span at least the window |
| Limiter.AllowedIff | internal/httpapi/request_security.go:168-180 | A call is allowed if and only if fewer than the limit of the key's allowed attempts lie within the window |
| TrustedProxies.LastAddress | internal/selfhost/config/proxies.go:54-70 | The bit loop sets exactly the free bits |
| TrustedProxies.EndpointsBound | internal/selfhost/config/proxies.go:54-70 | First and last address belong to the range and bound every address of it, octet by octet |
| TrustedProxies.EveryAddressIsLocal | internal/selfhost/config/proxies.go:21-27 | Every address of an accepted range is loopback, private or link-local, although only the endpoints are looked at |
| TrustedProxies.AcceptedIff | internal/selfhost/config/proxies.go:21-27 | A range is accepted if and only if all its addresses are local, except that IPv4-mapped ranges are refused |
| LocalRanges.LocalIsInBlocks | internal/selfhost/config/proxies.go:50-52 | An address is local if and only if it, or the IPv4 address mapped into it, lies in one of the eight address blocks for loopback, private and link-local use |
| TrustedProxies.ParseTrustedProxies | internal/selfhost/config/proxies.go:10-34 | Succeeds exactly when every trimmed part is an acceptable range; yields the masked ranges in order and exactly the wide ones as warnings; every address of them is local |
| CapabilitySafety.StepKeeps | internal/accounts/security.go:391-421 | Every statement-level step keeps locks compatible, rows and transactions in flight consistent with the generations, and the history sound |
| CapabilitySafety.EveryReachableStateHolds | internal/accounts/security.go:623-720 | That holds after every interleaving of the steps of any transactions |
| CapabilitySafety.RedeemedOnce | internal/accounts/accounts.go:317-371 | Between two redemptions of one link code or email-change token lies a new creation of it |
| CapabilitySafety.RedeemedInItsGeneration | internal/accounts/accounts.go:317-371 | It is redeemed with the generation of its creation; a link code, and any token drawn once, for the account of its creation; and one drawn once while that is the account's generation, with no raise in between |
| CapabilitySafety.StaleAuthorityFails | internal/accounts/security.go:408-421 | Between a session read and a creation checked against its generation lies no revocation |
| CapabilitySafety.GenerationsRise | internal/accounts/security.go:391-406 | A raise carries a generation above that of every earlier event of the account |
| CapabilityFlows.LinkCodeConnects | internal/accounts/accounts.go:317-371 | From creation to use: a link code connects its account while it lasts, once, and none after a revocation, which leaves exactly the sessions and connections of the other accounts |
| CapabilityFlows.EmailTokenMoves | internal/accounts/security.go:656-720 | From creation to use: an email-change token moves the address and the generation, leaves no open capability, exactly the new session beside those of the other accounts, and all connections, and works no second time |
| CapabilityFlows.CreateAlone | internal/accounts/security.go:623-654 | A creation with the current generation leaves the new capability as the account's only open one of its kind and changes no other row; with any other generation nothing changes |
| CapabilityFlows.RevokeAlone | internal/accounts/security.go:373-406 | A revocation leaves exactly the sessions and connections of the other accounts, and no open capability of the account |
| CapabilityIsolation.StepIsLocal | internal/accounts/security.go:373-421 | Every statement-level step leaves every account it does not touch exactly as it was: generation, capabilities, sessions and connections |
| CapabilityIsolation.RunIsLocal | internal/accounts/security.go:373-421 | So does every interleaving |
| CapabilityIsolation.PurgeIsExact | internal/accounts/accounts.go:483-489 | The purge deletes exactly day-old link codes, email-change tokens that have expired or were used, and expired sessions |

## Left out

- HTTP handlers, routing, cookies, JSON decoding, SQL text and database drivers: the transactions behind them are modelled.
- SHA-256, Ed25519, Argon2id, AES-GCM and base64 themselves: parameters of the model.
- Receipts of accepted uploads and checkpoints (only their signed bytes are modelled), and record timestamps that no decision reads (`CreatedAt`, `UpdatedAt`, `AcceptedAt`).
- The read-only listings of the sync service: pending pairings, pages of entries and headers, checkpoints, devices, vault state and the administrator's overview.
- The meaning of pairing messages and the positions a checkpoint claims: the server stores both without judging them, and so does the model.
- The sync tables are grouped by vault and vaults by owner, so deleting a vault drops its rows in one step.
- Byte counts are unbounded, so a byte budget near 2^63 does not overflow as it would in 64 bits.
- Durability below the level of one rename, removal or journal write: flushing, file modes, partial directory removal.
- Reading and checking a backup archive before the swap.
- Account deletion, and the account columns no capability depends on; the expiry of desktop connections and the tables of other features that the purge also clears.
- ReplaySafety.AtMostOnce: does not cover a purge, or another use of the nonce, that reads a clock past the end of the first record and is serialised before the second use (`SecondUses.SecondUseIff` shows that such a purge does let the second use through), nor a second use that stalls more than 59 s between skew check and record, nor a request whose own clock runs backwards before it stamps its nonce.
- SpentNonces.FailedRequestStaysSpent: leaves out the same, and a shorter record of the nonce written before the second write; a second write that failed keeps nothing.
- SpentNonces.RetriesStaySpent: leaves out the same as `ReplaySafety.AtMostOnce`, counted from the second write on and against the request's deadline.
- AuditChain.VerifyCheckpoints: assumes sequence numbers are unique in the log and covered positions unique among checkpoints, as the database's indexes ensure, and takes the checkpoints in the order the query asks for.
- TrustedProxies.ParseTrustedProxies: takes the address library's parser of one trimmed range as a parameter.
- Limiter.SlidingWindow: assumes the monotonic clock of the runtime, and one limit and window per key.
- CapabilitySafety.RedeemedInItsGeneration: promises no current generation, and for an email-change token not its own account, when a random hash is drawn a second time after its row is gone.
- Account capabilities: row locks follow the database's documented modes, and the statements are modelled on values, as steps of a state machine.
- The deletion of password-recovery tokens when an email change is confirmed.
