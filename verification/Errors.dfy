// The engine's typed failures. Message text is not modelled; the fields that
// name what failed are.
module Errors {
  import opened ByteStrings

  datatype Error =
    | TableAlreadyRegistered(table: Bytes)
    | FamilyIdentityMismatch(table: Bytes)
    | FamilyAlreadyBound(family: Bytes, existing: Bytes, table: Bytes)
    | TableNotRegistered(table: Bytes)
    | RecordNotFound(table: Bytes, key: Bytes)
    | EmptyCommit(table: Bytes)
    | EmptyAtomicCommit
    | DuplicateWriteKey(table: Bytes, key: Bytes)
    | DuplicateAssertKey(table: Bytes, key: Bytes)
    | VersionedPayloadDecode(table: Bytes)
    | ReplayMissingKey(family: Bytes)
    | ReplayUnsupportedOperation(operation: Bytes)
    | ReplayTombstonePayload(table: Bytes)
    | VersioningNotEnabled
    | VersionedLogIncomplete(commits: nat, versioned: nat)
    | VersionedChainBroken(sequence: nat)
    | CheckpointNothingToCover
    | CheckpointDigestMismatch
    | SegmentDigestMismatch
    | SegmentMissing(digest: Digest)
    | SegmentSurplus(referenced: nat, supplied: nat)
    | CheckpointRowMissing(sequence: nat)
    | ViewDigestMismatch
    | CheckpointSchemaMismatch
    | ImportStoreNotFresh
    | ImportMissingCheckpoint
    | ImportCheckpointAlreadyIngested
    | ImportStoreNameMismatch
    | FamilyUnknown(family: Bytes)
    | MaterializeKeyKindMismatch(table: Bytes, key: Bytes)
    | OutboxEntryMismatch(sequence: nat)
    | MirrorHeadUnknown(sequence: nat)
    | MirrorHeadForked(sequence: nat)
    | UnknownCommitSequence(sequence: nat)
    | HistoryCompactionUnacknowledged(required: nat, acknowledged: Option<nat>)
    | HistoryCompactionTopologyMismatch
    | CompactionRecoveryRequired
    | StagingSessionEngaged
    | CompactionIntentOccupied
    | CompactionIntentMissingSequence
    | CompactionCheckpointBehind(checkpoint: nat, plan: nat)
    | CompactionInterrupted
    | StagingSessionNotEngaged
    | StagingSlotOccupied
    | StagingSlotEmpty
    | StagingBaseMoved(sequence: nat)
    | StagedGroupDigestMismatch(sequence: nat)

  datatype Result<+T> = Ok(value: T) | Err(error: Error) {
    function Or(default: T): T { if Ok? then value else default }
  }
}
