/** The values shared by the whole model: events, subnets, anchors, frames and votes. */
module Types {

  datatype Option<+T> = None | Some(value: T)

  /** An event id is a BLAKE3 digest written as fixed-width lower-case hex.  Its
      lexicographic order is the numeric order of the digest, so an id is a number. */
  type EventId = nat

  type ValidatorId = string

  /** Bytes stored in a state cell; only their equality matters. */
  type Value(==, !new)

  /** A 32-byte subnet id, split into its type byte and the rest, read as a little-endian number. */
  datatype SubnetId = SubnetId(prefix: nat, rest: nat) {
    predicate IsRoot() { this == ROOT }
    predicate IsSystem() { prefix <= SYSTEM_PREFIX }
    predicate IsApp() { prefix == APP_PREFIX }
  }
  const SYSTEM_PREFIX: nat := 1
  const APP_PREFIX: nat := 2
  const ROOT := SubnetId(0, 0)
  const GOVERNANCE := SubnetId(SYSTEM_PREFIX, 0x10)

  type ObjectId = nat

  /** The slot of one object in one subnet's state tree. */
  datatype WriteKey = WriteKey(subnet: SubnetId, oid: ObjectId)

  datatype StateChange = StateChange(oid: ObjectId, oldValue: Option<Value>, newValue: Option<Value>,
                                     target: Option<SubnetId>)

  datatype ExecutionResult = ExecutionResult(success: bool, message: Option<string>, changes: seq<StateChange>)

  datatype EventKind =
    | Genesis | System | Transfer
    | ValidatorRegister | ValidatorUnregister | SolverRegister | SolverUnregister
    | SubnetRegister | UserRegister
    | PowerConsume | TaskSubmit | AgentChat | Relationship | ContractCall | ContractPublish
    | CoinMerge | CoinSplit | CoinMergeThenTransfer | Governance
  {
    predicate IsValidatorExecuted() {
      || Genesis? || System? || ValidatorRegister? || ValidatorUnregister? || SolverRegister?
      || SolverUnregister? || SubnetRegister? || UserRegister? || ContractPublish?
    }
  }

  datatype EventStatus = Pending | InWorkQueue | Executed | Confirmed | Finalized | Failed

  /** The part of an event that never changes; `time` is the logical time of its clock snapshot. */
  datatype Event = Event(id: EventId, kind: EventKind, parents: seq<EventId>, subnet: Option<SubnetId>,
                         time: nat, result: Option<ExecutionResult>)
  {
    function SubnetOrRoot(): SubnetId {
      if subnet.Some? then subnet.value else ROOT
    }

    function KeyOf(c: StateChange): WriteKey {
      WriteKey(if c.target.Some? then c.target.value else SubnetOrRoot(), c.oid)
    }
  }

  /** Hashes as terms: two digests are equal exactly when they were made from equal content. */
  datatype Digest =
    | Zero
    | StateRootOf(cells: map<WriteKey, Value>, subnets: set<SubnetId>)
    | EventsRootOf(leaves: seq<EventId>)
    | AnchorIdOf(eventIds: seq<EventId>, time: nat, state: Digest, timestamp: nat)
    | AnchorHashOf(id: Digest, depth: nat, previous: Option<Digest>, anchorRoots: Option<MerkleRoots>,
                   hashTime: nat, hashTimestamp: nat)
    | ChainOf(before: Digest, next: Digest)
    | FrameIdOf(round: nat, anchorId: Digest, proposer: ValidatorId, createdAt: nat)

  datatype MerkleRoots = MerkleRoots(events: Digest, state: Digest, chain: Digest)

  datatype Anchor = Anchor(id: Digest, eventIds: seq<EventId>, time: nat, roots: Option<MerkleRoots>,
                           previous: Option<Digest>, depth: nat, timestamp: nat)
  {
    function Hash(): Digest { AnchorHashOf(id, depth, previous, roots, time, timestamp) }
  }

  datatype Vote = Vote(voter: ValidatorId, frame: Digest, approve: bool)

  datatype FrameStatus = Proposed | FrameFinalized | FrameRejected

  /** A consensus frame: an anchor put to the vote. */
  datatype Frame = Frame(id: Digest, round: nat, anchor: Anchor, proposer: ValidatorId, status: FrameStatus,
                         votes: map<ValidatorId, Vote>, createdAt: nat)

  datatype Config = Config(deltaThreshold: nat, minEvents: nat, maxEvents: nat, timeoutMs: nat,
                           validatorCount: nat)

  /** The ids named by a list. */
  function IdSet(ids: seq<EventId>): set<EventId> { set x | x in ids }

  /** The ids of a list of events, in order. */
  function IdsOf(events: seq<Event>): (ids: seq<EventId>)
    ensures |ids| == |events|
    ensures forall i | 0 <= i < |ids| :: ids[i] == events[i].id
  {
    seq(|events|, i requires 0 <= i < |events| => events[i].id)
  }

  ghost predicate DistinctIds(events: seq<Event>) {
    forall i, j | 0 <= i < j < |events| :: events[i].id != events[j].id
  }
}
