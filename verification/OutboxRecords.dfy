/** The outbox_records table. Each SQL statement is one row transition applied atomically;
    the class performs them on its rows. */
module OutboxRecords {
  import opened Wrappers

  type RecordId = nat
  type Instant = int

  datatype Status = Pending | Processing | Published | Failed | Dead

  datatype Event = Event(
    eventType: string,
    aggregateType: string,
    aggregateId: string,
    dedupKey: string,
    payload: string)

  datatype Record = Record(
    event: Event,
    status: Status,
    attempts: nat,
    availableAt: Instant,
    createdAt: Instant,
    claimedAt: Option<Instant>,
    claimExpiresAt: Option<Instant>,
    publishedAt: Option<Instant>,
    lastError: string,
    updatedAt: Instant)

  type Table = map<RecordId, Record>

  datatype OutboxError = NotFound | Duplicate | Unavailable

  const MAX_LAST_ERROR: nat := 4096

  predicate Terminal(status: Status) {
    status.Published? || status.Dead?
  }

  /** Which rows the claim statement may take at instant now. */
  predicate Claimable(r: Record, now: Instant) {
    || ((r.status.Pending? || r.status.Failed?) && r.availableAt <= now)
    || (r.status.Processing? && r.claimExpiresAt.Some? && r.claimExpiresAt.value <= now)
  }

  // Row transitions

  /** Schema defaults: no attempts, null claim columns. */
  function NewRow(event: Event, occurredAt: Instant): Record {
    Record(event, Pending, 0, occurredAt, occurredAt, None, None, None, "", occurredAt)
  }

  function ClaimedRow(r: Record, now: Instant, lease: int): Record {
    r.(status := Processing,
       claimedAt := Some(now),
       claimExpiresAt := Some(now + lease),
       attempts := r.attempts + 1,
       updatedAt := now)
  }

  function PublishedRow(r: Record, now: Instant): Record {
    r.(status := Published,
       publishedAt := if r.publishedAt.Some? then r.publishedAt else Some(now),
       claimedAt := None,
       claimExpiresAt := None,
       updatedAt := now)
  }

  function FailedRow(r: Record, message: string, next: Instant, now: Instant, maxAttempts: int): Record {
    r.(status := if r.attempts >= maxAttempts then Dead else Failed,
       lastError := if |message| <= MAX_LAST_ERROR then message else message[..MAX_LAST_ERROR],
       availableAt := if r.attempts >= maxAttempts then r.availableAt else next,
       claimedAt := None,
       claimExpiresAt := None,
       updatedAt := now)
  }

  // Table transitions

  predicate DedupFree(t: Table, key: string) {
    forall id | id in t :: t[id].event.dedupKey != key
  }

  function ClaimedRows(t: Table, chosen: set<RecordId>, now: Instant, lease: int): Table {
    map id | id in t :: if id in chosen then ClaimedRow(t[id], now, lease) else t[id]
  }

  function IdSet(ids: seq<RecordId>): set<RecordId> {
    set id | id in ids
  }

  /** The instant from which a row may be claimed; terminal rows have none. */
  function WakeAt(r: Record): Option<Instant> {
    match r.status
    case Pending | Failed => Some(r.availableAt)
    case Processing => r.claimExpiresAt
    case Published | Dead => None
  }

  /** The claim statement's order: available_at, then created_at. */
  predicate NotLater(a: Record, b: Record) {
    a.availableAt < b.availableAt || (a.availableAt == b.availableAt && a.createdAt <= b.createdAt)
  }

  /** A non-empty finite set of rows has one that is not later than any other. */
  lemma EarliestExists(t: Table, ids: set<RecordId>) returns (first: RecordId)
    requires ids != {} && ids <= t.Keys
    ensures first in ids && forall id | id in ids :: NotLater(t[first], t[id])
    decreases |ids|
  {
    var any :| any in ids;
    first := any;
    var rest := ids - {any};
    assert forall id | id in ids :: id == any || id in rest;
    if rest != {} {
      var other := EarliestExists(t, rest);
      if NotLater(t[any], t[other]) {
        assert forall id | id in rest :: NotLater(t[other], t[id]) && NotLater(t[any], t[id]);
      } else {
        first := other;
      }
    }
  }

  predicate Distinct(ids: seq<RecordId>) {
    forall i, j | 0 <= i < j < |ids| :: ids[i] != ids[j]
  }

  predicate Open(t: Table, id: RecordId, now: Instant, locked: set<RecordId>) {
    id in t && id !in locked && Claimable(t[id], now)
  }

  /** What the claim statement selects: distinct claimable rows that no concurrent
      transaction has locked, at most the batch size, and nothing passed over for a later
      row or while there is room. */
  predicate Selection(t: Table, chosen: seq<RecordId>, batchSize: int, now: Instant, locked: set<RecordId>) {
    && Distinct(chosen)
    && (forall id | id in chosen :: Open(t, id, now, locked))
    && |chosen| <= Limit(batchSize)
    && (forall id | id in t && Open(t, id, now, locked) && id !in chosen ::
          |chosen| == Limit(batchSize) && forall other | other in chosen :: NotLater(t[other], t[id]))
  }

  function Limit(batchSize: int): nat {
    if batchSize < 0 then 0 else batchSize
  }

  method SelectEarliest(t: Table, batchSize: int, now: Instant, locked: set<RecordId>) returns (chosen: seq<RecordId>)
    ensures Selection(t, chosen, batchSize, now, locked)
  {
    chosen := [];
    var open := set id | id in t && Open(t, id, now, locked);
    while open != {} && |chosen| < Limit(batchSize)
      invariant |chosen| <= Limit(batchSize)
      invariant Distinct(chosen)
      invariant forall id | id in t && Open(t, id, now, locked) :: id in open || id in chosen
      invariant forall id | id in chosen :: Open(t, id, now, locked)
      invariant forall id | id in open :: Open(t, id, now, locked) && id !in chosen
      invariant forall id, other | id in open && other in chosen :: NotLater(t[other], t[id])
      decreases |open|
    {
      ghost var earliest := EarliestExists(t, open);
      var first :| first in open && forall id | id in open :: NotLater(t[first], t[id]);
      open := open - {first};
      chosen := chosen + [first];
    }
  }

  class OutboxTable {
    var rows: Table
    var nextId: RecordId

    ghost predicate Valid() reads this {
      forall id | id in rows :: id < nextId
    }

    constructor ()
      ensures Valid() && rows == map[]
    {
      rows := map[];
      nextId := 0;
    }

    /** Inserts a pending row under a fresh id, unless the dedup key is taken. */
    method Create(event: Event, occurredAt: Instant) returns (r: Result<RecordId, OutboxError>)
      requires Valid()
      modifies this
      ensures Valid()
      ensures r.Success? <==> old(DedupFree(rows, event.dedupKey))
      ensures r.Success? ==> r.value !in old(rows) && rows == old(rows)[r.value := NewRow(event, occurredAt)]
      ensures r.Success? ==>
                rows[r.value] == Record(event, Pending, 0, occurredAt, occurredAt, None, None, None, "", occurredAt)
      ensures r.Failure? <==> exists id :: id in old(rows) && old(rows)[id].event.dedupKey == event.dedupKey
      ensures r.Failure? ==> r.error == Duplicate && rows == old(rows)
    {
      if !DedupFree(rows, event.dedupKey) {
        return Failure(Duplicate);
      }
      r := Success(nextId);
      rows := rows[nextId := NewRow(event, occurredAt)];
      nextId := nextId + 1;
    }

    /** Claims the earliest claimable rows. */
    method ClaimPending(batchSize: int, lease: int, now: Instant, locked: set<RecordId>)
      returns (claimed: seq<RecordId>)
      requires Valid()
      modifies this`rows
      ensures Valid()
      ensures Selection(old(rows), claimed, batchSize, now, locked)
      ensures rows == ClaimedRows(old(rows), IdSet(claimed), now, lease)
    {
      claimed := SelectEarliest(rows, batchSize, now, locked);
      rows := ClaimedRows(rows, IdSet(claimed), now, lease);
    }

    method MarkPublished(id: RecordId, now: Instant) returns (r: Result<(), OutboxError>)
      requires Valid()
      modifies this`rows
      ensures Valid()
      ensures r.Success? <==> id in old(rows)
      ensures r.Success? ==> rows == old(rows)[id := PublishedRow(old(rows)[id], now)]
      ensures r.Failure? ==> r.error == NotFound && rows == old(rows)
    {
      if id !in rows {
        return Failure(NotFound);
      }
      rows := rows[id := PublishedRow(rows[id], now)];
      r := Success(());
    }

    method MarkFailed(id: RecordId, message: string, next: Instant, now: Instant, maxAttempts: int)
      returns (r: Result<(), OutboxError>)
      requires Valid()
      modifies this`rows
      ensures Valid()
      ensures r.Success? <==> id in old(rows)
      ensures r.Success? ==> rows == old(rows)[id := FailedRow(old(rows)[id], message, next, now, maxAttempts)]
      ensures r.Failure? ==> r.error == NotFound && rows == old(rows)
    {
      if id !in rows {
        return Failure(NotFound);
      }
      rows := rows[id := FailedRow(rows[id], message, next, now, maxAttempts)];
      r := Success(());
    }
  }
}
