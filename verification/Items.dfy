/** One tenant's items and batches (app/models/item.py, app/models/item_batch.py) and the status updates
    of app/services/embedding/pipeline.py. A table is a map from row ids. */
module Items {
  import opened Dicts
  import opened Matches

  type Id = string
  type BatchId = string
  type Time = int
  type Metadata = map<string, Value>

  datatype Status = PENDING | PROCESSING | DONE | FAILED

  datatype Row = Row(
    externalId: string, batch: Option<BatchId>, data: string, status: Status, createdAt: Time, updatedAt: Time,
    pineconeId: Option<Id>, metadata: Metadata)

  type Table = map<Id, Row>

  datatype BatchStatus = BATCH_PENDING | BATCH_PROCESSING | BATCH_DONE | BATCH_PARTIAL_FAIL

  datatype Batch = Batch(total: nat, processed: nat, failed: nat, status: BatchStatus, completedAt: Option<Time>) {
    predicate Complete() {
      status == BATCH_DONE || status == BATCH_PARTIAL_FAIL
    }
  }

  /** What every database session of the tenant sees. */
  class Database {
    var rows: Table
    var batches: map<BatchId, Batch>

    constructor ()
      ensures rows == map[] && batches == map[]
    {
      rows, batches := map[], map[];
    }
  }

  predicate Has(rows: Table, id: Id, status: Status) {
    id in rows && rows[id].status == status
  }

  function WithStatus(rows: Table, ids: set<Id>, from: Status, to: Status, now: Time): (r: Table)
    ensures r.Keys == rows.Keys
  {
    map id | id in rows ::
      if id in ids && rows[id].status == from then rows[id].(status := to, updatedAt := now) else rows[id]
  }

  /** The ids the conditional UPDATE of `claim_items` returns. */
  function Claimed(rows: Table, candidates: set<Id>): set<Id> {
    set id | id in candidates && Has(rows, id, PENDING)
  }

  function AfterClaim(rows: Table, candidates: set<Id>, now: Time): Table {
    WithStatus(rows, candidates, PENDING, PROCESSING, now)
  }

  /** `release_items` */
  function Released(rows: Table, ids: set<Id>, now: Time): Table {
    WithStatus(rows, ids, PROCESSING, PENDING, now)
  }

  function Stale(rows: Table, cutoff: Time): set<Id> {
    set id | id in rows && rows[id].status == PROCESSING && rows[id].updatedAt < cutoff
  }
}
