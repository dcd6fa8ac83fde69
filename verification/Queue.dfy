/** The table `outbound_queue` and the SQL statements run against it. */
module Queue {
  import opened Timestamps
  import opened TimestampOrder

  datatype Option<+T> = None | Some(value: T)

  datatype Status = Pending | Processing | Sent | Failed

  /** What the sender handed over: never touched after the insert. */
  datatype Content = Content(mailFrom: string, recipients: seq<string>, data: string)

  datatype Row = Row(
    content: Content, status: Status, attempts: nat,
    nextAttemptAt: Instant, createdAt: Instant, updatedAt: Instant)

  type Table = map<string, Row>

  datatype Message = Message(
    id: string, content: Content, attempts: nat, createdAt: Instant, updatedAt: Instant)

  datatype InsertResult =
    | Inserted
    | MissingId | MissingMailFrom | MissingRecipients | MissingData
    | DuplicateId
    | DatabaseError

  /** How the database answers a statement that writes: an error may be reported before
      the statement took effect, or after it. */
  datatype Fault = NoFault | Refused | TookEffect

  datatype Stats = Stats(pending: nat, processing: nat, sent: nat, failed: nat, backlog: nat)

  // ---- Effects of the statements on the table ----

  function NewRow(content: Content, createdAt: Instant, updatedAt: Instant): Row {
    Row(content, Pending, 0, createdAt, createdAt, updatedAt)
  }

  predicate Eligible(rows: Table, id: string, now: Instant) {
    id in rows && rows[id].status.Pending? && !Before(now, rows[id].nextAttemptAt)
  }

  /** SQLite may return any row with the least created_at text. */
  predicate FirstEligible(rows: Table, id: string, now: Instant) {
    Eligible(rows, id, now) &&
    forall other :: other in rows && Eligible(rows, other, now) ==> !Before(rows[other].createdAt, rows[id].createdAt)
  }

  function Claimed(rows: Table, id: string, now: Instant): Table
    requires id in rows
  {
    rows[id := rows[id].(status := Processing, attempts := rows[id].attempts + 1, updatedAt := now)]
  }

  /** Row `id` and no other was taken: it is processing, has one more attempt and carries
      the time of the claim. */
  predicate TakenAt(rows: Table, rows': Table, id: string, now: Instant) {
    && id in rows && rows'.Keys == rows.Keys
    && (forall other :: other in rows && other != id ==> rows'[other] == rows[other])
    && rows'[id].status == Processing && rows'[id].attempts == rows[id].attempts + 1 && rows'[id].updatedAt == now
    && rows'[id].content == rows[id].content && rows'[id].createdAt == rows[id].createdAt
    && rows'[id].nextAttemptAt == rows[id].nextAttemptAt
  }

  predicate Stuck(row: Row, olderThan: Instant) {
    row.status.Processing? && Before(row.updatedAt, olderThan)
  }

  function Recovered(rows: Table, olderThan: Instant, now: Instant): Table {
    map id | id in rows ::
      if Stuck(rows[id], olderThan)
      then rows[id].(status := Pending, nextAttemptAt := now, updatedAt := now)
      else rows[id]
  }

  function WithStatus(rows: Table, id: string, status: Status, now: Instant): Table {
    if id in rows then rows[id := rows[id].(status := status, updatedAt := now)] else rows
  }

  function Rescheduled(rows: Table, id: string, nextAttempt: Instant, now: Instant): Table {
    if id in rows
    then rows[id := rows[id].(status := Pending, nextAttemptAt := nextAttempt, updatedAt := now)]
    else rows
  }

  function WithStatusIds(rows: Table, status: Status): set<string> {
    set id | id in rows && rows[id].status == status
  }

  function StuckIds(rows: Table, olderThan: Instant): set<string> {
    set id | id in rows && Stuck(rows[id], olderThan)
  }

  function Backlog(rows: Table): set<string> {
    set id | id in rows && (rows[id].status.Pending? || rows[id].status.Processing?)
  }

  predicate Complete(id: string, content: Content) {
    id != "" && content.mailFrom != "" && content.recipients != [] && content.data != ""
  }

  lemma ClaimTakes(rows: Table, rows': Table, id: string, now: Instant)
    requires id in rows
    ensures rows' == Claimed(rows, id, now) <==> TakenAt(rows, rows', id, now)
  {
    if TakenAt(rows, rows', id, now) {
      assert rows'[id] == Claimed(rows, id, now)[id];
    }
  }

  // ---- The store ----

  /** Every method takes how the database answers this call. */
  class SQLiteStore {
    var rows: Table

    constructor ()
      ensures rows == map[]
    {
      rows := map[];
    }

    method Enqueue(id: string, content: Content, createdAt: Option<Instant>, updatedAt: Option<Instant>,
                   now: Instant, fault: Fault)
      returns (result: InsertResult)
      modifies this
      ensures result.Inserted? <==> Complete(id, content) && id !in old(rows) && fault.NoFault?
      ensures result.MissingId? <==> id == ""
      ensures result.MissingMailFrom? <==> id != "" && content.mailFrom == ""
      ensures result.MissingRecipients? <==> id != "" && content.mailFrom != "" && content.recipients == []
      ensures result.MissingData? <==>
              id != "" && content.mailFrom != "" && content.recipients != [] && content.data == ""
      ensures result.DuplicateId? <==> Complete(id, content) && id in old(rows) && !fault.Refused?
      ensures Complete(id, content) && id !in old(rows) && !fault.Refused? ==>
              var created := if createdAt.Some? then createdAt.value else now;
              var updated := if updatedAt.Some? then updatedAt.value else created;
              && id in rows && rows - {id} == old(rows)
              && rows[id].content == content && rows[id].status == Pending && rows[id].attempts == 0
              && rows[id].createdAt == created && rows[id].nextAttemptAt == created && rows[id].updatedAt == updated
              && (forall later: Instant :: SecondOf(created) < SecondOf(later) ==> Eligible(rows, id, later))
      ensures !Complete(id, content) || id in old(rows) || fault.Refused? ==> rows == old(rows)
    {
      if id == "" {
        return MissingId;
      }
      if content.mailFrom == "" {
        return MissingMailFrom;
      }
      if |content.recipients| == 0 {
        return MissingRecipients;
      }
      if |content.data| == 0 {
        return MissingData;
      }
      var created := if createdAt.None? then now else createdAt.value;
      var updated := if updatedAt.None? then created else updatedAt.value;
      if fault.Refused? {
        return DatabaseError;
      }
      if id in rows {
        return DuplicateId;
      }
      rows := rows[id := NewRow(content, created, updated)];
      NewRowWaits(rows, id, content, created, updated);
      return if fault.TookEffect? then DatabaseError else Inserted;
    }

    /** One pass over the rows. */
    method BacklogCount(dbError: bool) returns (count: Option<nat>)
      ensures count == if dbError then None else Some(|Backlog(rows)|)
    {
      if dbError {
        return None;
      }
      var left, n := rows.Keys, 0;
      while left != {}
        invariant left <= rows.Keys && n == |Backlog(rows) - left|
        decreases |left|
      {
        var id :| id in left;
        OneScanned(Backlog(rows), left, id);
        if rows[id].status.Pending? || rows[id].status.Processing? {
          n := n + 1;
        }
        left := left - {id};
      }
      assert Backlog(rows) - {} == Backlog(rows);
      return Some(n);
    }

    /** The count part of the statistics; its backlog is the sum of two status counts. */
    method GetStats(dbError: bool) returns (stats: Option<Stats>)
      ensures stats.None? <==> dbError
      ensures stats.Some? ==>
              && stats.value.pending == |WithStatusIds(rows, Pending)|
              && stats.value.processing == |WithStatusIds(rows, Processing)|
              && stats.value.sent == |WithStatusIds(rows, Sent)|
              && stats.value.failed == |WithStatusIds(rows, Failed)|
              && stats.value.backlog == |Backlog(rows)|
              && stats.value.pending + stats.value.processing + stats.value.sent + stats.value.failed == |rows|
    {
      if dbError {
        return None;
      }
      var left := rows.Keys;
      var pending, processing, sent, failed := 0, 0, 0, 0;
      while left != {}
        invariant left <= rows.Keys
        invariant pending == |WithStatusIds(rows, Pending) - left|
        invariant processing == |WithStatusIds(rows, Processing) - left|
        invariant sent == |WithStatusIds(rows, Sent) - left|
        invariant failed == |WithStatusIds(rows, Failed) - left|
        decreases |left|
      {
        var id :| id in left;
        OneMoreStatus(rows, left, id);
        match rows[id].status {
          case Pending => pending := pending + 1;
          case Processing => processing := processing + 1;
          case Sent => sent := sent + 1;
          case Failed => failed := failed + 1;
        }
        left := left - {id};
      }
      StatusesPartition(rows);
      return Some(Stats(pending, processing, sent, failed, pending + processing));
    }

    /** One transaction: select the first eligible row, then mark it processing. */
    method ClaimNextPending(now: Instant, fault: Fault) returns (claimed: Option<Message>)
      modifies this
      ensures claimed.Some? ==>
              && fault.NoFault? && FirstEligible(old(rows), claimed.value.id, now)
              && TakenAt(old(rows), rows, claimed.value.id, now)
              && var row := rows[claimed.value.id];
                 claimed.value == Message(claimed.value.id, row.content, row.attempts, row.createdAt, row.updatedAt)
      ensures claimed.None? && rows == old(rows) ==>
              fault.Refused? || forall id :: !Eligible(old(rows), id, now)
      ensures claimed.None? && rows != old(rows) ==>
              fault.TookEffect? && exists id :: FirstEligible(old(rows), id, now) && TakenAt(old(rows), rows, id, now)
    {
      hide Before;
      if fault.Refused? || !exists id :: id in rows && Eligible(rows, id, now) {
        return None;
      }
      FirstEligibleExists(rows, now);
      var id :| id in rows && FirstEligible(rows, id, now);
      var row := rows[id];
      var message := Message(id, row.content, row.attempts, row.createdAt, row.updatedAt);
      rows := Claimed(rows, id, now);
      ClaimTakes(old(rows), rows, id, now);
      assert rows[id].attempts != old(rows)[id].attempts;
      if fault.TookEffect? {
        return None;
      }
      return Some(message.(attempts := message.attempts + 1, updatedAt := now));
    }

    /** Row by row: no row is left stuck, none joins or leaves the backlog, and the number
        of rows recovered is reported. */
    method RecoverStuckProcessing(olderThan: Instant, now: Instant, fault: Fault) returns (count: Option<nat>)
      modifies this
      ensures fault.Refused? ==> rows == old(rows)
      ensures !fault.Refused? ==>
              && rows == Recovered(old(rows), olderThan, now)
              && StuckIds(rows, olderThan) == {} && Backlog(rows) == Backlog(old(rows))
      ensures count == if fault.NoFault? then Some(|StuckIds(old(rows), olderThan)|) else None
    {
      hide Before;
      if fault.Refused? {
        return None;
      }
      ghost var before := rows;
      var left, n := rows.Keys, 0;
      while left != {}
        invariant left <= before.Keys && n == |StuckIds(before, olderThan) - left|
        invariant HalfRecovered(before, rows, left, olderThan, now)
        decreases |left|
      {
        var id :| id in left;
        OneScanned(StuckIds(before, olderThan), left, id);
        if Stuck(rows[id], olderThan) {
          rows := rows[id := rows[id].(status := Pending, nextAttemptAt := now, updatedAt := now)];
          n := n + 1;
        }
        left := left - {id};
      }
      RecoveryDone(before, rows, olderThan, now);
      return if fault.TookEffect? then None else Some(n);
    }

    /** None of the three marks looks at the status it overwrites. */
    method MarkSent(id: string, now: Instant, fault: Fault)
      modifies this
      ensures rows == if fault.Refused? then old(rows) else WithStatus(old(rows), id, Sent, now)
      ensures id !in old(rows) ==> rows == old(rows)
      ensures !fault.Refused? && id in old(rows) ==> var was := old(rows)[id];
        rows == old(rows)[id := Row(was.content, Sent, was.attempts, was.nextAttemptAt, was.createdAt, now)]
    {
      if !fault.Refused? && id in rows {
        rows := rows[id := rows[id].(status := Sent, updatedAt := now)];
      }
    }

    method MarkRetry(id: string, nextAttempt: Instant, now: Instant, fault: Fault)
      modifies this
      ensures rows == if fault.Refused? then old(rows) else Rescheduled(old(rows), id, nextAttempt, now)
      ensures id !in old(rows) ==> rows == old(rows)
      ensures !fault.Refused? && id in old(rows) ==> var was := old(rows)[id];
        rows == old(rows)[id := Row(was.content, Pending, was.attempts, nextAttempt, was.createdAt, now)]
    {
      if !fault.Refused? && id in rows {
        rows := rows[id := rows[id].(status := Pending, nextAttemptAt := nextAttempt, updatedAt := now)];
      }
    }

    method MarkFailed(id: string, now: Instant, fault: Fault)
      modifies this
      ensures rows == if fault.Refused? then old(rows) else WithStatus(old(rows), id, Failed, now)
      ensures id !in old(rows) ==> rows == old(rows)
      ensures !fault.Refused? && id in old(rows) ==> var was := old(rows)[id];
        rows == old(rows)[id := Row(was.content, Failed, was.attempts, was.nextAttemptAt, was.createdAt, now)]
    {
      if !fault.Refused? && id in rows {
        rows := rows[id := rows[id].(status := Failed, updatedAt := now)];
      }
    }
  }

  // ---- Facts about the statements ----

  /** A new row is pending, untried and due at its creation: the first claim in a later
      second may take it. */
  lemma NewRowWaits(rows: Table, id: string, content: Content, created: Instant, updated: Instant)
    requires id in rows && rows[id] == NewRow(content, created, updated)
    ensures rows[id] == Row(content, Pending, 0, created, created, updated)
    ensures forall later: Instant :: SecondOf(created) < SecondOf(later) ==> Eligible(rows, id, later)
  {
    hide Before;
    forall later: Instant | SecondOf(created) < SecondOf(later) ensures Eligible(rows, id, later) {
      EligibleInTime(rows, id, later);
    }
  }

  lemma StatusesPartition(rows: Table)
    ensures |WithStatusIds(rows, Pending)| + |WithStatusIds(rows, Processing)| == |Backlog(rows)|
    ensures |Backlog(rows)| + |WithStatusIds(rows, Sent)| + |WithStatusIds(rows, Failed)| == |rows|
  {
    BacklogPartition(rows);
    var sent, failed := WithStatusIds(rows, Sent), WithStatusIds(rows, Failed);
    DisjointSizes(Backlog(rows), sent);
    DisjointSizes(Backlog(rows) + sent, failed);
    KeysPartition(rows);
  }

  lemma BacklogPartition(rows: Table)
    ensures |WithStatusIds(rows, Pending)| + |WithStatusIds(rows, Processing)| == |Backlog(rows)|
  {
    var pending, processing := WithStatusIds(rows, Pending), WithStatusIds(rows, Processing);
    DisjointSizes(pending, processing);
    assert pending + processing == Backlog(rows);
  }

  lemma KeysPartition(rows: Table)
    ensures Backlog(rows) + WithStatusIds(rows, Sent) + WithStatusIds(rows, Failed) == rows.Keys
    ensures |rows.Keys| == |rows|
  {}

  /** One more member of a scanned set is behind the scan exactly when it is a member. */
  lemma OneScanned(all: set<string>, left: set<string>, id: string)
    requires id in left
    ensures |all - (left - {id})| == |all - left| + (if id in all then 1 else 0)
  {
    if id in all {
      assert all - (left - {id}) == (all - left) + {id};
    } else {
      assert all - (left - {id}) == all - left;
    }
  }

  lemma OneMoreStatus(rows: Table, left: set<string>, id: string)
    requires id in left && id in rows
    ensures forall status ::
      |WithStatusIds(rows, status) - (left - {id})|
        == |WithStatusIds(rows, status) - left| + (if status == rows[id].status then 1 else 0)
  {
    forall status
      ensures |WithStatusIds(rows, status) - (left - {id})|
           == |WithStatusIds(rows, status) - left| + (if status == rows[id].status then 1 else 0)
    {
      OneScanned(WithStatusIds(rows, status), left, id);
    }
  }

  /** Recovery has dealt with all rows but those in `left`. */
  ghost predicate HalfRecovered(before: Table, rows: Table, left: set<string>, olderThan: Instant, now: Instant) {
    rows.Keys == before.Keys &&
    forall id :: id in before ==>
      rows[id] == if id in left then before[id] else Recovered(before, olderThan, now)[id]
  }

  lemma RecoveryDone(before: Table, rows: Table, olderThan: Instant, now: Instant)
    requires HalfRecovered(before, rows, {}, olderThan, now)
    ensures rows == Recovered(before, olderThan, now)
    ensures StuckIds(rows, olderThan) == {} && Backlog(rows) == Backlog(before)
    ensures StuckIds(before, olderThan) - {} == StuckIds(before, olderThan)
  {
    hide Before;
    assert forall id :: id in before ==> rows[id] == Recovered(before, olderThan, now)[id];
  }

  lemma DisjointSizes(a: set<string>, b: set<string>)
    requires a !! b
    ensures |a + b| == |a| + |b|
  {}

  /** A nonempty set of rows has one that no other precedes in text order. */
  lemma {:induction false} LeastCreated(rows: Table, ids: set<string>) returns (least: string)
    requires ids <= rows.Keys && ids != {}
    ensures least in ids && forall id :: id in ids ==> !Before(rows[id].createdAt, rows[least].createdAt)
  {
    var x :| x in ids;
    BeforeWithinASecond(rows[x].createdAt, rows[x].createdAt);
    if ids == {x} {
      least := x;
    } else {
      least := LeastCreated(rows, ids - {x});
      var created := rows[least].createdAt;
      if Before(rows[x].createdAt, created) {
        forall id | id in ids ensures !Before(rows[id].createdAt, rows[x].createdAt) {
          if Before(rows[id].createdAt, rows[x].createdAt) {
            BeforeWithinASecond(rows[x].createdAt, created);
            BeforeTransitive(rows[id].createdAt, rows[x].createdAt, created);
          }
        }
        least := x;
      }
    }
  }

  lemma FirstEligibleExists(rows: Table, now: Instant)
    requires exists id :: id in rows && Eligible(rows, id, now)
    ensures exists id :: id in rows && FirstEligible(rows, id, now)
  {
    var ids := set id | id in rows && Eligible(rows, id, now);
    var x :| x in rows && Eligible(rows, x, now);
    assert x in ids;
    var least := LeastCreated(rows, ids);
    assert FirstEligible(rows, least, now);
  }

  /** What a claim promises in terms of time rather than text. */
  lemma ClaimInTime(rows: Table, id: string, now: Instant)
    requires FirstEligible(rows, id, now)
    ensures rows[id].nextAttemptAt < now + NANOS
    ensures forall other :: Eligible(rows, other, now) ==>
              SecondOf(rows[id].createdAt) <= SecondOf(rows[other].createdAt)
  {
    BeforeWithinASecond(rows[id].nextAttemptAt, now);
    forall other | Eligible(rows, other, now)
      ensures SecondOf(rows[id].createdAt) <= SecondOf(rows[other].createdAt)
    {
      BeforeWithinASecond(rows[id].createdAt, rows[other].createdAt);
    }
  }

  /** A pending row is eligible from the first whole second after it is due, never a
      second early, and in between exactly when its due time sorts no later than now. */
  lemma EligibleInTime(rows: Table, id: string, now: Instant)
    requires id in rows && rows[id].status.Pending?
    ensures SecondOf(rows[id].nextAttemptAt) < SecondOf(now) ==> Eligible(rows, id, now)
    ensures SecondOf(now) < SecondOf(rows[id].nextAttemptAt) ==> !Eligible(rows, id, now)
    ensures (Eligible(rows, id, now) <==> rows[id].nextAttemptAt <= now)
       <==> !(FractionCutShort(rows[id].nextAttemptAt, now) || FractionCutShort(now, rows[id].nextAttemptAt))
  {
    var due := rows[id].nextAttemptAt;
    BeforeWithinASecond(due, now);
    BeforeWithinASecond(now, due);
    if due != now {
      OrdersAgreeExactlyWhen(due, now);
    }
  }

  /** Recovery in terms of time: a second boundary decides, within it text does. */
  lemma RecoveryInTime(rows: Table, id: string, olderThan: Instant, now: Instant)
    requires id in rows
    ensures var row, row' := rows[id], Recovered(rows, olderThan, now)[id];
      && (row' != row ==> row.status.Processing? && SecondOf(row.updatedAt) <= SecondOf(olderThan))
      && (row.status.Processing? && SecondOf(row.updatedAt) < SecondOf(olderThan) ==>
           row' == row.(status := Pending, nextAttemptAt := now, updatedAt := now))
      && row'.content == row.content && row'.attempts == row.attempts && row'.createdAt == row.createdAt
  {
    BeforeWithinASecond(rows[id].updatedAt, olderThan);
  }
}
