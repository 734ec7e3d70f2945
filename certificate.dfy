/**
 * The certificates table: the batch insert behind the spreadsheet import,
 * the paged listing, the update that leaves the status alone unless one is
 * given, and the batch delete.
 */
module CertificateModel {
  import opened JsRuntime
  import opened Normalizers

  /** A certificate as the spreadsheet import produces it. */
  datatype CertRecord = CertRecord(certificateNo: string, name: string, certDate: string)

  datatype Status = Enabled | Disabled

  /** A row of the `certificates` table; a new row is enabled. */
  datatype Certificate = Certificate(certificateNo: string, name: string, certDate: string, status: Status)

  /** The rows by id and the next `AUTO_INCREMENT` id. */
  datatype Table = Table(rows: map<nat, Certificate>, nextId: nat)

  predicate NumberTaken(rows: map<nat, Certificate>, certificateNo: string)
  {
    exists id :: id in rows && rows[id].certificateNo == certificateNo
  }

  /** Ids below the next one, and the `UNIQUE` index on the certificate number. */
  predicate ValidTable(t: Table)
  {
    (forall id :: id in t.rows ==> id < t.nextId)
    && (forall a, b :: a in t.rows && b in t.rows && t.rows[a].certificateNo == t.rows[b].certificateNo ==> a == b)
  }

  // ---------------------------------------------------------------------
  // batchInsert
  // ---------------------------------------------------------------------

  /**
   * A failure of an `INSERT` other than a duplicate number (a lost
   * connection, a value too long for its column), with its message; the
   * database is not part of this model, so these arrive as an oracle.
   */
  type Fault = Option<string>

  datatype Attempt = Inserted | Duplicate | Error(message: string)

  /** An entry of the `errors` list. */
  datatype InsertError = InsertError(certificateNo: string, name: string, error: string)

  datatype BatchResult = BatchResult(insertedCount: nat, skippedCount: nat, errors: seq<InsertError>)

  /**
   * One `INSERT`: a fault fails it; otherwise a number already in the table
   * is a duplicate-key error; otherwise the row is added, enabled.
   */
  function InsertOne(t: Table, c: CertRecord, fault: Fault): (r: (Table, Attempt))
    ensures r.1.Inserted? <==> fault.None? && !NumberTaken(t.rows, c.certificateNo)
    ensures r.1.Duplicate? <==> fault.None? && NumberTaken(t.rows, c.certificateNo)
    ensures r.1.Error? ==> r.1 == Error(fault.value)
    ensures !r.1.Inserted? ==> r.0 == t
    ensures r.1.Inserted? ==>
              r.0 == Table(t.rows[t.nextId := Certificate(c.certificateNo, c.name, c.certDate, Enabled)], t.nextId + 1)
  {
    if fault.Some? then (t, Error(fault.value))
    else if NumberTaken(t.rows, c.certificateNo) then (t, Duplicate)
    else (Table(t.rows[t.nextId := Certificate(c.certificateNo, c.name, c.certDate, Enabled)], t.nextId + 1), Inserted)
  }

  /** How an attempt moves the tally: a duplicate is skipped, any other failure is listed. */
  function Record(b: BatchResult, c: CertRecord, a: Attempt): BatchResult
  {
    match a
    case Inserted => b.(insertedCount := b.insertedCount + 1)
    case Duplicate => b.(skippedCount := b.skippedCount + 1)
    case Error(m) => b.(errors := b.errors + [InsertError(c.certificateNo, c.name, m)])
  }

  /** The table and the tally after attempting the first `n` certificates in order. */
  function Tally(t: Table, certs: seq<CertRecord>, faults: nat -> Fault, n: nat): (r: (Table, BatchResult))
    requires n <= |certs|
  {
    if n == 0 then (t, BatchResult(0, 0, []))
    else
      var prev := Tally(t, certs, faults, n - 1);
      var step := InsertOne(prev.0, certs[n - 1], faults(n - 1));
      (step.0, Record(prev.1, certs[n - 1], step.1))
  }

  /** `batchInsert(certificates)`: nothing at all for an empty list. */
  function BatchInsertSpec(t: Table, certs: seq<CertRecord>, faults: nat -> Fault): (r: (Table, BatchResult))
    ensures certs == [] ==> r == (t, BatchResult(0, 0, []))
  {
    if certs == [] then (t, BatchResult(0, 0, [])) else Tally(t, certs, faults, |certs|)
  }

  /** Every certificate is accounted for exactly once: inserted, skipped or listed. */
  lemma {:induction false} TallyCounts(t: Table, certs: seq<CertRecord>, faults: nat -> Fault, n: nat)
    requires n <= |certs|
    ensures var b := Tally(t, certs, faults, n).1;
            b.insertedCount + b.skippedCount + |b.errors| == n
  {
    if n > 0 {
      TallyCounts(t, certs, faults, n - 1);
    }
  }

  /** The failures of the first `n` certificates other than duplicates, in input order. */
  function FaultList(certs: seq<CertRecord>, faults: nat -> Fault, n: nat): (r: seq<InsertError>)
    requires n <= |certs|
    ensures |r| <= n
  {
    if n == 0 then []
    else
      FaultList(certs, faults, n - 1)
      + match faults(n - 1)
        case Some(m) => [InsertError(certs[n - 1].certificateNo, certs[n - 1].name, m)]
        case None => []
  }

  /** The error list is exactly the faults, in input order, whatever the table holds. */
  lemma {:induction false} TallyErrors(t: Table, certs: seq<CertRecord>, faults: nat -> Fault, n: nat)
    requires n <= |certs|
    ensures Tally(t, certs, faults, n).1.errors == FaultList(certs, faults, n)
  {
    if n > 0 {
      TallyErrors(t, certs, faults, n - 1);
    }
  }

  lemma InsertKeepsValid(t: Table, c: CertRecord, fault: Fault)
    requires ValidTable(t)
    ensures ValidTable(InsertOne(t, c, fault).0)
  {
  }

  /** The batch keeps the unique index, and every row the table had stays as it was. */
  lemma {:induction false} TallyKeeps(t: Table, certs: seq<CertRecord>, faults: nat -> Fault, n: nat)
    requires n <= |certs|
    requires ValidTable(t)
    ensures ValidTable(Tally(t, certs, faults, n).0)
    ensures forall id :: id in t.rows ==>
              id in Tally(t, certs, faults, n).0.rows && Tally(t, certs, faults, n).0.rows[id] == t.rows[id]
  {
    if n > 0 {
      TallyKeeps(t, certs, faults, n - 1);
      InsertKeepsValid(Tally(t, certs, faults, n - 1).0, certs[n - 1], faults(n - 1));
    }
  }

  /** A number in the table stays there for the rest of the batch. */
  lemma {:induction false} TakenStaysTaken(t: Table, certs: seq<CertRecord>, faults: nat -> Fault, m: nat, n: nat, no: string)
    requires m <= n <= |certs|
    requires ValidTable(t)
    requires NumberTaken(Tally(t, certs, faults, m).0.rows, no)
    ensures NumberTaken(Tally(t, certs, faults, n).0.rows, no)
    decreases n - m
  {
    if m < n {
      TakenStaysTaken(t, certs, faults, m, n - 1, no);
      TallyKeeps(t, certs, faults, n - 1);
      var rows := Tally(t, certs, faults, n - 1).0.rows;
      var id :| id in rows && rows[id].certificateNo == no;
      assert id in Tally(t, certs, faults, n).0.rows && Tally(t, certs, faults, n).0.rows[id].certificateNo == no;
    }
  }

  /**
   * Every certificate whose insert did not fault is in the table after the
   * batch, inserted then or already there: earlier failures stop nothing.
   */
  lemma EveryUnfaultedStored(t: Table, certs: seq<CertRecord>, faults: nat -> Fault, i: nat, n: nat)
    requires i < n <= |certs|
    requires ValidTable(t)
    requires faults(i).None?
    ensures NumberTaken(Tally(t, certs, faults, n).0.rows, certs[i].certificateNo)
  {
    var before := Tally(t, certs, faults, i).0;
    if !NumberTaken(before.rows, certs[i].certificateNo) {
      assert before.nextId in Tally(t, certs, faults, i + 1).0.rows;
    }
    TakenStaysTaken(t, certs, faults, i + 1, n, certs[i].certificateNo);
  }

  /** A number repeated later in the same batch is skipped the second time. */
  lemma RepeatSkipped(t: Table, certs: seq<CertRecord>, faults: nat -> Fault, i: nat, j: nat)
    requires i < j < |certs|
    requires ValidTable(t)
    requires faults(i).None? && faults(j).None?
    requires certs[j].certificateNo == certs[i].certificateNo
    ensures Tally(t, certs, faults, j + 1).1.skippedCount == Tally(t, certs, faults, j).1.skippedCount + 1
    ensures Tally(t, certs, faults, j + 1).0 == Tally(t, certs, faults, j).0
  {
    EveryUnfaultedStored(t, certs, faults, i, j);
  }

  // ---------------------------------------------------------------------
  // findAll
  // ---------------------------------------------------------------------

  /** The window and the `LIKE` keyword `findAll` queries with. */
  datatype CertQuery = CertQuery(window: Window, keyword: Option<string>)

  /**
   * `findAll(page, limit, keyword)` as written: the page is `Number(page)`,
   * with 0 and `NaN` replaced by 1; the limit is `Number(limit)`, with 0 and
   * `NaN` replaced by 10, clamped to [1, 100]; the keyword applies when truthy.
   */
  function FindAllAsWritten(page: Json, limit: Json, keyword: Json): (q: CertQuery)
    ensures q.window.page == NumberOr(page, DefaultPage) && q.window.page != 0
    ensures q.window.limit == Min(MaxLimit, Max(1, NumberOr(limit, DefaultLimit)))
    ensures 1 <= q.window.limit <= MaxLimit
    ensures q.window.offset == (q.window.page - 1) * q.window.limit
    ensures q.keyword.Some? <==> Truthy(keyword)
  {
    var pageNum := NumberOr(page, DefaultPage);
    var limitNum := Min(MaxLimit, Max(1, NumberOr(limit, DefaultLimit)));
    CertQuery(Window(pageNum, limitNum, (pageNum - 1) * limitNum),
              if Truthy(keyword) then Some(ToStr(keyword)) else None)
  }

  /** Page -1 is let through and gives the query a negative `OFFSET`. */
  lemma NegativePageOffset()
    ensures FindAllAsWritten(JNum(-1), JUndef, JUndef).window.offset == -20
    ensures !ValidWindow(FindAllAsWritten(JNum(-1), JUndef, JUndef).window, MaxLimit)
  {
    assert ToNumber(JNum(-1)) == Some(-1);
  }

  /** `findAll` with the page clamped to at least 1, as the limit is. */
  function FindAll(page: Json, limit: Json, keyword: Json): (q: CertQuery)
    ensures ValidWindow(q.window, MaxLimit)
    ensures q.window.page == Max(1, NumberOr(page, DefaultPage))
    ensures q.window.limit == Min(MaxLimit, Max(1, NumberOr(limit, DefaultLimit)))
    ensures q.keyword.Some? <==> Truthy(keyword)
    ensures q.keyword.Some? ==> q.keyword.value == ToStr(keyword)
  {
    var pageNum := Max(1, NumberOr(page, DefaultPage));
    var limitNum := Min(MaxLimit, Max(1, NumberOr(limit, DefaultLimit)));
    CertQuery(PageWindow(pageNum, limitNum),
              if Truthy(keyword) then Some(ToStr(keyword)) else None)
  }

  /** The clamp changes nothing for the pages the code handles as meant. */
  lemma FindAllAgrees(page: Json, limit: Json, keyword: Json)
    ensures NumberOr(page, DefaultPage) >= 1 <==> FindAll(page, limit, keyword) == FindAllAsWritten(page, limit, keyword)
  {
  }

  // ---------------------------------------------------------------------
  // update, delete and batchDelete
  // ---------------------------------------------------------------------

  /** The fields `update` writes; the status is written only when given. */
  datatype CertUpdate = CertUpdate(certificateNo: string, name: string, certDate: string, status: Option<Status>)

  /** The rows the statement matched, or the duplicate-key error it throws. */
  datatype UpdateOutcome = Updated(affectedRows: nat) | DuplicateNumber

  function UpdateSpec(t: Table, id: nat, data: CertUpdate): (r: (Table, UpdateOutcome))
    ensures id !in t.rows ==> r == (t, Updated(0))
    ensures r.1.DuplicateNumber? ==> r.0 == t
    ensures r.1 == Updated(1) <==> id in t.rows && forall other :: other in t.rows && other != id ==> t.rows[other].certificateNo != data.certificateNo
    ensures r.1 == Updated(1) ==> id in r.0.rows && r.0.rows == t.rows[id := r.0.rows[id]] && r.0.nextId == t.nextId
    ensures r.1 == Updated(1) ==> r.0.rows[id].certificateNo == data.certificateNo && r.0.rows[id].name == data.name
                                  && r.0.rows[id].certDate == data.certDate
    ensures r.1 == Updated(1) && data.status.Some? ==> r.0.rows[id].status == data.status.value
    ensures r.1 == Updated(1) && data.status.None? ==> r.0.rows[id].status == t.rows[id].status
  {
    if id !in t.rows then (t, Updated(0))
    else if exists other :: other in t.rows && other != id && t.rows[other].certificateNo == data.certificateNo then
      (t, DuplicateNumber)
    else
      var status := if data.status.Some? then data.status.value else t.rows[id].status;
      (Table(t.rows[id := Certificate(data.certificateNo, data.name, data.certDate, status)], t.nextId), Updated(1))
  }

  lemma UpdateKeepsValid(t: Table, id: nat, data: CertUpdate)
    requires ValidTable(t)
    ensures ValidTable(UpdateSpec(t, id, data).0)
  {
  }

  /** The ids of rows a delete of `ids` removes. */
  function Gone(rows: map<nat, Certificate>, ids: seq<nat>): (r: set<nat>)
    ensures forall id :: id in r <==> id in rows && id in ids
  {
    set id | id in rows && id in ids
  }

  /** `batchDelete(ids)`: an empty list deletes nothing and issues no statement. */
  function DeleteSpec(t: Table, ids: seq<nat>): (r: (Table, nat))
    ensures ids == [] ==> r == (t, 0)
    ensures forall id :: id in r.0.rows <==> id in t.rows && id !in ids
    ensures forall id :: id in r.0.rows ==> r.0.rows[id] == t.rows[id]
    ensures r.0.nextId == t.nextId
    ensures ids != [] ==> r.1 == |Gone(t.rows, ids)|
  {
    if ids == [] then (t, 0)
    else (Table(map id | id in t.rows && id !in ids :: t.rows[id], t.nextId), |Gone(t.rows, ids)|)
  }

  /** The ids a list names. */
  function IdSet(ids: seq<nat>): (r: set<nat>)
    ensures forall id :: id in r <==> id in ids
  {
    set id | id in ids
  }

  /** The distinct values of a list are no more than its length. */
  lemma {:induction false} DistinctBound(ids: seq<nat>)
    ensures |IdSet(ids)| <= |ids|
  {
    if ids != [] {
      DistinctBound(ids[1..]);
      var rest := IdSet(ids[1..]);
      if ids[0] in rest {
        assert IdSet(ids) == rest;
      } else {
        assert IdSet(ids) == rest + {ids[0]};
      }
    }
  }

  /** A subset of `b` with what `b` has besides it makes up all of `b`. */
  lemma SplitSize(a: set<nat>, b: set<nat>)
    requires a <= b
    ensures |a| + |b - a| == |b|
  {
    assert b == a + (b - a);
  }

  /** A delete removes at most one row per id listed, and the rows it keeps are the rest. */
  lemma DeleteBound(t: Table, ids: seq<nat>)
    ensures DeleteSpec(t, ids).1 <= |ids|
    ensures DeleteSpec(t, ids).1 + |DeleteSpec(t, ids).0.rows| == |t.rows|
  {
    if ids != [] {
      var gone := Gone(t.rows, ids);
      DistinctBound(ids);
      SplitSize(gone, IdSet(ids));
      SplitSize(gone, t.rows.Keys);
      var kept := DeleteSpec(t, ids).0.rows;
      assert kept.Keys == t.rows.Keys - gone;
    }
  }

  lemma DeleteKeepsValid(t: Table, ids: seq<nat>)
    requires ValidTable(t)
    ensures ValidTable(DeleteSpec(t, ids).0)
  {
  }

  /** The table the admin routes work on. */
  class CertificateStore {
    var rows: map<nat, Certificate>
    var nextId: nat

    function State(): Table
      reads this
    {
      Table(rows, nextId)
    }

    ghost predicate Valid()
      reads this
    {
      ValidTable(State())
    }

    constructor ()
      ensures Valid() && rows == map[] && nextId == 1
    {
      rows := map[];
      nextId := 1;
    }

    /** One `INSERT`. */
    method Insert(c: CertRecord, fault: Fault) returns (a: Attempt)
      modifies this
      ensures (State(), a) == InsertOne(old(State()), c, fault)
    {
      if fault.Some? {
        return Error(fault.value);
      }
      if exists id :: id in rows && rows[id].certificateNo == c.certificateNo {
        return Duplicate;
      }
      rows := rows[nextId := Certificate(c.certificateNo, c.name, c.certDate, Enabled)];
      nextId := nextId + 1;
      a := Inserted;
    }

    /** `batchInsert(certificates)`: each certificate in turn, whatever befell the ones before. */
    method BatchInsert(certs: seq<CertRecord>, faults: nat -> Fault) returns (result: BatchResult)
      requires Valid()
      modifies this
      ensures Valid()
      ensures (State(), result) == BatchInsertSpec(old(State()), certs, faults)
    {
      if |certs| == 0 {
        return BatchResult(0, 0, []);
      }
      ghost var t := State();
      var insertedCount, skippedCount := 0, 0;
      var errors: seq<InsertError> := [];
      for i := 0 to |certs|
        invariant (State(), BatchResult(insertedCount, skippedCount, errors)) == Tally(t, certs, faults, i)
      {
        var cert := certs[i];
        var a := Insert(cert, faults(i));
        match a {
          case Inserted => insertedCount := insertedCount + 1;
          case Duplicate => skippedCount := skippedCount + 1;
          case Error(m) => errors := errors + [InsertError(cert.certificateNo, cert.name, m)];
        }
      }
      result := BatchResult(insertedCount, skippedCount, errors);
      TallyKeeps(t, certs, faults, |certs|);
    }

    /** `update(id, data)` */
    method Update(id: nat, data: CertUpdate) returns (outcome: UpdateOutcome)
      requires Valid()
      modifies this
      ensures Valid()
      ensures (State(), outcome) == UpdateSpec(old(State()), id, data)
    {
      UpdateKeepsValid(State(), id, data);
      if id !in rows {
        return Updated(0);
      }
      if exists other :: other in rows && other != id && rows[other].certificateNo == data.certificateNo {
        return DuplicateNumber;
      }
      var status := if data.status.Some? then data.status.value else rows[id].status;
      rows := rows[id := Certificate(data.certificateNo, data.name, data.certDate, status)];
      outcome := Updated(1);
    }

    /** `batchDelete(ids)` */
    method BatchDelete(ids: seq<nat>) returns (affectedRows: nat)
      requires Valid()
      modifies this
      ensures Valid()
      ensures (State(), affectedRows) == DeleteSpec(old(State()), ids)
    {
      if ids == [] {
        return 0;
      }
      DeleteKeepsValid(State(), ids);
      affectedRows := |Gone(rows, ids)|;
      rows := map id | id in rows && id !in ids :: rows[id];
    }

    /** `delete(id)`: the statement of a one-id batch. */
    method Delete(id: nat) returns (affectedRows: nat)
      requires Valid()
      modifies this
      ensures Valid()
      ensures (State(), affectedRows) == DeleteSpec(old(State()), [id])
      ensures affectedRows <= 1
    {
      DeleteBound(State(), [id]);
      affectedRows := BatchDelete([id]);
    }
  }
}
