/** The import loop of `addDataFromFile`: one pass over the input lines that
    opens an order at every order line, buffers the item lines of an order
    whose insert produced a key, and at the next order line (or at the end
    of the input) either executes and commits the buffered details or, when
    the order's insert failed, drops them and rolls back. */
module Orchestrator {
  import opened Records
  import opened Gateway

  /** Why an import stops: the runtime exceptions that escape the loop
      (`columns[0]`, `columns[1]` or `columns[2]` out of range, a quantity
      that `parseInt` refuses) and the `SQLException` of a failed batch,
      caught after the loop, which rolls back and rethrows. */
  datatype Fault = NoColumns | MissingDate | MissingField | BadQuantity | BatchFailed

  /** What the store answers while one line is processed: to the order
      insert the line makes, and to the batch it executes, if it does. */
  datatype Reply = Reply(order: OrderReply, batchOk: bool)

  /** The loop's variables and the connection they drive; `batch` is the
      detail batch held by the prepared statement. */
  datatype Session = Session(
    lastDate: Option<string>,
    badDate: bool,
    currentOrderId: int,
    batch: seq<Detail>,
    totalInserts: seq<int>,
    conn: Connection)

  /** The state after a step, and the fault that ended the import there, if any. */
  datatype Next = Next(s: Session, fault: Option<Fault>)

  /** How an import ends: the count it reports and the rows it made
      durable, or the fault that aborted it and the rows it had made durable
      by then. The store starts empty, so `store` holds this import's rows. */
  datatype Outcome = Done(reported: nat, store: Tables) | Aborted(fault: Fault, store: Tables)

  const Start := Session(None, false, -1, [], [], Connection(NoRows, NoRows))

  predicate IsOrderTag(f: string) { EqualsIgnoreCase(f, "order") }
  predicate IsItemTag(f: string) { EqualsIgnoreCase(f, "item") }

  /** `executeBatch` then `commit`: the buffered details become durable rows
      and their counts join `totalInserts`; a failing batch rolls back and
      ends the import. */
  function ExecuteAndCommit(s: Session, batchOk: bool): Next {
    if batchOk then
      Next(s.(batch := [],
              totalInserts := s.totalInserts + UpdateCounts(|s.batch|),
              conn := Commit(WriteDetails(s.conn, s.batch))), None)
    else
      Next(s.(conn := Rollback(s.conn)), Some(BatchFailed))
  }

  /** Closing the order that is open, if one is: after a failed order insert
      the batch is cleared, the flags reset and the transaction rolled back;
      otherwise the batch is executed and committed. */
  function CloseOrder(s: Session, batchOk: bool): Next {
    if s.lastDate.None? then Next(s, None)
    else if s.badDate then
      Next(s.(lastDate := None, badDate := false, batch := [], conn := Rollback(s.conn)), None)
    else ExecuteAndCommit(s, batchOk)
  }

  /** Opening a new order with its date text: a rejected insert sets
      `badDate` and keeps the previous order id; otherwise the order id
      becomes whatever `insertOrder` returned. */
  function OpenOrder(s: Session, date: string, reply: OrderReply): Session {
    match reply
    case Rejected => s.(lastDate := Some(date), badDate := true)
    case Updated(count, key) =>
      s.(lastDate := Some(date),
         currentOrderId := GeneratedKey(count, key),
         conn := if count > 0 then WriteOrder(s.conn, OrderRow(date, key)) else s.conn)
  }

  /** An item line that passed the guard: its quantity and description are
      read, and one entry joins the batch under the current order id. */
  function BufferItem(s: Session, columns: seq<string>): Next
    requires |columns| >= 1
  {
    if |columns| < 2 then Next(s, Some(MissingField))
    else match ParseInt(columns[1])
      case None => Next(s, Some(BadQuantity))
      case Some(quantity) =>
        if |columns| < 3 then Next(s, Some(MissingField))
        else Next(s.(batch := s.batch + [Detail(quantity, columns[2], s.currentOrderId)]), None)
  }

  /** One turn of the loop over the input lines. */
  function ProcessLine(s: Session, line: string, reply: Reply): Next {
    var columns := Split(line);
    if |columns| == 0 then Next(s, Some(NoColumns))
    else if IsOrderTag(columns[0]) then
      var closed := CloseOrder(s, reply.batchOk);
      if closed.fault.Some? then closed
      else if |columns| < 2 then Next(closed.s, Some(MissingDate))
      else Next(OpenOrder(closed.s, columns[1], reply.order), None)
    else if IsItemTag(columns[0]) && s.lastDate.Some? && s.currentOrderId > 0 then
      BufferItem(s, columns)
    else Next(s, None)
  }

  /** After the last line: the batch is executed and committed unless the
      last order's insert failed; then one more commit, unless the batch
      failed. */
  function EndOfInput(s: Session, batchOk: bool): Next {
    if !s.badDate then
      var closed := ExecuteAndCommit(s, batchOk);
      if closed.fault.Some? then closed
      else Next(closed.s.(conn := Commit(closed.s.conn)), None)
    else Next(s.(conn := Commit(s.conn)), None)
  }

  /** The lines processed in order from `s`, stopping at the first fault. */
  function RunFrom(s: Session, lines: seq<string>, replies: seq<Reply>): Next
    requires |replies| == |lines|
    decreases |lines|
  {
    if lines == [] then Next(s, None)
    else
      var n := |lines| - 1;
      var before := RunFrom(s, lines[..n], replies[..n]);
      if before.fault.Some? then before else ProcessLine(before.s, lines[n], replies[n])
  }

  /** A whole import: every line, then the end of the input. */
  function Import(lines: seq<string>, replies: seq<Reply>, endBatchOk: bool): Outcome
    requires |replies| == |lines|
  {
    var run := RunFrom(Start, lines, replies);
    if run.fault.Some? then Aborted(run.fault.value, run.s.conn.committed)
    else
      var end := EndOfInput(run.s, endBatchOk);
      if end.fault.Some? then Aborted(end.fault.value, end.s.conn.committed)
      else Done(|end.s.totalInserts|, end.s.conn.committed)
  }

  /** The variables of `addDataFromFile`, updated in place line by line. */
  class Importer {
    var lastDate: Option<string>
    var badDate: bool
    var currentOrderId: int
    var batch: seq<Detail>
    var totalInserts: seq<int>
    var conn: Connection

    function State(): Session
      reads this
    {
      Session(lastDate, badDate, currentOrderId, batch, totalInserts, conn)
    }

    constructor ()
      ensures State() == Start
    {
      lastDate := None;
      currentOrderId := -1;
      badDate := false;
      batch := [];
      totalInserts := [];
      conn := Connection(NoRows, NoRows);
    }

    /** `insertOrder`: the single-row insert of an order with its date text.
        `None` is the `SQLException`; otherwise the generated key, or -1
        when no row was inserted or no key came back. */
    method InsertOrder(orderDate: string, reply: OrderReply) returns (id: Option<int>)
      modifies this`conn
      ensures id.None? <==> reply.Rejected?
      ensures id.Some? && id.value != -1 ==> reply.count > 0 && reply.key == id
      ensures reply.Updated? && reply.count > 0 && reply.key.Some? ==> id == reply.key
      ensures reply.Updated? && (reply.count <= 0 || reply.key.None?) ==> id == Some(-1)
      ensures conn == if reply.Updated? && reply.count > 0
                      then WriteOrder(old(conn), OrderRow(orderDate, reply.key))
                      else old(conn)
    {
      match reply
      case Rejected =>
        id := None;
      case Updated(insertedCount, generatedKey) =>
        var newOrderId := -1;
        if insertedCount > 0 {
          conn := WriteOrder(conn, OrderRow(orderDate, generatedKey));
          if generatedKey.Some? {
            newOrderId := generatedKey.value;
          }
        }
        id := Some(newOrderId);
    }

    /** `insertOrderDetails`: exactly one entry joins the batch; nothing is
        sent to the store. */
    method InsertOrderDetails(quantity: int, description: string, orderId: int)
      modifies this`batch
      ensures batch == old(batch) + [Detail(quantity, description, orderId)]
    {
      batch := batch + [Detail(quantity, description, orderId)];
    }

    /** `executeBatch` then `commit`, shared by the two places that close a
        valid order. */
    method ExecuteBatchAndCommit(batchOk: bool) returns (fault: Option<Fault>)
      modifies this`batch, this`totalInserts, this`conn
      ensures ExecuteAndCommit(old(State()), batchOk) == Next(State(), fault)
    {
      if !batchOk {
        conn := Rollback(conn);
        return Some(BatchFailed);
      }
      var inserts := UpdateCounts(|batch|);
      conn := WriteDetails(conn, batch);
      batch := [];
      totalInserts := totalInserts + inserts;
      conn := Commit(conn);
      fault := None;
    }

    /** One line of the input. */
    method Step(line: string, reply: Reply) returns (fault: Option<Fault>)
      modifies this
      ensures ProcessLine(old(State()), line, reply) == Next(State(), fault)
    {
      var columns := Split(line);
      if |columns| == 0 {
        return Some(NoColumns);
      }
      if IsOrderTag(columns[0]) {
        if lastDate.Some? {
          if badDate {
            lastDate := None;
            badDate := false;
            batch := [];
            conn := Rollback(conn);
          } else {
            fault := ExecuteBatchAndCommit(reply.batchOk);
            if fault.Some? {
              return;
            }
          }
        }
        if |columns| < 2 {
          return Some(MissingDate);
        }
        lastDate := Some(columns[1]);
        var id := InsertOrder(columns[1], reply.order);
        match id {
          case None =>
            badDate := true;
          case Some(newId) =>
            currentOrderId := newId;
        }
        fault := None;
      } else if IsItemTag(columns[0]) && lastDate.Some? && currentOrderId > 0 {
        if |columns| < 2 {
          return Some(MissingField);
        }
        var newQuantity := ParseInt(columns[1]);
        if newQuantity.None? {
          return Some(BadQuantity);
        }
        if |columns| < 3 {
          return Some(MissingField);
        }
        InsertOrderDetails(newQuantity.value, columns[2], currentOrderId);
        fault := None;
      } else {
        fault := None;
      }
    }

    /** The end of the input. */
    method Finish(batchOk: bool) returns (fault: Option<Fault>)
      modifies this
      ensures EndOfInput(old(State()), batchOk) == Next(State(), fault)
    {
      if !badDate {
        fault := ExecuteBatchAndCommit(batchOk);
        if fault.Some? {
          return;
        }
      }
      conn := Commit(conn);
      fault := None;
    }
  }

  /** `addDataFromFile`, given the lines of the file and the store's answers:
      one `Importer` driven over every line, then closed at the end. */
  method AddDataFromFile(lines: seq<string>, replies: seq<Reply>, endBatchOk: bool)
    returns (outcome: Outcome)
    requires |replies| == |lines|
    ensures outcome == Import(lines, replies, endBatchOk)
  {
    var importer := new Importer();
    var i := 0;
    while i < |lines|
      invariant 0 <= i <= |lines|
      invariant RunFrom(Start, lines[..i], replies[..i]) == Next(importer.State(), None)
    {
      assert lines[..i + 1][..i] == lines[..i] && replies[..i + 1][..i] == replies[..i];
      var fault := importer.Step(lines[i], replies[i]);
      if fault.Some? {
        AbortIsFinal(lines, replies, i + 1);
        return Aborted(fault.value, importer.conn.committed);
      }
      i := i + 1;
    }
    assert lines[..i] == lines && replies[..i] == replies;
    var fault := importer.Finish(endBatchOk);
    if fault.Some? {
      return Aborted(fault.value, importer.conn.committed);
    }
    outcome := Done(|importer.totalInserts|, importer.conn.committed);
  }

  /** Once a line has aborted the import, the lines after it are never read. */
  lemma {:induction false} AbortIsFinal(lines: seq<string>, replies: seq<Reply>, k: nat)
    requires |replies| == |lines| && k <= |lines|
    requires RunFrom(Start, lines[..k], replies[..k]).fault.Some?
    ensures RunFrom(Start, lines, replies) == RunFrom(Start, lines[..k], replies[..k])
    decreases |lines| - k
  {
    if k < |lines| {
      assert lines[..k + 1][..k] == lines[..k] && replies[..k + 1][..k] == replies[..k];
      AbortIsFinal(lines, replies, k + 1);
    } else {
      assert lines[..k] == lines && replies[..k] == replies;
    }
  }
}
