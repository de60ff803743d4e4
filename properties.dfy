/** What the import loop guarantees: the invariant it keeps between lines,
    what one order line, item line or the end of the input does, and that a
    completed import stores exactly the rows a plain reading of the input
    attributes to its accepted orders. */
module ImportProperties {
  import opened Records
  import opened Gateway
  import opened Orchestrator

  // ---------------------------------------------------------------------
  // The invariant of the loop
  // ---------------------------------------------------------------------

  ghost predicate HasKey(orders: seq<OrderRow>, k: int) {
    exists i :: 0 <= i < |orders| && orders[i].key == Some(k)
  }

  /** Every detail row names the generated key of an order row beside it. */
  ghost predicate KeysResolve(t: Tables) {
    forall j :: 0 <= j < |t.details| ==> HasKey(t.orders, t.details[j].orderId)
  }

  /** Between two lines: no detail row is ever left uncommitted; before the
      first order nothing is buffered or pending; after a rejected order
      insert nothing is pending; every buffered entry carries the current,
      positive order id, whose order row exists; the count of inserts is
      the number of durable detail rows. */
  ghost predicate Inv(s: Session) {
    && (s.lastDate.None? ==> s.batch == [] && !s.badDate && s.conn.pending.orders == [])
    && s.conn.pending.details == []
    && (s.badDate ==> s.conn.pending.orders == [])
    && (forall j :: 0 <= j < |s.batch| ==> s.batch[j].orderId == s.currentOrderId)
    && (s.batch != [] ==> s.currentOrderId > 0)
    && (s.currentOrderId > 0 ==>
          HasKey(s.conn.committed.orders + s.conn.pending.orders, s.currentOrderId))
    && |s.totalInserts| == |s.conn.committed.details|
    && KeysResolve(s.conn.committed)
  }

  lemma HasKeyExtend(orders: seq<OrderRow>, more: seq<OrderRow>, k: int)
    requires HasKey(orders, k)
    ensures HasKey(orders + more, k)
  {
    var i :| 0 <= i < |orders| && orders[i].key == Some(k);
    assert (orders + more)[i] == orders[i];
  }

  lemma KeysResolveExtend(t: Tables, orders: seq<OrderRow>, details: seq<Detail>)
    requires KeysResolve(t)
    requires forall j :: 0 <= j < |details| ==> HasKey(t.orders + orders, details[j].orderId)
    ensures KeysResolve(Tables(t.orders + orders, t.details + details))
  {
    var u := Tables(t.orders + orders, t.details + details);
    forall j | 0 <= j < |u.details| ensures HasKey(u.orders, u.details[j].orderId) {
      if j < |t.details| {
        HasKeyExtend(t.orders, orders, t.details[j].orderId);
      } else {
        assert u.details[j] == details[j - |t.details|];
      }
    }
  }

  lemma StartInv()
    ensures Inv(Start)
  {
  }

  /** Executing and committing a batch keeps the invariant and resolves
      every new detail row to its order. */
  lemma ExecuteKeepsInv(s: Session)
    requires Inv(s) && !s.badDate
    ensures var next := ExecuteAndCommit(s, true).s;
      Inv(next) && next.batch == [] && next.conn.pending == NoRows
  {
    var c := s.conn;
    var next := ExecuteAndCommit(s, true).s;
    assert next.conn.committed.orders + next.conn.pending.orders == c.committed.orders + c.pending.orders;
    forall j | 0 <= j < |s.batch|
      ensures HasKey(c.committed.orders + c.pending.orders, s.batch[j].orderId)
    {
    }
    KeysResolveExtend(c.committed, c.pending.orders, s.batch);
    assert c.committed.details + (c.pending.details + s.batch) == c.committed.details + s.batch;
  }

  /** Every line that does not abort the import keeps the invariant. */
  lemma StepKeepsInv(s: Session, line: string, reply: Reply)
    requires Inv(s)
    ensures var next := ProcessLine(s, line, reply);
      next.fault.None? ==> Inv(next.s)
  {
    var columns := Split(line);
    var next := ProcessLine(s, line, reply);
    if |columns| > 0 && IsOrderTag(columns[0]) && next.fault.None? {
      var closed := CloseOrder(s, reply.batchOk);
      if s.lastDate.Some? && !s.badDate {
        ExecuteKeepsInv(s);
      }
      assert Inv(closed.s) && closed.s.batch == [] && !closed.s.badDate;
      assert closed.s.conn.pending.orders == [];
      match reply.order
      case Rejected =>
      case Updated(count, key) =>
        var id := GeneratedKey(count, key);
        var c := next.s.conn;
        if id > 0 {
          assert c.pending.orders[|c.pending.orders| - 1].key == Some(id);
          assert (c.committed.orders + c.pending.orders)[|c.committed.orders| + |c.pending.orders| - 1]
                 == c.pending.orders[|c.pending.orders| - 1];
        }
    }
  }

  /** Along a run, aborted or not, the durable detail rows always resolve
      to durable order rows, and the invariant holds unless the run aborted. */
  lemma {:induction false} RunKeepsInv(lines: seq<string>, replies: seq<Reply>)
    requires |replies| == |lines|
    ensures var run := RunFrom(Start, lines, replies);
      KeysResolve(run.s.conn.committed) && (run.fault.None? ==> Inv(run.s))
    decreases |lines|
  {
    if lines == [] {
      StartInv();
    } else {
      var n := |lines| - 1;
      RunKeepsInv(lines[..n], replies[..n]);
      var prior := RunFrom(Start, lines[..n], replies[..n]);
      if prior.fault.None? {
        StepKeepsInv(prior.s, lines[n], replies[n]);
        StepCommittedResolves(prior.s, lines[n], replies[n]);
      }
    }
  }

  /** No import, finished or aborted, ever leaves a durable detail row whose
      order row is not durable with that key. */
  lemma DurableKeysResolve(lines: seq<string>, replies: seq<Reply>, endBatchOk: bool)
    requires |replies| == |lines|
    ensures KeysResolve(Import(lines, replies, endBatchOk).store)
  {
    RunKeepsInv(lines, replies);
    var run := RunFrom(Start, lines, replies);
    if run.fault.None? {
      EndKeepsInv(run.s, endBatchOk);
      EndCommittedResolves(run.s, endBatchOk);
    }
  }

  /** Even a line that aborts leaves the durable detail rows resolvable. */
  lemma StepCommittedResolves(s: Session, line: string, reply: Reply)
    requires Inv(s)
    ensures KeysResolve(ProcessLine(s, line, reply).s.conn.committed)
  {
    var columns := Split(line);
    if |columns| > 0 && IsOrderTag(columns[0]) && s.lastDate.Some? && !s.badDate && reply.batchOk {
      ExecuteKeepsInv(s);
    }
  }

  // ---------------------------------------------------------------------
  // One line at a time
  // ---------------------------------------------------------------------

  /** An order line first closes the order that is open. After a rejected
      insert nothing of that order reaches the store: the batch is cleared,
      the durable rows and the count stay as they were. Otherwise the
      buffered details become durable rows after those already committed,
      and the count grows by one per entry. Either way the batch the new
      order starts with is empty. */
  lemma OrderLineClosesPrevious(s: Session, line: string, reply: Reply)
    requires Inv(s)
    requires |Split(line)| >= 2 && IsOrderTag(Split(line)[0])
    requires s.lastDate.Some?
    ensures var next := ProcessLine(s, line, reply);
      (s.badDate ==>
         next.fault.None? &&
         next.s.conn.committed == s.conn.committed &&
         next.s.totalInserts == s.totalInserts &&
         next.s.batch == [] && next.s.lastDate == Some(Split(line)[1])) &&
      (!s.badDate && reply.batchOk ==>
         next.fault.None? &&
         next.s.conn.committed.details == s.conn.committed.details + s.batch &&
         next.s.conn.committed.orders == s.conn.committed.orders + s.conn.pending.orders &&
         next.s.totalInserts == s.totalInserts + UpdateCounts(|s.batch|) &&
         next.s.batch == []) &&
      (!s.badDate && !reply.batchOk ==>
         next.fault == Some(BatchFailed) && next.s.conn.committed == s.conn.committed)
  {
  }

  /** A rejected order insert is swallowed: the loop goes on with `badDate`
      set, `lastDate` holding the rejected date text and the previous order
      id kept, and no row written. */
  lemma RejectedOrderKeepsId(s: Session, line: string, reply: Reply)
    requires Inv(s)
    requires |Split(line)| >= 2 && IsOrderTag(Split(line)[0])
    requires reply.order.Rejected? && (s.lastDate.Some? && !s.badDate ==> reply.batchOk)
    ensures var next := ProcessLine(s, line, reply);
      next.fault.None? && next.s.badDate &&
      next.s.lastDate == Some(Split(line)[1]) &&
      next.s.currentOrderId == s.currentOrderId &&
      next.s.conn.pending == NoRows
  {
    if s.lastDate.Some? && !s.badDate {
      ExecuteKeepsInv(s);
    }
  }

  /** An item line changes the state exactly when its tag is `item`, an
      order is open and the current order id is positive; then it either
      aborts the import or appends exactly one entry to the batch, the
      quantity it reads with `parseInt`, its description and the current id,
      and sends nothing to the store. Every other line changes nothing. */
  lemma ItemLineBuffersOnly(s: Session, line: string, reply: Reply)
    requires |Split(line)| >= 1 && !IsOrderTag(Split(line)[0])
    ensures var next := ProcessLine(s, line, reply);
      var columns := Split(line);
      var guard := IsItemTag(columns[0]) && s.lastDate.Some? && s.currentOrderId > 0;
      (!guard ==> next == Next(s, None)) &&
      (guard && next.fault.None? ==>
         |columns| >= 3 && ParseInt(columns[1]).Some? &&
         next.s == s.(batch := s.batch + [Detail(ParseInt(columns[1]).value, columns[2], s.currentOrderId)]))
  {
  }

  /** An order insert that produces no key (no row counted, or no key
      returned) does not set `badDate`, but every item line after it falls
      through the guard and changes nothing. */
  lemma NoKeyDropsItems(s: Session, orderLine: string, reply: Reply, itemLine: string, itemReply: Reply)
    requires Inv(s)
    requires |Split(orderLine)| >= 2 && IsOrderTag(Split(orderLine)[0])
    requires reply.order.Updated? && GeneratedKey(reply.order.count, reply.order.key) == -1
    requires s.lastDate.Some? && !s.badDate ==> reply.batchOk
    requires |Split(itemLine)| >= 1 && IsItemTag(Split(itemLine)[0])
    ensures var after := ProcessLine(s, orderLine, reply);
      after.fault.None? && !after.s.badDate && after.s.currentOrderId == -1 &&
      ProcessLine(after.s, itemLine, itemReply) == Next(after.s, None)
  {
    if s.lastDate.Some? && !s.badDate {
      ExecuteKeepsInv(s);
    }
  }

  /** The end of the input closes the last order once: unless its insert
      was rejected the batch, empty or not, is executed and committed;
      after a rejected insert no detail row is executed at all. */
  lemma EndOfInputClosesOnce(s: Session, batchOk: bool)
    requires Inv(s)
    ensures var end := EndOfInput(s, batchOk);
      (!s.badDate && batchOk ==>
         end.fault.None? &&
         end.s.conn.committed.details == s.conn.committed.details + s.batch &&
         end.s.totalInserts == s.totalInserts + UpdateCounts(|s.batch|) &&
         end.s.conn.pending == NoRows) &&
      (!s.badDate && !batchOk ==>
         end.fault == Some(BatchFailed) && end.s.conn.committed == s.conn.committed) &&
      (s.badDate ==>
         end.fault.None? &&
         end.s.conn.committed == s.conn.committed &&
         end.s.totalInserts == s.totalInserts)
  {
    assert s.conn.pending.details == [];
    if s.badDate {
      assert s.conn.pending == NoRows;
      assert s.conn.committed.orders + [] == s.conn.committed.orders;
      assert s.conn.committed.details + [] == s.conn.committed.details;
    } else {
      assert s.conn.committed.details + (s.conn.pending.details + s.batch) == s.conn.committed.details + s.batch;
    }
  }

  lemma CommitNothing(c: Connection)
    requires c.pending == NoRows
    ensures Commit(c) == c
  {
    assert c.committed.orders + [] == c.committed.orders;
    assert c.committed.details + [] == c.committed.details;
  }

  lemma EndKeepsInv(s: Session, batchOk: bool)
    requires Inv(s)
    ensures var end := EndOfInput(s, batchOk);
      end.fault.None? ==> Inv(end.s)
  {
    if !s.badDate {
      ExecuteKeepsInv(s);
      if batchOk {
        CommitNothing(ExecuteAndCommit(s, true).s.conn);
      }
    } else {
      CommitNothing(s.conn);
    }
  }

  lemma EndCommittedResolves(s: Session, batchOk: bool)
    requires Inv(s)
    ensures KeysResolve(EndOfInput(s, batchOk).s.conn.committed)
  {
    if !s.badDate && batchOk {
      ExecuteKeepsInv(s);
      CommitNothing(ExecuteAndCommit(s, true).s.conn);
    } else if s.badDate {
      CommitNothing(s.conn);
    }
  }

  /** The import aborts, rather than skipping the line, on a line of commas
      alone, on an order line without a date column, and on an item line
      that passes the guard but lacks a column or has a quantity
      `parseInt` refuses. */
  lemma MalformedLinesAbort(s: Session, line: string, reply: Reply)
    ensures var next := ProcessLine(s, line, reply);
      var columns := Split(line);
      (columns == [] ==> next.fault == Some(NoColumns)) &&
      (|columns| == 1 && IsOrderTag(columns[0]) && CloseOrder(s, reply.batchOk).fault.None? ==>
         next.fault == Some(MissingDate)) &&
      (|columns| >= 1 && IsItemTag(columns[0]) && s.lastDate.Some? && s.currentOrderId > 0 ==>
         ((|columns| < 3 || ParseInt(columns[1]).None?) <==> next.fault.Some?))
  {
  }

  // ---------------------------------------------------------------------
  // Whole runs
  // ---------------------------------------------------------------------

  /** A run that visits the given states one line after the other, with
      no line aborting, ends in the last of them. */
  lemma {:induction false} RunThrough(s: Session, lines: seq<string>, replies: seq<Reply>, states: seq<Session>)
    requires |replies| == |lines| && |states| == |lines| + 1 && states[0] == s
    requires forall k :: 0 <= k < |lines| ==>
      ProcessLine(states[k], lines[k], replies[k]) == Next(states[k + 1], None)
    ensures RunFrom(s, lines, replies) == Next(states[|lines|], None)
    decreases |lines|
  {
    if lines != [] {
      var n := |lines| - 1;
      RunThrough(s, lines[..n], replies[..n], states[..n + 1]);
    }
  }

  /** The durable rows and the count of inserts only ever grow: whatever a
      run commits is appended after what was committed before it. */
  lemma {:induction false} CommittedOnlyGrows(s: Session, lines: seq<string>, replies: seq<Reply>)
    requires |replies| == |lines|
    ensures var t := RunFrom(s, lines, replies).s;
      |s.conn.committed.orders| <= |t.conn.committed.orders| &&
      |s.conn.committed.details| <= |t.conn.committed.details| &&
      |s.totalInserts| <= |t.totalInserts| &&
      t.conn.committed.orders[..|s.conn.committed.orders|] == s.conn.committed.orders &&
      t.conn.committed.details[..|s.conn.committed.details|] == s.conn.committed.details &&
      t.totalInserts[..|s.totalInserts|] == s.totalInserts
    decreases |lines|
  {
    if lines != [] {
      var n := |lines| - 1;
      CommittedOnlyGrows(s, lines[..n], replies[..n]);
      var before := RunFrom(s, lines[..n], replies[..n]);
      if before.fault.None? {
        StepOnlyGrows(before.s, lines[n], replies[n]);
      }
    }
  }

  lemma StepOnlyGrows(s: Session, line: string, reply: Reply)
    ensures var t := ProcessLine(s, line, reply).s;
      |s.conn.committed.orders| <= |t.conn.committed.orders| &&
      |s.conn.committed.details| <= |t.conn.committed.details| &&
      |s.totalInserts| <= |t.totalInserts| &&
      t.conn.committed.orders[..|s.conn.committed.orders|] == s.conn.committed.orders &&
      t.conn.committed.details[..|s.conn.committed.details|] == s.conn.committed.details &&
      t.totalInserts[..|s.totalInserts|] == s.totalInserts
  {
    var t := ProcessLine(s, line, reply).s;
    var c := s.conn;
    var columns := Split(line);
    if |columns| > 0 && IsOrderTag(columns[0]) && s.lastDate.Some? && !s.badDate && reply.batchOk {
      var written := WriteDetails(c, s.batch);
      assert t.conn.committed == Append(c.committed, written.pending);
      assert t.totalInserts == s.totalInserts + UpdateCounts(|s.batch|);
    } else {
      assert t.conn.committed == c.committed && t.totalInserts == s.totalInserts;
    }
  }

  /** With the last order's insert rejected, the item lines that follow it
      (up to the next order line) are never persisted: they may be buffered
      under the stale previous id, but neither the end of the input nor the
      close at the next order line executes them. */
  lemma {:induction false} ItemsAfterRejectedNeverPersist(
    s: Session, lines: seq<string>, replies: seq<Reply>, closing: Reply, endBatchOk: bool)
    requires Inv(s) && s.badDate
    requires |replies| == |lines|
    requires forall i :: 0 <= i < |lines| ==> |Split(lines[i])| == 0 || !IsOrderTag(Split(lines[i])[0])
    ensures var run := RunFrom(s, lines, replies);
      run.s.badDate && run.s.conn == s.conn && run.s.totalInserts == s.totalInserts &&
      (run.fault.None? ==>
         EndOfInput(run.s, endBatchOk).s.conn.committed == s.conn.committed &&
         CloseOrder(run.s, closing.batchOk).s.conn.committed == s.conn.committed)
    decreases |lines|
  {
    if lines != [] {
      var n := |lines| - 1;
      forall i | 0 <= i < n ensures |Split(lines[..n][i])| == 0 || !IsOrderTag(Split(lines[..n][i])[0]) {
        assert lines[..n][i] == lines[i];
      }
      ItemsAfterRejectedNeverPersist(s, lines[..n], replies[..n], closing, endBatchOk);
    } else {
      CommitNothing(s.conn);
    }
  }

  // ---------------------------------------------------------------------
  // The reference reading of the input
  // ---------------------------------------------------------------------

  /** The id `insertOrder` leaves for the order: -1 when the insert throws. */
  function KeyOf(reply: OrderReply): int {
    match reply
    case Rejected => -1
    case Updated(count, key) => GeneratedKey(count, key)
  }

  predicate IsOrderLine(line: string) {
    |Split(line)| >= 2 && IsOrderTag(Split(line)[0])
  }

  /** The id of the order the next item line belongs to: the one the
      nearest order line before it produced, or -1 when there is none. */
  function Owner(lines: seq<string>, replies: seq<Reply>): int
    requires |replies| == |lines|
    decreases |lines|
  {
    if lines == [] then -1
    else
      var n := |lines| - 1;
      if IsOrderLine(lines[n]) then KeyOf(replies[n].order) else Owner(lines[..n], replies[..n])
  }

  /** The detail row an item line stands for, when its order has a positive id. */
  function ItemRow(line: string, owner: int): seq<Detail> {
    var columns := Split(line);
    if |columns| >= 3 && IsItemTag(columns[0]) && owner > 0 && ParseInt(columns[1]).Some?
    then [Detail(ParseInt(columns[1]).value, columns[2], owner)]
    else []
  }

  /** The order row an order line stands for, when its insert counted a row. */
  function OrderLineRow(line: string, reply: OrderReply): seq<OrderRow> {
    if IsOrderLine(line) && reply.Updated? && reply.count > 0
    then [OrderRow(Split(line)[1], reply.key)]
    else []
  }

  /** Every item line read as a detail row of the order above it. */
  function Attributed(lines: seq<string>, replies: seq<Reply>): seq<Detail>
    requires |replies| == |lines|
    decreases |lines|
  {
    if lines == [] then []
    else
      var n := |lines| - 1;
      Attributed(lines[..n], replies[..n]) + ItemRow(lines[n], Owner(lines[..n], replies[..n]))
  }

  /** Every order line whose insert counted a row, read as that row. */
  function OrderRows(lines: seq<string>, replies: seq<Reply>): seq<OrderRow>
    requires |replies| == |lines|
    decreases |lines|
  {
    if lines == [] then []
    else
      var n := |lines| - 1;
      OrderRows(lines[..n], replies[..n]) + OrderLineRow(lines[n], replies[n].order)
  }

  /** The order id an item line would be buffered under and kept: none
      before the first order and after a rejected insert. */
  function Effective(s: Session): int {
    if s.lastDate.Some? && !s.badDate then s.currentOrderId else -1
  }

  /** The detail rows that will reach the store if the import goes on
      without a fault: the durable ones, then the batch of an order whose
      insert was not rejected. */
  function Destined(s: Session): seq<Detail> {
    s.conn.committed.details + if s.badDate then [] else s.batch
  }

  lemma StepMatchesReference(s: Session, line: string, reply: Reply)
    requires Inv(s)
    requires ProcessLine(s, line, reply).fault.None?
    ensures var t := ProcessLine(s, line, reply).s;
      Effective(t) == (if IsOrderLine(line) then KeyOf(reply.order) else Effective(s)) &&
      Destined(t) == Destined(s) + ItemRow(line, Effective(s)) &&
      t.conn.committed.orders + t.conn.pending.orders ==
        s.conn.committed.orders + s.conn.pending.orders + OrderLineRow(line, reply.order)
  {
    var columns := Split(line);
    var t := ProcessLine(s, line, reply).s;
    if |columns| > 0 && IsOrderTag(columns[0]) {
      assert IsOrderLine(line);
      var c := s.conn;
      if s.lastDate.Some? && !s.badDate {
        assert c.committed.details + (c.pending.details + s.batch) == c.committed.details + s.batch;
      }
      var closed := CloseOrder(s, reply.batchOk).s;
      assert closed.conn.committed.orders + closed.conn.pending.orders ==
             c.committed.orders + c.pending.orders;
      assert Destined(closed) == Destined(s);
    } else if |columns| > 0 && IsItemTag(columns[0]) && s.lastDate.Some? && s.currentOrderId > 0 {
      assert !IsOrderLine(line);
    } else {
      assert !IsOrderLine(line);
    }
  }

  /** Between lines of a run that has not aborted, the state agrees with
      the reference reading of the lines read so far. */
  lemma {:induction false} RunMatchesReference(lines: seq<string>, replies: seq<Reply>)
    requires |replies| == |lines|
    requires RunFrom(Start, lines, replies).fault.None?
    ensures var s := RunFrom(Start, lines, replies).s;
      Inv(s) && Effective(s) == Owner(lines, replies) &&
      Destined(s) == Attributed(lines, replies) &&
      s.conn.committed.orders + s.conn.pending.orders == OrderRows(lines, replies)
    decreases |lines|
  {
    if lines == [] {
      StartInv();
    } else {
      var n := |lines| - 1;
      RunMatchesReference(lines[..n], replies[..n]);
      var before := RunFrom(Start, lines[..n], replies[..n]);
      StepKeepsInv(before.s, lines[n], replies[n]);
      StepMatchesReference(before.s, lines[n], replies[n]);
    }
  }

  /** A completed import stores exactly what a plain reading of the input
      gives: one order row per order line whose insert counted a row, one
      detail row per item line under the positive id of the order line
      above it (so nothing under a rejected order, and nothing before the
      first order), and it reports the number of detail rows stored. */
  lemma ImportMatchesReference(lines: seq<string>, replies: seq<Reply>, endBatchOk: bool)
    requires |replies| == |lines|
    requires Import(lines, replies, endBatchOk).Done?
    ensures var out := Import(lines, replies, endBatchOk);
      out.store == Tables(OrderRows(lines, replies), Attributed(lines, replies)) &&
      out.reported == |Attributed(lines, replies)|
  {
    RunMatchesReference(lines, replies);
    var s := RunFrom(Start, lines, replies).s;
    EndKeepsInv(s, endBatchOk);
    EndOfInputClosesOnce(s, endBatchOk);
    var end := EndOfInput(s, endBatchOk).s;
    if s.badDate {
      assert s.conn.pending == NoRows;
      assert s.conn.committed.orders + [] == s.conn.committed.orders;
    }
  }

  /** One line, whether it aborts or not, makes durable only rows that
      the reference reading holds for the lines read so far and this one. */
  lemma StepCommitsWithinReference(s: Session, line: string, reply: Reply)
    requires Inv(s)
    ensures var t := ProcessLine(s, line, reply).s;
      t.conn.committed.details <= Destined(s) + ItemRow(line, Effective(s)) &&
      t.conn.committed.orders <=
        s.conn.committed.orders + s.conn.pending.orders + OrderLineRow(line, reply.order)
  {
    var next := ProcessLine(s, line, reply);
    var t := next.s;
    if next.fault.None? {
      StepMatchesReference(s, line, reply);
      assert t.conn.committed.details <= Destined(t);
      assert t.conn.committed.orders <= t.conn.committed.orders + t.conn.pending.orders;
    } else {
      var c := s.conn;
      assert c.committed.details <= Destined(s);
      var columns := Split(line);
      if |columns| > 0 && IsOrderTag(columns[0]) && s.lastDate.Some? && !s.badDate && reply.batchOk {
        assert t.conn.committed.details == c.committed.details + (c.pending.details + s.batch);
        assert t.conn.committed.details == Destined(s);
      }
      assert t.conn.committed.orders <= c.committed.orders + c.pending.orders;
    }
  }

  /** After any run, finished or aborted, the durable rows are a prefix of
      the reference reading of the lines read. */
  lemma {:induction false} RunCommitsWithinReference(lines: seq<string>, replies: seq<Reply>)
    requires |replies| == |lines|
    ensures var s := RunFrom(Start, lines, replies).s;
      s.conn.committed.details <= Attributed(lines, replies) &&
      s.conn.committed.orders <= OrderRows(lines, replies)
    decreases |lines|
  {
    if lines != [] {
      var n := |lines| - 1;
      var before := RunFrom(Start, lines[..n], replies[..n]);
      RunCommitsWithinReference(lines[..n], replies[..n]);
      if before.fault.None? {
        RunMatchesReference(lines[..n], replies[..n]);
        StepCommitsWithinReference(before.s, lines[n], replies[n]);
      }
    }
  }

  /** Whether it completes or aborts, an import stores no row that the
      reference reading does not give: the durable order rows and detail
      rows are prefixes of it, so no detail row under a rejected or keyless
      order, nor before the first order, is ever stored. */
  lemma ImportStoresWithinReference(lines: seq<string>, replies: seq<Reply>, endBatchOk: bool)
    requires |replies| == |lines|
    ensures var out := Import(lines, replies, endBatchOk);
      out.store.orders <= OrderRows(lines, replies) &&
      out.store.details <= Attributed(lines, replies)
  {
    var run := RunFrom(Start, lines, replies);
    RunCommitsWithinReference(lines, replies);
    if run.fault.None? && EndOfInput(run.s, endBatchOk).fault.None? {
      ImportMatchesReference(lines, replies, endBatchOk);
    }
  }

  // ---------------------------------------------------------------------
  // The worked example
  // ---------------------------------------------------------------------

  /** A column text the example uses: no comma, not empty. */
  predicate Text(t: string) { CommaFree(t) && t != "" }

  /** Two good orders around one whose date the store refuses:
      `order,<date1>`, `item,3,<w>`, `item,2,<g>`, `order,<bad>`,
      `item,9,<x>`, `order,<date2>`, `item,1,<t>`. */
  function ExampleLines(date1: string, w: string, g: string, bad: string, x: string,
                        date2: string, t: string): seq<string>
  {
    ["order," + date1, "item,3," + w, "item,2," + g, "order," + bad,
     "item,9," + x, "order," + date2, "item,1," + t]
  }

  /** The store gives keys 1 and 3 to the two good dates and throws on the
      bad one; every batch succeeds. */
  function ExampleReplies(): seq<Reply> {
    [Reply(Updated(1, Some(1)), true), Reply(Rejected, true), Reply(Rejected, true),
     Reply(Rejected, true), Reply(Rejected, true), Reply(Updated(1, Some(3)), true),
     Reply(Rejected, true)]
  }

  lemma OrderColumns(date: string)
    requires Text(date)
    ensures Split("order," + date) == ["order", date]
  {
    assert "order," + date == "order" + "," + date;
    SplitTwo("order", date);
  }

  lemma QuantityOfDigit(c: char)
    requires IsDigit(c)
    ensures ParseInt([c]) == Some(c as int - '0' as int)
  {
    var s := [c];
    assert Unsigned(s) == s && AllDigits(s);
    assert s[..|s| - 1] == [];
    assert DigitsValue(s) == c as int - '0' as int;
  }

  lemma ItemColumns(q: string, desc: string)
    requires Text(q) && Text(desc)
    ensures Split("item," + q + "," + desc) == ["item", q, desc]
  {
    assert "item," + q + "," + desc == "item" + "," + q + "," + desc;
    SplitThree("item", q, desc);
  }

  /** The state after each line of the example. */
  function ExampleStates(date1: string, w: string, g: string, bad: string, x: string,
                         date2: string, t: string): seq<Session>
  {
    var o1, o3 := OrderRow(date1, Some(1)), OrderRow(date2, Some(3));
    var d1, d2, d3 := Detail(3, w, 1), Detail(2, g, 1), Detail(1, t, 3);
    var s1 := Session(Some(date1), false, 1, [], [], Connection(NoRows, Tables([o1], [])));
    var s4 := Session(Some(bad), true, 1, [], [1, 1], Connection(Tables([o1], [d1, d2]), NoRows));
    var s6 := Session(Some(date2), false, 3, [], [1, 1], Connection(Tables([o1], [d1, d2]), Tables([o3], [])));
    [Start, s1, s1.(batch := [d1]), s1.(batch := [d1, d2]),
     s4, s4.(batch := [Detail(9, x, 1)]), s6, s6.(batch := [d3])]
  }

  lemma ExampleStep0(date1: string, w: string, g: string, bad: string, x: string,
                     date2: string, t: string)
    requires Text(date1) && Text(w) && Text(g) && Text(bad) && Text(x) && Text(date2) && Text(t)
    ensures var states := ExampleStates(date1, w, g, bad, x, date2, t);
      ProcessLine(states[0], ExampleLines(date1, w, g, bad, x, date2, t)[0], ExampleReplies()[0])
        == Next(states[1], None)
  {
    OrderColumns(date1);
  }

  lemma ExampleStep1(date1: string, w: string, g: string, bad: string, x: string,
                     date2: string, t: string)
    requires Text(date1) && Text(w) && Text(g) && Text(bad) && Text(x) && Text(date2) && Text(t)
    ensures var states := ExampleStates(date1, w, g, bad, x, date2, t);
      ProcessLine(states[1], ExampleLines(date1, w, g, bad, x, date2, t)[1], ExampleReplies()[1])
        == Next(states[2], None)
  {
    ItemColumns("3", w);
    QuantityOfDigit('3');
    assert "3" == ['3'];
    assert "item,3," + w == "item," + "3" + "," + w;
  }

  lemma ExampleStep2(date1: string, w: string, g: string, bad: string, x: string,
                     date2: string, t: string)
    requires Text(date1) && Text(w) && Text(g) && Text(bad) && Text(x) && Text(date2) && Text(t)
    ensures var states := ExampleStates(date1, w, g, bad, x, date2, t);
      ProcessLine(states[2], ExampleLines(date1, w, g, bad, x, date2, t)[2], ExampleReplies()[2])
        == Next(states[3], None)
  {
    ItemColumns("2", g);
    QuantityOfDigit('2');
    assert "2" == ['2'];
    assert "item,2," + g == "item," + "2" + "," + g;
  }

  lemma ExampleStep3(date1: string, w: string, g: string, bad: string, x: string,
                     date2: string, t: string)
    requires Text(date1) && Text(w) && Text(g) && Text(bad) && Text(x) && Text(date2) && Text(t)
    ensures var states := ExampleStates(date1, w, g, bad, x, date2, t);
      ProcessLine(states[3], ExampleLines(date1, w, g, bad, x, date2, t)[3], ExampleReplies()[3])
        == Next(states[4], None)
  {
    OrderColumns(bad);
    assert UpdateCounts(2) == [1, 1];
  }

  lemma ExampleStep4(date1: string, w: string, g: string, bad: string, x: string,
                     date2: string, t: string)
    requires Text(date1) && Text(w) && Text(g) && Text(bad) && Text(x) && Text(date2) && Text(t)
    ensures var states := ExampleStates(date1, w, g, bad, x, date2, t);
      ProcessLine(states[4], ExampleLines(date1, w, g, bad, x, date2, t)[4], ExampleReplies()[4])
        == Next(states[5], None)
  {
    ItemColumns("9", x);
    QuantityOfDigit('9');
    assert "9" == ['9'];
    assert "item,9," + x == "item," + "9" + "," + x;
  }

  lemma ExampleStep5(date1: string, w: string, g: string, bad: string, x: string,
                     date2: string, t: string)
    requires Text(date1) && Text(w) && Text(g) && Text(bad) && Text(x) && Text(date2) && Text(t)
    ensures var states := ExampleStates(date1, w, g, bad, x, date2, t);
      ProcessLine(states[5], ExampleLines(date1, w, g, bad, x, date2, t)[5], ExampleReplies()[5])
        == Next(states[6], None)
  {
    OrderColumns(date2);
  }

  lemma ExampleStep6(date1: string, w: string, g: string, bad: string, x: string,
                     date2: string, t: string)
    requires Text(date1) && Text(w) && Text(g) && Text(bad) && Text(x) && Text(date2) && Text(t)
    ensures var states := ExampleStates(date1, w, g, bad, x, date2, t);
      ProcessLine(states[6], ExampleLines(date1, w, g, bad, x, date2, t)[6], ExampleReplies()[6])
        == Next(states[7], None)
  {
    ItemColumns("1", t);
    QuantityOfDigit('1');
    assert "1" == ['1'];
    assert "item,1," + t == "item," + "1" + "," + t;
  }

  lemma ExampleRun(date1: string, w: string, g: string, bad: string, x: string,
                   date2: string, t: string)
    requires Text(date1) && Text(w) && Text(g) && Text(bad) && Text(x) && Text(date2) && Text(t)
    ensures RunFrom(Start, ExampleLines(date1, w, g, bad, x, date2, t), ExampleReplies())
      == Next(ExampleStates(date1, w, g, bad, x, date2, t)[7], None)
  {
    var lines, replies := ExampleLines(date1, w, g, bad, x, date2, t), ExampleReplies();
    var states := ExampleStates(date1, w, g, bad, x, date2, t);
    forall k | 0 <= k < 7
      ensures ProcessLine(states[k], lines[k], replies[k]) == Next(states[k + 1], None)
    {
      if k == 0 { ExampleStep0(date1, w, g, bad, x, date2, t); }
      else if k == 1 { ExampleStep1(date1, w, g, bad, x, date2, t); }
      else if k == 2 { ExampleStep2(date1, w, g, bad, x, date2, t); }
      else if k == 3 { ExampleStep3(date1, w, g, bad, x, date2, t); }
      else if k == 4 { ExampleStep4(date1, w, g, bad, x, date2, t); }
      else if k == 5 { ExampleStep5(date1, w, g, bad, x, date2, t); }
      else { ExampleStep6(date1, w, g, bad, x, date2, t); }
    }
    RunThrough(Start, lines, replies, states);
  }

  /** Whatever the texts: the two good orders are stored with their three
      details, the order with the rejected date and its item are absent,
      and the import reports 3. */
  lemma ExampleImport(date1: string, w: string, g: string, bad: string, x: string,
                      date2: string, t: string)
    requires Text(date1) && Text(w) && Text(g) && Text(bad) && Text(x) && Text(date2) && Text(t)
    ensures Import(ExampleLines(date1, w, g, bad, x, date2, t), ExampleReplies(), true) ==
      Done(3, Tables([OrderRow(date1, Some(1)), OrderRow(date2, Some(3))],
                     [Detail(3, w, 1), Detail(2, g, 1), Detail(1, t, 3)]))
  {
    ExampleRun(date1, w, g, bad, x, date2, t);
    assert UpdateCounts(1) == [1];
  }

  /** The example with concrete date and description texts. */
  lemma ExampleWithConcreteTexts()
    ensures Import(ExampleLines("2023-01-05", "widget", "gadget", "not-a-date", "ignored", "2023-02-10", "thing"),
                   ExampleReplies(), true) ==
      Done(3, Tables([OrderRow("2023-01-05", Some(1)), OrderRow("2023-02-10", Some(3))],
                     [Detail(3, "widget", 1), Detail(2, "gadget", 1), Detail(1, "thing", 3)]))
  {
    ExampleImport("2023-01-05", "widget", "gadget", "not-a-date", "ignored", "2023-02-10", "thing");
  }
}
