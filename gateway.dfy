/** The store as the import loop sees it: the two tables, the answers of the
    order insert, and the one connection with auto-commit off, whose rows
    become durable only at `commit` and are dropped by `rollback`. */
module Gateway {
  import opened Records

  /** A row of the `order` table; `key` is the generated key the insert
      reported, if it reported one. */
  datatype OrderRow = OrderRow(date: string, key: Option<int>)

  /** One `(quantity, item_description, order_id)` entry of the detail
      batch, and the row of `order_details` it becomes. */
  datatype Detail = Detail(quantity: int, description: string, orderId: int)

  datatype Tables = Tables(orders: seq<OrderRow>, details: seq<Detail>)

  const NoRows := Tables([], [])

  /** What the store answers to the single-row order insert: the update
      count and the generated key returned by `executeUpdate` and
      `getGeneratedKeys`, or an `SQLException` (a date the store does not
      accept, or any other failure of the insert), which adds no row. */
  datatype OrderReply = Updated(count: int, key: Option<int>) | Rejected

  /** The connection: rows already committed, and rows written since the
      last `commit` or `rollback`. */
  datatype Connection = Connection(committed: Tables, pending: Tables)

  function Append(a: Tables, b: Tables): Tables {
    Tables(a.orders + b.orders, a.details + b.details)
  }

  /** `conn.commit()`: everything written so far becomes durable. */
  function Commit(c: Connection): Connection {
    Connection(Append(c.committed, c.pending), NoRows)
  }

  /** `conn.rollback()`: everything written since the last commit is dropped. */
  function Rollback(c: Connection): Connection {
    Connection(c.committed, NoRows)
  }

  function WriteOrder(c: Connection, row: OrderRow): Connection {
    c.(pending := c.pending.(orders := c.pending.orders + [row]))
  }

  /** `executeBatch` that succeeds: one row per buffered entry, in order. */
  function WriteDetails(c: Connection, batch: seq<Detail>): Connection {
    c.(pending := c.pending.(details := c.pending.details + batch))
  }

  /** The key `insertOrder` hands back: the generated key when the update
      count is positive and the store returned a key, otherwise -1. */
  function GeneratedKey(count: int, key: Option<int>): (id: int)
    ensures id != -1 ==> count > 0 && key == Some(id)
    ensures count > 0 && key.Some? ==> id == key.value
  {
    if count > 0 && key.Some? then key.value else -1
  }

  /** The update count of each entry of a batch that `executeBatch` ran:
      a single-row insert reports one row. */
  function UpdateCounts(n: nat): (r: seq<int>)
    ensures |r| == n
  {
    seq(n, _ => 1)
  }
}
