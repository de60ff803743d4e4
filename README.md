# Order import state machine of `Main.addDataFromFile`

This project models, in Dafny, the import loop of a small storefront
program that reads order records line by line and writes them into two
tables, `order` and `order_details`, over one connection with
auto-commit off. An input line is `order,<date>` or
`item,<quantity>,<description>`. Every other line is ignored, except a
line of commas alone, which aborts the import.

The loop keeps four variables: `lastDate`, `badDate`, `currentOrderId`
and the detail batch of the prepared statement. It also keeps the list
`totalInserts`, whose size is the reported count. An order line first
closes the open order. If that order's insert threw, the batch is
cleared and the transaction rolled back. Otherwise the batch is executed
and committed. The order line then tries to insert the new order. An
item line is buffered only while an order is open and the current order
id is positive. At the end of the input the batch is executed and
committed unless the last order's insert threw. One more commit follows
unless that batch fails.

Files and modules:

- `records.dfy` (`Records`): Java's `String.split(",")` with limit 0, an
  ASCII `equalsIgnoreCase`, and `Integer.parseInt` in radix 10.
- `gateway.dfy` (`Gateway`): the store as an oracle. It holds the rows,
  the answers to the order insert, and the connection's committed and
  uncommitted rows with `commit` and `rollback`. It also holds the
  key-or-`-1` rule of `insertOrder`.
- `orchestrator.dfy` (`Orchestrator`): the loop as specification
  functions (`ProcessLine`, `EndOfInput`, `RunFrom`, `Import`). The class
  `Importer` holds the loop's variables as fields, and its methods `Step`
  and `Finish` update them in place. The method `AddDataFromFile` drives
  an `Importer` over all lines, and each method is proved equal to its
  specification function.
- `properties.dfy` (`ImportProperties`): the loop invariant, what each
  kind of line does, and whole-run results. The main one: a completed
  import stores exactly the rows of a plain reading of the input. That
  reading makes one order row per counted order insert. It makes one
  detail row per item line, under the positive id of the order line above
  it. The file also proves the worked example (count 3).

The store's answers are a parameter. The store starts empty, so the
`store` of an outcome is what this import made durable. Each line comes
with a `Reply`: the answer to the order insert the line makes, and
whether the batch it executes succeeds. End of input gets one more batch answer. An order insert
either reports an update count and an optional generated key, or throws
(`Rejected`). A throwing insert adds no row.

Behaviour of the code worth noting:

- A line of commas alone (no columns, so `columns[0]` is out of range),
  an order line without a date column, and an item line that passes the
  guard but lacks a column or has a bad quantity, abort the whole import.
  They are not treated as unrecognised lines. Only `SQLException` is
  caught (Main.java:172, 221).
- After a rejected order insert, `currentOrderId` keeps the previous
  order's id. So item lines that follow are buffered under that stale id.
  They are never persisted: the next order line clears them, and the end
  of input skips the batch. A malformed one among them aborts the import
  when the stale id is positive.
- A failing batch does not leave a committed order without its details.
  The order row is still uncommitted when the batch fails, and the
  rollback at Main.java:223 drops it with the batch.

## Model

| member | source | states |
|---|---|---|
| `Records.SplitKeepsPieces` | Main.java:113 | `split(",")` makes a line with no comma one column, even when empty. Otherwise the columns are a prefix of the pieces between commas, every dropped piece is empty, and the last column is not empty. |
| `Records.JoinOfPieces` | Main.java:113 | Joining the pieces between commas with commas gives back the line. |
| `Records.PiecesOfJoin` | Main.java:113 | Cutting a comma-joined list of comma-free fields gives back the fields. |
| `Records.SplitOfJoin` | Main.java:113 | `split` gives back the fields a line was written from when the last field is not empty. |
| `Records.SplitThree` | Main.java:113 | A line `a,b,c` of comma-free texts with `c` not empty splits into exactly `[a, b, c]`. |
| `Records.NoColumnsIffOnlyCommas` | Main.java:113-128 | A line has no columns exactly when it is one or more commas and nothing else. Then `columns[0]` is out of range. |
| `Records.EqualsIgnoreCaseIsLowerEquality` | Main.java:128 | Comparing a tag ignoring case is the same as comparing the lower-cased texts. |
| `Records.ParseInt` | Main.java:186 | A quantity that parses has a 32-bit value. Its text is an optional `-` or `+` followed by one or more ASCII digits. |
| `Records.ParseIntIffWritten` | Main.java:186 | `parseInt` accepts a text exactly when it writes a 32-bit integer in decimal, and then it gives that integer. Apart from `Integer.toString` output, this allows a leading `+`, leading zeros after the sign, and `-0`. Everything else is refused. |
| `Records.ParseIntSamples` | Main.java:186 | `""`, `"+"`, `"-"`, `"1x"` and `" 3"` are refused. `"+5"`, `"007"` and `"-0"` give 5, 7 and 0. |
| `Records.ParseIntBounds` | Main.java:186 | `2147483648` is refused and `-2147483648` is accepted. |
| `Records.ParseShowInt` | Main.java:186 | Every 32-bit integer written in decimal parses back to itself. |
| `Gateway.GeneratedKey` | Main.java:230-246 | `insertOrder` returns something other than -1 only when the update count is positive and a key came back, and then it returns that key. |
| `Orchestrator.Importer.constructor` | Main.java:97-110 | The loop starts with no date, no bad date, order id -1, an empty batch, no inserts and nothing written. |
| `Orchestrator.Importer.InsertOrder` | Main.java:230-246 | The insert either throws (`None`) or returns the generated key. It returns -1 when the count is not positive or no key came back. It writes a row exactly when the count is positive. |
| `Orchestrator.Importer.InsertOrderDetails` | Main.java:251-258 | Exactly one `(quantity, description, orderId)` entry is appended to the batch, and nothing else changes. |
| `Orchestrator.Importer.ExecuteBatchAndCommit` | Main.java:149-157 | The new state is the batch executed and committed, with one count per entry added to `totalInserts`. A failing batch rolls back instead. |
| `Orchestrator.Importer.Step` | Main.java:111-201 | The fields after one line equal `ProcessLine` of the fields before it, fault included. |
| `Orchestrator.Importer.Finish` | Main.java:205-219 | The fields after the end of input equal `EndOfInput` of the fields before it. |
| `Orchestrator.AddDataFromFile` | Main.java:97-226 | Driving the class over every line and then the end of input gives `Import`: the reported count and durable rows, or the abort and the rows durable by then. |
| `Orchestrator.AbortIsFinal` | Main.java:111-225 | Once a line has aborted the import, no later line is processed. This holds for the runtime exceptions that escape the loop uncaught and for the rethrown `SQLException`. |
| `ImportProperties.StepKeepsInv` | Main.java:111-201 | Every line that does not abort keeps the invariant. No detail row is left uncommitted. Nothing is pending after a rejected insert. Buffered entries carry the current positive id, whose order row exists. `totalInserts` counts the durable detail rows, and every durable detail row names a durable order key. |
| `ImportProperties.RunKeepsInv` | Main.java:111-201 | Along any run, durable detail rows resolve to durable order keys, and the invariant holds unless the run aborted. |
| `ImportProperties.DurableKeysResolve` | Main.java:97-226 | No import, finished or aborted, leaves a durable detail row without its durable order row. |
| `ImportProperties.OrderLineClosesPrevious` | Main.java:128-159 | An order line closes the open order first. After a rejected insert the durable rows and the count stay as they were and the batch is cleared. Otherwise the batch becomes durable rows, the count grows by one per entry, and the new order starts with an empty batch. A failing batch aborts with nothing new made durable. |
| `ImportProperties.RejectedOrderKeepsId` | Main.java:162-179 | A rejected insert sets `badDate`, leaves the rejected date text in `lastDate`, keeps the previous order id, writes nothing, and the loop goes on. |
| `ImportProperties.ItemLineBuffersOnly` | Main.java:181-199 | A non-order line changes the state only when its tag is `item`, an order is open and the id is positive. It then appends exactly one entry (parsed quantity, description, current id) and sends nothing to the store. Any other line changes nothing. |
| `ImportProperties.NoKeyDropsItems` | Main.java:162-192 | An insert that yields -1 leaves `badDate` false and the id at -1, so a following item line changes nothing. |
| `ImportProperties.EndOfInputClosesOnce` | Main.java:205-218 | The end of input executes and commits the batch, even an empty one, unless the last insert was rejected. After a rejected insert no detail row becomes durable and the count is unchanged. A failing batch aborts. |
| `ImportProperties.EndKeepsInv` | Main.java:205-219 | The end of input keeps the invariant. |
| `ImportProperties.MalformedLinesAbort` | Main.java:128-187 | The import aborts, not skips, on a line of commas alone and on an order line without a date. It also aborts on a guarded item line exactly when a column is missing or the quantity does not parse. |
| `ImportProperties.CommittedOnlyGrows` | Main.java:142-218 | Across any run the durable rows and `totalInserts` only grow, by appending. |
| `ImportProperties.StepOnlyGrows` | Main.java:111-201 | One line never removes or changes a durable row or an entry of `totalInserts`. |
| `ImportProperties.ItemsAfterRejectedNeverPersist` | Main.java:131-214 | After a rejected insert, the lines up to the next order line never change the durable rows or the count. Neither the close at the next order line nor the end of input makes their entries durable. |
| `ImportProperties.RunThrough` | Main.java:111 | A run that passes through given states line by line, with no abort, ends in the last of them. |
| `ImportProperties.StepMatchesReference` | Main.java:111-201 | Each line moves the machine in step with the plain reading. The owner id changes only at an order line. The rows bound for the store grow by that line's item row. The written order rows grow by that line's counted order row. |
| `ImportProperties.RunMatchesReference` | Main.java:111-201 | After any run that has not aborted, the state matches the plain reading of the lines read so far. |
| `ImportProperties.ImportMatchesReference` | Main.java:97-219 | A completed import stores one order row per counted order insert. It stores one detail row per item line under the positive id of the order line above it, so nothing under a rejected or keyless order. It reports the number of detail rows stored. |
| `ImportProperties.StepCommitsWithinReference` | Main.java:111-201 | One line, whether it aborts or not, makes durable only rows the plain reading gives for the lines read so far and this one. |
| `ImportProperties.RunCommitsWithinReference` | Main.java:111-225 | After any run, aborted or not, the durable order and detail rows are prefixes of the plain reading of the lines read. |
| `ImportProperties.ImportStoresWithinReference` | Main.java:97-226 | Whether an import completes or aborts, its durable rows are prefixes of the plain reading. No detail row under a rejected or keyless order, or before the first order, is ever stored. |
| `ImportProperties.ExampleRun` | Main.java:111-201 | In the worked example, the seven lines lead through the expected states without aborting. |
| `ImportProperties.ExampleImport` | Main.java:97-219 | Two good orders around a rejected one store the two orders and their three details, and report 3, for any comma-free, non-empty texts. |
| `ImportProperties.ExampleWithConcreteTexts` | Main.java:97-219 | The same with the texts `2023-01-05`, `widget`, `gadget`, `not-a-date`, `ignored`, `2023-02-10`, `thing`. |

## Left out

- Connection setup and credentials from the environment (Main.java:37-43): external I/O. The connection is the `Connection` value.
- Reading the file (Main.java:74): the lines are a parameter.
- Rows already in the tables before the import: the store starts empty, so the model speaks only of the rows this import adds. Generated keys come from the replies and so may be any values.
- All console output, including the printed count: the count is `Done.reported`.
- Schema bootstrap, `setUpSchema` and `checkSchema` (Main.java:50-57, 261-332): DDL plumbing outside the import loop.
- JDBC details: parameter binding, generated-key result sets and MySQL's DATETIME validation. Each is replaced by the per-line `Reply` oracle.
- The values `executeBatch` reports per entry: only their number is observed, so each is modelled as 1.
- An exception from `getGeneratedKeys` after a row was inserted: a throwing insert is modelled as adding no row.
- Exceptions from `commit`, `rollback`, `clearBatch` and `setAutoCommit`: these calls are modelled as always succeeding.
- The closing of the connection after a runtime-exception abort: the model reports the rows committed by then, and uncommitted rows are not durable.
- EqualsIgnoreCaseIsLowerEquality: folds ASCII letters only. Java's `equalsIgnoreCase` also folds characters such as the dotless `ı`, which would match `item`.
- ParseInt: accepts ASCII digits only. Java's `parseInt` also accepts other Unicode decimal digits.
- Concurrency and transaction isolation: the program is single-threaded with one connection.
