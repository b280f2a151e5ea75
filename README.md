# Inventory management system, modelled in Dafny

This project models the core of a small Java inventory manager (`InventoryManagementSystem` in
`main.java`). The model has two parts:

- **The inventory store.** It maps each product name to a quantity. It supports
  `addProduct`, `removeProduct` and `searchProduct`. After every change it rewrites the whole
  file `inventory_data.txt`, one `name,quantity` line per record. At start-up it reads that
  file back.
- **The order queue.** It is a `PriorityQueue<Product>` whose comparator puts the largest
  quantity first. `addToOrderQueue` takes an order only for a product that has a record.
  `processOrderQueue` polls the queue until it is empty. It never touches the stock.

Layout:

- `results.dfy`, module `Results`: `Option` and `Result`.
- `text.dfy`, module `JavaText`: the Java library behaviour the file format depends on.
  This is `String.trim()`, `String.split(",")` (every comma splits, trailing empty pieces are
  dropped), `Integer.parseInt` (optional sign, decimal digits, 32-bit range) and
  `Integer.toString`.
- `records.dfy`, module `Records`: the `Product` value and the line format.
  `FormatLine` is what a save writes for one record. `ParseLine` is what a load reads from one
  line. `Dump` is the whole file as a save writes it. `LoadAll` and the `Load` loop read a file.
  The module also holds the round-trip lemmas.
- `stock.dfy`, module `Stock`: `AddStock` and `RemoveStock` specify the two stock operations
  as functions on `map<string, int>`. The lemmas here show the two operations undo each other.
- `orders.dfy`, module `Orders`: facts about taking the order of largest quantity.
  A non-empty queue always has such an order. Any two non-increasing arrangements of the same
  orders list the same quantities.
- `inventory.dfy`, module `Inventory`: the class `InventoryManagementSystem`. It has the fields
  `inventory: map<string, int>`, `orderQueue: multiset<Product>` and `file: Option<seq<string>>`.
  Its methods change these fields in place. Each method's `ensures` ties the new state to the
  `Stock` functions or to the queue facts.
- `scenarios.dfy`, module `Scenarios`: example sessions proved from the contracts alone.

The model follows what the code does, including where that is surprising:

- Empty lines are not skipped. An empty line in the file is malformed: `"".split(",")` gives
  one field, so reading the second field throws.
- The line is split at every comma, not only the first. The second field is read as the
  quantity, and later fields are ignored. A name that holds a comma shifts the fields
  (`CommaInNameShiftsFields`).
- `addProduct` and `removeProduct` do not check their quantity. Adding 0 creates a record that
  holds 0. A negative add can make a record negative. Removing a negative amount increases the
  stock. So "every record is positive" is kept by removals always, and by additions only when
  the amount is positive (`AddStock`, `RemoveStock`).
- `addToOrderQueue` checks itself that the product has a record. The check is not left to the
  caller.
- Quantities 5, 9, 3 and 9 are processed as 9, 9, 5, 3 (`Scenarios.DrainedQuantities`). This
  is the non-increasing order the comparator gives.

## Model

| member | source | states |
|---|---|---|
| `JavaText.Trim` | main.java:37-38 | The result is an infix of the input with nothing trimmable at either end. Everything stripped is a char at or below U+0020. An already-trimmed string is returned as it is. |
| `JavaText.Split` | main.java:36 | No piece holds a comma. A string without a comma comes back whole, as the only piece. |
| `JavaText.ParseInt` | main.java:38 | A successful parse yields a 32-bit `int`, read from an optional sign followed by decimal digits only. |
| `JavaText.IntToString` | main.java:49 | The text of a quantity is non-empty, holds no comma and has nothing for `trim()` to strip. |
| `JavaText.IntRoundTrip` | main.java:36-49 | Every 32-bit `int`, written as text and then parsed, gives back the same value. |
| `JavaText.SplitPair` | main.java:36 | `a + "," + b` splits back into exactly `a` and `b` when neither holds a comma and `b` is non-empty. |
| `JavaText.SplitTriple` | main.java:36 | `a + "," + b + "," + c` splits into the three parts when none holds a comma and `c` is non-empty. |
| `Records.FormatLine` | main.java:49 | The saved line for a record always holds the comma separator. |
| `Records.ParseLine` | main.java:36-38 | A line with fewer than two fields fails with `MissingField`, exactly. A parsed record has a trimmed, comma-free name and a 32-bit quantity. A name read from a line without a line break has none either. |
| `Records.LineRoundTrip` | main.java:36-49 | A record whose name has no comma and no surrounding blanks, and whose quantity is an `int`, reads back from its saved line unchanged. |
| `Records.ParseThenFormat` | main.java:36-49 | Any line that parses, once written out again, parses to the same record. |
| `Records.CommaInNameShiftsFields` | main.java:36-49 | For a name `a,b`, the saved line reads `b` as the quantity. The real quantity is never looked at. |
| `Records.NameComesBackTrimmed` | main.java:37-49 | Any comma-free name, saved with any `int` quantity, comes back as its trimmed form with the same quantity. So blanks around a name are lost. |
| `Records.Dump` | main.java:48-50 | A save writes exactly one line per key visited. |
| `Records.Load` | main.java:35-40 | The read loop gives the map built by putting each parsed line in turn, later lines overriding earlier ones. The first malformed line's error is returned. |
| `Records.CollectStopsAtError` | main.java:35-40 | Once a prefix of the file fails to load, the whole file fails with that same error. |
| `Records.LoadedIsStorable` | main.java:35-40 | Every record of a file of `readLine` lines that loads has a trimmed, comma-free name without line breaks and a 32-bit quantity. |
| `Records.DumpedLinesAreLines` | main.java:48-50 | For a storable inventory, no saved line holds a line break, so `readLine` reads back exactly the lines written. |
| `Records.CollectRecords` | main.java:35-40 | Records for the keys in a given order, each with its value in `m`, collect into `m` restricted to those keys. |
| `Records.SaveThenLoad` | main.java:32-55 | The file written for a storable inventory, in any key order, holds no line break inside a line and loads back into exactly that inventory. A storable name has no comma, no line break and no surrounding blanks. |
| `Stock.AddStock` | main.java:57-59 | The record for the name exists afterwards and holds its old quantity (0 if absent) plus the amount. Every other record is unchanged. Positivity is kept for a positive amount. |
| `Stock.RemoveStock` | main.java:63-78 | An absent name gives `NotFound`, exactly. A request above the stock gives `NotEnoughStock`, exactly. On success the record is dropped iff the amount equals the stock, and otherwise holds the difference. A surviving record is strictly positive. Other records are unchanged. |
| `Stock.AddThenRemove` | main.java:57-78 | Adding then removing the same amount restores the inventory when the record was absent or positive. |
| `Stock.RemoveThenAdd` | main.java:57-78 | A removal that succeeds is undone by adding the same amount back. |
| `Orders.MaxExists` | main.java:25 | A non-empty queue holds an order whose quantity is at least that of every queued order. |
| `Orders.SortedArrangementsAgree` | main.java:98-103 | Two non-increasing arrangements of the same orders list the same quantities. So the processing order is fixed up to ties. |
| `Inventory.InventoryManagementSystem.constructor` | main.java:28-44 | An absent file gives an empty inventory. Otherwise the inventory is the file's lines as loaded. The queue starts empty, and the loaded inventory is storable. |
| `Inventory.InventoryManagementSystem.SaveInventoryToFile` | main.java:46-55 | Afterwards the file holds one formatted line per record, in some order that lists every key once. |
| `Inventory.InventoryManagementSystem.AddProduct` | main.java:57-61 | The inventory becomes `AddStock` of the old one. The file is rewritten to match it, and the queue is unchanged. |
| `Inventory.InventoryManagementSystem.RemoveProduct` | main.java:63-78 | On success the inventory becomes the `RemoveStock` result and the file is rewritten. On `NotFound` or `NotEnoughStock` the inventory, the file and the queue are unchanged. |
| `Inventory.InventoryManagementSystem.SearchProduct` | main.java:80-86 | A record is found iff the name has one, and it carries that name's quantity. |
| `Inventory.InventoryManagementSystem.AddToOrderQueue` | main.java:88-96 | The queue grows by exactly the order `(name, quantity)` iff the name has a record, and is otherwise unchanged. The inventory and the file are never touched. |
| `Inventory.InventoryManagementSystem.PollOrder` | main.java:100 | An empty queue yields nothing. Otherwise it removes and returns one order of largest quantity. |
| `Inventory.InventoryManagementSystem.ProcessOrderQueue` | main.java:98-103 | Afterwards the queue is empty. The processed orders are a rearrangement of the old queue in non-increasing quantity order. The inventory and the file are unchanged. |
| `Inventory.InventoryManagementSystem.ReloadRestoresInventory` | main.java:32-60 | After a save of a storable inventory, `readLine` reads back the saved lines, and loading them gives that inventory back. |
| `Scenarios.DrainedQuantities` | main.java:98-103 | Orders for 5, 9, 3 and 9 are processed as 9, 9, 5, 3. |

## Left out

- File I/O is left out: opening, reading, writing and closing `inventory_data.txt`, and the
  `filePath` constant. The file is the field `file`, which holds its lines.
- The `IOException` paths are left out. A missing file is modelled as `None`, and the store
  then starts empty. A read error part-way through, and a failed write, are not modelled. In
  the model a save always succeeds.
- `BufferedReader.readLine` splitting the file text into lines is not modelled. The file is
  its sequence of lines, each without `\n` or `\r`. A name holding a line break is not
  storable: its saved line reads back as two lines, and the load fails or changes the record.
  The round-trip lemmas exclude such names.
- `Inventory.InventoryManagementSystem.constructor`: requires the file's lines to hold no line
  break, which `readLine` guarantees, and requires the file to parse. A malformed
  line throws an uncaught exception out of the Java constructor, so no object exists. `Load`
  returns that error as `Err`.
- `JavaText.ParseInt`: accepts ASCII digits only. Java's `Character.digit` also accepts other
  Unicode decimal digits.
- `Inventory.InventoryManagementSystem.AddProduct`: quantities are unbounded integers. Java's
  32-bit wrap-around in `quantity += quantity` is not modelled.
- `Inventory.InventoryManagementSystem.RemoveProduct` and `Stock.RemoveStock`: quantities are
  unbounded integers. Java's 32-bit wrap-around in `product.quantity -= quantity` is not
  modelled. In Java, removing a negative amount can wrap. For example, stock 2147483647 minus
  -1 passes the stock check and wraps to -2147483648. So "a surviving record is strictly
  positive" holds only for unbounded integers.
- `Inventory.InventoryManagementSystem.PollOrder`: the comparator `b.quantity - a.quantity` is
  read as "larger quantity first". Its 32-bit overflow for quantities far apart is not
  modelled. The binary heap is not modelled either, so the choice between equal quantities is
  left open.
- `HashMap` iteration order is left open. A save may list the keys in any order.
- `displayInventory` and all console output are left out. So are `Product.toString` and the
  `Scanner` menu loop in `main`. They are user interface only.
