/**
 * `InventoryManagementSystem`: the inventory, the order queue and the file the inventory is
 * written through to after every change.
 */
module Inventory {
  import opened Results
  import opened Records
  import opened Stock
  import opened Orders

  class InventoryManagementSystem {
    /** `HashMap<String, Product>`: each name maps to the quantity of its record. */
    var inventory: map<string, int>
    /** `PriorityQueue<Product>` of pending orders; only its contents are modelled, not the heap. */
    var orderQueue: multiset<Product>
    /** The lines of `inventory_data.txt`, or `None` when there is no such file. */
    var file: Option<seq<string>>

    /** The file holds one line per record, in some order, as the last save wrote it. */
    ghost predicate FileHoldsInventory()
      reads this
    {
      && file.Some?
      && exists order :: Enumerates(order, inventory.Keys) && file.value == Dump(inventory, order)
    }

    /**
     * Loads the inventory from `disk`, the lines `readLine` returns. An absent file leaves the
     * inventory empty; the queue always starts empty. A malformed line makes the Java constructor
     * throw, so no object exists.
     */
    constructor(disk: Option<seq<string>>)
      requires disk.Some? ==> forall i :: 0 <= i < |disk.value| ==> IsLine(disk.value[i])
      requires disk.Some? ==> LoadAll(disk.value).Ok?
      ensures file == disk && orderQueue == multiset{}
      ensures inventory == if disk.Some? then LoadAll(disk.value).value else map[]
      ensures IsStorable(inventory)
    {
      var loaded: map<string, int> := map[];
      if disk.Some? {
        var r := Load(disk.value);
        LoadedIsStorable(disk.value);
        loaded := r.value;
      }
      inventory := loaded;
      orderQueue := multiset{};
      file := disk;
    }

    /** `saveInventoryToFile`: rewrites the whole file, one `name,quantity` line per record. */
    method SaveInventoryToFile()
      modifies this`file
      ensures FileHoldsInventory()
    {
      var lines: seq<string> := [];
      ghost var order: seq<string> := [];
      var remaining := inventory.Keys;
      while remaining != {}
        invariant remaining <= inventory.Keys
        invariant forall k :: k in inventory ==> k in order || k in remaining
        invariant forall k :: k in order ==> k in inventory && k !in remaining
        invariant forall i, j :: 0 <= i < j < |order| ==> order[i] != order[j]
        invariant lines == Dump(inventory, order)
        decreases remaining
      {
        var name :| name in remaining;
        lines := lines + [FormatLine(Product(name, inventory[name]))];
        order := order + [name];
        remaining := remaining - {name};
      }
      file := Some(lines);
      assert Enumerates(order, inventory.Keys);
    }

    /** `addProduct`: adds `quantity` to the record for `name`, creating it at 0 first, then saves. */
    method AddProduct(name: string, quantity: int)
      modifies this`inventory, this`file
      ensures inventory == AddStock(old(inventory), name, quantity)
      ensures FileHoldsInventory()
      ensures orderQueue == old(orderQueue)
    {
      var current := if name in inventory then inventory[name] else 0;
      inventory := inventory[name := current];
      inventory := inventory[name := inventory[name] + quantity];
      SaveInventoryToFile();
    }

    /**
     * `removeProduct`: on success takes `quantity` off the record (dropping it at exactly 0) and
     * saves; on either refusal nothing changes, the file included.
     */
    method RemoveProduct(name: string, quantity: int) returns (error: Option<RemoveError>)
      modifies this`inventory, this`file
      ensures match RemoveStock(old(inventory), name, quantity)
        case Ok(m) => error == None && inventory == m && FileHoldsInventory()
        case Err(e) => error == Some(e) && inventory == old(inventory) && file == old(file)
      ensures orderQueue == old(orderQueue)
    {
      if name in inventory {
        var stock := inventory[name];
        if stock >= quantity {
          inventory := inventory[name := stock - quantity];
          if inventory[name] == 0 {
            inventory := inventory - {name};
          }
          SaveInventoryToFile();
          error := None;
        } else {
          error := Some(NotEnoughStock);
        }
      } else {
        error := Some(NotFound);
      }
    }

    /** `searchProduct`: the record for `name` if there is one. */
    method SearchProduct(name: string) returns (found: Option<Product>)
      ensures found.Some? <==> name in inventory
      ensures found.Some? ==> found.value.name == name && found.value.quantity == inventory[name]
    {
      if name in inventory {
        found := Some(Product(name, inventory[name]));
      } else {
        found := None;
      }
    }

    /**
     * `addToOrderQueue`: queues a new order exactly when `name` has a record; the stock on hand
     * is neither checked nor reserved.
     */
    method AddToOrderQueue(name: string, quantity: int) returns (added: bool)
      modifies this`orderQueue
      ensures added <==> name in inventory
      ensures orderQueue == if added then old(orderQueue) + multiset{Product(name, quantity)} else old(orderQueue)
      ensures inventory == old(inventory) && file == old(file)
    {
      if name in inventory {
        orderQueue := orderQueue + multiset{Product(name, quantity)};
        added := true;
      } else {
        added := false;
      }
    }

    /** `PriorityQueue.poll`: removes and returns an order of largest quantity, `None` when empty. */
    method PollOrder() returns (order: Option<Product>)
      modifies this`orderQueue
      ensures old(orderQueue) == multiset{} ==> order == None && orderQueue == old(orderQueue)
      ensures old(orderQueue) != multiset{} ==>
        order.Some? && IsMaxOf(order.value, old(orderQueue)) && orderQueue == old(orderQueue) - multiset{order.value}
    {
      if orderQueue == multiset{} {
        order := None;
      } else {
        MaxExists(orderQueue);
        var top :| top in orderQueue && IsMaxOf(top, orderQueue);
        order := Some(top);
        orderQueue := orderQueue - multiset{top};
      }
    }

    /**
     * `processOrderQueue`: polls until the queue is empty. The orders come out as a rearrangement
     * of what was queued, largest quantity first; the inventory is not touched.
     */
    method ProcessOrderQueue() returns (processed: seq<Product>)
      modifies this`orderQueue
      ensures orderQueue == multiset{}
      ensures multiset(processed) == old(orderQueue)
      ensures NonIncreasing(processed)
      ensures inventory == old(inventory) && file == old(file)
    {
      processed := [];
      while orderQueue != multiset{}
        invariant multiset(processed) + orderQueue == old(orderQueue)
        invariant NonIncreasing(processed)
        invariant |processed| > 0 ==> forall o :: o in orderQueue ==> o.quantity <= processed[|processed| - 1].quantity
        decreases |orderQueue|
      {
        ghost var queue := orderQueue;
        var order := PollOrder();
        AppendMax(processed, queue, order.value);
        processed := processed + [order.value];
      }
    }

    /**
     * Restarting from the file gives the same inventory back, as long as every name and quantity
     * is storable: `readLine` reads the same lines back, and they load into the inventory.
     */
    lemma ReloadRestoresInventory()
      requires FileHoldsInventory() && IsStorable(inventory)
      ensures forall i :: 0 <= i < |file.value| ==> IsLine(file.value[i])
      ensures LoadAll(file.value) == Ok(inventory)
    {
      var order :| Enumerates(order, inventory.Keys) && file.value == Dump(inventory, order);
      SaveThenLoad(inventory, order);
    }
  }
}
