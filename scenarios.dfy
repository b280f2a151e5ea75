/** The example sessions of the inventory system, checked against the contracts alone. */
module Scenarios {
  import opened Results
  import opened Records
  import opened Stock
  import opened Orders
  import opened Inventory

  /** Stock goes up and down, a record vanishes at zero, and then the product is unknown. */
  method WidgetSession() {
    var ims := new InventoryManagementSystem(None);
    ims.AddProduct("widget", 10);
    assert ims.inventory == map["widget" := 10];
    var error := ims.RemoveProduct("widget", 4);
    assert error == None && ims.inventory == map["widget" := 6];
    error := ims.RemoveProduct("widget", 6);
    assert error == None && ims.inventory == map[];
    error := ims.RemoveProduct("widget", 1);
    assert error == Some(NotFound);
  }

  /** Asking for more than is on hand is refused and leaves the stock alone. */
  method BoltSession() {
    var ims := new InventoryManagementSystem(None);
    ims.AddProduct("bolt", 3);
    var error := ims.RemoveProduct("bolt", 5);
    assert error == Some(NotEnoughStock) && ims.inventory == map["bolt" := 3];
    var found := ims.SearchProduct("bolt");
    assert found == Some(Product("bolt", 3));
  }

  /** Orders are only taken for known products, and come out largest first. */
  method OrderSession(ims: InventoryManagementSystem)
    requires "bolt" in ims.inventory && "widget" in ims.inventory && "nut" !in ims.inventory
    requires ims.orderQueue == multiset{}
    modifies ims
  {
    ghost var stock := ims.inventory;
    var added := ims.AddToOrderQueue("nut", 7);
    assert !added && ims.orderQueue == multiset{};
    added := ims.AddToOrderQueue("bolt", 20);
    added := ims.AddToOrderQueue("widget", 2);
    assert ims.orderQueue == multiset{Product("bolt", 20), Product("widget", 2)};
    var processed := ims.ProcessOrderQueue();
    assert |processed| == 2;
    assert processed[0] in multiset(processed) && processed[1] in multiset(processed);
    assert processed == [Product("bolt", 20), Product("widget", 2)];
    assert ims.inventory == stock;
  }

  /** Quantities 5, 9, 3 and 9 are processed as 9, 9, 5, 3, whichever 9 the heap hands out first. */
  method TieSession(ims: InventoryManagementSystem)
    requires "a" in ims.inventory && "b" in ims.inventory && ims.orderQueue == multiset{}
    modifies ims
  {
    var added := ims.AddToOrderQueue("a", 5);
    added := ims.AddToOrderQueue("a", 9);
    added := ims.AddToOrderQueue("b", 3);
    added := ims.AddToOrderQueue("b", 9);
    var processed := ims.ProcessOrderQueue();
    DrainedQuantities(processed);
    assert Quantities(processed) == [9, 9, 5, 3];
  }

  /** Any non-increasing arrangement of these four orders lists the quantities 9, 9, 5, 3. */
  lemma DrainedQuantities(processed: seq<Product>)
    requires NonIncreasing(processed)
    requires multiset(processed) == multiset{Product("a", 5), Product("a", 9), Product("b", 3), Product("b", 9)}
    ensures Quantities(processed) == [9, 9, 5, 3]
  {
    var sorted := [Product("a", 9), Product("b", 9), Product("a", 5), Product("b", 3)];
    SortedExample(sorted);
    SortedArrangementsAgree(processed, sorted);
  }

  lemma SortedExample(sorted: seq<Product>)
    requires sorted == [Product("a", 9), Product("b", 9), Product("a", 5), Product("b", 3)]
    ensures NonIncreasing(sorted) && Quantities(sorted) == [9, 9, 5, 3]
    ensures multiset(sorted) == multiset{Product("a", 5), Product("a", 9), Product("b", 3), Product("b", 9)}
  {
    var q := Quantities(sorted);
    assert |q| == 4 && q[0] == 9 && q[1] == 9 && q[2] == 5 && q[3] == 3;
    assert q == [9, 9, 5, 3];
  }
}
