/**
 * What `addProduct` and `removeProduct` do to the inventory, stated on the map from product
 * name to quantity that the `HashMap<String, Product>` stands for.
 */
module Stock {
  import opened Results

  /** Why `removeProduct` refuses; it prints a message and changes nothing. */
  datatype RemoveError =
    | NotFound         // "Product not found in inventory."
    | NotEnoughStock   // "Not enough stock to remove."

  /** The quantity on hand, as `getOrDefault(name, new Product(name, 0))` sees it. */
  function Stocked(m: map<string, int>, name: string): int {
    if name in m then m[name] else 0
  }

  /** Every record holds a strictly positive quantity. */
  predicate AllPositive(m: map<string, int>) {
    forall k :: k in m ==> m[k] > 0
  }

  /**
   * `addProduct`: the record for `name` exists afterwards and holds what it held before (0 if it
   * was absent) plus `q`; no other record changes. `q` is not checked, so it may be zero or negative.
   */
  function AddStock(m: map<string, int>, name: string, q: int): (r: map<string, int>)
    ensures r.Keys == m.Keys + {name}
    ensures r[name] == Stocked(m, name) + q
    ensures forall k :: k in m && k != name ==> r[k] == m[k]
    ensures AllPositive(m) && q > 0 ==> AllPositive(r)
  {
    m[name := Stocked(m, name) + q]
  }

  /**
   * `removeProduct`: refuses an absent name and a request above the stock on hand; otherwise
   * takes `q` off, dropping the record when exactly nothing is left. A record that survives is
   * always strictly positive, whatever the sign of `q`; no other record changes.
   */
  function RemoveStock(m: map<string, int>, name: string, q: int): (r: Result<map<string, int>, RemoveError>)
    ensures r == Err(NotFound) <==> name !in m
    ensures r == Err(NotEnoughStock) <==> name in m && m[name] < q
    ensures r.Ok? ==> r.value.Keys == if m[name] == q then m.Keys - {name} else m.Keys
    ensures r.Ok? && name in r.value ==> r.value[name] == m[name] - q > 0
    ensures r.Ok? ==> forall k :: k in r.value && k != name ==> r.value[k] == m[k]
    ensures r.Ok? && AllPositive(m) ==> AllPositive(r.value)
  {
    if name !in m then Err(NotFound)
    else if m[name] < q then Err(NotEnoughStock)
    else if m[name] - q == 0 then Ok(m - {name})
    else Ok(m[name := m[name] - q])
  }

  /** Adding then removing the same amount restores the inventory, when the record was absent or positive. */
  lemma AddThenRemove(m: map<string, int>, name: string, q: int)
    requires name in m ==> m[name] > 0
    ensures RemoveStock(AddStock(m, name, q), name, q) == Ok(m)
  {
    var added := AddStock(m, name, q);
    if name in m {
      assert added[name := added[name] - q] == m;
    } else {
      assert added - {name} == m;
    }
  }

  /** A removal that succeeds is undone by adding the same amount back. */
  lemma RemoveThenAdd(m: map<string, int>, name: string, q: int)
    requires RemoveStock(m, name, q).Ok?
    ensures AddStock(RemoveStock(m, name, q).value, name, q) == m
  {
    var removed := RemoveStock(m, name, q).value;
    assert AddStock(removed, name, q) == m;
  }
}
