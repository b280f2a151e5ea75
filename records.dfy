/**
 * Product records and the text file they are kept in: one line `name,quantity` per
 * record, written by `saveInventoryToFile` and read back by `loadInventoryFromFile`.
 */
module Records {
  import opened Results
  import opened JavaText

  /** A product name with a quantity: a stock record, or a pending order. */
  datatype Product = Product(name: string, quantity: int)

  /** Why a line of the file cannot be read back. */
  datatype LineError =
    | MissingField   // fewer than two comma-separated fields: `ArrayIndexOutOfBoundsException`
    | NotANumber     // the quantity field is not a Java `int`: `NumberFormatException`

  /** Text that `BufferedReader.readLine` can return as one line: no line terminator in it. */
  predicate IsLine(s: string) {
    '\n' !in s && '\r' !in s
  }

  /** A name that comes back unchanged from its own line: no comma, nothing for `trim()` to strip. */
  predicate IsFieldName(name: string) {
    ',' !in name && IsTrimmed(name)
  }

  /**
   * A name that comes back unchanged from the file: it survives its line, and its line stays
   * one line when `readLine` reads the file back.
   */
  predicate IsStorableName(name: string) {
    IsFieldName(name) && IsLine(name)
  }

  /** An inventory that can be written to the file and read back without loss. */
  predicate IsStorable(m: map<string, int>) {
    forall k :: k in m ==> IsStorableName(k) && IsInt32(m[k])
  }

  /** The line `saveInventoryToFile` writes for one record. */
  function FormatLine(p: Product): (line: string)
    ensures ',' in line
  {
    assert (p.name + "," + IntToString(p.quantity))[|p.name|] == ',';
    p.name + "," + IntToString(p.quantity)
  }

  /**
   * One step of `loadInventoryFromFile`: split on commas, trim the first two fields and parse
   * the second as an `int`. Fields after the second are ignored. Whatever parses is storable.
   */
  function ParseLine(line: string): (r: Result<Product, LineError>)
    ensures r.Ok? ==> IsFieldName(r.value.name) && IsInt32(r.value.quantity)
    ensures r.Ok? && IsLine(line) ==> IsLine(r.value.name)
    ensures r.Err? && r.error == MissingField <==> |Split(line)| < 2
  {
    var data := Split(line);
    if |data| < 2 then Err(MissingField)
    else
      match ParseInt(Trim(data[1]))
      case None => Err(NotANumber)
      case Some(q) =>
        var name := Trim(data[0]);
        assert forall c :: c in name ==> c in data[0];
        Ok(Product(name, q))
  }

  /** A record whose name survives a line and whose quantity is an `int` reads back as itself. */
  lemma LineRoundTrip(p: Product)
    requires IsFieldName(p.name) && IsInt32(p.quantity)
    ensures ParseLine(FormatLine(p)) == Ok(p)
  {
    var digits := IntToString(p.quantity);
    SplitPair(p.name, digits);
    IntRoundTrip(p.quantity);
  }

  /** Every parsed line reads back as itself once written again. */
  lemma ParseThenFormat(line: string)
    requires ParseLine(line).Ok?
    ensures ParseLine(FormatLine(ParseLine(line).value)) == ParseLine(line)
  {
    LineRoundTrip(ParseLine(line).value);
  }

  /**
   * A name holding a comma does not survive: the part after its comma is read as the quantity,
   * and the real quantity is never looked at.
   */
  lemma CommaInNameShiftsFields(a: string, b: string, q: int)
    requires ',' !in a && ',' !in b
    ensures ParseLine(FormatLine(Product(a + "," + b, q))) ==
      match ParseInt(Trim(b))
      case None => Err(NotANumber)
      case Some(v) => Ok(Product(Trim(a), v))
  {
    var digits := IntToString(q);
    SplitTriple(a, b, digits);
    assert FormatLine(Product(a + "," + b, q)) == a + "," + b + "," + digits;
  }

  /** A comma-free name comes back trimmed: blanks around it are lost, the quantity is kept. */
  lemma NameComesBackTrimmed(name: string, q: int)
    requires ',' !in name && IsInt32(q)
    ensures ParseLine(FormatLine(Product(name, q))) == Ok(Product(Trim(name), q))
  {
    SplitPair(name, IntToString(q));
    IntRoundTrip(q);
  }

  /** `order` lists every key of `keys` exactly once: one possible `HashMap` iteration order. */
  predicate Enumerates(order: seq<string>, keys: set<string>) {
    && (forall i, j :: 0 <= i < j < |order| ==> order[i] != order[j])
    && (forall k :: k in keys ==> k in order)
    && (forall k :: k in order ==> k in keys)
  }

  /** The lines the file holds after a save that visited the keys of `m` in `order`. */
  function Dump(m: map<string, int>, order: seq<string>): (lines: seq<string>)
    requires forall k :: k in order ==> k in m
    ensures |lines| == |order|
  {
    seq(|order|, i requires 0 <= i < |order| => FormatLine(Product(order[i], m[order[i]])))
  }

  /** The outcome of parsing each line of the file, in order. */
  function ParseLines(lines: seq<string>): (parsed: seq<Result<Product, LineError>>)
    ensures |parsed| == |lines|
  {
    seq(|lines|, i requires 0 <= i < |lines| => ParseLine(lines[i]))
  }

  /** Put each parsed record into the map in turn; the first failure is the outcome. */
  function Collect(parsed: seq<Result<Product, LineError>>): (r: Result<map<string, int>, LineError>)
  {
    if parsed == [] then Ok(map[])
    else
      match Collect(parsed[..|parsed| - 1])
      case Err(e) => Err(e)
      case Ok(m) =>
        match parsed[|parsed| - 1]
        case Err(e) => Err(e)
        case Ok(p) => Ok(m[p.name := p.quantity])
  }

  /** The inventory `loadInventoryFromFile` builds from `lines`, or the first bad line's error. */
  function LoadAll(lines: seq<string>): (r: Result<map<string, int>, LineError>)
  {
    Collect(ParseLines(lines))
  }

  /**
   * The read loop of `loadInventoryFromFile`: each line is parsed and put into the map, a
   * later line overriding an earlier one with the same name; the first malformed line stops it.
   */
  method Load(lines: seq<string>) returns (r: Result<map<string, int>, LineError>)
    ensures r == LoadAll(lines)
  {
    var inventory := map[];
    var i := 0;
    while i < |lines|
      invariant 0 <= i <= |lines|
      invariant Collect(ParseLines(lines)[..i]) == Ok(inventory)
    {
      ghost var parsed := ParseLines(lines);
      assert parsed[..i + 1][..i] == parsed[..i];
      match ParseLine(lines[i])
      case Err(e) =>
        CollectStopsAtError(parsed, i + 1);
        return Err(e);
      case Ok(p) =>
        inventory := inventory[p.name := p.quantity];
      i := i + 1;
    }
    assert ParseLines(lines)[..i] == ParseLines(lines);
    return Ok(inventory);
  }

  /** Once a prefix fails to load, the whole file fails with the same error. */
  lemma {:induction false} CollectStopsAtError(parsed: seq<Result<Product, LineError>>, n: nat)
    requires n <= |parsed| && Collect(parsed[..n]).Err?
    ensures Collect(parsed) == Collect(parsed[..n])
    decreases |parsed| - n
  {
    if n < |parsed| {
      assert parsed[..n + 1][..n] == parsed[..n];
      CollectStopsAtError(parsed, n + 1);
    } else {
      assert parsed[..n] == parsed;
    }
  }

  /** Whatever loads is storable: every name is trimmed and comma-free, every quantity an `int`. */
  lemma {:induction false} CollectedIsStorable(parsed: seq<Result<Product, LineError>>)
    requires forall i :: 0 <= i < |parsed| && parsed[i].Ok? ==>
      IsStorableName(parsed[i].value.name) && IsInt32(parsed[i].value.quantity)
    requires Collect(parsed).Ok?
    ensures IsStorable(Collect(parsed).value)
  {
    if parsed != [] {
      CollectedIsStorable(parsed[..|parsed| - 1]);
    }
  }

  /** A file of lines that loads holds only storable records, so saving it again loses nothing. */
  lemma LoadedIsStorable(lines: seq<string>)
    requires forall i :: 0 <= i < |lines| ==> IsLine(lines[i])
    requires LoadAll(lines).Ok?
    ensures IsStorable(LoadAll(lines).value)
  {
    CollectedIsStorable(ParseLines(lines));
  }

  /** Every line a save writes for a storable inventory is one line for `readLine`. */
  lemma DumpedLinesAreLines(m: map<string, int>, order: seq<string>)
    requires IsStorable(m) && (forall k :: k in order ==> k in m)
    ensures forall i :: 0 <= i < |order| ==> IsLine(Dump(m, order)[i])
  {
  }

  /** Records for the keys in `order`, each with its quantity in `m`, collect into `m` cut down to `order`. */
  lemma {:induction false} CollectRecords(parsed: seq<Result<Product, LineError>>, m: map<string, int>, order: seq<string>)
    requires |parsed| == |order| && (forall k :: k in order ==> k in m)
    requires forall i :: 0 <= i < |parsed| ==> parsed[i] == Ok(Product(order[i], m[order[i]]))
    ensures Collect(parsed) == Ok(map k | k in m && k in order :: m[k])
  {
    if order != [] {
      var n := |order| - 1;
      var k := order[n];
      CollectRecords(parsed[..n], m, order[..n]);
      assert order == order[..n] + [k];
      assert (map j | j in m && j in order[..n] :: m[j])[k := m[k]] == map j | j in m && j in order :: m[j];
    }
  }

  lemma DumpedLineParses(m: map<string, int>, order: seq<string>, i: nat)
    requires IsStorable(m) && (forall k :: k in order ==> k in m) && i < |order|
    ensures ParseLines(Dump(m, order))[i] == Ok(Product(order[i], m[order[i]]))
  {
    var p := Product(order[i], m[order[i]]);
    assert Dump(m, order)[i] == FormatLine(p);
    LineRoundTrip(p);
  }

  /**
   * The save/load round trip: the file written for a storable inventory, in any key order,
   * reads back as the same lines and loads back into it.
   */
  lemma SaveThenLoad(m: map<string, int>, order: seq<string>)
    requires IsStorable(m) && Enumerates(order, m.Keys)
    ensures forall i :: 0 <= i < |order| ==> IsLine(Dump(m, order)[i])
    ensures LoadAll(Dump(m, order)) == Ok(m)
  {
    DumpedLinesAreLines(m, order);
    var parsed := ParseLines(Dump(m, order));
    forall i | 0 <= i < |parsed|
      ensures parsed[i] == Ok(Product(order[i], m[order[i]]))
    {
      DumpedLineParses(m, order, i);
    }
    CollectRecords(parsed, m, order);
    assert (map k | k in m && k in order :: m[k]) == m;
  }
}
