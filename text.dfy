/**
 * The pieces of the Java standard library that the inventory file format relies on,
 * stated on `string`, a sequence of Unicode scalar values. Java strings are UTF-16 code units,
 * but trim, split and parseInt below only compare chars with ASCII ones (U+0020, the comma,
 * the sign and the digits), so they behave alike on either:
 *  - `String.trim()`, which strips every leading and trailing char at or below U+0020;
 *  - `String.split(",")`, which splits at every comma and then drops trailing empty pieces
 *    (but returns the whole string when there is no comma at all);
 *  - `Integer.parseInt(s)`, which accepts an optional sign and decimal digits and rejects
 *    anything outside the 32-bit range;
 *  - `Integer.toString(n)` (what `"..." + n` produces).
 */
module JavaText {
  import opened Results

  const IntMin: int := -0x8000_0000
  const IntMax: int := 0x7FFF_FFFF

  /** The values a Java `int` can hold. */
  predicate IsInt32(n: int) {
    IntMin <= n <= IntMax
  }

  /** The characters `String.trim()` removes. */
  predicate IsTrimmable(c: char) {
    c <= ' '
  }

  /** A string that `String.trim()` leaves as it is. */
  predicate IsTrimmed(s: string) {
    |s| == 0 || (!IsTrimmable(s[0]) && !IsTrimmable(s[|s| - 1]))
  }

  /** The first index at or after `st` whose char `String.trim()` keeps (or `|s|`). */
  function TrimStartIndex(s: string, st: nat): (i: nat)
    requires st <= |s|
    ensures st <= i <= |s|
    ensures i == |s| || !IsTrimmable(s[i])
    ensures forall k :: st <= k < i ==> IsTrimmable(s[k])
    decreases |s| - st
  {
    if st < |s| && IsTrimmable(s[st]) then TrimStartIndex(s, st + 1) else st
  }

  /** The end, at most `len` and at least `st`, of the part `String.trim()` keeps. */
  function TrimEndIndex(s: string, st: nat, len: nat): (j: nat)
    requires st <= len <= |s|
    ensures st <= j <= len
    ensures j == st || !IsTrimmable(s[j - 1])
    ensures forall k :: j <= k < len ==> IsTrimmable(s[k])
    decreases len
  {
    if st < len && IsTrimmable(s[len - 1]) then TrimEndIndex(s, st, len - 1) else len
  }

  /**
   * `String.trim()`: the infix of `s` left once every trimmable char is stripped from
   * both ends; everything stripped is trimmable and what is left is trimmed.
   */
  function Trim(s: string): (r: string)
    ensures IsTrimmed(r)
    ensures var i := TrimStartIndex(s, 0);
      && i + |r| <= |s| && r == s[i..i + |r|]
      && (forall k :: 0 <= k < i ==> IsTrimmable(s[k]))
      && (forall k :: i + |r| <= k < |s| ==> IsTrimmable(s[k]))
    ensures IsTrimmed(s) ==> r == s
  {
    var st := TrimStartIndex(s, 0);
    s[st..TrimEndIndex(s, st, |s|)]
  }

  /** The comma-separated pieces of `s`, empty ones included: one more piece than `s` has commas. */
  function Pieces(s: string): (r: seq<string>)
    ensures |r| >= 1
    ensures forall i :: 0 <= i < |r| ==> ',' !in r[i]
    ensures forall i, c :: 0 <= i < |r| && c in r[i] ==> c in s
    ensures ',' !in s ==> r == [s]
  {
    if |s| == 0 then [""]
    else
      var rest := Pieces(s[1..]);
      assert s == [s[0]] + s[1..];
      if s[0] == ',' then [""] + rest
      else [[s[0]] + rest[0]] + rest[1..]
  }

  function DropTrailingEmpty(ps: seq<string>): (r: seq<string>)
    ensures |r| <= |ps| && r == ps[..|r|]
    ensures |r| == 0 || r[|r| - 1] != ""
    ensures forall i :: |r| <= i < |ps| ==> ps[i] == ""
  {
    if |ps| > 0 && ps[|ps| - 1] == "" then DropTrailingEmpty(ps[..|ps| - 1]) else ps
  }

  /** `s.split(",")` with Java's limit-0 semantics. */
  function Split(s: string): (r: seq<string>)
    ensures forall i :: 0 <= i < |r| ==> ',' !in r[i]
    ensures forall i, c :: 0 <= i < |r| && c in r[i] ==> c in s
    ensures ',' !in s ==> r == [s]
  {
    if ',' !in s then [s] else DropTrailingEmpty(Pieces(s))
  }

  predicate IsDigit(c: char) {
    '0' <= c <= '9'
  }

  predicate AllDigits(s: string) {
    forall i :: 0 <= i < |s| ==> IsDigit(s[i])
  }

  /** The value of a string of decimal digits, most significant first. */
  function DigitsValue(s: string): (n: nat)
    requires AllDigits(s)
  {
    if |s| == 0 then 0
    else DigitsValue(s[..|s| - 1]) * 10 + (s[|s| - 1] as int - '0' as int)
  }

  /** The decimal digits of `n`, without leading zeros ("0" for zero). */
  function NatDigits(n: nat): (s: string)
    ensures |s| >= 1 && AllDigits(s)
    ensures s[0] != '0' || n == 0
  {
    var d := ((n % 10) + '0' as int) as char;
    if n < 10 then [d] else NatDigits(n / 10) + [d]
  }

  /** `Integer.toString(n)`. */
  function IntToString(n: int): (s: string)
    ensures |s| >= 1 && ',' !in s && IsTrimmed(s)
    ensures forall c :: c in s ==> c == '-' || IsDigit(c)
  {
    if n < 0 then "-" + NatDigits(-n) else NatDigits(n)
  }

  /** `Integer.parseInt(s)`: `None` where Java throws `NumberFormatException`. */
  function ParseInt(s: string): (r: Option<int>)
    ensures r.Some? ==> IsInt32(r.value)
    ensures r.Some? ==> |s| >= 1 && AllDigits(if s[0] == '-' || s[0] == '+' then s[1..] else s)
  {
    if |s| == 0 then None
    else
      var negative := s[0] == '-';
      var digits := if s[0] == '-' || s[0] == '+' then s[1..] else s;
      if |digits| == 0 || !AllDigits(digits) then None
      else
        var magnitude: int := DigitsValue(digits);
        var v := if negative then -magnitude else magnitude;
        if IsInt32(v) then Some(v) else None
  }

  lemma {:induction false} DigitsRoundTrip(n: nat)
    ensures DigitsValue(NatDigits(n)) == n
  {
    var s := NatDigits(n);
    if n >= 10 {
      DigitsRoundTrip(n / 10);
      assert s[..|s| - 1] == NatDigits(n / 10);
    }
  }

  /** Every Java `int` survives `Integer.toString` followed by `Integer.parseInt`. */
  lemma IntRoundTrip(n: int)
    requires IsInt32(n)
    ensures ParseInt(IntToString(n)) == Some(n)
  {
    var s := IntToString(n);
    if n < 0 {
      var digits := NatDigits(-n);
      assert s == "-" + digits && s[0] == '-' && s[1..] == digits;
      DigitsRoundTrip(-n);
    } else {
      var digits := NatDigits(n);
      assert s == digits && IsDigit(s[0]);
      DigitsRoundTrip(n);
    }
  }

  lemma ConsAppend(c: char, t: string, u: string)
    ensures [c] + (t + u) == ([c] + t) + u
  {
  }

  /** A char other than a comma is glued to the first piece of what follows it. */
  lemma PiecesCons(c: char, s: string)
    requires c != ','
    ensures Pieces([c] + s) == [[c] + Pieces(s)[0]] + Pieces(s)[1..]
  {
    assert ([c] + s)[1..] == s;
  }

  /** A comma-free prefix is glued to the first piece of what follows it. */
  lemma {:induction false} PiecesOfCommaFreePrefix(a: string, s: string)
    requires ',' !in a
    ensures Pieces(a + s) == [a + Pieces(s)[0]] + Pieces(s)[1..]
  {
    var p := Pieces(s);
    if |a| == 0 {
      assert a + s == s && a + p[0] == p[0];
      assert p == [p[0]] + p[1..];
    } else {
      var tail := a[1..];
      assert a == [a[0]] + tail;
      assert ',' !in tail;
      PiecesOfCommaFreePrefix(tail, s);
      ConsAppend(a[0], tail, s);
      ConsAppend(a[0], tail, p[0]);
      PiecesCons(a[0], tail + s);
    }
  }

  /** Splitting `a + "," + b` on commas gives back `a` and `b` when neither holds a comma. */
  lemma SplitPair(a: string, b: string)
    requires ',' !in a && ',' !in b && |b| > 0
    ensures Split(a + "," + b) == [a, b]
  {
    var s := a + "," + b;
    assert s == a + ("," + b);
    PiecesOfCommaFreePrefix(a, "," + b);
    assert ("," + b)[1..] == b;
    assert Pieces("," + b) == ["", b];
    assert a + "" == a;
    assert Pieces(s) == [a, b];
    assert s[|a|] == ',';
    assert DropTrailingEmpty([a, b]) == [a, b];
  }

  /** Splitting `a + "," + b + "," + c` on commas gives the three parts when none holds a comma. */
  lemma SplitTriple(a: string, b: string, c: string)
    requires ',' !in a && ',' !in b && ',' !in c && |c| > 0
    ensures Split(a + "," + b + "," + c) == [a, b, c]
  {
    var s := a + "," + b + "," + c;
    var tail := "," + c;
    assert s == a + ("," + (b + tail));
    PiecesOfCommaFreePrefix(a, "," + (b + tail));
    assert ("," + (b + tail))[1..] == b + tail;
    PiecesOfCommaFreePrefix(b, tail);
    assert tail[1..] == c;
    assert Pieces(tail) == ["", c];
    assert b + "" == b && a + "" == a;
    assert Pieces(b + tail) == [b, c];
    assert Pieces("," + (b + tail)) == ["", b, c];
    assert Pieces(s) == [a, b, c];
    assert s[|a|] == ',';
    assert DropTrailingEmpty([a, b, c]) == [a, b, c];
  }
}
