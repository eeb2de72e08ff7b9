/** Shared vocabulary of the model: optional values, the order in which a Go
    `range` loop visits a map, and the decimal rendering of `fmt`'s `%d`. */
module Base {

  /** Go's `nil`-or-value, and the `(value, ok)` pairs of map lookups. */
  datatype Option<+T> = None | Some(value: T)

  /** No element of `s` occurs twice. */
  predicate Distinct<K(==)>(s: seq<K>) {
    forall i, j :: 0 <= i < j < |s| ==> s[i] != s[j]
  }

  /** Dropping the head of a repetition-free sequence keeps it so, and the
      head does not occur again. */
  lemma DistinctTail<K>(s: seq<K>)
    requires Distinct(s) && |s| > 0
    ensures Distinct(s[1..]) && s[0] !in s[1..]
  {
    forall i | 0 <= i < |s[1..]| ensures s[1..][i] != s[0] {
      assert s[1..][i] == s[i + 1];
    }
  }

  /** `order` visits every key of `keys` exactly once. Go leaves the order of a
      `range` over a map unspecified, so every such loop is modelled by a
      function that takes the visiting order as a parameter satisfying this. */
  predicate Enumerates<K(==)>(order: seq<K>, keys: set<K>) {
    && Distinct(order)
    && (forall i :: 0 <= i < |order| ==> order[i] in keys)
    && (forall k :: k in keys ==> k in order)
  }

  /** A repetition-free sequence has as many elements as the set it covers. */
  lemma {:induction false} DistinctCardinality<K>(s: seq<K>)
    requires Distinct(s)
    ensures |set k | k in s| == |s|
  {
    if s != [] {
      DistinctCardinality(s[1..]);
      assert (set k | k in s) == {s[0]} + (set k | k in s[1..]);
      assert s[0] !in s[1..] by {
        forall i | 0 <= i < |s[1..]| ensures s[1..][i] != s[0] {
          assert s[1..][i] == s[i + 1];
        }
      }
    }
  }

  /** An enumeration of a key set is exactly as long as the set is large. */
  lemma EnumerationLength<K>(order: seq<K>, keys: set<K>)
    requires Enumerates(order, keys)
    ensures |order| == |keys|
  {
    DistinctCardinality(order);
    assert (set k | k in order) == keys;
  }

  /** The decimal digit character for `d`. */
  function DigitChar(d: nat): (c: char)
    requires d < 10
    ensures '0' <= c <= '9'
  {
    "0123456789"[d]
  }

  /** The value of a decimal digit character. */
  function DigitValue(c: char): (d: nat)
    requires '0' <= c <= '9'
    ensures d < 10 && DigitChar(d) == c
  {
    (c as int - '0' as int) as nat
  }

  /** Decimal rendering of a natural number, without leading zeros. */
  function Decimal(n: nat): (s: string)
    ensures |s| >= 1
    ensures forall i :: 0 <= i < |s| ==> '0' <= s[i] <= '9'
    ensures n >= 10 ==> s[0] != '0'
    decreases n
  {
    if n < 10 then [DigitChar(n)] else Decimal(n / 10) + [DigitChar(n % 10)]
  }

  /** The number a string of decimal digits denotes. */
  function ParseDecimal(s: string): nat
    requires forall i :: 0 <= i < |s| ==> '0' <= s[i] <= '9'
    decreases |s|
  {
    if s == [] then 0 else ParseDecimal(s[..|s| - 1]) * 10 + DigitValue(s[|s| - 1])
  }

  /** Decimal rendering can be read back. */
  lemma {:induction false} DecimalRoundTrip(n: nat)
    ensures ParseDecimal(Decimal(n)) == n
    decreases n
  {
    var s := Decimal(n);
    if n >= 10 {
      var q, d := n / 10, n % 10;
      assert s == Decimal(q) + [DigitChar(d)];
      assert s[..|s| - 1] == Decimal(q);
      assert DigitValue(s[|s| - 1]) == d;
      DecimalRoundTrip(q);
      assert ParseDecimal(s) == q * 10 + d;
    } else {
      assert s[..|s| - 1] == [];
    }
  }

  /** `fmt.Sprintf("%d", i)` for a Go `int`. */
  function FormatInt(i: int): (s: string)
    ensures |s| >= 1
    ensures (i < 0) == (s[0] == '-')
    // the digits after the sign read back as the magnitude
    ensures var digits := if i < 0 then s[1..] else s;
      && (forall k :: 0 <= k < |digits| ==> '0' <= digits[k] <= '9')
      && ParseDecimal(digits) == (if i < 0 then -i else i)
  {
    var m := if i < 0 then -i else i;
    DecimalRoundTrip(m);
    if i < 0 then
      var s := "-" + Decimal(m);
      assert s[1..] == Decimal(m);
      s
    else Decimal(m)
  }

  /** Distinct integers render as distinct strings. */
  lemma FormatIntInjective(a: int, b: int)
    requires a != b
    ensures FormatInt(a) != FormatInt(b)
  {
  }

}
