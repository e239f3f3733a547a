/**
 * JSON values as the adapter handles them once `json.loads` or pyld has produced
 * them: `None`, booleans, integers, `unicode` strings, lists and dicts with string keys.
 */
module JsonValue {

  datatype Json =
    | JNull
    | JBool(b: bool)
    | JNum(n: int)
    | JStr(s: string)
    | JArr(items: seq<Json>)
    | JObj(members: map<string, Json>)
  {
    /** Neither a list nor a dict. */
    predicate IsScalar() {
      !JArr? && !JObj?
    }
  }

  /** Python's truth value of a JSON value: `None`, `False`, `0` and empty strings, lists and dicts are false. */
  predicate Truthy(v: Json)
  {
    match v
    case JNull => false
    case JBool(b) => b
    case JNum(n) => n != 0
    case JStr(s) => s != []
    case JArr(items) => items != []
    case JObj(m) => m != map[]
  }

  /** The decimal digits of a natural number, most significant first. */
  function NatDigits(n: nat): (r: string)
    ensures r != []
    ensures forall i | 0 <= i < |r| :: '0' <= r[i] <= '9'
  {
    if n < 10 then [('0' as int + n) as char]
    else NatDigits(n / 10) + [('0' as int + n % 10) as char]
  }

  /** `str(n)` for an integer: its decimal digits, with a leading `-` when negative. */
  function Decimal(n: int): (r: string)
    ensures r != []
    ensures (r[0] == '-') <==> n < 0
  {
    if n < 0 then "-" + NatDigits(-n) else NatDigits(n)
  }

  /** The number a string of decimal digits denotes, most significant digit first. */
  function DigitsValue(s: string): nat
    requires forall i | 0 <= i < |s| :: '0' <= s[i] <= '9'
  {
    if s == [] then 0 else 10 * DigitsValue(s[..|s| - 1]) + (s[|s| - 1] as int - '0' as int)
  }

  /** `NatDigits` spells its argument, and starts with `0` only when that is the whole number. */
  lemma {:induction false} NatDigitsValue(n: nat)
    ensures DigitsValue(NatDigits(n)) == n
    ensures NatDigits(n)[0] == '0' <==> n == 0
    ensures n == 0 ==> NatDigits(n) == "0"
  {
    if n >= 10 {
      NatDigitsValue(n / 10);
      var r := NatDigits(n);
      assert r[..|r| - 1] == NatDigits(n / 10);
      assert r[0] == NatDigits(n / 10)[0];
    }
  }

  /** `str(n)` reads back as `n`: the digits after an optional `-` spell its magnitude, with no leading zero. */
  lemma DecimalValue(n: int)
    ensures n >= 0 ==> DigitsValue(Decimal(n)) == n
    ensures n < 0 ==> Decimal(n)[1..] == NatDigits(-n) && DigitsValue(Decimal(n)[1..]) == -n
    ensures var d := if n < 0 then Decimal(n)[1..] else Decimal(n); |d| > 1 ==> d[0] != '0'
  {
    if n < 0 {
      NatDigitsValue(-n);
      assert Decimal(n)[1..] == NatDigits(-n);
    } else {
      NatDigitsValue(n);
    }
  }

  /** Distinct integers print differently. */
  lemma DecimalInjective(a: int, b: int)
    requires Decimal(a) == Decimal(b)
    ensures a == b
  {
    DecimalValue(a);
    DecimalValue(b);
  }

  /** The node-identifier key of JSON-LD (section 5.3 of JSON-LD 1.0). */
  const IdKey: string := "@id"
}
