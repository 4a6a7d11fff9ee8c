/**
 * The small slice of Python value semantics that the request handler relies
 * on: looking a key up in a dictionary with `dict.get`, the truthiness of an
 * optional string, and `str()` applied to a format identifier.
 */
module PythonValues {
  import opened Wrappers

  /**
   * One key of a dictionary as `dict.get` sees it: the key may be absent,
   * present with the value `None`, or present with a value.
   */
  datatype Field<+T> = Absent | Null | Present(value: T)
  {
    /** `d.get(k)`: an absent key and a `None` value both read as `None`. */
    function Get(): Option<T>
    {
      if Present? then Some(value) else None
    }

    /**
     * `d.get(k, default)`: the default replaces only an ABSENT key; a key
     * that is present with the value `None` still reads as `None`.
     */
    function GetOr(default: T): (r: Option<T>)
      ensures r == (if Absent? then Some(default) else Get())
    {
      match this
      case Absent => Some(default)
      case Null => None
      case Present(v) => Some(v)
    }
  }

  /** `bool(s)` for a value that is either `None` or a string. */
  predicate Truthy(s: Option<string>)
  {
    s.Some? && s.value != ""
  }

  /** The non-`None` values a format identifier is seen to take. */
  datatype Scalar = Text(text: string) | Integer(number: int)

  function DigitChar(d: nat): (c: char)
    requires d < 10
    ensures '0' <= c <= '9'
    ensures c as int - '0' as int == d
  {
    "0123456789"[d]
  }

  /** Decimal digits of a natural number, most significant first, no leading zeros. */
  function NatToDecimal(n: nat): (s: string)
    ensures |s| >= 1
    ensures forall k :: 0 <= k < |s| ==> '0' <= s[k] <= '9'
    ensures |s| == 1 <==> n < 10
    ensures n > 0 ==> s[0] != '0'
    decreases n
  {
    if n < 10 then [DigitChar(n)] else NatToDecimal(n / 10) + [DigitChar(n % 10)]
  }

  /** Python's `str(i)` for an integer `i`. */
  function IntToDecimal(i: int): (s: string)
  {
    if i < 0 then "-" + NatToDecimal(-i) else NatToDecimal(i)
  }

  /** Python's `int(s)` on a string of decimal digits: the partner of `NatToDecimal`. */
  function DecimalToNat(s: string): (n: nat)
    requires forall k :: 0 <= k < |s| ==> '0' <= s[k] <= '9'
  {
    if s == [] then 0
    else DecimalToNat(s[..|s| - 1]) * 10 + (s[|s| - 1] as int - '0' as int)
  }

  /** Reading back what `NatToDecimal` wrote gives the number again. */
  lemma {:induction false} DecimalRoundTrip(n: nat)
    ensures DecimalToNat(NatToDecimal(n)) == n
    decreases n
  {
    var s := NatToDecimal(n);
    if n >= 10 {
      DecimalRoundTrip(n / 10);
      assert s[..|s| - 1] == NatToDecimal(n / 10);
    } else {
      assert s[..|s| - 1] == [];
    }
  }

  /** Python's `str(v)` where `v` is what `fmt.get('format_id')` returned. */
  function Str(v: Option<Scalar>): string
  {
    match v
    case None => "None"
    case Some(Text(t)) => t
    case Some(Integer(i)) => IntToDecimal(i)
  }

  /**
   * `str(v) == "18"` holds exactly for the string `'18'` and the integer 18:
   * no other integer renders as "18" and `None` renders as "None".
   */
  lemma {:induction false} StrIsEighteen(v: Option<Scalar>)
    ensures Str(v) == "18" <==> v == Some(Text("18")) || v == Some(Integer(18))
  {
    if v.Some? && v.value.Integer? {
      var i := v.value.number;
      if i >= 0 && NatToDecimal(i) == "18" {
        DecimalRoundTrip(i);
        assert DecimalToNat("18") == 18 by {
          assert "18"[..1] == "1";
          assert "1"[..0] == [];
        }
      }
      if i == 18 {
        assert NatToDecimal(1) == "1";
        assert NatToDecimal(18) == NatToDecimal(1) + [DigitChar(8)];
      }
    }
  }
}
