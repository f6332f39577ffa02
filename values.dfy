/** Java values as the core sees them: the untyped `Object`s carried by a Flink
    `Row`, their `String.valueOf` rendering, and `Integer.valueOf` parsing. */
module Values {

  datatype Option<+T> = None | Some(value: T)

  datatype Result<+T, +E> = Ok(value: T) | Err(error: E)

  /** `Ok(prefix)` placed in front of a later result; an error is kept as it is. */
  function Prepend<T, E>(prefix: seq<T>, rest: Result<seq<T>, E>): Result<seq<T>, E>
  {
    match rest
    case Err(e) => Err(e)
    case Ok(xs) => Ok(prefix + xs)
  }

  lemma PrependEmpty<T, E>(r: Result<seq<T>, E>)
    ensures Prepend([], r) == r
  {
    if r.Ok? {
      assert [] + r.value == r.value;
    }
  }

  lemma PrependPrepend<T, E>(a: seq<T>, b: seq<T>, r: Result<seq<T>, E>)
    ensures Prepend(a, Prepend(b, r)) == Prepend(a + b, r)
  {
    if r.Ok? {
      assert a + (b + r.value) == (a + b) + r.value;
    }
  }

  /** The outcome of a `void` Java method: it returns normally or throws. */
  datatype Outcome<+E> = Pass | Fail(error: E)

  /** A field of a row: Java `null`, a `String`, an integral number or a `Boolean`. */
  datatype Value = Null | Str(s: string) | Int(i: int) | Bool(b: bool)

  predicate IsDigit(c: char) { '0' <= c <= '9' }

  function DigitChar(d: nat): (c: char)
    requires d < 10
    ensures IsDigit(c)
  {
    "0123456789"[d]
  }

  function DigitOf(c: char): (d: nat)
    requires IsDigit(c)
    ensures d < 10 && DigitChar(d) == c
  {
    (c as int - '0' as int) as nat
  }

  /** Decimal rendering of a natural number, most significant digit first. */
  function NatToString(n: nat): (s: string)
    ensures |s| >= 1
    ensures forall k :: 0 <= k < |s| ==> IsDigit(s[k])
  {
    if n < 10 then [DigitChar(n)] else NatToString(n / 10) + [DigitChar(n % 10)]
  }

  /** `Integer.toString` / `Long.toString`: an optional minus sign and the digits. */
  function IntToString(n: int): string
  {
    if n < 0 then "-" + NatToString(-n) else NatToString(n)
  }

  /** `String.valueOf(Object)`: `"null"` for null, the string itself for a
      `String`, the decimal form for a number, `"true"`/`"false"` for a `Boolean`.
      A number's form is one `Integer.valueOf` reads back when it fits an `int`. */
  function StringValueOf(v: Value): (r: string)
    ensures v.Null? ==> r == "null"
    ensures v.Str? ==> r == v.s
    ensures v.Bool? ==> (r == "true" || r == "false") && (r == "true" <==> v.b)
    ensures v.Int? ==> ParseJavaInt(r) == if IntMin <= v.i <= IntMax then Some(v.i) else None
  {
    match v
    case Null => "null"
    case Str(s) => s
    case Int(i) => ParseIntToString(i); IntToString(i)
    case Bool(b) => if b then "true" else "false"
  }

  /** The value of a string of decimal digits. */
  function DigitsValue(s: string): (n: nat)
    requires forall k :: 0 <= k < |s| ==> IsDigit(s[k])
  {
    if s == [] then 0 else DigitsValue(s[..|s| - 1]) * 10 + DigitOf(s[|s| - 1])
  }

  const IntMin: int := -0x8000_0000
  const IntMax: int := 0x7fff_ffff

  predicate AllDigits(s: string)
  {
    forall k :: 0 <= k < |s| ==> IsDigit(s[k])
  }

  /** The text `Integer.valueOf` accepts: an optional `-` or `+` followed by at
      least one decimal digit. */
  predicate IntShape(s: string)
  {
    |s| >= 1 && (AllDigits(s) || (|s| >= 2 && (s[0] == '-' || s[0] == '+') && AllDigits(s[1..])))
  }

  /** The signed value such a text denotes. */
  function SignedValue(s: string): int
    requires IntShape(s)
  {
    if AllDigits(s) then DigitsValue(s)
    else if s[0] == '-' then -(DigitsValue(s[1..]) as int)
    else DigitsValue(s[1..])
  }

  /** `Integer.valueOf(String)` in radix 10: a number exactly when the text has
      the accepted shape and denotes a value inside the 32-bit range, and then
      that value; `None` stands for the `NumberFormatException` it throws otherwise. */
  function ParseJavaInt(s: string): (r: Option<int>)
    ensures r.Some? <==> IntShape(s) && IntMin <= SignedValue(s) <= IntMax
    ensures r.Some? ==> r.value == SignedValue(s)
  {
    if |s| == 0 then None
    else
      var negative := s[0] == '-';
      var digits := if s[0] == '-' || s[0] == '+' then s[1..] else s;
      assert s[0] == '-' || s[0] == '+' ==> !AllDigits(s) && (IntShape(s) <==> |digits| >= 1 && AllDigits(digits));
      assert !(s[0] == '-' || s[0] == '+') ==> (IntShape(s) <==> AllDigits(s));
      if |digits| == 0 || !AllDigits(digits) then None
      else
        var magnitude: int := DigitsValue(digits);
        var n: int := if negative then -magnitude else magnitude;
        if IntMin <= n <= IntMax then Some(n) else None
  }

  lemma {:induction false} DigitsOfNatToString(n: nat)
    ensures DigitsValue(NatToString(n)) == n
  {
    var s := NatToString(n);
    if n < 10 {
      assert s[..0] == [];
    } else {
      DigitsOfNatToString(n / 10);
      assert s[..|s| - 1] == NatToString(n / 10);
    }
  }

  /** Parsing inverts rendering on the whole 32-bit range, and the rendering of
      any number outside it is rejected. */
  lemma ParseIntToString(n: int)
    ensures ParseJavaInt(IntToString(n)) == if IntMin <= n <= IntMax then Some(n) else None
  {
    var s := IntToString(n);
    if n < 0 {
      var d := NatToString(-n);
      DigitsOfNatToString(-n);
      assert IntShape(s) && SignedValue(s) == n by {
        assert s[0] == '-' && !IsDigit(s[0]);
        assert s[1..] == d;
      }
    } else {
      DigitsOfNatToString(n);
      assert AllDigits(s);
    }
  }

  /** A leading `+` changes nothing. */
  lemma ParsePlusSign(d: string)
    requires |d| >= 1 && AllDigits(d)
    ensures ParseJavaInt("+" + d) == ParseJavaInt(d)
  {
    var s := "+" + d;
    assert IntShape(s) && SignedValue(s) == DigitsValue(d) by {
      assert s[0] == '+' && !IsDigit(s[0]);
      assert s[1..] == d;
    }
  }

  /** Texts `Integer.valueOf` rejects, and a few it accepts. */
  lemma ParseSamples()
    ensures ParseJavaInt("") == None
    ensures ParseJavaInt("-") == None
    ensures ParseJavaInt("+") == None
    ensures ParseJavaInt("1a") == None
    ensures ParseJavaInt(" 1") == None
    ensures ParseJavaInt("+7") == Some(7)
    ensures ParseJavaInt("-07") == Some(-7)
    ensures ParseJavaInt("42") == Some(42)
  {
    assert !IsDigit('a') && !IsDigit(' ');
    assert "1a"[1] == 'a' && " 1"[0] == ' ';
    assert "-07"[1..] == "07" && "07"[..1] == "0";
    assert "+7"[1..] == "7" && "42"[..1] == "4";
  }

  /** The rendering of a number starts with a digit or a minus sign, never a letter. */
  lemma IntToStringHead(n: int)
    ensures |IntToString(n)| >= 1
    ensures IntToString(n)[0] == '-' || IsDigit(IntToString(n)[0])
  {
  }
}
