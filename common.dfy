/** Values shared by every part of the model: optional values, Python's
    `str()` on integers, the error value that a FastAPI handler raises, and the
    JSON scalars that arrive from clients. */
module Common {

  datatype Option<T> = None | Some(value: T)

  /** The text of an error. `Foreign` stands for the message of an exception
      raised by code outside the model (SMTP, the socket layer, a missing
      attribute): the model does not know its words. */
  datatype Detail = Text(text: string) | Foreign

  /** `HTTPException(status_code, detail)`. */
  datatype HttpError = HttpError(status: int, detail: Detail)

  /** What a handler returns or raises. */
  datatype Result<T> = Ok(value: T) | Err(error: HttpError)

  /** `str(e)` of an `HTTPException` is "<status>: <detail>". */
  function ErrorText(e: HttpError): (d: Detail)
    ensures e.detail.Foreign? <==> d.Foreign?
    ensures e.detail.Text? ==> d.text == IntToString(e.status) + ": " + e.detail.text
  {
    match e.detail
    case Text(t) => Text(IntToString(e.status) + ": " + t)
    case Foreign => Foreign
  }

  /** `except Exception as e: raise HTTPException(status_code=outer, detail=str(e))`:
      the handler-wide catch that every route in the application wraps around
      its body. */
  function Rewrap(outer: int, e: HttpError): (r: HttpError)
    ensures r.status == outer
    ensures r.detail == ErrorText(e)
  {
    HttpError(outer, ErrorText(e))
  }

  /** A JSON scalar sent by a client: the websocket helper reads the answer
      from a plain dict, so the selected option may be a number or a string. */
  datatype Value = IntValue(i: int) | StrValue(s: string)

  predicate IsDigit(c: char) { '0' <= c <= '9' }

  function DigitChar(d: int): (c: char)
    requires 0 <= d < 10
    ensures IsDigit(c)
  {
    "0123456789"[d]
  }

  /** Decimal rendering of a natural number, as Python prints it. */
  function NatToString(n: nat): (s: string)
    decreases n
  {
    if n < 10 then [DigitChar(n)] else NatToString(n / 10) + [DigitChar(n % 10)]
  }

  /** The shape of an integer's decimal text: an optional minus sign, then
      at least one digit. */
  predicate IsIntText(t: string) {
    && |t| >= 1
    && (forall k :: 0 < k < |t| ==> IsDigit(t[k]))
    && (IsDigit(t[0]) || (t[0] == '-' && |t| >= 2))
  }

  /** Python's `str(i)` for an `int`: a decimal text that starts with a minus
      sign exactly for a negative number. */
  function IntToString(i: int): (s: string)
    ensures IsIntText(s)
    ensures s[0] == '-' <==> i < 0
  {
    if i < 0 then
      NatToStringDigits(-i);
      "-" + NatToString(-i)
    else
      NatToStringDigits(i);
      NatToString(i)
  }

  /** Python's `str(v)`: a text is itself, a number its decimal text. */
  function Str(v: Value): (s: string)
    ensures v.StrValue? ==> s == v.s
    ensures v.IntValue? ==> IsIntText(s) && (s[0] == '-' <==> v.i < 0)
  {
    match v
    case IntValue(i) => IntToString(i)
    case StrValue(s) => s
  }

  lemma {:induction false} NatToStringDigits(n: nat)
    ensures |NatToString(n)| >= 1
    ensures forall k :: 0 <= k < |NatToString(n)| ==> IsDigit(NatToString(n)[k])
    ensures n >= 10 ==> |NatToString(n)| >= 2
    decreases n
  {
    if n >= 10 {
      NatToStringDigits(n / 10);
    }
  }

  lemma DigitCharInjective(a: int, b: int)
    requires 0 <= a < 10 && 0 <= b < 10
    requires DigitChar(a) == DigitChar(b)
    ensures a == b
  {
  }

  /** Two natural numbers print the same exactly when they are equal. */
  lemma {:induction false} NatToStringInjective(a: nat, b: nat)
    ensures NatToString(a) == NatToString(b) <==> a == b
    decreases a
  {
    if NatToString(a) == NatToString(b) {
      NatToStringDigits(a);
      NatToStringDigits(b);
      if a < 10 && b < 10 {
        DigitCharInjective(a, b);
      } else if a >= 10 && b >= 10 {
        var sa, sb := NatToString(a), NatToString(b);
        assert sa[|sa| - 1] == DigitChar(a % 10);
        assert sb[|sb| - 1] == DigitChar(b % 10);
        DigitCharInjective(a % 10, b % 10);
        assert NatToString(a / 10) == sa[..|sa| - 1];
        assert NatToString(b / 10) == sb[..|sb| - 1];
        NatToStringInjective(a / 10, b / 10);
      }
    }
  }

  /** The printed form starts with a minus sign exactly for negative numbers. */
  lemma SignOfIntToString(i: int)
    ensures |IntToString(i)| >= 1
    ensures IntToString(i)[0] == '-' <==> i < 0
  {
    if i >= 0 {
      NatToStringDigits(i);
    }
  }

  /** `str` is injective on integers. */
  lemma IntToStringInjective(a: int, b: int)
    ensures IntToString(a) == IntToString(b) <==> a == b
  {
    if IntToString(a) == IntToString(b) {
      SignOfIntToString(a);
      SignOfIntToString(b);
      if a < 0 {
        NegativeStringsInjective(a, b);
      } else {
        NatToStringInjective(a, b);
      }
    }
  }

  /** The negative half of `IntToStringInjective`: the digits after the sign agree. */
  lemma NegativeStringsInjective(a: int, b: int)
    requires a < 0 && b < 0
    requires IntToString(a) == IntToString(b)
    ensures a == b
  {
    var na, nb: nat := -a, -b;
    assert IntToString(a) == "-" + NatToString(na);
    assert IntToString(b) == "-" + NatToString(nb);
    assert NatToString(na) == IntToString(a)[1..];
    assert NatToString(nb) == IntToString(b)[1..];
    NatToStringInjective(na, nb);
  }

  /** Comparing two integers through `str` is the same as comparing them. */
  lemma StrIntEquality(a: int, b: int)
    ensures Str(IntValue(a)) == Str(IntValue(b)) <==> a == b
  {
    IntToStringInjective(a, b);
  }
}
