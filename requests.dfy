/** Request fields as the chat routes receive them, and the tests the routes
    apply to them before touching any table: JavaScript truthiness (`!x`),
    the `isNaN` test on a path parameter, and how a value is bound to the
    integer `ChatId` column of a query. */
module Requests {

  datatype Option<T> = None | Some(value: T)

  /** A field of a JSON request body: absent, a number or a string. */
  datatype Json = Missing | Num(n: int) | Text(s: string)

  /** `!request.body.x` is false exactly for these values: an absent field,
      the number 0 and the empty string are falsy. */
  predicate Truthy(v: Json) {
    match v
    case Missing => false
    case Num(n) => n != 0
    case Text(s) => s != ""
  }

  /** A string field of the body (`name`, `email`) passes `!request.body.x`. */
  predicate Present(v: Option<string>) {
    v.Some? && v.value != ""
  }

  predicate IsDigit(c: char) {
    '0' <= c <= '9'
  }

  predicate AllDigits(s: string) {
    forall i :: 0 <= i < |s| ==> IsDigit(s[i])
  }

  /** Decimal integers with an optional minus sign: the strings for which
      `isNaN` is false, up to the approximation described in README.md. */
  predicate IsNumeric(s: string) {
    if |s| > 0 && s[0] == '-' then |s| > 1 && AllDigits(s[1..])
    else |s| > 0 && AllDigits(s)
  }

  function DigitValue(c: char): (d: nat)
    requires IsDigit(c)
    ensures d < 10
  {
    (c - '0') as nat
  }

  function DigitChar(d: nat): (c: char)
    requires d < 10
    ensures IsDigit(c) && DigitValue(c) == d
  {
    ('0' as int + d) as char
  }

  /** The value of a string of decimal digits, most significant first. */
  function DigitsValue(s: string): nat
    requires AllDigits(s)
  {
    if s == [] then 0 else DigitsValue(s[..|s| - 1]) * 10 + DigitValue(s[|s| - 1])
  }

  /** The integer a numeric path parameter names. */
  function ParseInt(s: string): int
    requires IsNumeric(s)
  {
    if s[0] == '-' then -(DigitsValue(s[1..]) as int) else DigitsValue(s)
  }

  /** The decimal digits of `n`, without leading zeros. */
  function ShowNat(n: nat): (s: string)
    ensures |s| > 0 && AllDigits(s)
  {
    if n < 10 then [DigitChar(n)] else ShowNat(n / 10) + [DigitChar(n % 10)]
  }

  /** How a chat id appears as the `:chatId` segment of a request path. */
  function ShowInt(n: int): (s: string)
    ensures IsNumeric(s)
  {
    if n < 0 then "-" + ShowNat(-n) else ShowNat(n)
  }

  lemma {:induction false} DigitsValueShowNat(n: nat)
    ensures DigitsValue(ShowNat(n)) == n
  {
    var s := ShowNat(n);
    if n >= 10 {
      assert s[..|s| - 1] == ShowNat(n / 10);
      DigitsValueShowNat(n / 10);
    }
  }

  /** A chat id written into a path passes the numeric guard and names the
      same chat again. */
  lemma ParseShowInt(n: int)
    ensures IsNumeric(ShowInt(n)) && ParseInt(ShowInt(n)) == n
  {
    var s := ShowInt(n);
    if n < 0 {
      assert s[1..] == ShowNat(-n);
      DigitsValueShowNat(-n);
    } else {
      DigitsValueShowNat(n);
    }
  }

  /** The range of the 32-bit `integer` column type that `ChatId` has. */
  const Int4Min := -0x8000_0000
  const Int4Max := 0x7FFF_FFFF

  predicate InInt4(n: int) {
    Int4Min <= n <= Int4Max
  }

  /** What node-postgres sends for `$1` when the query compares it with the
      integer column `ChatId`: an absent field becomes SQL NULL, which equals
      no row; a value that is not an integer of the column's range makes the
      query fail. */
  datatype Binding = NullParam | IntParam(n: int) | CastError

  function BindInt(v: Json): (b: Binding)
    ensures b.IntParam? <==> (v.Num? && InInt4(v.n)) || (v.Text? && IsNumeric(v.s) && InInt4(ParseInt(v.s)))
    ensures b.IntParam? ==> InInt4(b.n)
    ensures v.Num? && InInt4(v.n) ==> b == IntParam(v.n)
    ensures v.Text? && IsNumeric(v.s) && InInt4(ParseInt(v.s)) ==> b == IntParam(ParseInt(v.s))
    ensures b.NullParam? <==> v.Missing?
  {
    match v
    case Missing => NullParam
    case Num(n) => if InInt4(n) then IntParam(n) else CastError
    case Text(s) => if IsNumeric(s) && InInt4(ParseInt(s)) then IntParam(ParseInt(s)) else CastError
  }

  /** A chat id written as a string binds to that id exactly when it is in
      the column's range; outside it the query fails. */
  lemma BindShowInt(n: int)
    ensures InInt4(n) ==> BindInt(Text(ShowInt(n))) == IntParam(n)
    ensures !InInt4(n) ==> BindInt(Text(ShowInt(n))) == CastError
  {
    ParseShowInt(n);
  }
}
