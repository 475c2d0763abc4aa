/** Python values and the few built-in operations the modelled code relies on:
    exceptions, truthiness, `str.split`, `str.strip`, `int()`, `float()` and
    one-argument `round()`.  Floats are modelled as exact reals. */
module PyModel {

  /** A JSON-like Python value, as `json.loads` produces it. */
  datatype Value =
    | PyNone
    | PyBool(b: bool)
    | PyInt(i: int)
    | PyFloat(f: real)
    | PyStr(s: string)
    | PyList(items: seq<Value>)
    | PyDict(entries: map<string, Value>)

  /** A raised built-in exception; `message` is what `str(e)` gives. */
  datatype Exception =
    | ValueError(message: string)
    | TypeError(message: string)
    | AttributeError(message: string)
    | KeyError(message: string)
    | ZeroDivisionError(message: string)

  /** Either a returned value or a raised exception. */
  datatype Result<T> = Ok(value: T) | Raise(error: Exception) {
    predicate IsFailure() { Raise? }
    function PropagateFailure<U>(): Result<U> requires Raise? { Raise(error) }
    function Extract(): T requires Ok? { value }
  }

  /** Python's `Optional[T]`. */
  datatype Option<T> = None | Some(value: T)

  /** `type(v).__name__`. */
  function TypeName(v: Value): string {
    match v
    case PyNone => "NoneType"
    case PyBool(_) => "bool"
    case PyInt(_) => "int"
    case PyFloat(_) => "float"
    case PyStr(_) => "str"
    case PyList(_) => "list"
    case PyDict(_) => "dict"
  }

  /** `bool(v)`: empty containers, zero and None are false. */
  predicate Truthy(v: Value) {
    match v
    case PyNone => false
    case PyBool(b) => b
    case PyInt(i) => i != 0
    case PyFloat(f) => f != 0.0
    case PyStr(s) => s != []
    case PyList(items) => items != []
    case PyDict(entries) => entries != map[]
  }

  /** `repr` of a string, approximated by single quotes around it. */
  function Quote(s: string): string { "'" + s + "'" }

  // ---------------------------------------------------------------------------
  // str.split(sep) with a one-character separator

  /** `s.split(sep)`: the pieces between occurrences of `sep`, always at least one. */
  function Split(s: string, sep: char): (parts: seq<string>)
    ensures |parts| >= 1
    ensures forall i :: 0 <= i < |parts| ==> sep !in parts[i]
    decreases |s|
  {
    if s == [] then [[]]
    else
      var rest := Split(s[1..], sep);
      if s[0] == sep then [[]] + rest
      else [[s[0]] + rest[0]] + rest[1..]
  }

  /** `sep.join(parts)`. */
  function Join(parts: seq<string>, sep: char): string
    requires |parts| >= 1
  {
    if |parts| == 1 then parts[0] else parts[0] + [sep] + Join(parts[1..], sep)
  }

  /** Joining the pieces of a split gives back the original string. */
  lemma {:induction false} JoinSplit(s: string, sep: char)
    ensures Join(Split(s, sep), sep) == s
    decreases |s|
  {
    if s != [] {
      JoinSplit(s[1..], sep);
      var rest := Split(s[1..], sep);
      if s[0] == sep {
        assert Split(s, sep)[1..] == rest;
      } else if |rest| > 1 {
        assert Split(s, sep)[1..] == rest[1..];
        assert [s[0]] + Join(rest, sep) == s;
      }
    }
  }

  /** Splitting `p + sep + t`, where `p` has no separator, peels off `p`. */
  lemma {:induction false} SplitAtFirst(p: string, sep: char, t: string)
    requires sep !in p
    ensures Split(p + [sep] + t, sep) == [p] + Split(t, sep)
    decreases |p|
  {
    if p == [] {
      assert (p + [sep] + t)[1..] == t;
    } else {
      SplitAtFirst(p[1..], sep, t);
      assert (p + [sep] + t)[1..] == p[1..] + [sep] + t;
      assert [p[0]] + p[1..] == p;
    }
  }

  /** A string without the separator splits into itself alone. */
  lemma {:induction false} SplitNoSeparator(p: string, sep: char)
    requires sep !in p
    ensures Split(p, sep) == [p]
    decreases |p|
  {
    if p != [] {
      SplitNoSeparator(p[1..], sep);
      assert [p[0]] + p[1..] == p;
    }
  }

  /** Splitting a join of separator-free pieces gives back the pieces. */
  lemma {:induction false} SplitJoin(parts: seq<string>, sep: char)
    requires |parts| >= 1
    requires forall i :: 0 <= i < |parts| ==> sep !in parts[i]
    ensures Split(Join(parts, sep), sep) == parts
    decreases |parts|
  {
    if |parts| == 1 {
      SplitNoSeparator(parts[0], sep);
    } else {
      SplitJoin(parts[1..], sep);
      SplitAtFirst(parts[0], sep, Join(parts[1..], sep));
      assert [parts[0]] + parts[1..] == parts;
    }
  }

  // ---------------------------------------------------------------------------
  // Whitespace stripping, as int() and float() do before parsing

  /** ASCII whitespace as `str.isspace` sees it (0x09-0x0D, 0x1C-0x1F, space). */
  predicate IsSpace(c: char) {
    c == ' ' || 9 <= c as int <= 13 || 28 <= c as int <= 31
  }

  function TrimStart(s: string): (r: string)
    ensures |r| <= |s| && r == s[|s| - |r|..]
    ensures r == [] || !IsSpace(r[0])
    ensures forall i :: 0 <= i < |s| - |r| ==> IsSpace(s[i])
    decreases |s|
  {
    if s != [] && IsSpace(s[0]) then TrimStart(s[1..]) else s
  }

  function TrimEnd(s: string): (r: string)
    ensures |r| <= |s| && r == s[..|r|]
    ensures r == [] || !IsSpace(r[|r| - 1])
    ensures forall i :: |r| <= i < |s| ==> IsSpace(s[i])
    decreases |s|
  {
    if s != [] && IsSpace(s[|s| - 1]) then TrimEnd(s[..|s| - 1]) else s
  }

  /** `s.strip()`: `s` without leading and trailing whitespace. */
  function Strip(s: string): string { TrimEnd(TrimStart(s)) }

  /** A string that neither starts nor ends with whitespace is its own strip. */
  lemma StripUnchanged(s: string)
    requires s == [] || (!IsSpace(s[0]) && !IsSpace(s[|s| - 1]))
    ensures Strip(s) == s
  {
  }

  // ---------------------------------------------------------------------------
  // Decimal digits

  predicate IsDigit(c: char) { '0' <= c <= '9' }

  predicate AllDigits(s: string) { forall i :: 0 <= i < |s| ==> IsDigit(s[i]) }

  /** The number written by a string of decimal digits (the empty string is 0). */
  function DigitsValue(s: string): nat
    requires AllDigits(s)
    decreases |s|
  {
    if s == [] then 0 else 10 * DigitsValue(s[..|s| - 1]) + (s[|s| - 1] as int - '0' as int)
  }

  function DigitChar(d: nat): (c: char)
    requires d < 10
    ensures IsDigit(c) && c as int - '0' as int == d
  {
    (d + '0' as int) as char
  }

  /** `str(n)` for a natural number. */
  function NatToString(n: nat): (s: string)
    ensures |s| >= 1 && AllDigits(s)
    decreases n
  {
    if n < 10 then [DigitChar(n)] else NatToString(n / 10) + [DigitChar(n % 10)]
  }

  /** `str(i)` for an integer. */
  function IntToString(i: int): (s: string)
    ensures |s| >= 1 && !IsSpace(s[0]) && !IsSpace(s[|s| - 1]) && '/' !in s && '.' !in s
  {
    if i < 0 then "-" + NatToString(-i) else NatToString(i)
  }

  /** Reading back the digits of `n` gives `n`. */
  lemma {:induction false} DigitsValueOfNatToString(n: nat)
    ensures DigitsValue(NatToString(n)) == n
    decreases n
  {
    if n >= 10 {
      DigitsValueOfNatToString(n / 10);
      var s := NatToString(n);
      assert s[..|s| - 1] == NatToString(n / 10);
    }
  }

  /** An optional leading sign: the factor it stands for and the rest of the text. */
  function SplitSign(t: string): (int, string) {
    if |t| > 0 && t[0] == '-' then (-1, t[1..])
    else if |t| > 0 && t[0] == '+' then (1, t[1..])
    else (1, t)
  }

  /** `int(s)` for a string: optional whitespace, an optional sign and at least
      one decimal digit; anything else raises ValueError. */
  function ParseInt(s: string): Result<int> {
    var (sign, body) := SplitSign(Strip(s));
    if body != [] && AllDigits(body) then Ok(sign * DigitsValue(body))
    else Raise(ValueError("invalid literal for int() with base 10: " + Quote(s)))
  }

  /** `str(i)` has no surrounding whitespace; its sign and digits are those
      of `i`. */
  lemma SignOfIntToString(i: int)
    ensures SplitSign(Strip(IntToString(i))) == (if i < 0 then -1 else 1, NatToString(if i < 0 then -i else i))
  {
    StripUnchanged(IntToString(i));
    if i < 0 {
      assert IntToString(i)[1..] == NatToString(-i);
    }
  }

  /** `int(str(i)) == i`. */
  lemma ParseIntOfIntToString(i: int)
    ensures ParseInt(IntToString(i)) == Ok(i)
  {
    SignOfIntToString(i);
    DigitsValueOfNatToString(if i < 0 then -i else i);
  }

  function Pow10(k: nat): (p: nat)
    ensures p >= 1
  {
    if k == 0 then 1 else 10 * Pow10(k - 1)
  }

  /** The value of an unsigned decimal `digits[.digits]` with at least one digit. */
  function DecimalValue(body: string): Option<real> {
    var parts := Split(body, '.');
    if |parts| == 1 && parts[0] != [] && AllDigits(parts[0]) then
      Some(DigitsValue(parts[0]) as real)
    else if |parts| == 2 && AllDigits(parts[0]) && AllDigits(parts[1]) && |parts[0]| + |parts[1]| > 0 then
      Some(DigitsValue(parts[0]) as real + DigitsValue(parts[1]) as real / Pow10(|parts[1]|) as real)
    else None
  }

  /** `float(s)` for a string: optional whitespace, an optional sign and a
      decimal with at most one point; anything else raises ValueError. */
  function ParseFloat(s: string): Result<real> {
    var (sign, body) := SplitSign(Strip(s));
    match DecimalValue(body)
    case Some(x) => Ok(sign as real * x)
    case None => Raise(ValueError("could not convert string to float: " + Quote(s)))
  }

  /** `float()` of unsigned, unpadded decimal text is the decimal's value. */
  lemma ParseFloatOfUnsigned(s: string, x: real)
    requires SplitSign(Strip(s)) == (1, s) && DecimalValue(s) == Some(x)
    ensures ToFloat(PyStr(s)) == Ok(x)
  {
  }

  /** A run of digits with no point is read as its integer value. */
  lemma DecimalValueOfNatToString(n: nat)
    ensures DecimalValue(NatToString(n)) == Some(n as real)
  {
    var t := NatToString(n);
    SplitNoSeparator(t, '.');
    assert Split(t, '.') == [t];
    DigitsValueOfNatToString(n);
  }

  /** `float(str(i)) == i`. */
  lemma ParseFloatOfIntToString(i: int)
    ensures ParseFloat(IntToString(i)) == Ok(i as real)
  {
    SignOfIntToString(i);
    DecimalValueOfNatToString(if i < 0 then -i else i);
  }

  /** `int(f)` for a float: truncation toward zero. */
  function Trunc(f: real): (r: int)
    ensures f >= 0.0 ==> 0 <= r && r as real <= f < r as real + 1.0
    ensures f < 0.0 ==> r <= 0 && r as real - 1.0 < f <= r as real
  {
    if f >= 0.0 then f.Floor else -((-f).Floor)
  }

  /** `int(v)`. */
  function ToInt(v: Value): Result<int> {
    match v
    case PyBool(b) => Ok(if b then 1 else 0)
    case PyInt(i) => Ok(i)
    case PyFloat(f) => Ok(Trunc(f))
    case PyStr(s) => ParseInt(s)
    case _ => Raise(TypeError("int() argument must be a string, a bytes-like object or a real number, not "
                              + Quote(TypeName(v))))
  }

  /** `float(v)`. */
  function ToFloat(v: Value): Result<real> {
    match v
    case PyBool(b) => Ok(if b then 1.0 else 0.0)
    case PyInt(i) => Ok(i as real)
    case PyFloat(f) => Ok(f)
    case PyStr(s) => ParseFloat(s)
    case _ => Raise(TypeError("float() argument must be a string or a real number, not " + Quote(TypeName(v))))
  }

  // ---------------------------------------------------------------------------
  // List comprehensions over a call that may raise

  /** `[f(x) for x in xs]`: `f` is applied in order and the first exception
      abandons the list. */
  function Comprehension<A, B>(f: A -> Result<B>, xs: seq<A>): Result<seq<B>>
    decreases |xs|
  {
    if xs == [] then Ok([])
    else
      var y :- f(xs[0]);
      var rest :- Comprehension(f, xs[1..]);
      Ok([y] + rest)
  }

  /** The list is built iff every call returns, and then holds each call's
      result in order. */
  lemma {:induction false} ComprehensionOk<A, B>(f: A -> Result<B>, xs: seq<A>)
    ensures Comprehension(f, xs).Ok? <==> forall k :: 0 <= k < |xs| ==> f(xs[k]).Ok?
    ensures Comprehension(f, xs).Ok? ==>
      |Comprehension(f, xs).value| == |xs| &&
      forall k :: 0 <= k < |xs| ==> f(xs[k]) == Ok(Comprehension(f, xs).value[k])
    decreases |xs|
  {
    if xs != [] {
      var tail := xs[1..];
      ComprehensionOk(f, tail);
      assert forall k :: 1 <= k < |xs| ==> xs[k] == tail[k - 1];
    }
  }

  /** The call at index `k` is the first to fail: the comprehension raises
      its exception. */
  lemma {:induction false} ComprehensionFirstFailure<A, B>(f: A -> Result<B>, xs: seq<A>, k: nat)
    requires k < |xs| && f(xs[k]).Raise?
    requires forall k' :: 0 <= k' < k ==> f(xs[k']).Ok?
    ensures Comprehension(f, xs) == Raise(f(xs[k]).error)
    decreases k
  {
    if k > 0 {
      var tail := xs[1..];
      assert f(xs[0]).Ok?;
      assert forall k' :: 0 <= k' < k - 1 ==> tail[k'] == xs[k' + 1];
      ComprehensionFirstFailure(f, tail, k - 1);
    }
  }

  /** When every call returns, the list is exactly their results. */
  lemma ComprehensionOfResults<A, B>(f: A -> Result<B>, xs: seq<A>, ys: seq<B>)
    requires |xs| == |ys| && forall k :: 0 <= k < |xs| ==> f(xs[k]) == Ok(ys[k])
    ensures Comprehension(f, xs) == Ok(ys)
  {
    ComprehensionOk(f, xs);
    assert Comprehension(f, xs).value == ys;
  }

  /** Two calls that both return give the pair of their results. */
  lemma ComprehensionOfPair<A, B>(f: A -> Result<B>, xs: seq<A>, a: B, b: B)
    requires |xs| == 2 && f(xs[0]) == Ok(a) && f(xs[1]) == Ok(b)
    ensures Comprehension(f, xs) == Ok([a, b])
  {
    ComprehensionOfResults(f, xs, [a, b]);
  }

  /** Otherwise it raises what the first failing call raised. */
  lemma {:induction false} ComprehensionRaise<A, B>(f: A -> Result<B>, xs: seq<A>)
    ensures Comprehension(f, xs).Raise? ==>
      exists k :: 0 <= k < |xs| && f(xs[k]) == Raise(Comprehension(f, xs).error) &&
        forall k' :: 0 <= k' < k ==> f(xs[k']).Ok?
    decreases |xs|
  {
    if xs != [] && f(xs[0]).Ok? && Comprehension(f, xs).Raise? {
      var tail := xs[1..];
      ComprehensionRaise(f, tail);
      var k :| 0 <= k < |tail| && f(tail[k]) == Raise(Comprehension(f, tail).error) &&
        forall k' :: 0 <= k' < k ==> f(tail[k']).Ok?;
      assert xs[k + 1] == tail[k];
      forall k' | 0 <= k' < k + 1 ensures f(xs[k']).Ok? {
        if k' > 0 { assert xs[k'] == tail[k' - 1]; }
      }
    }
  }

  // ---------------------------------------------------------------------------
  // round(x): nearest integer, ties to even

  /** `round(q)`: the integer nearest to `q`, the even one on a tie. */
  function RoundHalfEven(q: real): (r: int)
    ensures -0.5 <= r as real - q <= 0.5
    ensures (r as real - q == 0.5 || q - r as real == 0.5) ==> r % 2 == 0
  {
    var f := q.Floor;
    var frac := q - f as real;
    if frac < 0.5 then f
    else if frac > 0.5 then f + 1
    else if f % 2 == 0 then f
    else f + 1
  }

  /** Those two properties determine `round(q)`: no other integer has them. */
  lemma RoundHalfEvenUnique(q: real, r: int)
    requires -0.5 <= r as real - q <= 0.5
    requires (r as real - q == 0.5 || q - r as real == 0.5) ==> r % 2 == 0
    ensures r == RoundHalfEven(q)
  {
  }
}
