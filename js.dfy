/** The few pieces of JavaScript value semantics that the store, the
    validators and the components lean on: nullable values, truthiness of
    strings and numbers, `String.prototype.trim`, `Number.prototype.toString`,
    `parseInt(s, 10)`, `String.prototype.split` and `Math.floor` of a quotient. */
module Js {

  /** `null`/`undefined` versus a present value. */
  datatype Option<+T> = None | Some(value: T)

  /** A JSON-like JavaScript value: the shapes form data and validation
      results take. Numbers are integers here (no fractions, no NaN); arrays
      are not distinguished from objects. */
  datatype JsValue =
    | Undefined
    | Null
    | Bool(b: bool)
    | Num(n: int)
    | Str(s: string)
    | Obj(fields: map<string, JsValue>)

  /** `obj[key]` on a record: `undefined` for a missing key. */
  function Get(fields: map<string, JsValue>, key: string): JsValue
  {
    if key in fields then fields[key] else Undefined
  }

  /** JavaScript truthiness of a value (`NaN` is not modelled). */
  predicate JsTruthy(v: JsValue)
  {
    match v
    case Undefined => false
    case Null => false
    case Bool(b) => b
    case Num(n) => n != 0
    case Str(s) => s != ""
    case Obj(_) => true
  }

  /** A nullable string is truthy when present and not `''`. */
  predicate Truthy(a: Option<string>)
  {
    a.Some? && a.value != ""
  }

  /** `a || b` on nullable strings. */
  function Or(a: Option<string>, b: Option<string>): Option<string>
  {
    if Truthy(a) then a else b
  }

  /** `a || null` on a nullable string: `''` collapses to `null`. */
  function OrNull(a: Option<string>): (r: Option<string>)
    ensures r.Some? ==> r.value != ""
  {
    Or(a, None)
  }

  // ---------------------------------------------------------------------
  // String.prototype.trim

  /** ECMAScript WhiteSpace and LineTerminator code points (what `trim` strips). */
  predicate IsWhitespace(c: char)
  {
    || c == '\t' || c == '\n' || c == '\U{000B}' || c == '\U{000C}' || c == '\r'
    || c == ' ' || c == '\U{00A0}' || c == '\U{1680}'
    || ('\U{2000}' <= c <= '\U{200A}')
    || c == '\U{2028}' || c == '\U{2029}' || c == '\U{202F}' || c == '\U{205F}'
    || c == '\U{3000}' || c == '\U{FEFF}'
  }

  function TrimStart(s: string): string
  {
    if s != [] && IsWhitespace(s[0]) then TrimStart(s[1..]) else s
  }

  function TrimEnd(s: string): string
  {
    if s != [] && IsWhitespace(s[|s| - 1]) then TrimEnd(s[..|s| - 1]) else s
  }

  function Trim(s: string): string
  {
    TrimEnd(TrimStart(s))
  }

  predicate AllWhitespace(s: string)
  {
    forall i :: 0 <= i < |s| ==> IsWhitespace(s[i])
  }

  lemma {:induction false} TrimStartEmpty(s: string)
    ensures TrimStart(s) == [] <==> AllWhitespace(s)
  {
    if s != [] && IsWhitespace(s[0]) {
      TrimStartEmpty(s[1..]);
      assert AllWhitespace(s[1..]) ==> AllWhitespace(s) by {
        if AllWhitespace(s[1..]) {
          forall i | 0 <= i < |s| ensures IsWhitespace(s[i]) {
            if i > 0 { assert s[i] == s[1..][i - 1]; }
          }
        }
      }
    }
  }

  lemma {:induction false} TrimEndEmpty(s: string)
    ensures TrimEnd(s) == [] <==> AllWhitespace(s)
  {
    if s != [] && IsWhitespace(s[|s| - 1]) {
      var t := s[..|s| - 1];
      TrimEndEmpty(t);
      assert AllWhitespace(t) ==> AllWhitespace(s) by {
        if AllWhitespace(t) {
          forall i | 0 <= i < |s| ensures IsWhitespace(s[i]) {
            if i < |s| - 1 { assert s[i] == t[i]; }
          }
        }
      }
    }
  }

  lemma {:induction false} TrimStartAllWhitespace(s: string)
    ensures AllWhitespace(TrimStart(s)) <==> AllWhitespace(s)
  {
    if s != [] && IsWhitespace(s[0]) {
      TrimStartAllWhitespace(s[1..]);
      assert AllWhitespace(s) <==> AllWhitespace(s[1..]) by {
        if AllWhitespace(s[1..]) {
          forall i | 0 <= i < |s| ensures IsWhitespace(s[i]) {
            if i > 0 { assert s[i] == s[1..][i - 1]; }
          }
        }
      }
    }
  }

  /** `s.trim()` is empty exactly when every character of `s` is white space. */
  lemma TrimEmptyIffAllWhitespace(s: string)
    ensures Trim(s) == [] <==> AllWhitespace(s)
  {
    TrimEndEmpty(TrimStart(s));
    TrimStartAllWhitespace(s);
  }

  // ---------------------------------------------------------------------
  // Decimal strings: Number.prototype.toString and parseInt(s, 10)

  predicate IsDigit(c: char)
  {
    '0' <= c <= '9'
  }

  function DigitChar(d: nat): (c: char)
    requires d < 10
    ensures IsDigit(c)
  {
    ['0', '1', '2', '3', '4', '5', '6', '7', '8', '9'][d]
  }

  function DigitValue(c: char): nat
    requires IsDigit(c)
  {
    (c as int - '0' as int) as nat
  }

  /** `n.toString()` for a non-negative integer. */
  function DecimalString(n: nat): (s: string)
    ensures s != []
    ensures forall i :: 0 <= i < |s| ==> IsDigit(s[i])
  {
    if n < 10 then [DigitChar(n)] else DecimalString(n / 10) + [DigitChar(n % 10)]
  }

  /** Value of a string of digits, most significant first. */
  function DigitsValue(s: string): nat
    requires forall i :: 0 <= i < |s| ==> IsDigit(s[i])
  {
    if s == [] then 0 else 10 * DigitsValue(s[..|s| - 1]) + DigitValue(s[|s| - 1])
  }

  /** The longest prefix of `s` made of decimal digits. */
  function DigitPrefix(s: string): (d: string)
    ensures |d| <= |s| && d == s[..|d|]
    ensures forall i :: 0 <= i < |d| ==> IsDigit(d[i])
  {
    if s == [] || !IsDigit(s[0]) then [] else [s[0]] + DigitPrefix(s[1..])
  }

  /** `parseInt(s, 10)`: leading white space, an optional sign, then the longest
      run of digits; `NaN` (here `None`) when there is no digit. */
  function ParseInt(s: string): Option<int>
  {
    var t := TrimStart(s);
    var signed := t != [] && (t[0] == '-' || t[0] == '+');
    var d := DigitPrefix(if signed then t[1..] else t);
    if d == [] then None
    else if signed && t[0] == '-' then Some(0 - DigitsValue(d))
    else Some(DigitsValue(d) as int)
  }

  lemma {:induction false} DigitPrefixOfDigits(s: string)
    requires forall i :: 0 <= i < |s| ==> IsDigit(s[i])
    ensures DigitPrefix(s) == s
  {
    if s != [] {
      DigitPrefixOfDigits(s[1..]);
    }
  }

  lemma {:induction false} DigitsValueOfDecimal(n: nat)
    ensures DigitsValue(DecimalString(n)) == n
  {
    var s := DecimalString(n);
    if n >= 10 {
      DigitsValueOfDecimal(n / 10);
      assert s[..|s| - 1] == DecimalString(n / 10);
    }
  }

  /** `parseInt(n.toString(), 10) == n`: the id of a cart line built from a
      product parses back to the product id. */
  lemma ParseDecimalRoundTrip(n: nat)
    ensures ParseInt(DecimalString(n)) == Some(n)
  {
    var s := DecimalString(n);
    assert TrimStart(s) == s;
    DigitPrefixOfDigits(s);
    DigitsValueOfDecimal(n);
  }

  // ---------------------------------------------------------------------
  // String.prototype.split on one separator character, and the inverse join

  function Split(s: string, sep: char): (parts: seq<string>)
    ensures |parts| >= 1
  {
    if s == [] then [""]
    else
      var rest := Split(s[1..], sep);
      if s[0] == sep then [""] + rest else [[s[0]] + rest[0]] + rest[1..]
  }

  function Join(parts: seq<string>, sep: char): string
    requires |parts| >= 1
  {
    if |parts| == 1 then parts[0] else parts[0] + [sep] + Join(parts[1..], sep)
  }

  /** Joining the pieces of `s.split(sep)` with `sep` gives `s` back. */
  lemma {:induction false} JoinSplit(s: string, sep: char)
    ensures Join(Split(s, sep), sep) == s
  {
    if s != [] {
      var rest := Split(s[1..], sep);
      JoinSplit(s[1..], sep);
      if s[0] == sep {
        assert Split(s, sep)[1..] == rest;
      } else {
        var parts := Split(s, sep);
        if |rest| == 1 {
          assert parts == [[s[0]] + rest[0]];
        } else {
          assert parts[1..] == rest[1..];
          assert Join(rest, sep) == rest[0] + [sep] + Join(rest[1..], sep);
        }
      }
    }
  }

  /** A piece without the separator splits to itself. */
  lemma {:induction false} SplitPlain(s: string, sep: char)
    requires sep !in s
    ensures Split(s, sep) == [s]
  {
    if s != [] {
      assert sep !in s[1..];
      SplitPlain(s[1..], sep);
      assert s[0] != sep;
      assert [s[0]] + s[1..] == s;
    }
  }

  /** `(a + sep + k).split(sep)` is `a.split(sep)` followed by `k` when `k`
      holds no separator. */
  lemma {:induction false} SplitExtend(a: string, k: string, sep: char)
    requires sep !in k
    ensures Split(a + [sep] + k, sep) == Split(a, sep) + [k]
  {
    if a == [] {
      assert [sep] + k == a + [sep] + k;
      assert ([sep] + k)[1..] == k;
      SplitPlain(k, sep);
    } else {
      assert (a + [sep] + k)[1..] == a[1..] + [sep] + k;
      SplitExtend(a[1..], k, sep);
    }
  }

  /** Splitting `k + sep + rest` peels off `k` when `k` holds no separator. */
  lemma {:induction false} SplitPrepend(k: string, rest: string, sep: char)
    requires sep !in k
    ensures Split(k + [sep] + rest, sep) == [k] + Split(rest, sep)
  {
    if k == [] {
      assert k + [sep] + rest == [sep] + rest;
      assert ([sep] + rest)[1..] == rest;
    } else {
      assert (k + [sep] + rest)[1..] == k[1..] + [sep] + rest;
      assert sep !in k[1..];
      SplitPrepend(k[1..], rest, sep);
      assert [k[0]] + k[1..] == k;
    }
  }

  /** Joining one more piece appends the separator and the piece. */
  lemma {:induction false} JoinSnoc(parts: seq<string>, k: string, sep: char)
    requires |parts| >= 1
    ensures Join(parts + [k], sep) == Join(parts, sep) + [sep] + k
    decreases |parts|
  {
    if |parts| > 1 {
      assert (parts + [k])[1..] == parts[1..] + [k];
      JoinSnoc(parts[1..], k, sep);
    }
  }

  /** Joining pieces that hold no separator and splitting again gives the
      pieces back. */
  lemma {:induction false} SplitJoin(parts: seq<string>, sep: char)
    requires |parts| >= 1
    requires forall i :: 0 <= i < |parts| ==> sep !in parts[i]
    ensures Split(Join(parts, sep), sep) == parts
  {
    if |parts| == 1 {
      SplitPlain(parts[0], sep);
    } else {
      SplitJoin(parts[1..], sep);
      SplitPrepend(parts[0], Join(parts[1..], sep), sep);
    }
  }

  // ---------------------------------------------------------------------
  // Math.floor(a / b)

  /** `Math.floor(a / b)` on integers: Dafny's `/` is Euclidean, which is the
      floor of the quotient for a positive divisor; a negative divisor is
      turned positive first. */
  function FloorDiv(a: int, b: int): (q: int)
    requires b != 0
    ensures b > 0 ==> b * q <= a < b * (q + 1)
    ensures b < 0 ==> b * q >= a > b * (q + 1)
  {
    if b > 0 then a / b else (-a) / (-b)
  }

  // ---------------------------------------------------------------------
  // Array.prototype.find

  /** `xs.find(x => key(x) === k)`: nothing when no element has the key,
      otherwise the first element that does. */
  function FindFirst<T(==), K(==)>(xs: seq<T>, key: T -> K, k: K): (r: Option<T>)
    ensures r.None? <==> forall i :: 0 <= i < |xs| ==> key(xs[i]) != k
    ensures r.Some? ==> exists i :: 0 <= i < |xs| && xs[i] == r.value && key(r.value) == k
                                    && forall j :: 0 <= j < i ==> key(xs[j]) != k
  {
    if xs == [] then None
    else if key(xs[0]) == k then Some(xs[0])
    else
      var r := FindFirst(xs[1..], key, k);
      assert forall i :: 1 <= i < |xs| ==> xs[i] == xs[1..][i - 1];
      if r.Some? then
        var i :| 0 <= i < |xs[1..]| && xs[1..][i] == r.value && key(r.value) == k
                 && forall j :: 0 <= j < i ==> key(xs[1..][j]) != k;
        assert xs[i + 1] == r.value;
        r
      else r
  }
}
