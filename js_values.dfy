/** JavaScript values as the dashboard's pages see them (parsed JSON bodies,
    React state), and the handful of built-in operations the pages apply to
    them: truthiness, `String(v)`, `toLowerCase`, `includes`, `Number(...)`,
    `parseInt`, `slice`. Numbers are integers; see README for what that
    leaves out. */
module JsValues {

  datatype Option<T> = None | Some(value: T)

  /** The outcome of evaluating an expression that may throw a TypeError. */
  datatype Result<T> = Done(value: T) | Thrown

  /** What an awaited remote call delivers to a handler: a response with
      `ok` set and a decoded body, a response with `ok` unset, or a
      rejection (network error, undecodable body) with its `message`. */
  datatype Response<T> = Ok(payload: T) | NotOk | Threw(message: string)

  datatype Value =
    | Null
    | Undefined
    | Str(s: string)
    | Num(n: int)
    | Bool(b: bool)
    | Arr(items: seq<Value>)
    | Obj(fields: map<string, Value>)

  /** A plain object, e.g. one row of a table. */
  type Record = map<string, Value>

  /** `r[k]`: a missing key reads as `undefined`. */
  function Get(r: Record, k: string): Value {
    if k in r then r[k] else Undefined
  }

  /** `v?.k` on any value: only objects have own properties here. */
  function Prop(v: Value, k: string): Value {
    if v.Obj? then Get(v.fields, k) else Undefined
  }

  predicate Nullish(v: Value) {
    v == Null || v == Undefined
  }

  /** JavaScript truthiness (`if (v)`, `!v`, `v || d`). */
  predicate Truthy(v: Value) {
    match v
    case Null => false
    case Undefined => false
    case Str(s) => s != ""
    case Num(n) => n != 0
    case Bool(b) => b
    case Arr(_) => true
    case Obj(_) => true
  }

  /** `v || d` */
  function Or(v: Value, d: Value): Value {
    if Truthy(v) then v else d
  }

  /** `a === b`. Arrays and objects are references; two of them built from
      JSON are never the same object, so they are never strictly equal. */
  predicate StrictEquals(a: Value, b: Value) {
    !a.Arr? && !a.Obj? && a == b
  }

  // ----- characters and strings -----

  predicate IsDigit(c: char) {
    '0' <= c <= '9'
  }

  predicate AllDigits(s: string) {
    forall i :: 0 <= i < |s| ==> IsDigit(s[i])
  }

  /** The white space `trim` and `Number` strip: the ECMAScript WhiteSpace
      code points (tab, vertical tab, form feed, space, no-break space, the
      byte order mark and the Unicode space separators) and the
      LineTerminator code points. */
  predicate IsSpace(c: char) {
    c == ' ' || c == '\t' || c == '\n' || c == '\r'
    || c as int == 0x0B || c as int == 0x0C || c as int == 0xA0 || c as int == 0xFEFF
    || c as int == 0x1680 || 0x2000 <= c as int <= 0x200A
    || c as int == 0x2028 || c as int == 0x2029 || c as int == 0x202F
    || c as int == 0x205F || c as int == 0x3000
  }

  function LowerChar(c: char): char {
    if 'A' <= c <= 'Z' then (c as int + 32) as char else c
  }

  /** `s.toLowerCase()` on ASCII letters. */
  function Lower(s: string): (r: string)
    ensures |r| == |s|
    ensures forall i :: 0 <= i < |s| ==> r[i] == LowerChar(s[i])
  {
    seq(|s|, i requires 0 <= i < |s| => LowerChar(s[i]))
  }

  lemma LowerIdempotent(s: string)
    ensures Lower(Lower(s)) == Lower(s)
  {
  }

  /** `needle` occurs in `hay` starting at index `i`. */
  predicate OccursAt(hay: string, needle: string, i: int) {
    0 <= i && i + |needle| <= |hay| && hay[i..i + |needle|] == needle
  }

  /** `hay.includes(needle)` */
  predicate Contains(hay: string, needle: string) {
    exists i | 0 <= i <= |hay| :: OccursAt(hay, needle, i)
  }

  lemma ContainsEmpty(hay: string)
    ensures Contains(hay, "")
  {
    assert OccursAt(hay, "", 0);
  }

  function TrimStart(s: string): (r: string)
    ensures |r| <= |s|
    ensures r == [] || !IsSpace(r[0])
    ensures r == s[|s| - |r|..]
  {
    if s != [] && IsSpace(s[0]) then TrimStart(s[1..]) else s
  }

  function TrimEnd(s: string): (r: string)
    ensures |r| <= |s|
    ensures r == [] || !IsSpace(r[|r| - 1])
    ensures r == s[..|r|]
  {
    if s != [] && IsSpace(s[|s| - 1]) then TrimEnd(s[..|s| - 1]) else s
  }

  /** `s.trim()` */
  function Trim(s: string): string {
    TrimEnd(TrimStart(s))
  }

  /** `s.split(sep)` for a one-character separator. */
  function Split(s: string, sep: char): (parts: seq<string>)
    ensures |parts| >= 1
    ensures sep !in s ==> parts == [s]
  {
    if s == [] then [""]
    else
      var rest := Split(s[1..], sep);
      assert [s[0]] + s[1..] == s;
      if s[0] == sep then [""] + rest
      else [[s[0]] + rest[0]] + rest[1..]
  }

  lemma {:induction false} SplitAtFirst(a: string, sep: char, b: string)
    requires sep !in a
    ensures Split(a + [sep] + b, sep) == [a] + Split(b, sep)
  {
    if a == [] {
      assert a + [sep] + b == [sep] + b;
      assert ([sep] + b)[1..] == b;
    } else {
      assert (a + [sep] + b)[0] == a[0];
      assert (a + [sep] + b)[1..] == a[1..] + [sep] + b;
      SplitAtFirst(a[1..], sep, b);
      assert [a[0]] + a[1..] == a;
    }
  }

  // ----- numbers and their decimal form -----

  function DigitChar(d: int): char
    requires 0 <= d < 10
  {
    ('0' as int + d) as char
  }

  function DigitOf(c: char): int
    requires IsDigit(c)
  {
    c as int - '0' as int
  }

  /** The decimal digits of `n`, with no leading zeros. */
  function NatToDecimal(n: nat): (r: string)
    ensures |r| >= 1 && AllDigits(r)
    decreases n
  {
    if n < 10 then [DigitChar(n)] else NatToDecimal(n / 10) + [DigitChar(n % 10)]
  }

  /** The value of a string of decimal digits (leading zeros allowed). */
  function DigitsValue(s: string): nat
    requires AllDigits(s)
    decreases |s|
  {
    if s == [] then 0 else DigitsValue(s[..|s| - 1]) * 10 + DigitOf(s[|s| - 1])
  }

  lemma {:induction false} DecimalRoundTrip(n: nat)
    ensures DigitsValue(NatToDecimal(n)) == n
  {
    if n >= 10 {
      var r := NatToDecimal(n);
      assert r[..|r| - 1] == NatToDecimal(n / 10);
      DecimalRoundTrip(n / 10);
    }
  }

  lemma {:induction false} DigitsValueLeadingZeros(k: nat, s: string)
    requires AllDigits(s)
    ensures AllDigits(Zeros(k) + s)
    ensures DigitsValue(Zeros(k) + s) == DigitsValue(s)
    decreases |s|
  {
    var z := Zeros(k) + s;
    assert AllDigits(z) by {
      forall i | 0 <= i < |z| ensures IsDigit(z[i]) {
        if i < k { assert z[i] == '0'; } else { assert z[i] == s[i - k]; }
      }
    }
    if s == [] {
      assert z == Zeros(k);
      ZerosValue(k);
    } else {
      assert z[..|z| - 1] == Zeros(k) + s[..|s| - 1];
      DigitsValueLeadingZeros(k, s[..|s| - 1]);
    }
  }

  function Zeros(k: nat): (r: string)
    ensures |r| == k && forall i :: 0 <= i < k ==> r[i] == '0'
  {
    seq(k, i => '0')
  }

  lemma {:induction false} ZerosValue(k: nat)
    ensures DigitsValue(Zeros(k)) == 0
  {
    if k > 0 {
      assert Zeros(k)[..k - 1] == Zeros(k - 1);
      ZerosValue(k - 1);
    }
  }

  /** `NatToDecimal` starts with "0" only for zero. */
  lemma {:induction false} LeadingDigit(n: nat)
    ensures n == 0 ==> NatToDecimal(n) == "0"
    ensures n > 0 ==> NatToDecimal(n)[0] != '0'
  {
    if n >= 10 {
      LeadingDigit(n / 10);
    }
  }

  /** A digit string without a leading zero is the decimal form of its value. */
  lemma {:induction false} CanonicalDigits(s: string)
    requires |s| >= 1 && AllDigits(s) && (s[0] != '0' || |s| == 1)
    ensures NatToDecimal(DigitsValue(s)) == s
    decreases |s|
  {
    var d := DigitOf(s[|s| - 1]);
    if |s| > 1 {
      var p := s[..|s| - 1];
      CanonicalDigits(p);
      var v := DigitsValue(p);
      LeadingDigit(v);
      assert p[0] == s[0] != '0';
      assert DigitsValue(s) / 10 == v && DigitsValue(s) % 10 == d;
      assert s == p + [DigitChar(d)];
    }
  }

  /** The integer a property key names when it is a canonical array index:
      the decimal form, without leading zeros, of an integer below
      2^32 - 1. Such keys are the ones objects list first, in ascending
      order. */
  function ArrayIndex(key: string): (r: Option<nat>)
    ensures r.Some? ==> r.value < 0xFFFF_FFFF && NatToDecimal(r.value) == key
    ensures r.None? ==> forall n: nat :: n < 0xFFFF_FFFF ==> NatToDecimal(n) != key
  {
    if |key| >= 1 && AllDigits(key) && (key[0] != '0' || |key| == 1) && DigitsValue(key) < 0xFFFF_FFFF then
      CanonicalDigits(key);
      Some(DigitsValue(key))
    else
      NotArrayIndex(key);
      None
  }

  lemma NotArrayIndex(key: string)
    requires !(|key| >= 1 && AllDigits(key) && (key[0] != '0' || |key| == 1) && DigitsValue(key) < 0xFFFF_FFFF)
    ensures forall n: nat :: n < 0xFFFF_FFFF ==> NatToDecimal(n) != key
  {
    forall n: nat | n < 0xFFFF_FFFF
      ensures NatToDecimal(n) != key
    {
      DecimalRoundTrip(n);
      LeadingDigit(n);
    }
  }

  /** The decimal form of a small enough integer names that integer. */
  lemma ArrayIndexOfDecimal(n: nat)
    requires n < 0xFFFF_FFFF
    ensures ArrayIndex(NatToDecimal(n)) == Some(n)
  {
    var r := ArrayIndex(NatToDecimal(n));
    DecimalRoundTrip(n);
    DecimalRoundTrip(r.value);
  }

  /** The position of the entry with the least array-index key, if any key
      is an array index. */
  function LeastIndexKey<T>(entries: seq<(string, T)>): (r: Option<nat>)
    ensures r.Some? ==> r.value < |entries| && ArrayIndex(entries[r.value].0).Some?
    ensures r.Some? ==> forall j :: 0 <= j < |entries| && ArrayIndex(entries[j].0).Some? ==>
                          ArrayIndex(entries[r.value].0).value <= ArrayIndex(entries[j].0).value
    ensures r.None? ==> forall j :: 0 <= j < |entries| ==> ArrayIndex(entries[j].0).None?
  {
    if entries == [] then None
    else
      var rest := LeastIndexKey(entries[1..]);
      var here := ArrayIndex(entries[0].0);
      if here.None? then (if rest.None? then None else Some(rest.value + 1))
      else if rest.Some? && ArrayIndex(entries[rest.value + 1].0).value < here.value then Some(rest.value + 1)
      else Some(0)
  }

  /** `Object.keys(o)[0]` for an object whose own properties `entries` lists
      in creation order (for a parsed body, the order of the text): the
      least array-index key if there is one, otherwise the first key
      created; `None` (reading `undefined`) for an empty object. */
  function FirstOwnKey<T>(entries: seq<(string, T)>): (r: Option<nat>)
    ensures r.None? <==> entries == []
    ensures r.Some? ==> r.value < |entries|
    ensures (exists i :: 0 <= i < |entries| && ArrayIndex(entries[i].0).Some?) ==>
              && r.Some? && ArrayIndex(entries[r.value].0).Some?
              && forall j :: 0 <= j < |entries| && ArrayIndex(entries[j].0).Some? ==>
                   ArrayIndex(entries[r.value].0).value <= ArrayIndex(entries[j].0).value
    ensures entries != [] && (forall i :: 0 <= i < |entries| ==> ArrayIndex(entries[i].0).None?) ==> r == Some(0)
  {
    var least := LeastIndexKey(entries);
    if least.Some? then least else if entries == [] then None else Some(0)
  }

  /** `String(n)` for an integer. */
  function NumberToString(n: int): string {
    if n < 0 then "-" + NatToDecimal(-n) else NatToDecimal(n)
  }

  /** `String(Number(...))` where the number may be NaN (`None`). */
  function NumberOrNaNToString(x: Option<int>): string {
    if x.Some? then NumberToString(x.value) else "NaN"
  }

  /** `s.padStart(width, "0")` */
  function PadStartZeros(s: string, width: nat): (r: string)
    ensures |r| == if |s| >= width then |s| else width
  {
    if |s| >= width then s else Zeros(width - |s|) + s
  }

  /** `Number(s)` for a string, `None` standing for NaN: surrounding white
      space is ignored, an empty string is 0, an optionally signed run of
      decimal digits is its value. */
  function StrToNumber(s: string): Option<int> {
    var t := Trim(s);
    if t == [] then Some(0)
    else if (t[0] == '-' || t[0] == '+') && |t| > 1 && AllDigits(t[1..]) then
      var magnitude: int := DigitsValue(t[1..]);
      Some(if t[0] == '-' then -magnitude else magnitude)
    else if AllDigits(t) then Some(DigitsValue(t))
    else None
  }

  /** A plain run of digits converts to its value. */
  lemma DigitsNumber(digits: string)
    requires |digits| >= 1 && AllDigits(digits)
    ensures StrToNumber(digits) == Some(DigitsValue(digits))
  {
    assert !IsSpace(digits[0]) && !IsSpace(digits[|digits| - 1]);
    assert TrimStart(digits) == digits;
    assert TrimEnd(digits) == digits;
    assert digits[0] != '-' && digits[0] != '+';
  }

  /** The longest prefix of `s` made of decimal digits. */
  function DigitPrefix(s: string): (r: string)
    ensures AllDigits(r) && |r| <= |s| && r == s[..|r|]
  {
    if s != [] && IsDigit(s[0]) then [s[0]] + DigitPrefix(s[1..]) else ""
  }

  /** `parseInt(s)` read in radix 10: leading white space, an optional sign,
      then as many decimal digits as there are; NaN (`None`) when there are
      none. Called without a radix, `parseInt` also reads a `0x`/`0X` prefix
      as hexadecimal (`"0x1A"` gives 26); here that reads as 0. */
  function ParseInt(s: string): Option<int> {
    var t := TrimStart(s);
    var negative := t != [] && t[0] == '-';
    var body := if t != [] && (t[0] == '-' || t[0] == '+') then t[1..] else t;
    var digits := DigitPrefix(body);
    if digits == [] then None
    else
      var magnitude: int := DigitsValue(digits);
      Some(if negative then -magnitude else magnitude)
  }

  /** `String(v)` (also `v.toString()` for a value that is not nullish). */
  function Stringify(v: Value): string
    decreases v
  {
    match v
    case Null => "null"
    case Undefined => "undefined"
    case Str(s) => s
    case Num(n) => NumberToString(n)
    case Bool(b) => if b then "true" else "false"
    case Arr(items) =>
      // Array.prototype.join: nullish elements become empty strings
      Join(seq(|items|, i requires 0 <= i < |items| =>
        if Nullish(items[i]) then "" else Stringify(items[i])))
    case Obj(_) => "[object Object]"
  }

  /** Strings joined with "," */
  function Join(parts: seq<string>): string {
    if parts == [] then ""
    else if |parts| == 1 then parts[0]
    else Join(parts[..|parts| - 1]) + "," + parts[|parts| - 1]
  }

  /** Numeric coercion as `-` and `>=` apply it; `None` is NaN. */
  function ToNumber(v: Value): Option<int> {
    match v
    case Null => Some(0)
    case Undefined => None
    case Str(s) => StrToNumber(s)
    case Num(n) => Some(n)
    case Bool(b) => Some(if b then 1 else 0)
    case Arr(_) => StrToNumber(Stringify(v))
    case Obj(_) => StrToNumber(Stringify(v))
  }

  /** `v.length` on a value that is not nullish. */
  function Length(v: Value): Value {
    match v
    case Str(s) => Num(|s|)
    case Arr(items) => Num(|items|)
    case Obj(f) => Get(f, "length")
    case _ => Undefined
  }

  /** `v[0]` on a value already known to be truthy (so not nullish). */
  function First(v: Value): Value {
    match v
    case Arr(items) => if items == [] then Undefined else items[0]
    case Str(s) => if s == [] then Undefined else Str([s[0]])
    case Obj(f) => Get(f, "0")
    case _ => Undefined
  }

  // ----- slices -----

  /** The index rule of `Array.prototype.slice`: negative counts from the end. */
  function ClampIndex(i: int, n: nat): (r: nat)
    ensures r <= n
  {
    if i < 0 then (if n + i < 0 then 0 else n + i) else if i > n then n else i
  }

  /** `s.slice(start, end)` */
  function Slice<T>(s: seq<T>, start: int, end: int): (r: seq<T>)
    ensures 0 <= start <= end ==> r == s[ClampIndex(start, |s|)..ClampIndex(end, |s|)]
    ensures 0 <= start <= end ==> |r| <= end - start
  {
    var a := ClampIndex(start, |s|);
    var b := ClampIndex(end, |s|);
    if a < b then s[a..b] else []
  }

  // ----- comparisons -----

  /** `a - b` as a comparator result: a NaN difference is read as 0, the way
      `Array.prototype.sort` reads it. */
  function NumericDifference(a: Value, b: Value): int {
    var x := ToNumber(a);
    var y := ToNumber(b);
    if x.Some? && y.Some? then x.value - y.value else 0
  }

  /** `a < b` on two strings: the first differing character decides, and a
      proper prefix is smaller. */
  predicate StringLess(a: string, b: string) {
    if a == [] then b != []
    else if b == [] then false
    else if a[0] != b[0] then a[0] < b[0]
    else StringLess(a[1..], b[1..])
  }

  lemma {:induction false} StringLessIrreflexive(a: string)
    ensures !StringLess(a, a)
  {
    if a != [] {
      StringLessIrreflexive(a[1..]);
    }
  }

  lemma {:induction false} StringLessTransitive(a: string, b: string, c: string)
    requires StringLess(a, b) && StringLess(b, c)
    ensures StringLess(a, c)
  {
    if a != [] && b != [] && c != [] && a[0] == b[0] && b[0] == c[0] {
      StringLessTransitive(a[1..], b[1..], c[1..]);
    }
  }

  /** Two different strings are ordered one way round. */
  lemma {:induction false} StringLessTotal(a: string, b: string)
    ensures a == b || StringLess(a, b) || StringLess(b, a)
  {
    if a != [] && b != [] && a[0] == b[0] {
      StringLessTotal(a[1..], b[1..]);
      if a[1..] == b[1..] {
        assert a == [a[0]] + a[1..] && b == [b[0]] + b[1..];
      }
    }
  }

  lemma StringLessAsymmetric(a: string, b: string)
    requires StringLess(a, b)
    ensures !StringLess(b, a)
  {
    if StringLess(b, a) {
      StringLessTransitive(a, b, a);
      StringLessIrreflexive(a);
    }
  }
}
