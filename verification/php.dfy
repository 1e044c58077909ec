/**
 * The fragment of PHP's value model that the content pipeline relies on:
 * dynamically typed values, boolean conversion, string and integer casts,
 * and `array_replace_recursive`.
 *
 * PHP arrays used as dictionaries are modelled as maps from string keys;
 * where the pipeline depends on the iteration order of an array, the
 * modules that need it use sequences instead. Floats, objects and integer
 * array keys are not modelled.
 */
module Php {

  datatype Option<+T> = None | Some(value: T)

  datatype Result<+T, +E> = Success(value: T) | Failure(error: E)

  datatype Value =
    | Null
    | Bool(b: bool)
    | Int(i: int)
    | Str(s: string)
    | Arr(m: map<string, Value>)

  /** PHP's conversion to bool, as used by `if ($v)`, `! $v`, `empty($v)` and `$v == false`. */
  predicate Truthy(v: Value)
  {
    match v
    case Null => false
    case Bool(b) => b
    case Int(i) => i != 0
    case Str(s) => s != "" && s != "0"
    case Arr(m) => |m| > 0
  }

  /** `isset($a[$k])`: the key is present and its value is not null. */
  predicate IsSet(v: Value, key: string)
  {
    v.Arr? && key in v.m && v.m[key] != Null
  }

  /** `$a[$k]` read with PHP's lenient semantics: a missing key or a non-array gives null. */
  function Lookup(v: Value, key: string): (r: Value)
    ensures r != Null <==> IsSet(v, key)
  {
    if v.Arr? && key in v.m then v.m[key] else Null
  }

  /** The array view of a value: an array is itself, anything else reads as `[]`. */
  function Entries(v: Value): map<string, Value>
  {
    if v.Arr? then v.m else map[]
  }

  // ---------------------------------------------------------------------
  // Decimal notation
  // ---------------------------------------------------------------------

  predicate IsDigit(c: char)
  {
    '0' <= c <= '9'
  }

  function DigitChar(d: nat): (c: char)
    requires d < 10
    ensures IsDigit(c)
  {
    ['0', '1', '2', '3', '4', '5', '6', '7', '8', '9'][d]
  }

  function DigitValue(c: char): (d: nat)
    requires IsDigit(c)
    ensures d < 10
  {
    (c as int - '0' as int) as nat
  }

  lemma DigitRoundTrip(d: nat)
    requires d < 10
    ensures DigitValue(DigitChar(d)) == d
  {
  }

  /** The decimal notation of a natural number, without leading zeros. */
  function NatToDecimal(n: nat): (r: string)
    ensures |r| > 0
    ensures forall i :: 0 <= i < |r| ==> IsDigit(r[i])
    ensures |r| > 1 ==> r[0] != '0'
    decreases n
  {
    if n < 10 then [DigitChar(n)] else NatToDecimal(n / 10) + [DigitChar(n % 10)]
  }

  /** Reads a string of decimal digits as a number. */
  function DecimalToNat(s: string): nat
    requires forall i :: 0 <= i < |s| ==> IsDigit(s[i])
    decreases |s|
  {
    if s == [] then 0 else 10 * DecimalToNat(s[..|s| - 1]) + DigitValue(s[|s| - 1])
  }

  /** Reading back the decimal notation of `n` gives `n`. */
  lemma {:induction false} DecimalRoundTrip(n: nat)
    ensures DecimalToNat(NatToDecimal(n)) == n
    decreases n
  {
    var r := NatToDecimal(n);
    if n < 10 {
      DigitRoundTrip(n);
    } else {
      DecimalRoundTrip(n / 10);
      DigitRoundTrip(n % 10);
      assert r[..|r| - 1] == NatToDecimal(n / 10);
    }
  }

  /** Distinct numbers have distinct decimal notations. */
  lemma DecimalInjective(a: nat, b: nat)
    requires NatToDecimal(a) == NatToDecimal(b)
    ensures a == b
  {
    DecimalRoundTrip(a);
    DecimalRoundTrip(b);
  }

  /** PHP's decimal notation of an integer. */
  function IntToDecimal(i: int): string
  {
    if i < 0 then "-" + NatToDecimal(-i) else NatToDecimal(i)
  }

  /** PHP's conversion to string, as used by `.` and `(string)`. */
  function StrVal(v: Value): string
  {
    match v
    case Null => ""
    case Bool(b) => if b then "1" else ""
    case Int(i) => IntToDecimal(i)
    case Str(s) => s
    case Arr(_) => "Array"
  }

  // ---------------------------------------------------------------------
  // The (int) cast
  // ---------------------------------------------------------------------

  predicate IsCastSpace(c: char)
  {
    c == ' ' || c == '\t' || c == '\n' || c == '\r' || c == '\U{B}' || c == '\U{C}'
  }

  /** The length of the run of decimal digits at the start of `s`. */
  function DigitRun(s: string): (n: nat)
    ensures n <= |s|
    ensures forall i :: 0 <= i < n ==> IsDigit(s[i])
    ensures n < |s| ==> !IsDigit(s[n])
  {
    if s != [] && IsDigit(s[0]) then 1 + DigitRun(s[1..]) else 0
  }

  /** The leading integer of a string: optional white space, an optional sign, then digits. */
  function LeadingInt(s: string): int
    decreases |s|
  {
    if s != [] && IsCastSpace(s[0]) then LeadingInt(s[1..])
    else if s != [] && (s[0] == '-' || s[0] == '+') then
      var n := DecimalToNat(s[1..][..DigitRun(s[1..])]);
      if s[0] == '-' then -(n as int) else n
    else DecimalToNat(s[..DigitRun(s)])
  }

  /** PHP's `(int)` cast. */
  function IntCast(v: Value): int
  {
    match v
    case Null => 0
    case Bool(b) => if b then 1 else 0
    case Int(i) => i
    case Str(s) => LeadingInt(s)
    case Arr(m) => if |m| > 0 then 1 else 0
  }

  lemma IntCastOfDecimal(n: nat)
    ensures IntCast(Str(NatToDecimal(n))) == n
  {
    var s := NatToDecimal(n);
    assert s[..DigitRun(s)] == s;
    DecimalRoundTrip(n);
  }

  // ---------------------------------------------------------------------
  // array_replace_recursive
  // ---------------------------------------------------------------------

  /**
   * `array_replace_recursive($base, $over)`: every key of `over` replaces
   * the same key of `base`, except that two arrays under the same key are
   * merged recursively; keys only in `base` stay.
   */
  function ReplaceRecursive(base: map<string, Value>, over: map<string, Value>): (r: map<string, Value>)
    ensures r.Keys == base.Keys + over.Keys
    ensures forall k :: k in base && k !in over ==> r[k] == base[k]
    ensures forall k :: k in over && !(k in base && base[k].Arr? && over[k].Arr?) ==> r[k] == over[k]
    decreases Arr(base)
  {
    map k | k in base.Keys + over.Keys ::
      if k in over then
        (if k in base && base[k].Arr? && over[k].Arr? then Arr(ReplaceRecursive(base[k].m, over[k].m)) else over[k])
      else base[k]
  }

  /** A path of keys leads to a value that is not itself an array. */
  function Find(m: map<string, Value>, path: seq<string>): Option<Value>
    decreases |path|
  {
    if |path| == 0 || path[0] !in m then None
    else if |path| == 1 then Some(m[path[0]])
    else if m[path[0]].Arr? then Find(m[path[0]].m, path[1..])
    else None
  }

  /**
   * In `array_replace_recursive(base, over)`, the overriding side wins at
   * every leaf it defines: whatever `over` holds at the end of a path of
   * keys, as long as that is not an array, the merge holds there too.
   */
  lemma {:induction false} OverrideWinsAtLeaves(base: map<string, Value>, over: map<string, Value>, path: seq<string>)
    requires Find(over, path).Some? && !Find(over, path).value.Arr?
    ensures Find(ReplaceRecursive(base, over), path) == Find(over, path)
    decreases |path|
  {
    var r := ReplaceRecursive(base, over);
    var k := path[0];
    if |path| > 1 {
      if k in base && base[k].Arr? {
        OverrideWinsAtLeaves(base[k].m, over[k].m, path[1..]);
      }
    }
  }

  /**
   * The overriding side leaves a path alone: at some point along it the
   * key is missing, and every key before that holds an array on that side.
   */
  predicate Untouched(over: map<string, Value>, path: seq<string>)
    decreases |path|
  {
    |path| > 0
    && (path[0] !in over || (|path| > 1 && over[path[0]].Arr? && Untouched(over[path[0]].m, path[1..])))
  }

  /** A value of the base at a path the overriding side leaves alone survives the merge. */
  lemma {:induction false} BaseKeptWhereUntouched(base: map<string, Value>, over: map<string, Value>, path: seq<string>)
    requires Find(base, path).Some? && Untouched(over, path)
    ensures Find(ReplaceRecursive(base, over), path) == Find(base, path)
    decreases |path|
  {
    var k := path[0];
    if k in over {
      assert base[k].Arr?;
      BaseKeptWhereUntouched(base[k].m, over[k].m, path[1..]);
    }
  }

  /** Merging a settings tree with itself changes nothing. */
  lemma {:induction false} ReplaceRecursiveIdempotent(m: map<string, Value>)
    ensures ReplaceRecursive(m, m) == m
    decreases Arr(m)
  {
    var r := ReplaceRecursive(m, m);
    forall k | k in m
      ensures r[k] == m[k]
    {
      if m[k].Arr? {
        ReplaceRecursiveIdempotent(m[k].m);
      }
    }
  }

  /** Merging with nothing on the overriding side leaves the base unchanged, and vice versa. */
  lemma ReplaceRecursiveUnits(m: map<string, Value>)
    ensures ReplaceRecursive(m, map[]) == m
    ensures ReplaceRecursive(map[], m) == m
  {
  }
}
