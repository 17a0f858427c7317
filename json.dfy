/** The dynamically typed values the services receive and build (decoded JSON payloads and the
    Python dicts and lists made from them), with the Python idioms applied to them: `d.get(k)`,
    `k in d`, truthiness, `isinstance` tests, iteration and `str(v)`. */
module JsonValue {
  import opened Text

  /** A Python value as it comes out of a JSON payload. A dict keeps its insertion order, as
      Python dicts do, and never has two entries with the same key once built by `Set`. */
  datatype Json =
    | Null
    | Bool(b: bool)
    | Int(i: int)
    | Num(r: real)
    | Str(s: string)
    | Arr(items: seq<Json>)
    | Obj(fields: seq<(string, Json)>)

  /** `k in d` for a dict `d`. */
  predicate Has(d: Json, k: string) {
    d.Obj? && exists i :: 0 <= i < |d.fields| && d.fields[i].0 == k
  }

  function Lookup(fields: seq<(string, Json)>, k: string): (r: Json)
    ensures r != Null ==> exists i :: 0 <= i < |fields| && fields[i] == (k, r)
    ensures (forall i :: 0 <= i < |fields| ==> fields[i].0 != k) ==> r == Null
  {
    if fields == [] then Null
    else if fields[0].0 == k then fields[0].1
    else Lookup(fields[1..], k)
  }

  /** `d.get(k)`: the value stored under `k`, `None` when `d` is a dict without `k`. Only called
      where the source knows `d` is a dict; on anything else it also gives `None`. */
  function Get(d: Json, k: string): Json {
    if d.Obj? then Lookup(d.fields, k) else Null
  }

  /** `d.get(k, default)`. */
  function GetOr(d: Json, k: string, default: Json): Json {
    if Has(d, k) then Get(d, k) else default
  }

  /** `d[k] = v`: overwrites the entry in place, or appends a new one. */
  function SetField(fields: seq<(string, Json)>, k: string, v: Json): (r: seq<(string, Json)>)
    ensures Lookup(r, k) == v
    ensures forall k' :: k' != k ==> Lookup(r, k') == Lookup(fields, k')
  {
    if fields == [] then [(k, v)]
    else if fields[0].0 == k then [(k, v)] + fields[1..]
    else [fields[0]] + SetField(fields[1..], k, v)
  }

  /** After `d[k] = v`, `k` is a key of `d` and the other keys are those `d` had. */
  lemma SetFieldKeys(fields: seq<(string, Json)>, k: string, v: Json)
    ensures Has(Obj(SetField(fields, k, v)), k)
    ensures forall k' :: k' != k ==> (Has(Obj(SetField(fields, k, v)), k') <==> Has(Obj(fields), k'))
  {
    forall k': string ensures k' == k || (Has(Obj(SetField(fields, k, v)), k') <==> Has(Obj(fields), k')) {
      SetFieldHas(fields, k, v, k');
    }
    SetFieldHas(fields, k, v, k);
  }

  lemma {:induction false} SetFieldHas(fields: seq<(string, Json)>, k: string, v: Json, k': string)
    ensures Has(Obj(SetField(fields, k, v)), k') <==> k' == k || Has(Obj(fields), k')
  {
    if fields == [] {
      HasCons((k, v), [], k');
    } else if fields[0].0 == k {
      HasCons((k, v), fields[1..], k');
      HasCons(fields[0], fields[1..], k');
      assert [fields[0]] + fields[1..] == fields;
    } else {
      SetFieldHas(fields[1..], k, v, k');
      HasCons(fields[0], SetField(fields[1..], k, v), k');
      HasCons(fields[0], fields[1..], k');
      assert [fields[0]] + fields[1..] == fields;
    }
  }

  /** A key of a field list is the key of its first field or a key of the rest. */
  lemma HasCons(f: (string, Json), rest: seq<(string, Json)>, k: string)
    ensures Has(Obj([f] + rest), k) <==> f.0 == k || Has(Obj(rest), k)
  {
    var fields := [f] + rest;
    if Has(Obj(fields), k) && f.0 != k {
      var i :| 0 <= i < |fields| && fields[i].0 == k;
      assert rest[i - 1].0 == k;
    }
    if Has(Obj(rest), k) {
      var i :| 0 <= i < |rest| && rest[i].0 == k;
      assert fields[i + 1].0 == k;
    }
    if f.0 == k {
      assert fields[0].0 == k;
    }
  }

  function Set(d: Json, k: string, v: Json): Json
    requires d.Obj?
  {
    Obj(SetField(d.fields, k, v))
  }

  /** After `d[k] = v`, `d.get(k)` is `v` and every other key reads as before. */
  lemma GetSet(d: Json, k: string, v: Json, k': string)
    requires d.Obj?
    ensures Get(Set(d, k, v), k') == if k' == k then v else Get(d, k')
  {
  }

  /** Python truthiness: `None`, `False`, `0`, `0.0`, `""`, `[]` and `{}` are false. */
  predicate Truthy(v: Json) {
    match v
    case Null => false
    case Bool(b) => b
    case Int(i) => i != 0
    case Num(r) => r != 0.0
    case Str(s) => s != ""
    case Arr(items) => items != []
    case Obj(fields) => fields != []
  }

  /** `a or b`. */
  function Or(a: Json, b: Json): Json {
    if Truthy(a) then a else b
  }

  /** `isinstance(v, int)`; a Python bool is an int. */
  predicate IsInt(v: Json) {
    v.Int? || v.Bool?
  }

  /** The integer value of something `IsInt` accepts. */
  function IntValue(v: Json): int
    requires IsInt(v)
  {
    if v.Int? then v.i else if v.b then 1 else 0
  }

  /** `isinstance(v, (int, float))`. */
  predicate IsNumber(v: Json) {
    v.Int? || v.Bool? || v.Num?
  }

  /** `float(v)` for a value `IsNumber` accepts. */
  function NumberValue(v: Json): real
    requires IsNumber(v)
  {
    if v.Num? then v.r else IntValue(v) as real
  }

  /** `isinstance(v, Iterable)`: strings, lists and dicts. */
  predicate IsIterable(v: Json) {
    v.Str? || v.Arr? || v.Obj?
  }

  /** What `for x in v` visits: the characters of a string, the items of a list, the keys of a dict. */
  function Iter(v: Json): (r: seq<Json>)
    ensures !IsIterable(v) ==> r == []
    ensures v.Arr? ==> r == v.items
  {
    match v
    case Str(s) => seq(|s|, i requires 0 <= i < |s| => Str([s[i]]))
    case Arr(items) => items
    case Obj(fields) => seq(|fields|, i requires 0 <= i < |fields| => Str(fields[i].0))
    case _ => []
  }

  /** `str(v)`: a string is itself; anything else is its `repr`. */
  function PyStr(v: Json): string {
    if v.Str? then v.s else PyRepr(v)
  }

  /** `repr(v)`; a list or dict shows the `repr` of each item, separated by ", ". */
  function PyRepr(v: Json): string
    decreases v, 1
  {
    match v
    case Null => "None"
    case Bool(b) => if b then "True" else "False"
    case Int(i) => IntToString(i)
    case Num(r) => FloatRepr(r)
    case Str(s) => StrRepr(s)
    case Arr(items) => "[" + ReprItems(v, items) + "]"
    case Obj(fields) => "{" + ReprFields(v, fields) + "}"
  }

  function ReprItems(v: Json, items: seq<Json>): string
    requires v.Arr? && |items| <= |v.items| && items == v.items[|v.items| - |items|..]
    decreases v, 0, |items|
  {
    if items == [] then ""
    else
      assert items[0] in v.items;
      var first := PyRepr(items[0]);
      if |items| == 1 then first else first + ", " + ReprItems(v, items[1..])
  }

  function ReprFields(v: Json, fields: seq<(string, Json)>): string
    requires v.Obj? && |fields| <= |v.fields| && fields == v.fields[|v.fields| - |fields|..]
    decreases v, 0, |fields|
  {
    if fields == [] then ""
    else
      assert fields[0] in v.fields;
      var first := StrRepr(fields[0].0) + ": " + PyRepr(fields[0].1);
      if |fields| == 1 then first else first + ", " + ReprFields(v, fields[1..])
  }

  /** `repr(s)`: single quotes, or double quotes when `s` holds a single quote and no double
      quote; the backslash, the chosen quote and the control characters are escaped. */
  function StrRepr(s: string): string {
    var q := if '\'' in s && '"' !in s then '"' else '\'';
    [q] + EscapeRepr(s, q) + [q]
  }

  function EscapeRepr(s: string, q: char): string {
    if s == [] then "" else EscapeReprChar(s[0], q) + EscapeRepr(s[1..], q)
  }

  function HexDigit(d: int): char
    requires 0 <= d < 16
  {
    "0123456789abcdef"[d]
  }

  /** One character as `repr` writes it: `\\`, `\'` or `\"`, `\t`, `\n`, `\r`, `\xNN` for the
      other characters below U+0020 and for U+007F to U+00A0 and U+00AD, itself otherwise. */
  function EscapeReprChar(c: char, q: char): string {
    if c == '\\' || c == q then ['\\', c]
    else if c == '\t' then "\\t"
    else if c == '\n' then "\\n"
    else if c == '\r' then "\\r"
    else if c < ' ' || ('\U{7f}' <= c <= '\U{a0}') || c == '\U{ad}' then
      ['\\', 'x', HexDigit(c as int / 16), HexDigit(c as int % 16)]
    else [c]
  }

  function Power10(k: nat): (r: real)
    ensures r >= 1.0
  {
    if k == 0 then 1.0 else 10.0 * Power10(k - 1)
  }

  predicate Integral(x: real) {
    x.Floor as real == x
  }

  /** The fewest decimal places, from `k` on, that write `x` exactly; `x` stands for the float
      whose shortest `repr` has those digits, so no more than `fuel` further places are tried. */
  function DecimalPlaces(x: real, k: nat, fuel: nat): nat
    decreases fuel
  {
    if fuel == 0 || Integral(x * Power10(k)) then k else DecimalPlaces(x, k + 1, fuel - 1)
  }

  /** The decimal exponent `e` of a positive `x`: `1 <= x / 10^e < 10`, within the range of a
      float. */
  function DecimalExponent(x: real, fuel: nat): int
    decreases fuel
  {
    if fuel == 0 || x <= 0.0 then 0
    else if x >= 10.0 then 1 + DecimalExponent(x / 10.0, fuel - 1)
    else if x < 1.0 then DecimalExponent(x * 10.0, fuel - 1) - 1
    else 0
  }

  function Zeros(n: nat): string {
    seq(n, _ => '0')
  }

  /** `repr(x)` of a float: `0.0`; fixed notation with at least one decimal for magnitudes from
      1e-4 up to 1e16; otherwise one digit, the other digits after a point, and an exponent of
      at least two digits (`1e+16`, `2.5e-05`). */
  function FloatRepr(x: real): string {
    if x < 0.0 then "-" + MagnitudeRepr(-x) else MagnitudeRepr(x)
  }

  function MagnitudeRepr(a: real): string
    requires a >= 0.0
  {
    if a == 0.0 then "0.0"
    else if 0.0001 <= a < 10000000000000000.0 then FixedRepr(a)
    else ExponentRepr(a)
  }

  /** Fixed notation: the digits, then `.0` for a whole number. */
  function FixedRepr(a: real): string
    requires a >= 0.0001
  {
    if Integral(a) then NatToString(a.Floor as nat) + ".0"
    else FractionRepr(a, DecimalPlaces(a, 1, 400))
  }

  /** `a` written with `k` decimal places. */
  function FractionRepr(a: real, k: nat): string
    requires a >= 0.0
  {
    var d := NatToString((a * Power10(k)).Floor as nat);
    if |d| > k then d[..|d| - k] + "." + d[|d| - k..]
    else "0." + Zeros(k - |d|) + d
  }

  /** Exponent notation, for magnitudes below 1e-4 or from 1e16 on. */
  function ExponentRepr(a: real): string
    requires a > 0.0 && (a < 0.0001 || a >= 10000000000000000.0)
  {
    var e := DecimalExponent(a, 400);
    var m := if e >= 0 then a / Power10(e) else a * Power10(-e);
    var k := DecimalPlaces(m, 0, 400);
    var n := (m * Power10(k)).Floor;
    var d := NatToString(if n < 0 then 0 else n);
    var mantissa := if |d| > 1 then d[..1] + "." + d[1..] else d;
    var exponent := if e < 0 then -e else e;
    mantissa + "e" + (if e < 0 then "-" else "+") + (if exponent < 10 then "0" else "") + NatToString(exponent)
  }

  /** A printable ASCII string without a backslash or a single quote is shown between single
      quotes, unchanged. */
  lemma PlainStrRepr(s: string)
    requires forall i :: 0 <= i < |s| ==> ' ' <= s[i] < '\U{7f}' && s[i] != '\\' && s[i] != '\''
    ensures StrRepr(s) == "'" + s + "'"
  {
    PlainEscape(s, '\'');
  }

  lemma {:induction false} PlainEscape(s: string, q: char)
    requires forall i :: 0 <= i < |s| ==> ' ' <= s[i] < '\U{7f}' && s[i] != '\\' && s[i] != q
    ensures EscapeRepr(s, q) == s
  {
    if s != [] {
      PlainEscape(s[1..], q);
      assert s == [s[0]] + s[1..];
    }
  }

  /** A whole number below 1e16 is written with its digits and `.0`. */
  lemma WholeFloatRepr(n: nat)
    requires 0 < n < 10000000000000000
    ensures FloatRepr(n as real) == NatToString(n) + ".0"
  {
  }

  /** A number with one decimal place, from 1.1 on, is written with its digits around the point:
      `str(2.5)` is `2.5`. */
  lemma OneDecimalFloatRepr(w: nat, f: nat)
    requires 1 <= w < 1000000000000000 && 1 <= f <= 9
    ensures FloatRepr((10 * w + f) as real / 10.0) == NatToString(w) + "." + [DigitChar(f)]
  {
    var a := (10 * w + f) as real / 10.0;
    OneDecimalPlace(w, f);
    OneDecimalDigits(w, f);
    assert MagnitudeRepr(a) == FixedRepr(a) by {
      assert 0.0001 <= a < 10000000000000000.0;
    }
  }

  lemma OneDecimalPlace(w: nat, f: nat)
    requires 1 <= w < 1000000000000000 && 1 <= f <= 9
    ensures var a := (10 * w + f) as real / 10.0;
      a >= 0.0001 && FixedRepr(a) == FractionRepr(a, 1)
  {
    var a := (10 * w + f) as real / 10.0;
    OneDecimalTenths(w, f);
    OneDecimalNotWhole(w, f);
    assert DecimalPlaces(a, 1, 400) == 1;
  }

  lemma OneDecimalTenths(w: nat, f: nat)
    ensures Integral((10 * w + f) as real / 10.0 * Power10(1))
  {
    WholeTenths(10 * w + f);
  }

  lemma WholeTenths(n: nat)
    ensures Integral(n as real / 10.0 * Power10(1))
  {
    var x := n as real;
    assert Power10(1) == 10.0;
    assert x / 10.0 * 10.0 == x;
    assert x.Floor == n;
  }

  lemma OneDecimalNotWhole(w: nat, f: nat)
    requires 1 <= f <= 9
    ensures var a := (10 * w + f) as real / 10.0;
      w as real < a < (w + 1) as real && !Integral(a)
  {
    var a := (10 * w + f) as real / 10.0;
    assert w as real < a < (w + 1) as real;
    assert a.Floor == w;
  }

  lemma OneDecimalDigits(w: nat, f: nat)
    requires 1 <= w < 1000000000000000 && 1 <= f <= 9
    ensures FractionRepr((10 * w + f) as real / 10.0, 1) == NatToString(w) + "." + [DigitChar(f)]
  {
    ScaledBack(w, f);
    LastDigit(w, f);
    FractionDigits((10 * w + f) as real / 10.0, 10 * w + f, NatToString(w), DigitChar(f));
  }

  /** `a` written with one decimal place, when `10 * a` is a whole number of at least two digits. */
  lemma FractionDigits(a: real, n: nat, front: string, last: char)
    requires a >= 0.0 && (a * Power10(1)).Floor == n && NatToString(n) == front + [last] && front != []
    ensures FractionRepr(a, 1) == front + "." + [last]
  {
    var d := NatToString(n);
    assert d[..|d| - 1] == front && d[|d| - 1..] == [last];
  }

  lemma LastDigit(w: nat, f: nat)
    requires 1 <= w && f <= 9
    ensures NatToString(10 * w + f) == NatToString(w) + [DigitChar(f)]
  {
    var n := 10 * w + f;
    assert n / 10 == w && n % 10 == f;
  }

  lemma ScaledBack(w: nat, f: nat)
    ensures ((10 * w + f) as real / 10.0 * Power10(1)).Floor == 10 * w + f
  {
    assert Power10(1) == 10.0;
  }

  /** A list of strings as a Python list value. */
  function Strs(s: seq<string>): (r: seq<Json>)
    ensures |r| == |s| && forall k :: 0 <= k < |s| ==> r[k] == Str(s[k])
  {
    if s == [] then [] else [Str(s[0])] + Strs(s[1..])
  }

  /** What a loop over `items` gathers: each item's contribution `pick(item)`, in order. */
  function Collect<T>(items: seq<Json>, pick: Json -> seq<T>): seq<T> {
    if items == [] then [] else Collect(items[..|items| - 1], pick) + pick(items[|items| - 1])
  }

  /** A value is gathered exactly when some item contributes it; with at most one value per
      item there are no more values than items. */
  lemma {:induction false} CollectMeaning<T>(items: seq<Json>, pick: Json -> seq<T>)
    ensures forall v :: v in Collect(items, pick) <==> exists i :: 0 <= i < |items| && v in pick(items[i])
    ensures (forall x :: |pick(x)| <= 1) ==> |Collect(items, pick)| <= |items|
  {
    if items != [] {
      var n := |items| - 1;
      CollectMeaning(items[..n], pick);
      forall v ensures v in Collect(items, pick) <==> exists i :: 0 <= i < |items| && v in pick(items[i]) {
        if v in Collect(items[..n], pick) {
          var i :| 0 <= i < n && v in pick(items[..n][i]);
          assert items[i] == items[..n][i];
        }
        if exists i :: 0 <= i < |items| && v in pick(items[i]) {
          var i :| 0 <= i < |items| && v in pick(items[i]);
          if i < n { assert items[..n][i] == items[i]; }
        }
      }
    }
  }

  /** Items that contribute one value each gather exactly those values, in order. */
  lemma {:induction false} CollectSingles<T>(items: seq<Json>, pick: Json -> seq<T>, values: seq<T>)
    requires |items| == |values| && forall k :: 0 <= k < |items| ==> pick(items[k]) == [values[k]]
    ensures Collect(items, pick) == values
  {
    if items != [] {
      var n := |items| - 1;
      CollectSingles(items[..n], pick, values[..n]);
      assert values[..n] + [values[n]] == values;
    }
  }
}
