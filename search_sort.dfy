/** The ordering of the fallback search (`EventSearchService._sort_results`, which hands the
    filtered events to Python's stable `sorted`) and the sort clause sent to Elasticsearch
    (`_translate_sort`). */
module SearchSort {
  import opened Wrappers
  import opened Text
  import opened JsonValue

  /** `sorted` meets two keys `<` cannot compare. */
  datatype SortError = TypeError

  /** The kinds of sort key this model orders: strings, numbers (booleans and integers
      included), lists of strings and lists of numbers. The empty list is of both list kinds. */
  datatype KeyKind = TextKey | NumberKey | TextListKey | NumberListKey

  predicate AllText(items: seq<Json>) {
    forall i :: 0 <= i < |items| ==> items[i].Str?
  }

  predicate AllNumbers(items: seq<Json>) {
    forall i :: 0 <= i < |items| ==> IsNumber(items[i])
  }

  function TextItems(items: seq<Json>): (r: seq<string>)
    requires AllText(items)
    ensures |r| == |items| && forall i :: 0 <= i < |items| ==> r[i] == items[i].s
  {
    if items == [] then [] else [items[0].s] + TextItems(items[1..])
  }

  function NumberItems(items: seq<Json>): (r: seq<real>)
    requires AllNumbers(items)
    ensures |r| == |items| && forall i :: 0 <= i < |items| ==> r[i] == NumberValue(items[i])
  {
    if items == [] then [] else [NumberValue(items[0])] + NumberItems(items[1..])
  }

  function RealLess(x: real, y: real): bool {
    x < y
  }

  /** Python's `<` on two lists: at the first index where the items differ, the order of those
      items; when one list is a prefix of the other, the shorter one is smaller. */
  predicate LexLess<T(==)>(a: seq<T>, b: seq<T>, less: (T, T) -> bool)
    decreases |a|
  {
    if a == [] then b != []
    else if b == [] then false
    else if a[0] == b[0] then LexLess(a[1..], b[1..], less)
    else less(a[0], b[0])
  }

  lemma {:induction false} LexIrreflexive<T>(a: seq<T>, less: (T, T) -> bool)
    ensures !LexLess(a, a, less)
    decreases |a|
  {
    if a != [] {
      LexIrreflexive(a[1..], less);
    }
  }

  lemma {:induction false} LexTransitive<T>(a: seq<T>, b: seq<T>, c: seq<T>, less: (T, T) -> bool)
    requires forall x, y, z :: less(x, y) && less(y, z) ==> less(x, z)
    requires forall x :: !less(x, x)
    requires LexLess(a, b, less) && LexLess(b, c, less)
    ensures LexLess(a, c, less)
    decreases |a|
  {
    if a != [] && a[0] == b[0] && b[0] == c[0] {
      LexTransitive(a[1..], b[1..], c[1..], less);
    }
  }

  lemma {:induction false} LexTotal<T>(a: seq<T>, b: seq<T>, less: (T, T) -> bool)
    requires forall x, y :: x == y || less(x, y) || less(y, x)
    ensures a == b || LexLess(a, b, less) || LexLess(b, a, less)
    decreases |a|
  {
    if a != [] && b != [] && a[0] == b[0] {
      LexTotal(a[1..], b[1..], less);
      assert a == [a[0]] + a[1..] && b == [b[0]] + b[1..];
    }
  }

  /** The facts about string order the list order needs. */
  lemma StrLessOrder()
    ensures forall x, y, z :: StrLess(x, y) && StrLess(y, z) ==> StrLess(x, z)
    ensures forall x :: !StrLess(x, x)
    ensures forall x, y :: x == y || StrLess(x, y) || StrLess(y, x)
  {
    forall x, y, z | StrLess(x, y) && StrLess(y, z) ensures StrLess(x, z) {
      StrLessTransitive(x, y, z);
    }
    forall x ensures !StrLess(x, x) {
      StrLessIrreflexive(x);
    }
    forall x, y ensures x == y || StrLess(x, y) || StrLess(y, x) {
      StrLessTotal(x, y);
    }
  }

  /** `a < b` on two sort keys: string order between strings, numeric order between numbers,
      and Python's list order between two lists of strings or two lists of numbers; no order
      otherwise. */
  predicate KeyLess(a: Json, b: Json) {
    if a.Str? && b.Str? then StrLess(a.s, b.s)
    else if IsNumber(a) && IsNumber(b) then NumberValue(a) < NumberValue(b)
    else if a.Arr? && b.Arr? && AllText(a.items) && AllText(b.items) then
      LexLess(TextItems(a.items), TextItems(b.items), StrLess)
    else if a.Arr? && b.Arr? && AllNumbers(a.items) && AllNumbers(b.items) then
      LexLess(NumberItems(a.items), NumberItems(b.items), RealLess)
    else false
  }

  /** A key is of the given kind. */
  predicate KindIs(v: Json, kind: KeyKind) {
    match kind
    case TextKey => v.Str?
    case NumberKey => IsNumber(v)
    case TextListKey => v.Arr? && AllText(v.items)
    case NumberListKey => v.Arr? && AllNumbers(v.items)
  }

  /** Between two keys of a list kind, `<` is that kind's list order. */
  lemma KeyLessOfList(a: Json, b: Json, kind: KeyKind)
    requires KindIs(a, kind) && KindIs(b, kind)
    ensures kind == TextListKey ==> (KeyLess(a, b) <==> LexLess(TextItems(a.items), TextItems(b.items), StrLess))
    ensures kind == NumberListKey ==> (KeyLess(a, b) <==> LexLess(NumberItems(a.items), NumberItems(b.items), RealLess))
  {
    if a.Arr? && a.items != [] {
      ListKind(a);
    }
    if b.Arr? && b.items != [] {
      ListKind(b);
    }
  }

  /** A list that is not empty is of one list kind only. */
  lemma ListKind(b: Json)
    requires b.Arr? && b.items != []
    ensures !(AllText(b.items) && AllNumbers(b.items))
  {
    assert b.items[0].Str? ==> !IsNumber(b.items[0]);
  }

  lemma KeyLessIrreflexive(a: Json)
    ensures !KeyLess(a, a)
  {
    if a.Str? {
      StrLessIrreflexive(a.s);
    } else if a.Arr? && AllText(a.items) {
      LexIrreflexive(TextItems(a.items), StrLess);
    } else if a.Arr? && AllNumbers(a.items) {
      LexIrreflexive(NumberItems(a.items), RealLess);
    }
  }

  lemma KeyLessTransitive(a: Json, b: Json, c: Json)
    requires KeyLess(a, b) && KeyLess(b, c)
    ensures KeyLess(a, c)
  {
    if a.Str? {
      StrLessTransitive(a.s, b.s, c.s);
    } else if a.Arr? {
      assert b.Arr? && b.items != [];
      ListKind(b);
      if AllText(b.items) {
        StrLessOrder();
        LexTransitive(TextItems(a.items), TextItems(b.items), TextItems(c.items), StrLess);
      } else {
        LexTransitive(NumberItems(a.items), NumberItems(b.items), NumberItems(c.items), RealLess);
      }
    }
  }

  /** Between keys of one kind, `<` is a strict weak order: if `a < b`, any `c` is above `a` or
      below `b`. */
  lemma KeyLessWeak(a: Json, b: Json, c: Json, kind: KeyKind)
    requires KindIs(a, kind) && KindIs(b, kind) && KindIs(c, kind)
    requires KeyLess(a, b)
    ensures KeyLess(a, c) || KeyLess(c, b)
  {
    match kind
    case TextKey =>
      StrLessTotal(a.s, c.s);
      if StrLess(c.s, a.s) {
        StrLessTransitive(c.s, a.s, b.s);
      }
    case NumberKey =>
    case TextListKey =>
      KeyLessOfList(a, b, kind);
      KeyLessOfList(a, c, kind);
      KeyLessOfList(c, b, kind);
      KeyLessOfList(c, a, kind);
      StrLessOrder();
      LexTotal(TextItems(a.items), TextItems(c.items), StrLess);
      if LexLess(TextItems(c.items), TextItems(a.items), StrLess) {
        LexTransitive(TextItems(c.items), TextItems(a.items), TextItems(b.items), StrLess);
      }
    case NumberListKey =>
      KeyLessOfList(a, b, kind);
      KeyLessOfList(a, c, kind);
      KeyLessOfList(c, b, kind);
      KeyLessOfList(c, a, kind);
      LexTotal(NumberItems(a.items), NumberItems(c.items), RealLess);
      if LexLess(NumberItems(c.items), NumberItems(a.items), RealLess) {
        LexTransitive(NumberItems(c.items), NumberItems(a.items), NumberItems(b.items), RealLess);
      }
  }

  /** The order `sorted(..., key=key, reverse=reverse)` puts elements in: `x` strictly before
      `y`. Equal keys are never reordered, in either direction. */
  predicate Before(x: Json, y: Json, key: Json -> Json, reverse: bool) {
    if reverse then KeyLess(key(y), key(x)) else KeyLess(key(x), key(y))
  }

  /** No element is strictly before one that precedes it. */
  predicate Sorted(s: seq<Json>, key: Json -> Json, reverse: bool) {
    forall i, j :: 0 <= i < j < |s| ==> !Before(s[j], s[i], key, reverse)
  }

  /** Every key is of the one kind. */
  predicate AllKind(s: seq<Json>, key: Json -> Json, kind: KeyKind) {
    forall i :: 0 <= i < |s| ==> KindIs(key(s[i]), kind)
  }

  /** All keys are of one kind. */
  predicate Uniform(s: seq<Json>, key: Json -> Json) {
    AllKind(s, key, TextKey) || AllKind(s, key, NumberKey)
    || AllKind(s, key, TextListKey) || AllKind(s, key, NumberListKey)
  }

  /** Places `x` after every element not strictly after it. */
  function Insert(x: Json, s: seq<Json>, key: Json -> Json, reverse: bool): seq<Json> {
    if s == [] then [x]
    else if Before(x, s[0], key, reverse) then [x] + s
    else [s[0]] + Insert(x, s[1..], key, reverse)
  }

  /** The stable sort `sorted` performs, as an insertion sort taking the elements in order. */
  function SortBy(s: seq<Json>, key: Json -> Json, reverse: bool): seq<Json> {
    if s == [] then [] else Insert(s[|s| - 1], SortBy(s[..|s| - 1], key, reverse), key, reverse)
  }

  /** Inserting adds the element and keeps the others. */
  lemma {:induction false} InsertPerm(x: Json, s: seq<Json>, key: Json -> Json, reverse: bool)
    ensures multiset(Insert(x, s, key, reverse)) == multiset(s) + multiset{x}
  {
    if s != [] && !Before(x, s[0], key, reverse) {
      InsertPerm(x, s[1..], key, reverse);
      assert s == [s[0]] + s[1..];
    }
  }

  /** `sorted` returns a permutation of its input. */
  lemma {:induction false} SortByPerm(s: seq<Json>, key: Json -> Json, reverse: bool)
    ensures multiset(SortBy(s, key, reverse)) == multiset(s)
  {
    if s != [] {
      var n := |s| - 1;
      SortByPerm(s[..n], key, reverse);
      InsertPerm(s[n], SortBy(s[..n], key, reverse), key, reverse);
      assert s == s[..n] + [s[n]];
    }
  }

  lemma {:induction false} InsertSorted(x: Json, s: seq<Json>, key: Json -> Json, reverse: bool)
    requires Sorted(s, key, reverse)
    ensures Sorted(Insert(x, s, key, reverse), key, reverse)
  {
    if s != [] {
      if Before(x, s[0], key, reverse) {
        forall j | 0 <= j < |s| ensures !Before(s[j], x, key, reverse) {
          if Before(s[j], x, key, reverse) {
            if reverse {
              KeyLessTransitive(key(s[0]), key(x), key(s[j]));
            } else {
              KeyLessTransitive(key(s[j]), key(x), key(s[0]));
            }
            if j == 0 {
              KeyLessIrreflexive(key(s[0]));
            }
          }
        }
      } else {
        InsertSorted(x, s[1..], key, reverse);
        InsertPerm(x, s[1..], key, reverse);
        var r := Insert(x, s[1..], key, reverse);
        forall y | y in multiset(r) ensures !Before(y, s[0], key, reverse) {
          assert y in multiset(s[1..]) + multiset{x};
          if y != x {
            assert y in s[1..];
          }
        }
      }
    }
  }

  /** `sorted` returns its input in order. */
  lemma {:induction false} SortBySorted(s: seq<Json>, key: Json -> Json, reverse: bool)
    ensures Sorted(SortBy(s, key, reverse), key, reverse)
  {
    if s != [] {
      SortBySorted(s[..|s| - 1], key, reverse);
      InsertSorted(s[|s| - 1], SortBy(s[..|s| - 1], key, reverse), key, reverse);
    }
  }

  /** Two elements neither of which goes before the other. */
  predicate Tied(x: Json, y: Json, key: Json -> Json, reverse: bool) {
    !Before(x, y, key, reverse) && !Before(y, x, key, reverse)
  }

  /** The elements of `s` that `keep` selects, in order. */
  function Kept<T>(s: seq<T>, keep: T -> bool): seq<T> {
    if s == [] then [] else (if keep(s[0]) then [s[0]] else []) + Kept(s[1..], keep)
  }

  lemma KeptCons<T>(y: T, t: seq<T>, keep: T -> bool)
    ensures Kept([y] + t, keep) == (if keep(y) then [y] else []) + Kept(t, keep)
  {
    assert ([y] + t)[1..] == t;
  }

  lemma {:induction false} KeptAppend<T>(a: seq<T>, b: seq<T>, keep: T -> bool)
    ensures Kept(a + b, keep) == Kept(a, keep) + Kept(b, keep)
  {
    if a == [] {
      assert a + b == b;
    } else {
      KeptAppend(a[1..], b, keep);
      assert a + b == [a[0]] + (a[1..] + b);
      KeptCons(a[0], a[1..] + b, keep);
    }
  }

  lemma {:induction false} NoneKept<T>(s: seq<T>, keep: T -> bool)
    requires forall j :: 0 <= j < |s| ==> !keep(s[j])
    ensures Kept(s, keep) == []
  {
    if s != [] {
      NoneKept(s[1..], keep);
    }
  }

  /** Being tied with `x0`, as a test on elements. */
  function TiedTo(x0: Json, key: Json -> Json, reverse: bool): Json -> bool {
    y => Tied(y, x0, key, reverse)
  }

  /** The elements tied with `x0`, in order. */
  function TiedWith(s: seq<Json>, x0: Json, key: Json -> Json, reverse: bool): seq<Json> {
    Kept(s, TiedTo(x0, key, reverse))
  }

  lemma TiedWithAppend(a: seq<Json>, b: seq<Json>, x0: Json, key: Json -> Json, reverse: bool)
    ensures TiedWith(a + b, x0, key, reverse) == TiedWith(a, x0, key, reverse) + TiedWith(b, x0, key, reverse)
  {
    KeptAppend(a, b, TiedTo(x0, key, reverse));
  }

  /** One element in front adds its own contribution in front. */
  lemma TiedWithCons(y: Json, t: seq<Json>, x0: Json, key: Json -> Json, reverse: bool)
    ensures TiedWith([y] + t, x0, key, reverse)
      == (if Tied(y, x0, key, reverse) then [y] else []) + TiedWith(t, x0, key, reverse)
  {
    KeptCons(y, t, TiedTo(x0, key, reverse));
  }

  /** In a sorted list whose first element is strictly after `x`, nothing is tied with `x`. */
  lemma NoneTied(x: Json, s: seq<Json>, x0: Json, key: Json -> Json, reverse: bool, kind: KeyKind)
    requires Sorted(s, key, reverse) && AllKind(s, key, kind) && KindIs(key(x), kind) && KindIs(key(x0), kind)
    requires s != [] && Before(x, s[0], key, reverse) && Tied(x, x0, key, reverse)
    ensures forall j :: 0 <= j < |s| ==> !Tied(s[j], x0, key, reverse)
  {
    forall j | 0 <= j < |s| ensures !Tied(s[j], x0, key, reverse) {
      KeyLessIrreflexive(key(s[0]));
      if reverse {
        KeyLessWeak(key(s[0]), key(x), key(s[j]), kind);
        KeyLessWeak(key(s[j]), key(x), key(x0), kind);
      } else {
        KeyLessWeak(key(x), key(s[0]), key(s[j]), kind);
        KeyLessWeak(key(x), key(s[j]), key(x0), kind);
      }
    }
  }

  /** The last element's contribution comes last. */
  lemma TiedWithLast(s: seq<Json>, x0: Json, key: Json -> Json, reverse: bool)
    requires s != []
    ensures TiedWith(s, x0, key, reverse) == TiedWith(s[..|s| - 1], x0, key, reverse)
      + (if Tied(s[|s| - 1], x0, key, reverse) then [s[|s| - 1]] else [])
  {
    var n := |s| - 1;
    assert s == s[..n] + [s[n]];
    TiedWithAppend(s[..n], [s[n]], x0, key, reverse);
    TiedWithCons(s[n], [], x0, key, reverse);
    assert [s[n]] + [] == [s[n]];
  }

  lemma NoneTiedWith(s: seq<Json>, x0: Json, key: Json -> Json, reverse: bool)
    requires forall j :: 0 <= j < |s| ==> !Tied(s[j], x0, key, reverse)
    ensures TiedWith(s, x0, key, reverse) == []
  {
    NoneKept(s, TiedTo(x0, key, reverse));
  }

  /** Inserting in front of a sorted list whose first element is strictly after `x`. */
  lemma InsertStableFront(x: Json, s: seq<Json>, x0: Json, key: Json -> Json, reverse: bool, kind: KeyKind)
    requires Sorted(s, key, reverse) && AllKind(s, key, kind) && KindIs(key(x), kind) && KindIs(key(x0), kind)
    requires s != [] && Before(x, s[0], key, reverse)
    ensures TiedWith([x] + s, x0, key, reverse)
      == TiedWith(s, x0, key, reverse) + (if Tied(x, x0, key, reverse) then [x] else [])
  {
    TiedWithCons(x, s, x0, key, reverse);
    if Tied(x, x0, key, reverse) {
      NoneTied(x, s, x0, key, reverse, kind);
      NoneTiedWith(s, x0, key, reverse);
    }
  }

  /** The tail of a sorted sequence of keys of one kind is one too. */
  lemma SortedRest(s: seq<Json>, key: Json -> Json, reverse: bool, kind: KeyKind)
    requires s != [] && Sorted(s, key, reverse) && AllKind(s, key, kind)
    ensures Sorted(s[1..], key, reverse) && AllKind(s[1..], key, kind)
  {
    forall i, j | 0 <= i < j < |s[1..]| ensures !Before(s[1..][j], s[1..][i], key, reverse) {
      assert s[1..][i] == s[i + 1] && s[1..][j] == s[j + 1];
    }
    forall i | 0 <= i < |s[1..]| ensures KindIs(key(s[1..][i]), kind) {
      assert s[1..][i] == s[i + 1];
    }
  }

  /** Inserting after the first element, given the result for the rest. */
  lemma InsertStableLater(x: Json, s: seq<Json>, x0: Json, key: Json -> Json, reverse: bool)
    requires s != [] && !Before(x, s[0], key, reverse)
    requires TiedWith(Insert(x, s[1..], key, reverse), x0, key, reverse)
      == TiedWith(s[1..], x0, key, reverse) + (if Tied(x, x0, key, reverse) then [x] else [])
    ensures TiedWith(Insert(x, s, key, reverse), x0, key, reverse)
      == TiedWith(s, x0, key, reverse) + (if Tied(x, x0, key, reverse) then [x] else [])
  {
    var tail := if Tied(x, x0, key, reverse) then [x] else [];
    var head := if Tied(s[0], x0, key, reverse) then [s[0]] else [];
    var front := TiedWith(s[1..], x0, key, reverse);
    var i := Insert(x, s[1..], key, reverse);
    InsertLater(x, s, key, reverse);
    TiedWithCons(s[0], i, x0, key, reverse);
    HeadTail(s);
    TiedWithCons(s[0], s[1..], x0, key, reverse);
    Associative(head, front, tail);
  }

  /** An element that does not go before the first one is inserted among the rest. */
  lemma InsertLater(x: Json, s: seq<Json>, key: Json -> Json, reverse: bool)
    requires s != [] && !Before(x, s[0], key, reverse)
    ensures Insert(x, s, key, reverse) == [s[0]] + Insert(x, s[1..], key, reverse)
  {
  }

  lemma {:induction false} InsertStable(x: Json, s: seq<Json>, x0: Json, key: Json -> Json, reverse: bool, kind: KeyKind)
    requires Sorted(s, key, reverse) && AllKind(s, key, kind) && KindIs(key(x), kind) && KindIs(key(x0), kind)
    ensures TiedWith(Insert(x, s, key, reverse), x0, key, reverse)
      == TiedWith(s, x0, key, reverse) + (if Tied(x, x0, key, reverse) then [x] else [])
  {
    if s == [] {
      TiedWithCons(x, [], x0, key, reverse);
      assert [x] + [] == [x];
    } else if Before(x, s[0], key, reverse) {
      InsertStableFront(x, s, x0, key, reverse, kind);
    } else {
      SortedRest(s, key, reverse, kind);
      InsertStable(x, s[1..], x0, key, reverse, kind);
      InsertStableLater(x, s, x0, key, reverse);
    }
  }

  /** Sorting keeps the elements, so it keeps the kind of their keys. */
  lemma SortByKind(s: seq<Json>, key: Json -> Json, reverse: bool, kind: KeyKind)
    requires AllKind(s, key, kind)
    ensures AllKind(SortBy(s, key, reverse), key, kind)
  {
    var r := SortBy(s, key, reverse);
    SortByPerm(s, key, reverse);
    forall i | 0 <= i < |r| ensures KindIs(key(r[i]), kind) {
      assert r[i] in multiset(s);
    }
  }

  /** `sorted` is stable: among keys of one kind, the elements tied with any given one come out
      in their input order. */
  lemma {:induction false} SortByStable(s: seq<Json>, x0: Json, key: Json -> Json, reverse: bool, kind: KeyKind)
    requires AllKind(s, key, kind) && KindIs(key(x0), kind)
    ensures TiedWith(SortBy(s, key, reverse), x0, key, reverse) == TiedWith(s, x0, key, reverse)
  {
    if s != [] {
      var n := |s| - 1;
      var front := s[..n];
      var sorted := SortBy(front, key, reverse);
      var last := if Tied(s[n], x0, key, reverse) then [s[n]] else [];
      assert SortBy(s, key, reverse) == Insert(s[n], sorted, key, reverse);
      assert AllKind(front, key, kind) && KindIs(key(s[n]), kind);
      SortByStable(front, x0, key, reverse, kind);
      assert TiedWith(Insert(s[n], sorted, key, reverse), x0, key, reverse) == TiedWith(sorted, x0, key, reverse) + last by {
        SortBySorted(front, key, reverse);
        SortByKind(front, key, reverse, kind);
        InsertStable(s[n], sorted, x0, key, reverse, kind);
      }
      assert TiedWith(s, x0, key, reverse) == TiedWith(front, x0, key, reverse) + last by {
        TiedWithLast(s, x0, key, reverse);
      }
    }
  }

  /** The key `_sort_results` sorts by. Without a sort argument: the `date`, or `""`. For
      `date`: the `date`, else the `event_date`, else `""`. For `attendees`: its value, 0 when the
      key is missing. For anything else: the value under that key. */
  function SortKey(e: Json, field: Option<string>): Json {
    match field
    case None => Or(Get(e, "date"), Str(""))
    case Some(f) =>
      if f == "date" then Or(Or(Get(e, "date"), Get(e, "event_date")), Str(""))
      else if f == "attendees" then GetOr(e, "attendees", Int(0))
      else Get(e, f)
  }

  /** The field and the direction `_sort_results` reads from its argument: a leading `-` sorts
      the rest of the argument in reverse. */
  function SortField(sort: Option<string>): (Option<string>, bool) {
    if sort.None? || sort.value == "" then (None, false)
    else if StartsWith(sort.value, "-") then (Some(sort.value[1..]), true)
    else (Some(sort.value), false)
  }

  /** The key function `_sort_results` hands to `sorted` for a sort argument. */
  function KeyOf(sort: Option<string>): Json -> Json {
    e => SortKey(e, SortField(sort).0)
  }

  /** `_sort_results`: the stable sort by the chosen key, or the `TypeError` Python raises when
      the keys are not all of one kind. Any sort of two or more keys compares each pair that ends
      up side by side, so keys of two kinds, or a `None` or dict key, always meet a pair `<`
      cannot order. A list holding anything but only strings or only numbers is refused too,
      which simplifies Python: it raises only when it reaches two unequal items it cannot order. */
  function SortResults(results: seq<Json>, sort: Option<string>): (r: Result<seq<Json>, SortError>)
    ensures r.Err? <==> |results| >= 2 && !Uniform(results, KeyOf(sort))
    ensures r.Ok? ==> multiset(r.value) == multiset(results) && Sorted(r.value, KeyOf(sort), SortField(sort).1)
  {
    SortByPerm(results, KeyOf(sort), SortField(sort).1);
    SortBySorted(results, KeyOf(sort), SortField(sort).1);
    if |results| <= 1 || Uniform(results, KeyOf(sort)) then Ok(SortBy(results, KeyOf(sort), SortField(sort).1))
    else Err(TypeError)
  }

  /** What `_sort_results` promises, in Python's terms: it fails exactly when the keys are not
      all of one kind; otherwise it returns a permutation of the results in which no key is
      smaller than an earlier one, or, when the argument starts with `-`, larger. */
  lemma SortResultsMeaning(results: seq<Json>, sort: Option<string>)
    ensures SortResults(results, sort).Err? <==> |results| >= 2 && !Uniform(results, KeyOf(sort))
    ensures SortResults(results, sort).Ok? ==>
      var r := SortResults(results, sort).value;
      && multiset(r) == multiset(results)
      && (sort.Some? && StartsWith(sort.value, "-") ==>
            forall i, j :: 0 <= i < j < |r| ==> !KeyLess(KeyOf(sort)(r[i]), KeyOf(sort)(r[j])))
      && (sort.None? || !StartsWith(sort.value, "-") ==>
            forall i, j :: 0 <= i < j < |r| ==> !KeyLess(KeyOf(sort)(r[j]), KeyOf(sort)(r[i])))
  {
    if SortResults(results, sort).Ok? {
      var r := SortResults(results, sort).value;
      assert Sorted(r, KeyOf(sort), SortField(sort).1);
    }
  }

  /** The events whose keys tie keep their relative order, in both directions. */
  lemma SortResultsStable(results: seq<Json>, sort: Option<string>, x0: Json, kind: KeyKind)
    requires AllKind(results, KeyOf(sort), kind) && KindIs(KeyOf(sort)(x0), kind)
    ensures SortResults(results, sort).Ok?
    ensures TiedWith(SortResults(results, sort).value, x0, KeyOf(sort), SortField(sort).1)
      == TiedWith(results, x0, KeyOf(sort), SortField(sort).1)
  {
    SortByStable(results, x0, KeyOf(sort), SortField(sort).1, kind);
  }

  // ---------------------------------------------------------------- Elasticsearch sort clause

  datatype Order = Asc | Desc

  /** One entry of the `sort` list of an Elasticsearch request: `{field: {"order": order}}`. */
  datatype SortClause = SortClause(field: string, order: Order)

  /** `_translate_sort`: a leading `-` asks for descending order on the rest; the public name
      `date` is the indexed `event_date`, any other name is used as it is. */
  function TranslateSort(sort: string): SortClause {
    var (field, order) := if StartsWith(sort, "-") then (sort[1..], Desc) else (sort, Asc);
    SortClause(if field == "date" then "event_date" else field, order)
  }

  /** The order is descending exactly for a leading `-`; the field is the argument without it,
      except that `date` becomes `event_date`, so the public name never reaches the index. */
  lemma TranslateSortMeaning(sort: string)
    ensures TranslateSort(sort).order == Desc <==> StartsWith(sort, "-")
    ensures var rest := if StartsWith(sort, "-") then sort[1..] else sort;
      TranslateSort(sort).field == (if rest == "date" then "event_date" else rest)
    ensures TranslateSort(sort).field != "date"
  {
  }

  /** The fallback and the Elasticsearch paths read a sort argument the same way. */
  lemma SortDirectionsAgree(sort: string)
    requires sort != ""
    ensures SortField(Some(sort)).1 <==> TranslateSort(sort).order == Desc
  {
  }
}
