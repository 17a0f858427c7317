/** The few Python string operations the services rely on: `strip`, `lstrip`/`rstrip` of one
    character, `lower`/`upper`/`casefold`, `in` on strings, `startswith`, single-character
    `replace`, `join` and `str` of an integer. */
module Text {

  /** Python's `str.isspace` for one character: the characters `strip()` removes. */
  predicate IsSpace(c: char) {
    c == ' ' || ('\t' <= c <= '\r') || ('\U{1c}' <= c <= '\U{1f}') || c == '\U{85}' || c == '\U{a0}'
    || c == '\U{1680}' || ('\U{2000}' <= c <= '\U{200a}') || c == '\U{2028}' || c == '\U{2029}'
    || c == '\U{202f}' || c == '\U{205f}' || c == '\U{3000}'
  }

  predicate AllSpace(s: string) {
    forall k :: 0 <= k < |s| ==> IsSpace(s[k])
  }

  /** `s.lstrip()`: the longest suffix of `s` that does not start with whitespace. */
  function LStrip(s: string): (r: string)
    ensures |r| <= |s| && r == s[|s| - |r|..]
    ensures AllSpace(s[..|s| - |r|])
    ensures r != [] ==> !IsSpace(r[0])
  {
    if s != [] && IsSpace(s[0]) then
      var r := LStrip(s[1..]);
      LStripStep(s, r);
      r
    else s
  }

  /** A suffix of the tail, after whitespace only, is a suffix of the whole after whitespace
      only when the head is whitespace too. */
  lemma LStripStep(s: string, r: string)
    requires s != [] && IsSpace(s[0]) && |r| <= |s| - 1
    requires r == s[1..][|s| - 1 - |r|..] && AllSpace(s[1..][..|s| - 1 - |r|])
    ensures r == s[|s| - |r|..] && AllSpace(s[..|s| - |r|])
  {
    var n := |s| - |r|;
    assert s[1..][n - 1..] == s[n..];
    forall k | 0 <= k < n ensures IsSpace(s[..n][k]) {
      if k > 0 {
        assert s[..n][k] == s[1..][..n - 1][k - 1];
      }
    }
  }

  /** `s.rstrip()`: the longest prefix of `s` that does not end with whitespace. */
  function RStrip(s: string): (r: string)
    ensures |r| <= |s| && r == s[..|r|]
    ensures AllSpace(s[|r|..])
    ensures r != [] ==> !IsSpace(r[|r| - 1])
  {
    if s != [] && IsSpace(s[|s| - 1]) then
      var r := RStrip(s[..|s| - 1]);
      RStripStep(s, r);
      r
    else s
  }

  /** A prefix of all but the last character, before whitespace only, is a prefix of the whole
      before whitespace only when the last character is whitespace too. */
  lemma RStripStep(s: string, r: string)
    requires s != [] && IsSpace(s[|s| - 1]) && |r| <= |s| - 1
    requires r == s[..|s| - 1][..|r|] && AllSpace(s[..|s| - 1][|r|..])
    ensures r == s[..|r|] && AllSpace(s[|r|..])
  {
    var n := |s| - 1;
    assert s[..n][..|r|] == s[..|r|];
    forall k | 0 <= k < |s| - |r| ensures IsSpace(s[|r|..][k]) {
      if k < n - |r| {
        assert s[|r|..][k] == s[..n][|r|..][k];
      }
    }
  }

  /** `s.strip()`: `s` without its leading and trailing whitespace. */
  function Strip(s: string): (r: string)
    ensures r != [] ==> !IsSpace(r[0]) && !IsSpace(r[|r| - 1])
    ensures r == [] <==> AllSpace(s)
  {
    StripEnds(s);
    RStrip(LStrip(s))
  }

  lemma StripEnds(s: string)
    ensures var r := RStrip(LStrip(s));
      && (r != [] ==> !IsSpace(r[0]) && !IsSpace(r[|r| - 1]))
      && (r == [] <==> AllSpace(s))
  {
    var l := LStrip(s);
    var r := RStrip(l);
    LStripAllSpace(s);
    RStripAllSpace(l);
    if r != [] {
      assert l[0] == r[0];
    }
  }

  /** `lstrip()` leaves nothing exactly when everything is whitespace. */
  lemma {:induction false} LStripAllSpace(s: string)
    ensures LStrip(s) == [] <==> AllSpace(s)
  {
    if s != [] && IsSpace(s[0]) {
      LStripAllSpace(s[1..]);
      assert forall k :: 0 <= k < |s[1..]| ==> s[1..][k] == s[k + 1];
    }
  }

  /** `rstrip()` leaves nothing exactly when everything is whitespace. */
  lemma {:induction false} RStripAllSpace(s: string)
    ensures RStrip(s) == [] <==> AllSpace(s)
  {
    if s != [] && IsSpace(s[|s| - 1]) {
      var n := |s| - 1;
      RStripAllSpace(s[..n]);
      assert forall k :: 0 <= k < n ==> s[..n][k] == s[k];
    }
  }

  /** What `strip()` keeps is a slice of `s` with only whitespace before and after it. */
  lemma StripSlice(s: string)
    ensures exists i, j :: 0 <= i <= j <= |s| && Strip(s) == s[i..j] && AllSpace(s[..i]) && AllSpace(s[j..])
  {
    var l := LStrip(s);
    var r := RStrip(l);
    var i := |s| - |l|;
    assert s[i..i + |r|] == r;
    assert AllSpace(s[i + |r|..]) by {
      assert s[i + |r|..] == l[|r|..];
    }
  }

  /** Stripping twice is stripping once. */
  lemma StripIdempotent(s: string)
    ensures Strip(Strip(s)) == Strip(s)
  {
    var t := Strip(s);
    if t != [] {
      StripNoEdges(t);
    }
  }

  /** A string with no whitespace at either end is its own `strip()`. */
  lemma StripNoEdges(s: string)
    requires s != [] && !IsSpace(s[0]) && !IsSpace(s[|s| - 1])
    ensures Strip(s) == s
  {
    assert LStrip(s) == s;
    assert RStrip(s) == s;
  }

  /** Whitespace before a text that does not start with whitespace is what `lstrip()` removes. */
  lemma {:induction false} LStripSpaces(pre: string, t: string)
    requires AllSpace(pre) && (t == [] || !IsSpace(t[0]))
    ensures LStrip(pre + t) == t
  {
    if pre != [] {
      assert (pre + t)[1..] == pre[1..] + t;
      LStripSpaces(pre[1..], t);
    } else {
      assert pre + t == t;
    }
  }

  /** Whitespace after a text that does not end with whitespace is what `rstrip()` removes. */
  lemma {:induction false} RStripSpaces(t: string, post: string)
    requires AllSpace(post) && (t == [] || !IsSpace(t[|t| - 1]))
    ensures RStrip(t + post) == t
  {
    if post != [] {
      var n := |post| - 1;
      assert (t + post)[..|t + post| - 1] == t + post[..n];
      RStripSpaces(t, post[..n]);
    } else {
      assert t + post == t;
    }
  }

  /** Whitespace around a text with no whitespace at either end is what `strip()` removes. */
  lemma StripPadded(before: string, x: string, after: string)
    requires AllSpace(before) && AllSpace(after)
    requires x != [] && !IsSpace(x[0]) && !IsSpace(x[|x| - 1])
    ensures Strip(before + x + after) == x
  {
    assert before + x + after == before + (x + after);
    LStripSpaces(before, x + after);
    RStripSpaces(x, after);
  }

  /** `s.rstrip(c)` for one character `c`. */
  function RStripChar(s: string, c: char): (r: string)
    ensures |r| <= |s| && r == s[..|r|]
    ensures forall k :: |r| <= k < |s| ==> s[k] == c
    ensures r != [] ==> r[|r| - 1] != c
  {
    if s != [] && s[|s| - 1] == c then RStripChar(s[..|s| - 1], c) else s
  }

  /** `s.lstrip(c)` for one character `c`. */
  function LStripChar(s: string, c: char): (r: string)
    ensures |r| <= |s| && r == s[|s| - |r|..]
    ensures forall k :: 0 <= k < |s| - |r| ==> s[k] == c
    ensures r != [] ==> r[0] != c
  {
    if s != [] && s[0] == c then LStripChar(s[1..], c) else s
  }

  function LowerChar(c: char): char {
    if 'A' <= c <= 'Z' then (c as int + 32) as char else c
  }

  function UpperChar(c: char): char {
    if 'a' <= c <= 'z' then (c as int - 32) as char else c
  }

  /** `s.lower()` (and `s.casefold()`) on ASCII letters. */
  function Lower(s: string): (r: string)
    ensures |r| == |s|
  {
    seq(|s|, i requires 0 <= i < |s| => LowerChar(s[i]))
  }

  /** `s.upper()` on ASCII letters. */
  function Upper(s: string): (r: string)
    ensures |r| == |s|
  {
    seq(|s|, i requires 0 <= i < |s| => UpperChar(s[i]))
  }

  /** Lower-casing is idempotent and leaves no upper-case ASCII letter. */
  lemma LowerIdempotent(s: string)
    ensures Lower(Lower(s)) == Lower(s)
    ensures forall i :: 0 <= i < |s| ==> !('A' <= Lower(s)[i] <= 'Z')
  {
  }

  /** Python's `needle in hay` on strings. */
  predicate IsInfix(needle: string, hay: string) {
    exists i :: 0 <= i <= |hay| - |needle| && InfixAt(needle, hay, i)
  }

  predicate InfixAt(needle: string, hay: string, i: int)
    requires 0 <= i <= |hay| - |needle|
  {
    hay[i..i + |needle|] == needle
  }

  /** Python's `s.startswith(p)`. */
  predicate StartsWith(s: string, p: string) {
    |p| <= |s| && s[..|p|] == p
  }

  /** Python's `a < b` on strings: lexicographic by code point, a proper prefix first. */
  predicate StrLess(a: string, b: string) {
    b != [] && (a == [] || a[0] < b[0] || (a[0] == b[0] && StrLess(a[1..], b[1..])))
  }

  /** `<` on strings is a strict total order. */
  lemma {:induction false} StrLessIrreflexive(a: string)
    ensures !StrLess(a, a)
  {
    if a != [] {
      StrLessIrreflexive(a[1..]);
    }
  }

  lemma {:induction false} StrLessTransitive(a: string, b: string, c: string)
    requires StrLess(a, b) && StrLess(b, c)
    ensures StrLess(a, c)
  {
    if a != [] && a[0] == b[0] && b[0] == c[0] {
      StrLessTransitive(a[1..], b[1..], c[1..]);
    }
  }

  lemma {:induction false} StrLessTotal(a: string, b: string)
    ensures a == b || StrLess(a, b) || StrLess(b, a)
  {
    if a != [] && b != [] && a[0] == b[0] {
      StrLessTotal(a[1..], b[1..]);
      if a[1..] == b[1..] {
        assert a == [a[0]] + a[1..] && b == [b[0]] + b[1..];
      }
    }
  }

  lemma {:induction false} StrLessAsymmetric(a: string, b: string)
    requires StrLess(a, b)
    ensures !StrLess(b, a)
  {
    if a != [] && a[0] == b[0] {
      StrLessAsymmetric(a[1..], b[1..]);
    }
  }

  /** `s.replace(c, rep)` for a one-character pattern `c`. */
  function ReplaceChar(s: string, c: char, rep: string): (r: string)
    ensures c !in rep ==> c !in r
    ensures (forall k :: 0 <= k < |s| ==> s[k] != c) ==> r == s
  {
    if s == [] then [] else (if s[0] == c then rep else [s[0]]) + ReplaceChar(s[1..], c, rep)
  }

  lemma {:induction false} ReplaceCharAppend(a: string, b: string, c: char, rep: string)
    ensures ReplaceChar(a + b, c, rep) == ReplaceChar(a, c, rep) + ReplaceChar(b, c, rep)
  {
    if a != [] {
      var head := if a[0] == c then rep else [a[0]];
      var front := ReplaceChar(a[1..], c, rep);
      var back := ReplaceChar(b, c, rep);
      ReplaceCharAppend(a[1..], b, c, rep);
      AppendHead(a, b);
      ReplaceCharCons(a + b, c, rep);
      Associative(head, front, back);
    } else {
      assert a + b == b;
    }
  }

  /** One step of `ReplaceChar`: the head's replacement, then the tail's. */
  lemma ReplaceCharCons(s: string, c: char, rep: string)
    requires s != []
    ensures ReplaceChar(s, c, rep) == (if s[0] == c then rep else [s[0]]) + ReplaceChar(s[1..], c, rep)
  {
  }

  /** The head and tail of a concatenation whose first part is not empty. */
  lemma AppendHead<T>(a: seq<T>, b: seq<T>)
    requires a != []
    ensures (a + b)[0] == a[0] && (a + b)[1..] == a[1..] + b
  {
  }

  /** Concatenation regroups. Proofs whose context is crowded call this rather than leave the
      step to the solver. */
  lemma Associative<T>(a: seq<T>, b: seq<T>, c: seq<T>)
    ensures a + (b + c) == (a + b) + c
  {
  }

  /** A non-empty sequence is its head followed by its tail. */
  lemma HeadTail<T>(s: seq<T>)
    requires s != []
    ensures s == [s[0]] + s[1..]
  {
  }

  /** `sep.join(parts)`. */
  function Join(parts: seq<string>, sep: string): string {
    if |parts| == 0 then "" else if |parts| == 1 then parts[0] else parts[0] + sep + Join(parts[1..], sep)
  }

  function DigitChar(d: nat): char
    requires d < 10
  {
    ('0' as int + d) as char
  }

  /** `str(n)` for a non-negative integer. */
  function NatToString(n: nat): (r: string)
    ensures |r| >= 1
    ensures forall k :: 0 <= k < |r| ==> '0' <= r[k] <= '9'
  {
    if n < 10 then [DigitChar(n)] else NatToString(n / 10) + [DigitChar(n % 10)]
  }

  predicate AllDigits(s: string) {
    forall k :: 0 <= k < |s| ==> '0' <= s[k] <= '9'
  }

  /** The value of a run of decimal digits. */
  function DigitsValue(s: string): nat
    requires AllDigits(s)
  {
    if s == [] then 0 else DigitsValue(s[..|s| - 1]) * 10 + (s[|s| - 1] as int - '0' as int)
  }

  /** Reading back the digits `str` writes for a natural number gives that number. */
  lemma {:induction false} DigitsValueOfNat(n: nat)
    ensures AllDigits(NatToString(n)) && DigitsValue(NatToString(n)) == n
  {
    if n >= 10 {
      DigitsValueOfNat(n / 10);
      var s := NatToString(n);
      assert s[..|s| - 1] == NatToString(n / 10);
    }
  }

  /** `str(i)` for any integer. */
  function IntToString(i: int): string {
    if i < 0 then "-" + NatToString(-i) else NatToString(i)
  }

  // ---------------------------------------------------------------- de-duplication

  /** No value occurs twice. */
  predicate Distinct(s: seq<string>) {
    forall i, j :: 0 <= i < j < |s| ==> s[i] != s[j]
  }

  /** `acc` extended, in order, with each value of `s` it does not hold yet: the
      `if x not in acc: acc.append(x)` loop the services use to de-duplicate. */
  function DedupOnto(acc: seq<string>, s: seq<string>): seq<string> {
    if s == [] then acc
    else
      var r := DedupOnto(acc, s[..|s| - 1]);
      if s[|s| - 1] in r then r else r + [s[|s| - 1]]
  }

  /** The result starts with `acc`, holds exactly the values of `acc` and `s`, and repeats none
      when `acc` repeats none. */
  lemma {:induction false} DedupOntoMeaning(acc: seq<string>, s: seq<string>)
    ensures |acc| <= |DedupOnto(acc, s)| && DedupOnto(acc, s)[..|acc|] == acc
    ensures forall x :: x in DedupOnto(acc, s) <==> x in acc || x in s
    ensures Distinct(acc) ==> Distinct(DedupOnto(acc, s))
  {
    if s != [] {
      var n := |s| - 1;
      DedupOntoMeaning(acc, s[..n]);
      assert s == s[..n] + [s[n]];
      var r := DedupOnto(acc, s[..n]);
      if s[n] !in r {
        assert (r + [s[n]])[..|acc|] == r[..|acc|];
      }
    }
  }

  /** Adding two runs of values one after the other is adding their concatenation. */
  lemma {:induction false} DedupOntoAppend(acc: seq<string>, a: seq<string>, b: seq<string>)
    ensures DedupOnto(acc, a + b) == DedupOnto(DedupOnto(acc, a), b)
  {
    if b == [] {
      assert a + b == a;
    } else {
      var n := |b| - 1;
      DedupOntoAppend(acc, a, b[..n]);
      assert (a + b)[..|a + b| - 1] == a + b[..n];
      assert (a + b)[|a + b| - 1] == b[n];
    }
  }

  /** One more value is appended exactly when it is new. */
  lemma DedupOntoSnoc(acc: seq<string>, s: seq<string>, x: string)
    ensures DedupOnto(acc, s + [x]) == if x in DedupOnto(acc, s) then DedupOnto(acc, s) else DedupOnto(acc, s) + [x]
  {
    assert (s + [x])[..|s|] == s;
  }

  /** Values that are already distinct, and new to `acc`, are all appended as they are. */
  lemma {:induction false} DedupOntoDistinct(acc: seq<string>, s: seq<string>)
    requires Distinct(s) && forall i :: 0 <= i < |s| ==> s[i] !in acc
    ensures DedupOnto(acc, s) == acc + s
  {
    if s != [] {
      var n := |s| - 1;
      DedupOntoDistinct(acc, s[..n]);
      assert s[n] !in s[..n];
      assert acc + s[..n] + [s[n]] == acc + s;
    }
  }
}
