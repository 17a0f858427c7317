/** The networking service of an event: how a participant profile payload is validated, how
    string lists are sanitised and read back, how two profiles are scored against each other, how
    candidates are ranked, and which suggestions `generate_suggestions` stores. */
module Networking {
  import opened Wrappers
  import opened Text
  import opened JsonValue
  import opened Validation
  import SearchMatching

  // ---------------------------------------------------------------- _sanitize_string_list

  /** A text `strip()` leaves as it is and that is not blank: non-empty, no whitespace at
      either end. */
  predicate Clean(x: string) {
    x != "" && !IsSpace(x[0]) && !IsSpace(x[|x| - 1])
  }

  /** A clean text is its own `strip()`, and a `strip()` that is not blank is clean. */
  lemma CleanMeaning(x: string)
    ensures Clean(x) ==> Strip(x) == x
    ensures Strip(x) != "" ==> Clean(Strip(x))
  {
    if Clean(x) {
      StripNoEdges(x);
    }
  }

  /** The value whose entries are sanitised: a dict is replaced by its iterable `items`, else
      its iterable `slots`; a dict with neither is invalid (`None`). */
  function Unwrapped(value: Json): Option<Json> {
    if !value.Obj? then Some(value)
    else if Has(value, "items") && IsIterable(Get(value, "items")) then Some(Get(value, "items"))
    else if Has(value, "slots") && IsIterable(Get(value, "slots")) then Some(Get(value, "slots"))
    else None
  }

  /** What one entry contributes before de-duplication: its stripped text, when it is a string
      that is not blank. */
  function EntryText(entry: Json): (r: seq<string>)
    ensures |r| <= 1
    ensures forall x :: x in r <==> entry.Str? && x == Strip(entry.s) && x != ""
  {
    if entry.Str? && Strip(entry.s) != "" then [Strip(entry.s)] else []
  }

  /** A clean string entry contributes itself. */
  lemma EntryTextClean(x: string)
    requires Clean(x)
    ensures EntryText(Str(x)) == [x]
  {
    CleanMeaning(x);
  }

  /** `_sanitize_string_list(value)`: `[]` for `None`; `None` (invalid) for a string, a
      non-iterable value or a dict without a usable `items`/`slots`; otherwise the stripped,
      non-blank string entries, first occurrence kept. */
  function SanitizedList(value: Json): Option<seq<string>> {
    if value.Null? then Some([])
    else
      match Unwrapped(value)
      case None => None
      case Some(v) =>
        if !IsIterable(v) || v.Str? then None else Some(DedupOnto([], Collect(Iter(v), EntryText)))
  }

  /** The sanitised list repeats nothing and holds only clean texts; for a list it holds exactly
      the stripped non-blank string entries; strings and non-iterables are invalid. */
  lemma SanitizedListMeaning(value: Json)
    ensures value.Null? ==> SanitizedList(value) == Some([])
    ensures value.Str? || value.Int? || value.Bool? || value.Num? ==> SanitizedList(value).None?
    ensures SanitizedList(value).Some? ==>
      Distinct(SanitizedList(value).value)
      && forall k :: 0 <= k < |SanitizedList(value).value| ==> Clean(SanitizedList(value).value[k])
    ensures value.Arr? ==>
      && SanitizedList(value).Some?
      && forall x :: x in SanitizedList(value).value <==>
           exists i :: 0 <= i < |value.items| && value.items[i].Str? && Strip(value.items[i].s) == x && x != ""
  {
    if SanitizedList(value).Some? && !value.Null? {
      var v := Unwrapped(value).value;
      SanitizedEntries(Iter(v));
      if value.Arr? {
        assert Iter(v) == value.items;
      }
    }
  }

  /** What the entries of an iterable give: distinct clean texts, exactly the stripped non-blank
      string entries. */
  lemma SanitizedEntries(entries: seq<Json>)
    ensures var r := DedupOnto([], Collect(entries, EntryText));
      && Distinct(r)
      && (forall k :: 0 <= k < |r| ==> Clean(r[k]))
      && forall x :: x in r <==> exists i :: 0 <= i < |entries| && entries[i].Str? && Strip(entries[i].s) == x && x != ""
  {
    var texts := Collect(entries, EntryText);
    var r := DedupOnto([], texts);
    assert Distinct(r) by {
      DedupOntoMeaning([], texts);
    }
    assert forall x :: x in r <==> x in texts by {
      DedupOntoMeaning([], texts);
    }
    assert forall x :: x in texts <==> exists i :: 0 <= i < |entries| && x in EntryText(entries[i]) by {
      CollectMeaning(entries, EntryText);
    }
    forall k | 0 <= k < |r| ensures Clean(r[k]) {
      assert r[k] in texts;
      var i :| 0 <= i < |entries| && r[k] in EntryText(entries[i]);
      CleanMeaning(entries[i].s);
    }
  }

  /** Sanitising a list that is already clean (distinct clean strings) gives it back unchanged,
      so sanitising is idempotent. */
  lemma SanitizeClean(xs: seq<string>)
    requires Distinct(xs) && forall k :: 0 <= k < |xs| ==> Clean(xs[k])
    ensures SanitizedList(Arr(Strs(xs))) == Some(xs)
  {
    SanitizedStrs(xs);
    DedupOntoDistinct([], xs);
    assert [] + xs == xs;
  }

  /** A list of clean strings sanitises to its de-duplication. */
  lemma SanitizedStrs(xs: seq<string>)
    requires forall k :: 0 <= k < |xs| ==> Clean(xs[k])
    ensures SanitizedList(Arr(Strs(xs))) == Some(DedupOnto([], xs))
  {
    var v := Arr(Strs(xs));
    assert Unwrapped(v) == Some(v);
    assert Iter(v) == Strs(xs);
    CollectStrs(xs);
  }

  /** The entries of a clean list contribute the list itself. */
  lemma CollectStrs(xs: seq<string>)
    requires forall k :: 0 <= k < |xs| ==> Clean(xs[k])
    ensures Collect(Strs(xs), EntryText) == xs
  {
    forall k | 0 <= k < |xs| ensures EntryText(Strs(xs)[k]) == [xs[k]] {
      EntryTextClean(xs[k]);
    }
    CollectSingles(Strs(xs), EntryText, xs);
  }

  /** `_sanitize_string_list(value, field)`, as the loop the service runs. */
  method SanitizeStringList(value: Json) returns (r: Option<seq<string>>)
    ensures r == SanitizedList(value)
  {
    if value.Null? {
      return Some([]);
    }
    var source := value;
    if value.Obj? {
      if Has(value, "items") && IsIterable(Get(value, "items")) {
        source := Get(value, "items");
      } else if Has(value, "slots") && IsIterable(Get(value, "slots")) {
        source := Get(value, "slots");
      } else {
        return None;
      }
    }
    if !IsIterable(source) || source.Str? {
      return None;
    }
    var cleaned := SanitizeEntries(Iter(source));
    r := Some(cleaned);
  }

  /** The loop of `_sanitize_string_list`: each string entry stripped, kept when it is not blank
      and not already kept. */
  method SanitizeEntries(entries: seq<Json>) returns (cleaned: seq<string>)
    ensures cleaned == DedupOnto([], Collect(entries, EntryText))
  {
    cleaned := [];
    for k := 0 to |entries|
      invariant cleaned == DedupOnto([], Collect(entries[..k], EntryText))
    {
      assert entries[..k + 1][..k] == entries[..k];
      var entry := entries[k];
      ghost var seen := Collect(entries[..k], EntryText);
      if entry.Str? {
        var normalized := Strip(entry.s);
        if normalized != "" {
          DedupOntoSnoc([], seen, normalized);
          if normalized !in cleaned {
            cleaned := cleaned + [normalized];
          }
        } else {
          assert seen + EntryText(entry) == seen;
        }
      } else {
        assert seen + EntryText(entry) == seen;
      }
    }
    assert entries[..|entries|] == entries;
  }

  // ---------------------------------------------------------------- _extract_list

  /** `_extract_list(container, key)`: the list under `key` of a dict, or the container itself
      (`[]` when falsy); the stripped non-blank `str` of each item when that is a list, and
      nothing otherwise. */
  function ExtractList(container: Json, key: string): seq<string> {
    var value := if container.Obj? then GetOr(container, key, Arr([])) else Or(container, Arr([]));
    if value.Arr? then SearchMatching.NormaliseItems(value.items) else []
  }

  /** Every extracted text is clean; a container that holds no list gives nothing. */
  lemma ExtractListMeaning(container: Json, key: string)
    ensures forall k :: 0 <= k < |ExtractList(container, key)| ==> Clean(ExtractList(container, key)[k])
    ensures !container.Obj? && !container.Arr? ==> ExtractList(container, key) == []
  {
    var value := if container.Obj? then GetOr(container, key, Arr([])) else Or(container, Arr([]));
    if value.Arr? {
      var texts := SearchMatching.Texts(value.items);
      SearchMatching.NormaliseMeaning(texts);
      var r := ExtractList(container, key);
      forall k | 0 <= k < |r| ensures Clean(r[k]) {
        CleanMeaning(r[k]);
      }
    }
  }

  /** What validation stores is what extraction reads: a clean list wrapped under its key comes
      back unchanged. */
  lemma ExtractWrapped(xs: seq<string>, key: string)
    requires forall k :: 0 <= k < |xs| ==> Clean(xs[k])
    ensures ExtractList(Obj([(key, Arr(Strs(xs)))]), key) == xs
  {
    var container := Obj([(key, Arr(Strs(xs)))]);
    assert Has(container, key) by { assert container.fields[0].0 == key; }
    assert GetOr(container, key, Arr([])) == Arr(Strs(xs));
    TextsOfStrs(xs);
    StripAllClean(xs);
    DropBlankNonBlank(xs);
  }

  lemma TextsOfStrs(xs: seq<string>)
    ensures SearchMatching.Texts(Strs(xs)) == xs
  {
    assert forall k :: 0 <= k < |xs| ==> SearchMatching.Texts(Strs(xs))[k] == PyStr(Str(xs[k]));
  }

  lemma {:induction false} StripAllClean(xs: seq<string>)
    requires forall k :: 0 <= k < |xs| ==> Clean(xs[k])
    ensures SearchMatching.StripAll(xs) == xs
  {
    if xs != [] {
      StripAllClean(xs[1..]);
      CleanMeaning(xs[0]);
      assert xs == [xs[0]] + xs[1..];
    }
  }

  lemma {:induction false} DropBlankNonBlank(xs: seq<string>)
    requires forall k :: 0 <= k < |xs| ==> Clean(xs[k])
    ensures SearchMatching.DropBlank(xs) == xs
  {
    if xs != [] {
      var n := |xs| - 1;
      DropBlankNonBlank(xs[..n]);
      assert xs[..n] + [xs[n]] == xs;
    }
  }

  // ---------------------------------------------------------------- _score_pair

  /** The fields of a participant profile that matchmaking reads. The company column holds a
      string or nothing; interests, goals and availability are the stored JSON values. */
  datatype Profile = Profile(id: int, email: string, company: Option<string>,
                             interests: Json, goals: Json, availability: Json)

  /** `set(a) & set(b)`. */
  function Common(a: seq<string>, b: seq<string>): (r: set<string>)
    ensures forall x :: x in r <==> x in a && x in b
  {
    (set x | x in a) * (set x | x in b)
  }

  function SharedInterests(first: Profile, second: Profile): set<string> {
    Common(ExtractList(first.interests, "items"), ExtractList(second.interests, "items"))
  }

  function SharedGoals(first: Profile, second: Profile): set<string> {
    Common(ExtractList(first.goals, "items"), ExtractList(second.goals, "items"))
  }

  function SharedSlots(first: Profile, second: Profile): set<string> {
    Common(ExtractList(first.availability, "slots"), ExtractList(second.availability, "slots"))
  }

  /** How the two companies compare: `first.company and second.company` fails (`Unknown`), or
      they are equal after `.strip().lower()` (`Same`), or not (`Different`). */
  datatype Companies = Unknown | Same | Different

  function CompareCompanies(first: Profile, second: Profile): (r: Companies)
    ensures r == Unknown <==> first.company.None? || first.company.value == "" || second.company.None? || second.company.value == ""
  {
    if first.company.None? || first.company.value == "" || second.company.None? || second.company.value == "" then Unknown
    else if Lower(Strip(first.company.value)) == Lower(Strip(second.company.value)) then Same
    else Different
  }

  /** The score of a pair sharing `interests` interests, `goals` goals and `slots` slots. */
  function Score(interests: nat, goals: nat, slots: nat, companies: Companies): real {
    var base := (if interests > 0 then (interests * 2) as real else 0.0)
      + (if goals > 0 then goals as real else 0.0)
      + (if slots > 0 then 1.5 else 0.0);
    match companies
    case Unknown => base
    case Same => base * 0.8
    case Different => base + 0.5
  }

  /** The score is never negative, and positive exactly when something is shared or the
      companies differ; the same company scales it by 0.8, different ones add 0.5. */
  lemma ScoreMeaning(interests: nat, goals: nat, slots: nat, companies: Companies)
    ensures Score(interests, goals, slots, companies) >= 0.0
    ensures Score(interests, goals, slots, companies) > 0.0 <==>
      interests > 0 || goals > 0 || slots > 0 || companies == Different
    ensures Score(interests, goals, slots, Same) == 0.8 * Score(interests, goals, slots, Unknown)
    ensures Score(interests, goals, slots, Different) == Score(interests, goals, slots, Unknown) + 0.5
    ensures Score(interests, goals, slots, Unknown) ==
      2.0 * interests as real + goals as real + (if slots > 0 then 1.5 else 0.0)
  {
  }

  /** The rationale for a pair that shares nothing. */
  const NothingShared: string := "compl\U{e9}mentarit\U{e9} potentielle"

  /** The phrases of the rationale, in order. */
  function RationaleParts(interests: nat, goals: nat, slots: nat): (r: seq<string>)
    ensures r != [] && r[0] != ""
  {
    var parts :=
      (if interests > 0 then [IntToString(interests) + " int\U{e9}r\U{ea}ts communs"] else [])
      + (if goals > 0 then [IntToString(goals) + " objectifs align\U{e9}s"] else [])
      + (if slots > 0 then ["disponibilit\U{e9}s compatibles"] else []);
    if parts == [] then [NothingShared] else parts
  }

  /** `", ".join(rationale_parts)`. */
  function Rationale(interests: nat, goals: nat, slots: nat): string {
    Join(RationaleParts(interests, goals, slots), ", ")
  }

  /** The first character of a join is that of its first part. */
  lemma JoinHead(parts: seq<string>, sep: string)
    requires |parts| >= 1 && parts[0] != ""
    ensures Join(parts, sep) != "" && Join(parts, sep)[0] == parts[0][0]
  {
  }

  /** The rationale is "complémentarité potentielle" exactly when nothing is shared; otherwise
      it starts with the count of shared interests, or of shared goals, or with
      "disponibilités". */
  lemma RationaleMeaning(interests: nat, goals: nat, slots: nat)
    ensures Rationale(interests, goals, slots) == NothingShared <==> interests == 0 && goals == 0 && slots == 0
  {
    var parts := RationaleParts(interests, goals, slots);
    JoinHead(parts, ", ");
    if interests > 0 || goals > 0 || slots > 0 {
      var n := if interests > 0 then interests else goals;
      assert parts[0][0] != 'c' by {
        if interests > 0 || goals > 0 {
          assert parts[0][0] == NatToString(n)[0];
        }
      }
      assert NothingShared[0] == 'c';
    } else {
      assert parts == [NothingShared];
    }
  }

  /** The score, the rationale and the metadata of one pair; the metadata lists are kept as
      sets. */
  datatype PairScore = PairScore(score: real, rationale: string,
                                 sharedInterests: set<string>, sharedGoals: set<string>, sharedSlots: set<string>)

  /** `_score_pair(first, second)`. */
  function ScorePair(first: Profile, second: Profile): PairScore {
    var interests := SharedInterests(first, second);
    var goals := SharedGoals(first, second);
    var slots := SharedSlots(first, second);
    PairScore(Score(|interests|, |goals|, |slots|, CompareCompanies(first, second)),
              Rationale(|interests|, |goals|, |slots|), interests, goals, slots)
  }

  /** The score of a pair is never negative, and positive exactly when the two profiles share an
      interest, a goal or a slot, or name different companies; the rationale says
      "complémentarité potentielle" exactly when they share nothing. */
  lemma ScorePairMeaning(first: Profile, second: Profile)
    ensures var p := ScorePair(first, second);
      && p.score >= 0.0
      && (p.score > 0.0 <==>
            p.sharedInterests != {} || p.sharedGoals != {} || p.sharedSlots != {}
            || CompareCompanies(first, second) == Different)
      && (p.rationale == NothingShared <==> p.sharedInterests == {} && p.sharedGoals == {} && p.sharedSlots == {})
  {
    var p := ScorePair(first, second);
    ScoreMeaning(|p.sharedInterests|, |p.sharedGoals|, |p.sharedSlots|, CompareCompanies(first, second));
    RationaleMeaning(|p.sharedInterests|, |p.sharedGoals|, |p.sharedSlots|);
  }

  /** Scoring is symmetric: swapping the two profiles changes neither the score nor the
      rationale nor the metadata. */
  lemma ScorePairSymmetric(first: Profile, second: Profile)
    ensures ScorePair(first, second) == ScorePair(second, first)
  {
    assert SharedInterests(first, second) == SharedInterests(second, first);
    assert SharedGoals(first, second) == SharedGoals(second, first);
    assert SharedSlots(first, second) == SharedSlots(second, first);
    assert CompareCompanies(first, second) == CompareCompanies(second, first);
  }

  // ---------------------------------------------------------------- _rank_candidates

  /** A ranked candidate: the pair score and the candidate profile. */
  datatype Ranked = Ranked(pair: PairScore, candidate: Profile)

  /** The sort key of `_rank_candidates`: the score. */
  function RankKey(r: Ranked): real {
    r.pair.score
  }

  /** The candidates kept for `profile`, in input order: every other profile whose pair
      `score` is positive. `_rank_candidates` scores with `ScorePair`. */
  function Eligible(profile: Profile, candidates: seq<Profile>, score: (Profile, Profile) -> PairScore): seq<Ranked> {
    if candidates == [] then []
    else
      var front := Eligible(profile, candidates[..|candidates| - 1], score);
      var c := candidates[|candidates| - 1];
      if c.id == profile.id || score(profile, c).score <= 0.0 then front
      else front + [Ranked(score(profile, c), c)]
  }

  /** Exactly the other profiles with a positive score are kept, each with its own score. */
  lemma {:induction false} EligibleMeaning(profile: Profile, candidates: seq<Profile>, score: (Profile, Profile) -> PairScore)
    ensures forall r :: r in Eligible(profile, candidates, score) <==>
      r.candidate in candidates && r.candidate.id != profile.id && r.pair == score(profile, r.candidate)
      && r.pair.score > 0.0
  {
    if candidates != [] {
      var n := |candidates| - 1;
      EligibleMeaning(profile, candidates[..n], score);
      assert candidates == candidates[..n] + [candidates[n]];
    }
  }

  /** One more candidate considered. */
  lemma EligibleStep(profile: Profile, candidates: seq<Profile>, k: nat, score: (Profile, Profile) -> PairScore)
    requires k < |candidates|
    ensures Eligible(profile, candidates[..k + 1], score) ==
      if candidates[k].id == profile.id || score(profile, candidates[k]).score <= 0.0 then Eligible(profile, candidates[..k], score)
      else Eligible(profile, candidates[..k], score) + [Ranked(score(profile, candidates[k]), candidates[k])]
  {
    assert candidates[..k + 1][..k] == candidates[..k];
  }

  /** Keys in non-increasing order. */
  predicate DescendingBy<T>(s: seq<T>, key: T -> real) {
    forall i, j :: 0 <= i < j < |s| ==> key(s[i]) >= key(s[j])
  }

  /** `x` placed after every entry whose key is at least its own. */
  function InsertDesc<T>(x: T, s: seq<T>, key: T -> real): seq<T> {
    if s == [] then [x]
    else if key(s[0]) >= key(x) then [s[0]] + InsertDesc(x, s[1..], key)
    else [x] + s
  }

  /** `s.sort(key=key, reverse=True)`: a stable sort by descending key. */
  function SortDesc<T>(s: seq<T>, key: T -> real): seq<T> {
    if s == [] then [] else InsertDesc(s[|s| - 1], SortDesc(s[..|s| - 1], key), key)
  }

  /** Inserting adds exactly `x`. */
  lemma {:induction false} InsertDescPerm<T>(x: T, s: seq<T>, key: T -> real)
    ensures multiset(InsertDesc(x, s, key)) == multiset(s) + multiset{x}
  {
    if s != [] && key(s[0]) >= key(x) {
      InsertDescPerm(x, s[1..], key);
      assert s == [s[0]] + s[1..];
    }
  }

  /** Inserting into a sorted sequence keeps it sorted. */
  /** Inserting below a bound that every entry respects keeps every entry below it. */
  lemma {:induction false} InsertDescBounded<T>(x: T, s: seq<T>, key: T -> real, bound: real)
    requires key(x) <= bound && forall j :: 0 <= j < |s| ==> key(s[j]) <= bound
    ensures forall k :: 0 <= k < |InsertDesc(x, s, key)| ==> key(InsertDesc(x, s, key)[k]) <= bound
  {
    if s != [] && key(s[0]) >= key(x) {
      InsertDescBounded(x, s[1..], key, bound);
      assert InsertDesc(x, s, key) == [s[0]] + InsertDesc(x, s[1..], key);
    }
  }

  lemma {:induction false} InsertDescSorted<T>(x: T, s: seq<T>, key: T -> real)
    requires DescendingBy(s, key)
    ensures DescendingBy(InsertDesc(x, s, key), key)
  {
    if s != [] && key(s[0]) >= key(x) {
      var r := InsertDesc(x, s[1..], key);
      InsertDescSorted(x, s[1..], key);
      DescendingRest(s, key);
      InsertDescBounded(x, s[1..], key, key(s[0]));
      assert InsertDesc(x, s, key) == [s[0]] + r;
    } else if s != [] {
      assert forall j :: 0 <= j < |s| ==> key(s[0]) >= key(s[j]);
    }
  }

  /** The sort returns a permutation of its input, in non-increasing key order. */
  lemma {:induction false} SortDescMeaning<T>(s: seq<T>, key: T -> real)
    ensures multiset(SortDesc(s, key)) == multiset(s)
    ensures DescendingBy(SortDesc(s, key), key)
  {
    if s != [] {
      var n := |s| - 1;
      SortDescMeaning(s[..n], key);
      InsertDescPerm(s[n], SortDesc(s[..n], key), key);
      InsertDescSorted(s[n], SortDesc(s[..n], key), key);
      assert s == s[..n] + [s[n]];
    }
  }

  /** The entries of `s` whose key equals that of `x0`, in their order in `s`. */
  function SameKey<T>(s: seq<T>, x0: T, key: T -> real): seq<T> {
    if s == [] then []
    else (if key(s[0]) == key(x0) then [s[0]] else []) + SameKey(s[1..], x0, key)
  }

  lemma {:induction false} SameKeyAppend<T>(a: seq<T>, b: seq<T>, x0: T, key: T -> real)
    ensures SameKey(a + b, x0, key) == SameKey(a, x0, key) + SameKey(b, x0, key)
  {
    if a != [] {
      assert (a + b)[1..] == a[1..] + b;
      SameKeyAppend(a[1..], b, x0, key);
    } else {
      assert a + b == b;
    }
  }

  /** Nothing ties with `x0` when every key is below its key. */
  lemma {:induction false} NoSameKey<T>(s: seq<T>, x0: T, key: T -> real)
    requires forall k :: 0 <= k < |s| ==> key(s[k]) < key(x0)
    ensures SameKey(s, x0, key) == []
  {
    if s != [] {
      NoSameKey(s[1..], x0, key);
    }
  }

  lemma SameKeyCons<T>(x: T, s: seq<T>, x0: T, key: T -> real)
    ensures SameKey([x] + s, x0, key) == (if key(x) == key(x0) then [x] else []) + SameKey(s, x0, key)
  {
    assert ([x] + s)[1..] == s;
  }

  /** The tail of a descending sequence is descending. */
  lemma DescendingRest<T>(s: seq<T>, key: T -> real)
    requires s != [] && DescendingBy(s, key)
    ensures DescendingBy(s[1..], key)
  {
    forall i, j | 0 <= i < j < |s[1..]| ensures key(s[1..][i]) >= key(s[1..][j]) {
      assert s[1..][i] == s[i + 1] && s[1..][j] == s[j + 1];
    }
  }

  /** `x` inserted in front of a descending sequence whose keys are all below its own. */
  lemma InsertFrontStable<T>(x: T, s: seq<T>, x0: T, key: T -> real)
    requires s != [] && DescendingBy(s, key) && key(s[0]) < key(x)
    ensures SameKey([x] + s, x0, key) == SameKey(s, x0, key) + (if key(x) == key(x0) then [x] else [])
  {
    SameKeyCons(x, s, x0, key);
    if key(x) == key(x0) {
      assert forall k :: 0 <= k < |s| ==> key(s[k]) < key(x0) by {
        forall k | 0 <= k < |s| ensures key(s[k]) < key(x0) {
          assert k == 0 || key(s[0]) >= key(s[k]);
        }
      }
      NoSameKey(s, x0, key);
    }
  }

  /** Inserting `x` puts it after every entry already tied with it. */
  lemma {:induction false} InsertDescStable<T>(x: T, s: seq<T>, x0: T, key: T -> real)
    requires DescendingBy(s, key)
    ensures SameKey(InsertDesc(x, s, key), x0, key)
      == SameKey(s, x0, key) + (if key(x) == key(x0) then [x] else [])
  {
    var tail := if key(x) == key(x0) then [x] else [];
    if s == [] {
      SameKeyCons(x, [], x0, key);
    } else if key(s[0]) >= key(x) {
      var head := if key(s[0]) == key(x0) then [s[0]] else [];
      var r := InsertDesc(x, s[1..], key);
      assert InsertDesc(x, s, key) == [s[0]] + r;
      DescendingRest(s, key);
      InsertDescStable(x, s[1..], x0, key);
      SameKeyCons(s[0], r, x0, key);
      assert SameKey(s, x0, key) == head + SameKey(s[1..], x0, key) by {
        SameKeyCons(s[0], s[1..], x0, key);
        assert s == [s[0]] + s[1..];
      }
      assert head + (SameKey(s[1..], x0, key) + tail) == (head + SameKey(s[1..], x0, key)) + tail;
    } else {
      assert InsertDesc(x, s, key) == [x] + s;
      InsertFrontStable(x, s, x0, key);
    }
  }

  /** The sorted sequence alone, without the permutation facts. */
  lemma SortDescDescending<T>(s: seq<T>, key: T -> real)
    ensures DescendingBy(SortDesc(s, key), key)
  {
    SortDescMeaning(s, key);
  }

  /** `list.sort` is stable: entries with equal keys keep their relative order. */
  lemma {:induction false} SortDescStable<T>(s: seq<T>, x0: T, key: T -> real)
    ensures SameKey(SortDesc(s, key), x0, key) == SameKey(s, x0, key)
  {
    if s != [] {
      var n := |s| - 1;
      var front := SortDesc(s[..n], key);
      var last := if key(s[n]) == key(x0) then [s[n]] else [];
      assert SortDesc(s, key) == InsertDesc(s[n], front, key);
      SortDescStable(s[..n], x0, key);
      SortDescDescending(s[..n], key);
      InsertDescStable(s[n], front, x0, key);
      assert SameKey(s, x0, key) == SameKey(s[..n], x0, key) + last by {
        assert s == s[..n] + [s[n]];
        SameKeyAppend(s[..n], [s[n]], x0, key);
        SameKeyCons(s[n], [], x0, key);
        assert [s[n]] + [] == [s[n]];
      }
    }
  }

  /** `_rank_candidates(profile, candidates)`. */
  method RankCandidates(profile: Profile, candidates: seq<Profile>) returns (ranked: seq<Ranked>)
    ensures ranked == SortDesc(Eligible(profile, candidates, ScorePair), RankKey)
  {
    ranked := [];
    for k := 0 to |candidates|
      invariant ranked == Eligible(profile, candidates[..k], ScorePair)
    {
      EligibleStep(profile, candidates, k, ScorePair);
      var candidate := candidates[k];
      if candidate.id == profile.id {
        continue;
      }
      var pair := ScorePair(profile, candidate);
      if pair.score <= 0.0 {
        continue;
      }
      ranked := ranked + [Ranked(pair, candidate)];
    }
    assert candidates[..|candidates|] == candidates;
    ranked := SortDesc(ranked, RankKey);
  }

  /** The ranking lists every other profile with a positive score, each once per occurrence
      among the candidates, best first; candidates with equal scores stay in candidate order. */
  lemma RankingMeaning(profile: Profile, candidates: seq<Profile>)
    ensures var ranked := SortDesc(Eligible(profile, candidates, ScorePair), RankKey);
      && DescendingBy(ranked, RankKey)
      && (forall x0 :: SameKey(ranked, x0, RankKey) == SameKey(Eligible(profile, candidates, ScorePair), x0, RankKey))
      && multiset(ranked) == multiset(Eligible(profile, candidates, ScorePair))
      && forall r :: r in ranked <==>
           r.candidate in candidates && r.candidate.id != profile.id && r.pair == ScorePair(profile, r.candidate)
           && r.pair.score > 0.0
  {
    EligibleMeaning(profile, candidates, ScorePair);
    SortDescMeaning(Eligible(profile, candidates, ScorePair), RankKey);
    var ranked := SortDesc(Eligible(profile, candidates, ScorePair), RankKey);
    forall x0 ensures SameKey(ranked, x0, RankKey) == SameKey(Eligible(profile, candidates, ScorePair), x0, RankKey) {
      SortDescStable(Eligible(profile, candidates, ScorePair), x0, RankKey);
    }
    forall r ensures r in ranked <==> r in Eligible(profile, candidates, ScorePair) {
      assert r in ranked <==> r in multiset(ranked);
      assert r in Eligible(profile, candidates, ScorePair) <==> r in multiset(Eligible(profile, candidates, ScorePair));
    }
  }

  // ---------------------------------------------------------------- generate_suggestions

  /** Why `generate_suggestions` refused: a validation error on `limit`, or one of the two
      ways the service raises "profile not found". */
  datatype NetworkingError =
    | InvalidLimit                      // a negative limit
    | EventNotFound                     // the event does not exist
    | ProfileNotFound(email: string)    // no profile of the event has that email

  /** One `suggestion_repository.upsert` call; the status is always "pending". */
  datatype SuggestionWrite = SuggestionWrite(participantId: int, suggestedId: int, pair: PairScore)

  /** The profiles suggestions are generated for: the one with the given email (the first when
      several match), or all of them when no email is given. */
  function Targets(profiles: seq<Profile>, participantEmail: Option<string>): Result<seq<Profile>, NetworkingError> {
    if participantEmail.Some? && participantEmail.value != "" then
      match FirstWithEmail(profiles, participantEmail.value)
      case None => Err(ProfileNotFound(participantEmail.value))
      case Some(p) => Ok([p])
    else Ok(profiles)
  }

  /** `next(p for p in profiles if p.attendee_email == email)`. */
  function FirstWithEmail(profiles: seq<Profile>, email: string): (r: Option<Profile>)
    ensures r.None? <==> forall k :: 0 <= k < |profiles| ==> profiles[k].email != email
    ensures r.Some? ==> r.value in profiles && r.value.email == email
  {
    if profiles == [] then None
    else if profiles[0].email == email then Some(profiles[0])
    else FirstWithEmail(profiles[1..], email)
  }

  /** `ranked[:limit]`, or everything when there is no limit. */
  function Capped(ranked: seq<Ranked>, limit: Option<nat>): (r: seq<Ranked>)
    ensures limit.Some? ==> |r| <= limit.value
    ensures |r| <= |ranked| && r == ranked[..|r|]
    ensures limit.None? || |ranked| <= limit.value ==> r == ranked
  {
    if limit.None? || |ranked| <= limit.value then ranked else ranked[..limit.value]
  }

  /** The upserts for `participantId`, one per ranked candidate, in ranking order. */
  function Upserts(participantId: int, ranked: seq<Ranked>): (w: seq<SuggestionWrite>)
    ensures |w| == |ranked|
    ensures forall i :: 0 <= i < |ranked| ==>
      w[i] == SuggestionWrite(participantId, ranked[i].candidate.id, ranked[i].pair)
  {
    seq(|ranked|, i requires 0 <= i < |ranked| => SuggestionWrite(participantId, ranked[i].candidate.id, ranked[i].pair))
  }

  /** The writes for one target: its best candidates under `score`, at most `limit` of them.
      `generate_suggestions` scores with `ScorePair`. */
  function TargetWrites(target: Profile, profiles: seq<Profile>, limit: Option<nat>,
                        score: (Profile, Profile) -> PairScore): seq<SuggestionWrite> {
    Upserts(target.id, Capped(SortDesc(Eligible(target, profiles, score), RankKey), limit))
  }

  /** The writes for every target, target after target. */
  function AllWrites(targets: seq<Profile>, profiles: seq<Profile>, limit: Option<nat>,
                     score: (Profile, Profile) -> PairScore): seq<SuggestionWrite> {
    if targets == [] then []
    else AllWrites(targets[..|targets| - 1], profiles, limit, score) + TargetWrites(targets[|targets| - 1], profiles, limit, score)
  }

  /** The suggestions `generate_suggestions` stores, or why it refuses: a negative limit first,
      then a missing event; no profiles means nothing to do; an unknown email is refused. */
  function Suggestions(eventExists: bool, profiles: seq<Profile>, participantEmail: Option<string>,
                       limit: Option<int>): Result<seq<SuggestionWrite>, NetworkingError>
  {
    if limit.Some? && limit.value < 0 then Err(InvalidLimit)
    else if !eventExists then Err(EventNotFound)
    else if profiles == [] then Ok([])
    else
      match Targets(profiles, participantEmail)
      case Err(e) => Err(e)
      case Ok(targets) => Ok(AllWrites(targets, profiles, Cap(limit), ScorePair))
  }

  /** A limit that passed the sign check, as a count. */
  function Cap(limit: Option<int>): (r: Option<nat>)
    ensures r.Some? <==> limit.Some?
    ensures r.Some? ==> r.value as int == limit.value
    requires limit.None? || limit.value >= 0
  {
    if limit.Some? then Some(limit.value) else None
  }

  /** Each target gets at most `limit` writes, each for itself and sound. */
  lemma TargetWritesMeaning(target: Profile, profiles: seq<Profile>, limit: Option<nat>, score: (Profile, Profile) -> PairScore)
    ensures limit.Some? ==> |TargetWrites(target, profiles, limit, score)| <= limit.value
    ensures forall i :: 0 <= i < |TargetWrites(target, profiles, limit, score)| ==>
      Sound(TargetWrites(target, profiles, limit, score)[i])
      && TargetWrites(target, profiles, limit, score)[i].participantId == target.id
  {
    var eligible := Eligible(target, profiles, score);
    var ranked := SortDesc(eligible, RankKey);
    var capped := Capped(ranked, limit);
    assert forall i :: 0 <= i < |capped| ==> capped[i].candidate.id != target.id && capped[i].pair.score > 0.0 by {
      EligibleMeaning(target, profiles, score);
      SortDescMeaning(eligible, RankKey);
      forall i | 0 <= i < |capped| ensures capped[i] in eligible {
        assert capped[i] == ranked[i];
        assert ranked[i] in multiset(ranked);
      }
    }
    UpsertsSound(target.id, capped);
  }

  /** Upserting candidates other than `participantId`, each with a positive score, gives sound
      writes for `participantId`. */
  lemma UpsertsSound(participantId: int, capped: seq<Ranked>)
    requires forall i :: 0 <= i < |capped| ==> capped[i].candidate.id != participantId && capped[i].pair.score > 0.0
    ensures forall i :: 0 <= i < |capped| ==>
      Sound(Upserts(participantId, capped)[i]) && Upserts(participantId, capped)[i].participantId == participantId
  {
  }

  /** The ids of the targets, in order. */
  function Ids(targets: seq<Profile>): (r: seq<int>)
    ensures |r| == |targets| && forall k :: 0 <= k < |targets| ==> r[k] == targets[k].id
  {
    seq(|targets|, k requires 0 <= k < |targets| => targets[k].id)
  }

  /** A write that suggests another profile with a positive score. */
  predicate Sound(w: SuggestionWrite) {
    w.suggestedId != w.participantId && w.pair.score > 0.0
  }

  /** Every write is sound and for one of `ids`. */
  predicate SoundFor(writes: seq<SuggestionWrite>, ids: seq<int>) {
    forall i :: 0 <= i < |writes| ==> Sound(writes[i]) && writes[i].participantId in ids
  }

  /** Over all targets: every write is sound and for one of the targets. */
  lemma {:induction false} AllWritesMeaning(targets: seq<Profile>, profiles: seq<Profile>, limit: Option<nat>,
                                            score: (Profile, Profile) -> PairScore)
    ensures SoundFor(AllWrites(targets, profiles, limit, score), Ids(targets))
  {
    if targets != [] {
      var n := |targets| - 1;
      var front := AllWrites(targets[..n], profiles, limit, score);
      var last := TargetWrites(targets[n], profiles, limit, score);
      AllWritesMeaning(targets[..n], profiles, limit, score);
      assert forall i :: 0 <= i < |last| ==> Sound(last[i]) && last[i].participantId == targets[n].id by {
        TargetWritesMeaning(targets[n], profiles, limit, score);
      }
      ConcatWrites(front, last, Ids(targets[..n]), targets[n].id);
      assert Ids(targets) == Ids(targets[..n]) + [targets[n].id] by {
        IdsLast(targets);
      }
      assert AllWrites(targets, profiles, limit, score) == front + last;
    }
  }

  /** The ids of the targets: those of all but the last, then the last one's. */
  lemma IdsLast(targets: seq<Profile>)
    requires targets != []
    ensures Ids(targets) == Ids(targets[..|targets| - 1]) + [targets[|targets| - 1].id]
  {
    var n := |targets| - 1;
    assert forall k :: 0 <= k < n ==> targets[..n][k] == targets[k];
  }

  /** Sound writes for known targets, followed by sound writes for one more. */
  lemma ConcatWrites(front: seq<SuggestionWrite>, last: seq<SuggestionWrite>, ids: seq<int>, id: int)
    requires SoundFor(front, ids)
    requires forall i :: 0 <= i < |last| ==> Sound(last[i]) && last[i].participantId == id
    ensures SoundFor(front + last, ids + [id])
  {
    forall i | 0 <= i < |front + last|
      ensures Sound((front + last)[i]) && (front + last)[i].participantId in ids + [id]
    {
      if i >= |front| {
        assert (front + last)[i] == last[i - |front|];
      }
    }
  }

  /** The guards of `generate_suggestions`, in its order: a negative limit is refused first, a
      missing event next, an unknown participant email after that. Whatever is stored suggests
      another profile with a positive score; with an email, every write is for the first profile
      with that email, and there are at most `limit` of them. */
  lemma SuggestionsMeaning(eventExists: bool, profiles: seq<Profile>, participantEmail: Option<string>, limit: Option<int>)
    ensures limit.Some? && limit.value < 0 ==> Suggestions(eventExists, profiles, participantEmail, limit) == Err(InvalidLimit)
    ensures (limit.None? || limit.value >= 0) && !eventExists ==>
      Suggestions(eventExists, profiles, participantEmail, limit) == Err(EventNotFound)
    ensures ((limit.None? || limit.value >= 0) && eventExists && profiles != [] && participantEmail.Some?
             && participantEmail.value != ""
             && (forall k :: 0 <= k < |profiles| ==> profiles[k].email != participantEmail.value)) ==>
      Suggestions(eventExists, profiles, participantEmail, limit) == Err(ProfileNotFound(participantEmail.value))
    ensures Suggestions(eventExists, profiles, participantEmail, limit).Ok? ==>
      forall i :: 0 <= i < |Suggestions(eventExists, profiles, participantEmail, limit).value| ==>
        Sound(Suggestions(eventExists, profiles, participantEmail, limit).value[i])
    ensures (Suggestions(eventExists, profiles, participantEmail, limit).Ok? && participantEmail.Some?
             && participantEmail.value != "" && limit.Some?) ==>
      |Suggestions(eventExists, profiles, participantEmail, limit).value| <= limit.value
    ensures (Suggestions(eventExists, profiles, participantEmail, limit).Ok? && participantEmail.Some?
             && participantEmail.value != "") ==>
      forall i :: 0 <= i < |Suggestions(eventExists, profiles, participantEmail, limit).value| ==>
        Suggestions(eventExists, profiles, participantEmail, limit).value[i].participantId
        == FirstWithEmail(profiles, participantEmail.value).value.id
  {
    var r := Suggestions(eventExists, profiles, participantEmail, limit);
    if r.Ok? && profiles != [] {
      var targets := Targets(profiles, participantEmail).value;
      assert r.value == AllWrites(targets, profiles, Cap(limit), ScorePair);
      AllWritesMeaning(targets, profiles, Cap(limit), ScorePair);
      if participantEmail.Some? && participantEmail.value != "" {
        var p := FirstWithEmail(profiles, participantEmail.value).value;
        assert targets == [p];
        assert targets[..0] == [];
        assert r.value == TargetWrites(p, profiles, Cap(limit), ScorePair);
        TargetWritesMeaning(p, profiles, Cap(limit), ScorePair);
      }
    }
  }

  /** The upserts for one target: its ranking, capped at the limit. */
  method WriteTarget(profile: Profile, profiles: seq<Profile>, cap: Option<nat>) returns (writes: seq<SuggestionWrite>)
    ensures writes == TargetWrites(profile, profiles, cap, ScorePair)
  {
    var ranked := RankCandidates(profile, profiles);
    writes := UpsertAll(profile.id, Capped(ranked, cap));
  }

  /** The inner loop of `generate_suggestions`: one upsert per capped candidate. */
  method UpsertAll(participantId: int, capped: seq<Ranked>) returns (writes: seq<SuggestionWrite>)
    ensures writes == Upserts(participantId, capped)
  {
    writes := [];
    for i := 0 to |capped|
      invariant writes == Upserts(participantId, capped[..i])
    {
      writes := writes + [SuggestionWrite(participantId, capped[i].candidate.id, capped[i].pair)];
    }
    assert capped[..|capped|] == capped;
  }

  /** `generate_suggestions(event_id, participant_email=…, limit=…)`: the upserts it performs,
      target after target, in the order of each target's ranking. */
  method GenerateSuggestions(eventExists: bool, profiles: seq<Profile>, participantEmail: Option<string>,
                             limit: Option<int>)
    returns (r: Result<seq<SuggestionWrite>, NetworkingError>)
    ensures r == Suggestions(eventExists, profiles, participantEmail, limit)
  {
    if limit.Some? && limit.value < 0 {
      return Err(InvalidLimit);
    }
    if !eventExists {
      return Err(EventNotFound);
    }
    if profiles == [] {
      return Ok([]);
    }
    var targets: seq<Profile>;
    if participantEmail.Some? && participantEmail.value != "" {
      var target := FirstWithEmail(profiles, participantEmail.value);
      if target.None? {
        return Err(ProfileNotFound(participantEmail.value));
      }
      targets := [target.value];
    } else {
      targets := profiles;
    }
    assert Targets(profiles, participantEmail) == Ok(targets);
    var writes := WriteAll(targets, profiles, Cap(limit));
    r := Ok(writes);
  }

  /** The outer loop of `generate_suggestions`: the upserts of each target in turn. */
  method WriteAll(targets: seq<Profile>, profiles: seq<Profile>, cap: Option<nat>) returns (writes: seq<SuggestionWrite>)
    ensures writes == AllWrites(targets, profiles, cap, ScorePair)
  {
    writes := [];
    for t := 0 to |targets|
      invariant writes == AllWrites(targets[..t], profiles, cap, ScorePair)
    {
      AllWritesStep(targets, profiles, cap, t);
      var more := WriteTarget(targets[t], profiles, cap);
      writes := writes + more;
    }
    assert targets[..|targets|] == targets;
  }

  /** One more target handled. */
  lemma AllWritesStep(targets: seq<Profile>, profiles: seq<Profile>, cap: Option<nat>, t: nat)
    requires t < |targets|
    ensures AllWrites(targets[..t + 1], profiles, cap, ScorePair)
      == AllWrites(targets[..t], profiles, cap, ScorePair) + TargetWrites(targets[t], profiles, cap, ScorePair)
  {
    assert targets[..t + 1][..t] == targets[..t];
  }

  // ---------------------------------------------------------------- _validate_profile_payload

  const SchemaMessage: string := "Payload JSON invalide: un objet est attendu."

  /** The email is required: a non-blank string, stored stripped and lower-cased. */
  function EmailOutcome(data: Json): (o: Outcome)
    ensures o.Store? ==> o.key == "attendee_email"
  {
    var email := Get(data, "email");
    if !email.Str? || Strip(email.s) == "" then Reject("email", "Adresse email requise.")
    else Store("attendee_email", Str(Lower(Strip(email.s))))
  }

  /** A present name is `None` or a non-blank string, stored stripped. */
  function NameOutcome(data: Json): (o: Outcome)
    ensures o.Store? ==> o.key == "attendee_name"
  {
    if !Has(data, "name") then Skip
    else
      var name := Get(data, "name");
      if name.Null? then Store("attendee_name", Null)
      else if !name.Str? || Strip(name.s) == "" then Reject("name", "Nom invalide.")
      else Store("attendee_name", Str(Strip(name.s)))
  }

  /** A present company is stored, stripped when it is a string. */
  function CompanyOutcome(data: Json): (o: Outcome)
    ensures o.Store? ==> o.key == "company"
  {
    if !Has(data, "company") then Skip
    else
      var company := Get(data, "company");
      Store("company", if company.Str? then Str(Strip(company.s)) else company)
  }

  /** A present bio is `None` or a string, stored as given. */
  function BioOutcome(data: Json): (o: Outcome)
    ensures o.Store? ==> o.key == "bio"
  {
    if !Has(data, "bio") then Skip
    else
      var bio := Get(data, "bio");
      if bio.Null? || bio.Str? then Store("bio", bio) else Reject("bio", "Bio invalide.")
  }

  /** A present headline is `None` or a string, stored stripped. */
  function HeadlineOutcome(data: Json): (o: Outcome)
    ensures o.Store? ==> o.key == "headline"
  {
    if !Has(data, "headline") then Skip
    else
      var headline := Get(data, "headline");
      if headline.Null? then Store("headline", Null)
      else if headline.Str? then Store("headline", Str(Strip(headline.s)))
      else Reject("headline", "Ent\U{ea}te invalide.")
  }

  /** A present list field is sanitised and stored wrapped under `wrapKey`. */
  function ListOutcome(data: Json, field: string, wrapKey: string, message: string): (o: Outcome)
    ensures o.Store? ==> o.key == field
  {
    if !Has(data, field) then Skip
    else
      match SanitizedList(Get(data, field))
      case None => Reject(field, message)
      case Some(items) => Store(field, Obj([(wrapKey, Arr(Strs(items)))]))
  }

  /** Metadata that is not `None` must be a dict, stored as given. */
  function MetadataOutcome(data: Json): (o: Outcome)
    ensures o.Store? ==> o.key == "metadata"
  {
    var metadata := Get(data, "metadata");
    if metadata.Null? then Skip
    else if metadata.Obj? then Store("metadata", metadata)
    else Reject("metadata", "M\U{e9}tadonn\U{e9}es invalides.")
  }

  /** The field checks of `_validate_profile_payload`, in the order it runs them. */
  function ProfileOutcomes(data: Json): seq<Outcome> {
    [EmailOutcome(data), NameOutcome(data), CompanyOutcome(data), BioOutcome(data), HeadlineOutcome(data),
     ListOutcome(data, "interests", "items", "Liste d'int\U{e9}r\U{ea}ts invalide."),
     ListOutcome(data, "goals", "items", "Objectifs invalides."),
     ListOutcome(data, "availability", "slots", "Plages horaires invalides."),
     MetadataOutcome(data)]
  }

  /** `_validate_profile_payload(data)`: every check runs, the clean dict and the error dict
      filled as they go, and a single error is raised at the end when any check failed. */
  method ValidateProfilePayload(data: Json) returns (r: Result<Json, Errors>)
    ensures r == Validated(data, ProfileOutcomes(data), SchemaMessage)
  {
    if !data.Obj? {
      return Err([("_schema", [SchemaMessage])]);
    }
    var outcomes := ProfileOutcomes(data);
    var clean: seq<(string, Json)> := [];
    var errors: Errors := [];
    for k := 0 to |outcomes|
      invariant clean == Stored(outcomes[..k]) && errors == Rejections(outcomes[..k])
    {
      assert outcomes[..k + 1][..k] == outcomes[..k];
      match outcomes[k]
      case Skip =>
      case Store(key, value) => clean := SetField(clean, key, value);
      case Reject(field, message) => errors := errors + [(field, [message])];
    }
    assert outcomes[..|outcomes|] == outcomes;
    if errors != [] {
      return Err(errors);
    }
    r := Ok(Obj(clean));
  }

  /** The email is required: without a non-blank string email, validation fails with an
      `email` error; when validation passes, the clean dict holds the email stripped and
      lower-cased. */
  lemma ProfileValidationMeaning(data: Json)
    ensures (!Get(data, "email").Str? || Strip(Get(data, "email").s) == "") ==>
      ("email", ["Adresse email requise."]) in Rejections(ProfileOutcomes(data))
    ensures Rejections(ProfileOutcomes(data)) == [] ==>
      Get(data, "email").Str?
      && Lookup(Stored(ProfileOutcomes(data)), "attendee_email") == Str(Lower(Strip(Get(data, "email").s)))
  {
    var outcomes := ProfileOutcomes(data);
    var email := EmailOutcome(data);
    assert outcomes[0] == email;
    LaterKeys(data);
    FirstOutcome(outcomes, email);
  }

  /** No check after the email one stores under `attendee_email`. */
  lemma LaterKeys(data: Json)
    ensures forall j :: 0 < j < |ProfileOutcomes(data)| && ProfileOutcomes(data)[j].Store? ==>
      ProfileOutcomes(data)[j].key != "attendee_email"
  {
    var outcomes := ProfileOutcomes(data);
    forall j | 0 < j < |outcomes| && outcomes[j].Store? ensures |outcomes[j].key| != |"attendee_email"| {
      if j == 1 {
        assert outcomes[j].key == "attendee_name";
      } else if j == 5 || j == 6 || j == 7 {
        assert outcomes[j].key in {"interests", "goals", "availability"};
      } else {
        assert outcomes[j].key in {"company", "bio", "headline", "metadata"};
      }
    }
  }

  /** A list field that passes is stored wrapped, holding its values stripped, non-blank and
      without repeats; one that fails is reported under its own name. */
  lemma ListOutcomeMeaning(data: Json, field: string, wrapKey: string, message: string)
    ensures !Has(data, field) ==> ListOutcome(data, field, wrapKey, message) == Skip
    ensures ListOutcome(data, field, wrapKey, message).Reject? ==>
      ListOutcome(data, field, wrapKey, message) == Reject(field, message)
    ensures ListOutcome(data, field, wrapKey, message).Store? ==>
      ListOutcome(data, field, wrapKey, message).key == field
      && exists items: seq<string> ::
        && ListOutcome(data, field, wrapKey, message).value == Obj([(wrapKey, Arr(Strs(items)))])
        && Distinct(items) && (forall k :: 0 <= k < |items| ==> Clean(items[k]))
  {
    if Has(data, field) && SanitizedList(Get(data, field)).Some? {
      SanitizedListMeaning(Get(data, field));
      var items := SanitizedList(Get(data, field)).value;
      assert ListOutcome(data, field, wrapKey, message).value == Obj([(wrapKey, Arr(Strs(items)))]);
    }
  }
}
