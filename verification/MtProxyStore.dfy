/** The managed MTProxy store: normalising secrets, the JSON document and reading it back (`adapters/mtproxy.py`). */
module MtProxyStore {
  import opened Base
  import opened Text
  import opened JsonTree
  import D = XrayDrift

  datatype Secret = Secret(secret: string, fingerprint: string, owner: Option<int>, access: Option<int>)

  // ---------------------------------------------------------------- valid secrets

  /** Hexadecimal digits with single underscores between them. */
  predicate HexDigits(s: string, pending: bool) {
    if s == "" then !pending
    else if HexDigit(s[0]) then HexDigits(s[1..], false)
    else s[0] == '_' && !pending && HexDigits(s[1..], true)
  }

  /** What `int(s, 16)` accepts among ASCII text. */
  predicate Base16(s: string) {
    var t := Strip(s);
    var u := if t != "" && (t[0] == '+' || t[0] == '-') then t[1..] else t;
    if |u| >= 2 && u[0] == '0' && (u[1] == 'x' || u[1] == 'X') then
      var v := u[2..];
      HexDigits(if v != "" && v[0] == '_' then v[1..] else v, true)
    else HexDigits(u, true)
  }

  /** `_validate_secret`. */
  predicate SecretOk(s: string) {
    |s| == 32 && Base16(s)
  }

  // ---------------------------------------------------------------- order

  /** Python's `<` on strings. */
  predicate StrLess(a: string, b: string) {
    b != "" && (a == "" || a[0] < b[0] || (a[0] == b[0] && StrLess(a[1..], b[1..])))
  }

  lemma {:induction false} StrLessSelf(a: string)
    ensures !StrLess(a, a)
  {
    if a != "" {
      StrLessSelf(a[1..]);
    }
  }

  lemma {:induction false} StrLessTotal(a: string, b: string)
    ensures a == b || StrLess(a, b) || StrLess(b, a)
    ensures !(StrLess(a, b) && StrLess(b, a)) && !StrLess(a, a)
  {
    StrLessSelf(a);
    if a != "" && b != "" {
      StrLessTotal(a[1..], b[1..]);
      if a[0] == b[0] && a[1..] == b[1..] {
        assert a == [a[0]] + a[1..] && b == [b[0]] + b[1..];
      }
    }
  }

  lemma {:induction false} StrLessTransitive(a: string, b: string, c: string)
    requires StrLess(a, b) && StrLess(b, c)
    ensures StrLess(a, c)
  {
    if a != "" && a[0] == b[0] && b[0] == c[0] {
      StrLessTransitive(a[1..], b[1..], c[1..]);
    }
  }

  /** The sort key `(fingerprint, secret)`, compared. */
  predicate Before(x: Secret, y: Secret) {
    StrLess(x.fingerprint, y.fingerprint) || (x.fingerprint == y.fingerprint && StrLess(x.secret, y.secret))
  }

  lemma BeforeTransitive(x: Secret, y: Secret, z: Secret)
    ensures !Before(y, x) && !Before(z, y) ==> !Before(z, x)
  {
    hide StrLess;
    StrLessTotal(x.fingerprint, y.fingerprint);
    StrLessTotal(y.fingerprint, z.fingerprint);
    StrLessTotal(x.fingerprint, z.fingerprint);
    StrLessTotal(x.secret, y.secret);
    StrLessTotal(y.secret, z.secret);
    StrLessTotal(x.secret, z.secret);
    if StrLess(x.fingerprint, y.fingerprint) && StrLess(y.fingerprint, z.fingerprint) {
      StrLessTransitive(x.fingerprint, y.fingerprint, z.fingerprint);
    }
    if StrLess(x.secret, y.secret) && StrLess(y.secret, z.secret) {
      StrLessTransitive(x.secret, y.secret, z.secret);
    }
  }

  predicate Sorted(s: seq<Secret>) {
    forall i, j :: 0 <= i < j < |s| ==> !Before(s[j], s[i])
  }

  /** In front of the first element that is not before `x`: equal keys keep their order. */
  function Insert(x: Secret, s: seq<Secret>): seq<Secret> {
    if s == [] || !Before(s[0], x) then [x] + s else [s[0]] + Insert(x, s[1..])
  }

  /** `sorted(secrets, key=...)`, which is stable. */
  function Sort(s: seq<Secret>): seq<Secret> {
    if s == [] then [] else Insert(s[0], Sort(s[1..]))
  }

  lemma SameMembers(a: seq<Secret>, b: seq<Secret>)
    requires multiset(a) == multiset(b)
    ensures forall x :: x in a <==> x in b
  {
    forall x ensures x in a <==> x in b {
      assert x in a <==> x in multiset(a);
      assert x in b <==> x in multiset(b);
    }
  }

  lemma {:induction false} InsertHolds(x: Secret, s: seq<Secret>)
    ensures multiset(Insert(x, s)) == multiset([x] + s)
    decreases |s|
  {
    hide Before;
    if s != [] && Before(s[0], x) {
      InsertHolds(x, s[1..]);
      assert s == [s[0]] + s[1..];
    }
  }

  /** Nothing in the list is before its first element. */
  predicate Above(x: Secret, s: seq<Secret>) {
    forall i :: 0 <= i < |s| ==> !Before(s[i], x)
  }

  lemma SortedCons(x: Secret, s: seq<Secret>)
    requires Sorted(s) && Above(x, s)
    ensures Sorted([x] + s)
  {
    hide Before;
  }

  lemma {:induction false} InsertSorted(x: Secret, s: seq<Secret>)
    requires Sorted(s)
    ensures Sorted(Insert(x, s))
    decreases |s|
  {
    hide Before, Sorted;
    if s == [] || !Before(s[0], x) {
      AboveAll(x, s);
      SortedCons(x, s);
    } else {
      SortedTail(s);
      InsertSorted(x, s[1..]);
      InsertHolds(x, s[1..]);
      SameMembers(Insert(x, s[1..]), [x] + s[1..]);
      BeforeOnce(s[0], x);
      HeadAbove(s);
      MembersAbove(s[0], Insert(x, s[1..]), [x] + s[1..]);
      SortedCons(s[0], Insert(x, s[1..]));
    }
  }

  lemma MembersAbove(x: Secret, a: seq<Secret>, b: seq<Secret>)
    requires Above(x, b) && forall y :: y in a <==> y in b
    ensures Above(x, a)
  {
    hide Before;
    forall i | 0 <= i < |a| ensures !Before(a[i], x) {
      assert a[i] in b;
    }
  }

  lemma HeadAbove(s: seq<Secret>)
    requires Sorted(s) && s != []
    ensures Above(s[0], s[1..])
  {
    hide Before;
  }

  lemma AboveAll(x: Secret, s: seq<Secret>)
    requires Sorted(s) && (s == [] || !Before(s[0], x))
    ensures Above(x, s)
  {
    hide Before;
    forall i | 0 <= i < |s| ensures !Before(s[i], x) {
      BeforeTransitive(x, s[0], s[i]);
      BeforeSelf(s[0]);
    }
  }

  lemma SortedTail(s: seq<Secret>)
    requires Sorted(s) && s != []
    ensures Sorted(s[1..])
  {
    hide Before;
  }

  lemma BeforeSelf(x: Secret)
    ensures !Before(x, x)
  {
    StrLessTotal(x.fingerprint, x.fingerprint);
    StrLessTotal(x.secret, x.secret);
  }

  lemma BeforeOnce(x: Secret, y: Secret)
    requires Before(x, y)
    ensures !Before(y, x)
  {
    hide StrLess;
    StrLessTotal(x.fingerprint, y.fingerprint);
    StrLessTotal(x.secret, y.secret);
  }

  lemma {:induction false} SortSorts(s: seq<Secret>)
    ensures Sorted(Sort(s)) && multiset(Sort(s)) == multiset(s)
    decreases |s|
  {
    hide Before;
    if s != [] {
      SortSorts(s[1..]);
      InsertSorted(s[0], Sort(s[1..]));
      InsertHolds(s[0], Sort(s[1..]));
      assert s == [s[0]] + s[1..];
    }
  }

  // ---------------------------------------------------------------- normal form

  function Deduped(s: seq<Secret>, seen: set<string>): seq<Secret> {
    if s == [] then []
    else if s[0].fingerprint in seen then Deduped(s[1..], seen)
    else [s[0]] + Deduped(s[1..], seen + {s[0].fingerprint})
  }

  predicate AllOk(s: seq<Secret>) {
    forall i :: 0 <= i < |s| ==> SecretOk(s[i].secret)
  }

  /** `_normalize_secrets`; None is an invalid secret. */
  function Normalized(s: seq<Secret>): Option<seq<Secret>> {
    if AllOk(s) then Some(Deduped(Sort(s), {})) else None
  }

  method NormalizeSecrets(s: seq<Secret>) returns (r: Option<seq<Secret>>)
    ensures r == Normalized(s)
  {
    var sorted := Sort(s);
    SortSorts(s);
    SameElements(sorted, s);
    hide SecretOk, Sort, Sorted;
    var seen: set<string> := {};
    var result: seq<Secret> := [];
    assert sorted[0..] == sorted;
    for i := 0 to |sorted|
      invariant result + Deduped(sorted[i..], seen) == Deduped(sorted, {})
      invariant forall j :: 0 <= j < i ==> SecretOk(sorted[j].secret)
    {
      var item := sorted[i];
      assert sorted[i..][0] == item && sorted[i..][1..] == sorted[i + 1..];
      if !SecretOk(item.secret) {
        return None;
      }
      if item.fingerprint in seen {
        continue;
      }
      assert result + ([item] + Deduped(sorted[i + 1..], seen + {item.fingerprint}))
             == (result + [item]) + Deduped(sorted[i + 1..], seen + {item.fingerprint});
      seen := seen + {item.fingerprint};
      result := result + [item];
    }
    assert result + [] == result;
    return Some(result);
  }

  lemma SameElements(a: seq<Secret>, b: seq<Secret>)
    requires multiset(a) == multiset(b)
    ensures AllOk(a) <==> AllOk(b)
    ensures forall x :: x in a <==> x in b
  {
    hide SecretOk;
    SameMembers(a, b);
    assert forall i :: 0 <= i < |a| ==> a[i] in b;
    assert forall i :: 0 <= i < |b| ==> b[i] in a;
  }

  /** Fingerprints strictly increase. */
  predicate Increasing(s: seq<Secret>) {
    forall i, j :: 0 <= i < j < |s| ==> StrLess(s[i].fingerprint, s[j].fingerprint)
  }

  predicate Normal(s: seq<Secret>) {
    Increasing(s) && AllOk(s)
  }

  /** What is kept of a sorted list, after the fingerprints in `seen`, which are no larger. */
  lemma {:induction false} DedupedIncreasing(s: seq<Secret>, seen: set<string>)
    requires Sorted(s) && forall f, i :: f in seen && 0 <= i < |s| ==>
             f == s[i].fingerprint || StrLess(f, s[i].fingerprint)
    ensures var r := Deduped(s, seen);
            && Increasing(r) && (forall i :: 0 <= i < |r| ==> r[i] in s)
            && (forall f, i :: f in seen && 0 <= i < |r| ==> StrLess(f, r[i].fingerprint))
    decreases |s|
  {
    hide StrLess;
    if s != [] {
      SortedTail(s);
      var seen' := if s[0].fingerprint in seen then seen else seen + {s[0].fingerprint};
      forall i | 0 < i < |s|
        ensures s[0].fingerprint == s[i].fingerprint || StrLess(s[0].fingerprint, s[i].fingerprint)
      {
        assert !Before(s[i], s[0]);
        StrLessTotal(s[0].fingerprint, s[i].fingerprint);
      }
      assert forall i :: 0 <= i < |s| - 1 ==> s[1..][i] == s[i + 1];
      DedupedIncreasing(s[1..], seen');
    }
  }

  /** The normal form is in increasing order of fingerprint, without duplicates, and made of the given secrets. */
  lemma NormalizedIsNormal(s: seq<Secret>)
    requires Normalized(s).Some?
    ensures Normal(Normalized(s).value) && forall x :: x in Normalized(s).value ==> x in s
  {
    SortSorts(s);
    SameElements(Sort(s), s);
    hide SecretOk, Sort, Sorted, Increasing, Deduped;
    DedupedIncreasing(Sort(s), {});
    assert forall i :: 0 <= i < |Sort(s)| ==> Sort(s)[i] in s;
  }

  lemma {:induction false} SortOfIncreasing(s: seq<Secret>)
    requires Increasing(s)
    ensures Sort(s) == s
    decreases |s|
  {
    hide StrLess;
    if s != [] {
      SortOfIncreasing(s[1..]);
      if |s| > 1 {
        StrLessTotal(s[0].fingerprint, s[1].fingerprint);
      }
      assert s == [s[0]] + s[1..];
    }
  }

  lemma {:induction false} DedupedOfIncreasing(s: seq<Secret>, seen: set<string>)
    requires Increasing(s) && forall i :: 0 <= i < |s| ==> s[i].fingerprint !in seen
    ensures Deduped(s, seen) == s
    decreases |s|
  {
    hide StrLess;
    if s != [] {
      forall i | 0 < i < |s| ensures s[i].fingerprint != s[0].fingerprint {
        StrLessTotal(s[0].fingerprint, s[i].fingerprint);
      }
      DedupedOfIncreasing(s[1..], seen + {s[0].fingerprint});
      assert s == [s[0]] + s[1..];
    }
  }

  /** Normalising twice is normalising once. */
  lemma NormalIsFixed(s: seq<Secret>)
    requires Normal(s)
    ensures Normalized(s) == Some(s)
  {
    SortOfIncreasing(s);
    DedupedOfIncreasing(s, {});
  }

  // ---------------------------------------------------------------- order of arguments

  predicate FingerprintsOnce(s: seq<Secret>) {
    forall i, j :: 0 <= i < j < |s| ==> s[i].fingerprint != s[j].fingerprint
  }

  /** Increasing lists with the same elements are the same list. */
  lemma {:induction false} IncreasingUnique(a: seq<Secret>, b: seq<Secret>)
    requires Increasing(a) && Increasing(b) && forall x :: x in a <==> x in b
    ensures a == b
    decreases |a|
  {
    hide StrLess;
    assert b == [] || b[0] in a;
    if a != [] {
      assert a[0] in b;
      HeadsMeet(a, b);
      forall x ensures x in a[1..] <==> x in b[1..] {
        TailOf(a, x);
        TailOf(b, x);
      }
      IncreasingUnique(a[1..], b[1..]);
      assert a == [a[0]] + a[1..] && b == [b[0]] + b[1..];
    }
  }

  lemma HeadsMeet(a: seq<Secret>, b: seq<Secret>)
    requires Increasing(a) && Increasing(b) && a != [] && b != [] && a[0] in b && b[0] in a
    ensures a[0] == b[0]
  {
    hide StrLess;
    var i :| 0 <= i < |b| && b[i] == a[0];
    var j :| 0 <= j < |a| && a[j] == b[0];
    StrLessTotal(a[0].fingerprint, b[0].fingerprint);
  }

  lemma TailOf(a: seq<Secret>, x: Secret)
    requires Increasing(a) && a != []
    ensures x in a[1..] <==> x in a && x != a[0]
  {
    hide StrLess;
    if x in a[1..] {
      var i :| 0 <= i < |a| - 1 && a[1..][i] == x;
      assert a[i + 1] == x;
      StrLessTotal(a[0].fingerprint, a[i + 1].fingerprint);
    }
    if x in a && x != a[0] {
      var i :| 0 <= i < |a| && a[i] == x;
      assert a[1..][i - 1] == x;
    }
  }

  lemma {:induction false} DedupedKeepsAll(s: seq<Secret>, seen: set<string>)
    requires FingerprintsOnce(s) && forall i :: 0 <= i < |s| ==> s[i].fingerprint !in seen
    ensures Deduped(s, seen) == s
    decreases |s|
  {
    if s != [] {
      DedupedKeepsAll(s[1..], seen + {s[0].fingerprint});
      assert s == [s[0]] + s[1..];
    }
  }

  lemma OnceTogether(a: seq<Secret>, b: seq<Secret>)
    requires FingerprintsOnce(a) && multiset(a) == multiset(b)
    ensures FingerprintsOnce(b)
  {
    SameElements(a, b);
    forall i, j | 0 <= i < j < |b| ensures b[i].fingerprint != b[j].fingerprint {
      if b[i] == b[j] {
        TwiceCounts(b, i, j);
        OnceCounts(a, b[i]);
      } else {
        assert b[i] in a && b[j] in a;
      }
    }
  }

  lemma TwiceCounts(b: seq<Secret>, i: nat, j: nat)
    requires i < j < |b| && b[i] == b[j]
    ensures multiset(b)[b[i]] >= 2
  {
    assert b == b[..j] + [b[j]] + b[j + 1..];
    assert b[..j][i] == b[i];
    assert b[i] in multiset(b[..j]);
  }

  lemma {:induction false} OnceCounts(a: seq<Secret>, x: Secret)
    requires FingerprintsOnce(a)
    ensures multiset(a)[x] <= 1
    decreases |a|
  {
    if a != [] {
      assert a == [a[0]] + a[1..];
      OnceCounts(a[1..], x);
      if x == a[0] {
        assert x !in a[1..];
        assert multiset(a[1..])[x] == 0;
      }
    }
  }

  /** When each fingerprint occurs once, the order of the arguments does not matter. */
  lemma OrderDoesNotMatter(a: seq<Secret>, b: seq<Secret>)
    requires FingerprintsOnce(a) && multiset(a) == multiset(b)
    ensures Normalized(a) == Normalized(b)
  {
    SameElements(a, b);
    OnceTogether(a, b);
    if AllOk(a) {
      KeepsElements(a);
      KeepsElements(b);
      NormalizedIsNormal(a);
      NormalizedIsNormal(b);
      IncreasingUnique(Normalized(a).value, Normalized(b).value);
    }
  }

  lemma KeepsElements(a: seq<Secret>)
    requires FingerprintsOnce(a) && AllOk(a)
    ensures forall x :: x in Normalized(a).value <==> x in a
  {
    SortSorts(a);
    SameElements(Sort(a), a);
    OnceTogether(a, Sort(a));
    DedupedKeepsAll(Sort(a), {});
  }

  // ---------------------------------------------------------------- the document

  function MaybeInt(fields: Fields, key: string, v: Option<int>): Fields {
    if v.Some? then fields[key := Num(v.value)] else fields
  }

  /** `_secret_dict`. */
  function SecretFields(x: Secret): Fields {
    MaybeInt(MaybeInt(map["secret" := Str(x.secret), "fingerprint" := Str(x.fingerprint)], "owner_user_id", x.owner),
             "access_id", x.access)
  }

  function SecretItems(s: seq<Secret>): (r: seq<Json>)
    ensures |r| == |s| && forall i :: 0 <= i < |s| ==> r[i] == Obj(SecretFields(s[i]))
  {
    seq(|s|, i requires 0 <= i < |s| => Obj(SecretFields(s[i])))
  }

  /** `int(value)`; None when it raises. */
  function IntOf(j: Json): Option<int> {
    match j
    case Num(n) => Some(n)
    case Bool(b) => Some(if b then 1 else 0)
    case Frac(r) => Some(if r >= 0.0 then r.Floor else -((-r).Floor))
    case Str(s) => TextInt(s)
    case _ => None
  }

  /** `int(document.get("generation") or 0)`. */
  function Generation(doc: Fields): Option<int> {
    if Falsy(Get(doc, "generation")) then Some(0) else IntOf(Get(doc, "generation"))
  }

  /** `str(value or "")`. */
  function TextOf(j: Json): string {
    if Falsy(j) then "" else D.Shown(j)
  }

  predicate IsPlaceholderItem(item: Fields) {
    Get(item, "purpose") == Str("empty-placeholder") || Get(item, "fingerprint") == Str("empty-placeholder")
  }

  /** The secrets among stored items; placeholders are left out when asked. */
  function ReadItems(items: seq<Json>, skipPlaceholders: bool): seq<Secret> {
    if items == [] then []
    else
      var rest := ReadItems(items[1..], skipPlaceholders);
      if !items[0].Obj? || (skipPlaceholders && IsPlaceholderItem(items[0].fields)) then rest
      else
        var f := items[0].fields;
        var secret, fingerprint := TextOf(Get(f, "secret")), TextOf(Get(f, "fingerprint"));
        if secret == "" || fingerprint == "" then rest
        else [Secret(secret, fingerprint, IntOf(Get(f, "owner_user_id")), IntOf(Get(f, "access_id")))] + rest
  }

  /** `_document_user_secrets`. */
  function UserSecrets(doc: Fields): Option<seq<Secret>> {
    if Get(doc, "secrets").Arr? then Normalized(ReadItems(doc["secrets"].items, false)) else Some([])
  }

  /** `read_runtime_managed_secrets`. */
  function RuntimeSecrets(doc: Fields): Option<seq<Secret>> {
    if Get(doc, "runtime_secrets").Arr? then Normalized(ReadItems(doc["runtime_secrets"].items, true))
    else UserSecrets(doc)
  }

  predicate KeepsPlace(item: Json) {
    item.Obj? && Get(item.fields, "purpose") == Str("empty-placeholder") && !Falsy(Get(item.fields, "secret"))
  }

  function FirstPlaceholder(items: seq<Json>): Option<Json> {
    if items == [] then None else if KeepsPlace(items[0]) then Some(items[0]) else FirstPlaceholder(items[1..])
  }

  /** `_empty_runtime_placeholder`: the stored one, or a new one around a random token; None when it raises. */
  function Placeholder(doc: Fields, token: string): Option<Json> {
    if "runtime_secrets" in doc
       && !doc["runtime_secrets"].Arr? && !doc["runtime_secrets"].Obj? && !doc["runtime_secrets"].Str?
    then None
    else
      match FirstPlaceholder(Items(doc, "runtime_secrets"))
      case Some(p) => Some(p)
      case None =>
        Some(Obj(map["secret" := Str(token), "fingerprint" := Str("empty-placeholder"),
                     "purpose" := Str("empty-placeholder")]))
  }

  function Document(generation: int, secrets: seq<Json>, runtime: seq<Json>): Fields {
    map["version" := Num(1), "generation" := Num(generation), "managed_by" := Str("vpn-bot"), "secrets" := Arr(secrets),
        "runtime_secrets" := Arr(runtime)]
  }

  /** `_store_document` for secrets already in normal form. */
  function Stored(s: seq<Secret>, current: Fields, generation: int, token: string): Option<Fields> {
    if s != [] then Some(Document(generation, SecretItems(s), SecretItems(s)))
    else match Placeholder(current, token) case None => None case Some(p) => Some(Document(generation, [], [p]))
  }

  /** What can be read back: every fingerprint that is not empty. */
  predicate Readable(s: seq<Secret>) {
    forall i :: 0 <= i < |s| ==> s[i].fingerprint != ""
  }

  lemma ItemRead(x: Secret)
    ensures TextOf(Get(SecretFields(x), "secret")) == x.secret
            && TextOf(Get(SecretFields(x), "fingerprint")) == x.fingerprint
    ensures IntOf(Get(SecretFields(x), "owner_user_id")) == x.owner
            && IntOf(Get(SecretFields(x), "access_id")) == x.access
    ensures IsPlaceholderItem(SecretFields(x)) <==> x.fingerprint == "empty-placeholder"
  {
  }

  /** The secrets that survive being stored and read back. */
  function Kept(s: seq<Secret>, skipPlaceholders: bool): (r: seq<Secret>)
    ensures |r| <= |s| && forall x :: x in r ==> x in s
  {
    if s == [] then []
    else if s[0].fingerprint == "" || (skipPlaceholders && s[0].fingerprint == "empty-placeholder") then
      Kept(s[1..], skipPlaceholders)
    else [s[0]] + Kept(s[1..], skipPlaceholders)
  }

  lemma {:induction false} ReadBack(s: seq<Secret>, skip: bool)
    requires AllOk(s)
    ensures ReadItems(SecretItems(s), skip) == Kept(s, skip)
    decreases |s|
  {
    hide TextOf, IntOf, SecretFields, IsPlaceholderItem;
    if s != [] {
      assert SecretItems(s)[1..] == SecretItems(s[1..]);
      ItemRead(s[0]);
      ReadBack(s[1..], skip);
    }
  }

  lemma {:induction false} KeptNormal(s: seq<Secret>, skip: bool)
    requires Normal(s)
    ensures Normal(Kept(s, skip))
    decreases |s|
  {
    hide StrLess, SecretOk;
    if s != [] {
      assert forall i :: 0 <= i < |s| - 1 ==> s[1..][i] == s[i + 1];
      KeptNormal(s[1..], skip);
      forall x | x in Kept(s[1..], skip) ensures StrLess(s[0].fingerprint, x.fingerprint) {
        assert x in s[1..];
      }
    }
  }

  lemma {:induction false} KeptAll(s: seq<Secret>)
    ensures Kept(s, false) == s <==> Readable(s)
    decreases |s|
  {
    if s != [] {
      assert s == [s[0]] + s[1..];
      KeptAll(s[1..]);
      assert forall i :: 0 <= i < |s| - 1 ==> s[1..][i] == s[i + 1];
    }
  }

  lemma {:induction false} KeptSame(s: seq<Secret>)
    ensures Kept(s, true) == Kept(s, false) <==> forall i :: 0 <= i < |s| ==> s[i].fingerprint != "empty-placeholder"
    ensures |Kept(s, true)| <= |Kept(s, false)|
    decreases |s|
  {
    if s != [] {
      KeptSame(s[1..]);
      assert forall i :: 0 <= i < |s| - 1 ==> s[1..][i] == s[i + 1];
      assert ([s[0]] + Kept(s[1..], false))[1..] == Kept(s[1..], false);
      assert ([s[0]] + Kept(s[1..], true))[1..] == Kept(s[1..], true);
    }
  }

  lemma PlaceholderRead(current: Fields, token: string)
    requires Placeholder(current, token).Some?
    ensures ReadItems([Placeholder(current, token).value], true) == []
  {
    FirstKeepsPlace(Items(current, "runtime_secrets"));
    hide TextOf, IntOf, FirstPlaceholder;
    assert [Placeholder(current, token).value][1..] == [];
  }

  lemma {:induction false} FirstKeepsPlace(items: seq<Json>)
    ensures FirstPlaceholder(items).Some? ==> KeepsPlace(FirstPlaceholder(items).value)
    decreases |items|
  {
    if items != [] {
      FirstKeepsPlace(items[1..]);
    }
  }

  /** A stored document reads back as the secrets stored, unless one has an empty fingerprint; the runtime list,
      which is never empty, holds the same users, unless one is called like the placeholder. */
  lemma StoredReadsBack(s: seq<Secret>, current: Fields, generation: int, token: string)
    requires Normal(s) && Stored(s, current, generation, token).Some?
    ensures var doc := Stored(s, current, generation, token).value;
            && Generation(doc) == Some(generation) && Items(doc, "runtime_secrets") != []
            && UserSecrets(doc) == Some(Kept(s, false)) && RuntimeSecrets(doc) == Some(Kept(s, true))
            && (UserSecrets(doc) == Some(s) <==> Readable(s))
            && (RuntimeSecrets(doc) == UserSecrets(doc) <==>
                  forall i :: 0 <= i < |s| ==> s[i].fingerprint != "empty-placeholder")
  {
    hide *;
    KeptNormal(s, false);
    KeptNormal(s, true);
    KeptAll(s);
    KeptSame(s);
    NormalIsFixed(Kept(s, false));
    NormalIsFixed(Kept(s, true));
    StoredIs(s, current, generation, token);
    if s == [] {
      PlaceholderRead(current, token);
      NothingRead();
      DocumentReads(generation, [], [Placeholder(current, token).value]);
    } else {
      NormalIsOk(s);
      ReadBack(s, false);
      ReadBack(s, true);
      DocumentReads(generation, SecretItems(s), SecretItems(s));
    }
  }

  /** A document without a runtime list, as older versions wrote it: the users are read from the list of secrets, and a
      missing generation is 0. */
  lemma OldDocumentReads(s: seq<Secret>)
    requires Normal(s)
    ensures var doc: Fields := map["secrets" := Arr(SecretItems(s))];
            RuntimeSecrets(doc) == UserSecrets(doc) == Some(Kept(s, false)) && Generation(doc) == Some(0)
  {
    NormalIsOk(s);
    ReadBack(s, false);
    KeptNormal(s, false);
    NormalIsFixed(Kept(s, false));
    hide Normalized, ReadItems, SecretItems, Kept, Normal;
  }

  lemma StoredIs(s: seq<Secret>, current: Fields, generation: int, token: string)
    requires Stored(s, current, generation, token).Some?
    ensures s == [] ==> Placeholder(current, token).Some?
    ensures Stored(s, current, generation, token).value ==
            if s == [] then Document(generation, [], [Placeholder(current, token).value])
            else Document(generation, SecretItems(s), SecretItems(s))
  {
    hide Document, Placeholder;
  }

  lemma DocumentReads(generation: int, secrets: seq<Json>, runtime: seq<Json>)
    ensures var doc := Document(generation, secrets, runtime);
            && Generation(doc) == Some(generation) && Items(doc, "runtime_secrets") == runtime
            && UserSecrets(doc) == Normalized(ReadItems(secrets, false))
            && RuntimeSecrets(doc) == Normalized(ReadItems(runtime, true))
            && Get(doc, "runtime_secrets").Arr?
  {
    hide Normalized, ReadItems;
  }

  lemma NormalIsOk(s: seq<Secret>)
    requires Normal(s)
    ensures AllOk(s)
  {
  }

  lemma NothingRead()
    ensures ReadItems([], false) == [] && Kept([], false) == [] && Kept([], true) == []
  {
  }

  // ---------------------------------------------------------------- two fingerprints that do not read back

  lemma {:induction false} DigitsAreHex(s: string, pending: bool)
    requires (s != "" || !pending) && forall i :: 0 <= i < |s| ==> HexDigit(s[i])
    ensures HexDigits(s, pending)
  {
    if s != "" {
      DigitsAreHex(s[1..], false);
    }
  }

  /** Thirty-two zeros are a valid secret. */
  lemma ZerosAreOk() returns (secret: string)
    ensures SecretOk(secret)
  {
    secret := seq(32, i => '0');
    hide HexDigits;
    StripDone(secret);
    DigitsAreHex(secret, true);
  }

  lemma OneIsNormal(secret: string, fingerprint: string)
    requires SecretOk(secret)
    ensures Normal([Secret(secret, fingerprint, None, None)])
  {
    hide SecretOk;
  }

  /** A secret with an empty fingerprint is stored and not read back. */
  lemma EmptyFingerprintIsLost(secret: string, current: Fields, generation: int, token: string)
    requires SecretOk(secret)
    ensures var s := [Secret(secret, "", None, None)];
            && Normal(s) && !Readable(s) && Stored(s, current, generation, token).Some?
            && UserSecrets(Stored(s, current, generation, token).value) != Some(s)
  {
    var s := [Secret(secret, "", None, None)];
    OneIsNormal(secret, "");
    assert s[0].fingerprint == "";
    hide SecretOk, UserSecrets, RuntimeSecrets, Normal;
    StoredReadsBack(s, current, generation, token);
  }

  /** A secret whose fingerprint is the placeholder's is a stored user that the runtime view does not show. */
  lemma PlaceholderNameIsHidden(secret: string, current: Fields, generation: int, token: string)
    requires SecretOk(secret)
    ensures var s := [Secret(secret, "empty-placeholder", None, None)];
            && Normal(s) && Stored(s, current, generation, token).Some?
            && var doc := Stored(s, current, generation, token).value;
               RuntimeSecrets(doc) != UserSecrets(doc)
  {
    var s := [Secret(secret, "empty-placeholder", None, None)];
    OneIsNormal(secret, "empty-placeholder");
    assert s[0].fingerprint == "empty-placeholder";
    hide SecretOk, UserSecrets, RuntimeSecrets, Normal;
    StoredReadsBack(s, current, generation, token);
  }

  // ---------------------------------------------------------------- secrets that are no 32 hexadecimal digits

  predicate Hex32(s: string) {
    |s| == 32 && forall i :: 0 <= i < |s| ==> HexDigit(s[i])
  }

  /** A blank, a sign, an underscore, or the `x` of a prefix. */
  predicate Odd(c: char) {
    IsSpace(c) || c == '+' || c == '-' || c == '_' || c == 'x' || c == 'X'
  }

  lemma {:induction false} HexDigitsAre(s: string, pending: bool)
    requires HexDigits(s, pending) && '_' !in s
    ensures forall i :: 0 <= i < |s| ==> HexDigit(s[i])
  {
    if s != "" {
      HexDigitsAre(s[1..], false);
      assert forall i :: 0 < i < |s| ==> s[i] == s[1..][i - 1];
    }
  }

  lemma OddIsNoDigit(c: char)
    requires HexDigit(c)
    ensures !Odd(c)
  {
  }

  /** The check for 32 hexadecimal characters accepts those, and besides them exactly such texts as have a blank, a
      sign, an underscore or an `x` in them. */
  lemma SecretIsHexIff(s: string)
    ensures Hex32(s) <==> SecretOk(s) && forall i :: 0 <= i < |s| ==> !Odd(s[i])
  {
    if |s| == 32 {
      if forall i :: 0 <= i < |s| ==> !Odd(s[i]) {
        assert !IsSpace(s[0]) && !IsSpace(s[31]);
        StripDone(s);
        assert SecretOk(s) <==> HexDigits(s, true);
        if HexDigits(s, true) {
          HexDigitsAre(s, true);
        }
      }
      if Hex32(s) {
        forall i | 0 <= i < |s| ensures !Odd(s[i]) {
          OddIsNoDigit(s[i]);
        }
        DigitsAreHex(s, true);
      }
    }
  }

  /** A sign and 31 digits, which is no secret of 32 digits, is accepted. */
  lemma SignedSecretAccepted(s: string)
    requires |s| == 32 && s[0] == '-' && forall i :: 0 < i < 32 ==> HexDigit(s[i])
    ensures SecretOk(s) && !Hex32(s)
  {
    OddIsNoDigit(s[31]);
    StripDone(s);
    DigitsAreHex(s[1..], true);
    OddIsNoDigit(s[2]);
  }
}
