/** Which secret of a fingerprint is kept. */
module MtProxyChoice {
  import opened Base
  import opened MtProxyStore

  // `_normalize_secrets` (`adapters/mtproxy.py`) sorts by fingerprint and secret and keeps the first of each
  // fingerprint. Here the same is told about the list as it was given.

  /** Of the secrets with this fingerprint `s[i]` is a least one, and the first of those. */
  predicate Chosen(s: seq<Secret>, i: nat) {
    && i < |s|
    && (forall j :: 0 <= j < |s| && s[j].fingerprint == s[i].fingerprint ==> !StrLess(s[j].secret, s[i].secret))
    && (forall j :: 0 <= j < i ==> s[j].fingerprint != s[i].fingerprint || s[j].secret != s[i].secret)
  }

  /** The first secret with the fingerprint. */
  function FirstWith(s: seq<Secret>, f: string): (r: Option<Secret>)
    ensures r.Some? ==> r.value in s && r.value.fingerprint == f
    ensures r.None? ==> forall x :: x in s ==> x.fingerprint != f
  {
    if s == [] then None else if s[0].fingerprint == f then Some(s[0]) else FirstWith(s[1..], f)
  }

  lemma {:induction false} InsertFirst(x: Secret, s: seq<Secret>, f: string)
    requires Sorted(s)
    ensures FirstWith(Insert(x, s), f) ==
            var r := FirstWith(s, f);
            if x.fingerprint == f && (r.None? || !Before(r.value, x)) then Some(x) else r
    decreases |s|
  {
    hide Before, Sorted;
    if s == [] || !Before(s[0], x) {
      assert ([x] + s)[1..] == s;
      AboveAll(x, s);
      if FirstWith(s, f).Some? {
        var i :| 0 <= i < |s| && s[i] == FirstWith(s, f).value;
      }
    } else {
      SortedTail(s);
      InsertFirst(x, s[1..], f);
      assert ([s[0]] + Insert(x, s[1..]))[1..] == Insert(x, s[1..]);
    }
  }

  lemma BeforeOne(x: Secret, y: Secret)
    requires x.fingerprint == y.fingerprint
    ensures Before(x, y) <==> StrLess(x.secret, y.secret)
  {
    StrLessSelf(x.fingerprint);
  }

  /** Where the chosen secret of a fingerprint stands. */
  lemma {:induction false} FirstIsChosen(s: seq<Secret>, f: string) returns (i: nat)
    ensures FirstWith(Sort(s), f).Some? <==> exists j :: 0 <= j < |s| && s[j].fingerprint == f
    ensures FirstWith(Sort(s), f).Some? ==> Chosen(s, i) && s[i] == FirstWith(Sort(s), f).value
    decreases |s|
  {
    i := 0;
    if s == [] {
      return;
    }
    hide Before, StrLess, Insert, Chosen, FirstWith;
    var rest := s[1..];
    assert forall j :: 0 <= j < |rest| ==> rest[j] == s[j + 1];
    SomeWith(s, f);
    var k := FirstIsChosen(rest, f);
    SortSorts(rest);
    InsertFirst(s[0], Sort(rest), f);
    var r := FirstWith(Sort(rest), f);
    if s[0].fingerprint != f {
      i := k + 1;
      if r.Some? {
        OtherFirst(s, k);
      }
    } else if r.None? {
      OnlyOne(s);
    } else {
      assert rest[k] == r.value;
      BeforeOne(r.value, s[0]);
      i := if StrLess(rest[k].secret, s[0].secret) then k + 1 else 0;
      LaterOrFirst(s, k, i);
    }
  }

  lemma SomeWith(s: seq<Secret>, f: string)
    requires s != []
    ensures (exists j :: 0 <= j < |s| && s[j].fingerprint == f) <==>
            s[0].fingerprint == f || exists j :: 0 <= j < |s[1..]| && s[1..][j].fingerprint == f
  {
    if j :| 0 <= j < |s| && s[j].fingerprint == f {
      assert j > 0 ==> s[1..][j - 1] == s[j];
    }
  }

  lemma OtherFirst(s: seq<Secret>, k: nat)
    requires s != [] && Chosen(s[1..], k) && s[1..][k].fingerprint != s[0].fingerprint
    ensures Chosen(s, k + 1)
  {
    hide StrLess;
    assert forall j :: 0 < j < |s| ==> s[j] == s[1..][j - 1];
  }

  lemma OnlyOne(s: seq<Secret>)
    requires s != [] && forall j :: 0 <= j < |s[1..]| ==> s[1..][j].fingerprint != s[0].fingerprint
    ensures Chosen(s, 0)
  {
    StrLessSelf(s[0].secret);
    assert forall j :: 0 < j < |s| ==> s[j] == s[1..][j - 1];
  }

  lemma LaterOrFirst(s: seq<Secret>, k: nat, i: nat)
    requires s != [] && Chosen(s[1..], k) && s[1..][k].fingerprint == s[0].fingerprint
    requires i == if StrLess(s[1..][k].secret, s[0].secret) then k + 1 else 0
    ensures Chosen(s, i)
  {
    var x, rest := s[0], s[1..];
    forall j | 0 <= j < |s| && s[j].fingerprint == x.fingerprint ensures !StrLess(s[j].secret, s[i].secret) {
      StrLessTotal(x.secret, rest[k].secret);
      if j > 0 {
        assert s[j] == rest[j - 1];
        if i == 0 {
          NotLess(rest[j - 1].secret, rest[k].secret, x.secret);
        }
      }
    }
    forall j | 0 < j < i ensures s[j].fingerprint != s[i].fingerprint || s[j].secret != s[i].secret {
      assert s[j] == rest[j - 1];
    }
    StrLessTotal(x.secret, rest[k].secret);
  }

  lemma NotLess(a: string, b: string, c: string)
    requires !StrLess(a, b) && !StrLess(b, c)
    ensures !StrLess(a, c)
  {
    hide StrLess;
    StrLessTotal(a, b);
    StrLessTotal(b, c);
    StrLessTotal(a, c);
    if StrLess(c, b) && StrLess(b, a) {
      StrLessTransitive(c, b, a);
    }
  }

  lemma {:induction false} DedupedIs(s: seq<Secret>, seen: set<string>, x: Secret)
    ensures x in Deduped(s, seen) <==> x.fingerprint !in seen && FirstWith(s, x.fingerprint) == Some(x)
    decreases |s|
  {
    if s != [] {
      DedupedIs(s[1..], seen, x);
      DedupedIs(s[1..], seen + {s[0].fingerprint}, x);
    }
  }

  /** A secret is kept exactly when it is the least of its fingerprint, and the first of those in the list as given; so
      every fingerprint is kept, with one secret. */
  lemma KeptIffChosen(s: seq<Secret>, x: Secret)
    requires Normalized(s).Some?
    ensures x in Normalized(s).value <==> exists i: nat :: Chosen(s, i) && s[i] == x
    ensures x in s ==> exists y :: y in Normalized(s).value && y.fingerprint == x.fingerprint
  {
    hide SecretOk, Sort, Deduped, StrLess, FirstWith;
    var f := x.fingerprint;
    DedupedIs(Sort(s), {}, x);
    var i := FirstIsChosen(s, f);
    if j: nat :| Chosen(s, j) && s[j] == x {
      assert s[j].fingerprint == f;
      SameChoice(s, i, j);
    }
    if x in s {
      DedupedIs(Sort(s), {}, FirstWith(Sort(s), f).value);
    }
  }

  lemma SameChoice(s: seq<Secret>, i: nat, j: nat)
    requires Chosen(s, i) && Chosen(s, j) && s[i].fingerprint == s[j].fingerprint
    ensures i == j
  {
    hide StrLess;
    StrLessTotal(s[i].secret, s[j].secret);
  }
}
