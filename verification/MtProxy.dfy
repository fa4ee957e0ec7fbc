/** Applying MTProxy secrets with rollback. */
module MtProxy {
  import opened Base
  import opened JsonTree
  import opened MtProxyStore

  // Applying managed MTProxy secrets to the store and env files, with rollback (`adapters/mtproxy.py`, direct mode).
  // What every command answers is a parameter.

  /** The store file: missing, exactly the dump of a document, or any other text and what it parses to. */
  datatype File = Absent | Dump(doc: Fields) | Other(parsed: Option<Fields>)

  datatype Files = Files(store: File, env: Option<string>)

  /** `_read_store_document`; None is invalid JSON or no object. */
  function ReadDocument(f: File): Option<Fields> {
    match f
    case Absent => Some(Document(0, [], []))
    case Dump(doc) => Some(doc)
    case Other(parsed) => parsed
  }

  /** Answers during one apply; a false flag is an error at that point. The tokens are the random ones a new placeholder
      would get, in the comparison and in the document to write. */
  datatype Answers = Answers(ready: bool, backup: bool, write: bool, writeEnv: bool, permissions: bool, restart: bool,
                             active: bool, listening: bool, restore: bool, token: string, nextToken: string)

  datatype Plan = Refuse | Nothing(generation: int) | Write(doc: Fields, generation: int)

  /** `_same_secret_set`. */
  predicate SameSet(a: seq<Secret>, b: seq<Secret>) {
    Elements(a) == Elements(b)
  }

  function Elements(a: seq<Secret>): (r: set<Secret>)
    ensures forall x :: x in r <==> x in a
  {
    set x | x in a
  }

  /** What `apply_managed_secrets` decides before it touches anything. */
  function Planned(files: Files, env: string, s: seq<Secret>, token: string, nextToken: string): Plan {
    if files.store == Absent || files.env == None || ReadDocument(files.store) == None then Refuse
    else
      var doc := ReadDocument(files.store).value;
      Judged(files, env, doc, Normalized(s), UserSecrets(doc), Generation(doc), token, nextToken)
  }

  /** The decision once the document is read: what is wanted, what is stored and its generation. */
  function Judged(files: Files, env: string, doc: Fields, desired: Option<seq<Secret>>, current: Option<seq<Secret>>,
                  generation: Option<int>, token: string, nextToken: string): Plan
  {
    if desired == None || current == None || generation == None then Refuse
    else
      var now := Stored(current.value, doc, generation.value, token);
      if now == None then Refuse
      else if SameSet(current.value, desired.value) && files.store == Dump(now.value) && files.env == Some(env) then
        Nothing(generation.value)
      else
        var next := Stored(desired.value, doc, generation.value + 1, nextToken);
        if next == None then Refuse else Write(next.value, generation.value + 1)
  }

  datatype Outcome = Applied(changed: bool, generation: int) | Failed

  predicate AllGood(a: Answers) {
    a.write && a.writeEnv && a.permissions && a.restart && a.active && a.listening
  }

  /** One call took the files from `f` to `f'`. */
  predicate Took(f: Files, f': Files, env: string, rollback: bool, s: seq<Secret>, a: Answers, r: Outcome) {
    match Planned(f, env, s, a.token, a.nextToken)
    case Refuse => f' == f && r == Failed
    case Nothing(g) => f' == f && r == (if a.ready then Applied(false, g) else Failed)
    case Write(doc, g) =>
      if !a.ready || !a.backup then f' == f && r == Failed
      else if AllGood(a) then f' == Files(Dump(doc), Some(env)) && r == Applied(true, g)
      else r == Failed && f' == if rollback && a.restore then f else Partly(f, doc, env, a)
  }

  /** The files as far as they were written. */
  function Partly(f: Files, doc: Fields, env: string, a: Answers): Files {
    Files(if a.write then Dump(doc) else f.store, if a.write && a.writeEnv then Some(env) else f.env)
  }

  class Adapter {
    const env: string
    const rollback: bool
    var files: Files

    constructor (env: string, rollback: bool, files: Files)
      ensures this.env == env && this.rollback == rollback && this.files == files
    {
      this.env, this.rollback, this.files := env, rollback, files;
    }

    /** `_write_runtime_files`: the store, then the env file, then their permissions. */
    method WriteRuntimeFiles(doc: Fields, a: Answers) returns (ok: bool)
      modifies this`files
      ensures ok <==> a.write && a.writeEnv && a.permissions
      ensures files == Files(if a.write then Dump(doc) else old(files).store,
                             if a.write && a.writeEnv then Some(env) else old(files).env)
    {
      if !a.write {
        return false;
      }
      files := files.(store := Dump(doc));
      if !a.writeEnv {
        return false;
      }
      files := files.(env := Some(env));
      return a.permissions;
    }

    /** `restore_backup`: both files from their copies. */
    method RestoreBackup(copy: Files, a: Answers)
      modifies this`files
      ensures files == if a.restore then copy else old(files)
    {
      if a.restore {
        files := copy;
      }
    }

    /** The part of `apply_managed_secrets` that only reads. */
    method Decide(s: seq<Secret>, a: Answers) returns (p: Plan)
      ensures p == Planned(files, env, s, a.token, a.nextToken)
    {
      if files.store == Absent || files.env == None {
        return Refuse;
      }
      var document := ReadDocument(files.store);
      if document == None {
        return Refuse;
      }
      var desired := NormalizeSecrets(s);
      var current, generation := UserSecrets(document.value), Generation(document.value);
      p := Judge(document.value, desired, current, generation, a);
    }

    method Judge(doc: Fields, desired: Option<seq<Secret>>, current: Option<seq<Secret>>, generation: Option<int>,
                 a: Answers)
      returns (p: Plan)
      ensures p == Judged(files, env, doc, desired, current, generation, a.token, a.nextToken)
    {
      hide Stored, SameSet;
      if desired == None || current == None || generation == None {
        return Refuse;
      }
      var now := Stored(current.value, doc, generation.value, a.token);
      if now == None {
        return Refuse;
      }
      if SameSet(current.value, desired.value) && files.store == Dump(now.value) && files.env == Some(env) {
        return Nothing(generation.value);
      }
      var next := Stored(desired.value, doc, generation.value + 1, a.nextToken);
      if next == None {
        return Refuse;
      }
      return Write(next.value, generation.value + 1);
    }

    /** `apply_managed_secrets`. */
    method Apply(s: seq<Secret>, a: Answers) returns (r: Outcome)
      modifies this`files
      ensures Took(old(files), files, env, rollback, s, a, r)
    {
      hide Planned;
      var plan := Decide(s, a);
      if !a.ready || plan.Refuse? {
        return Failed;
      }
      if plan.Nothing? {
        return Applied(false, plan.generation);
      }
      if !a.backup {
        return Failed;
      }
      var copy := files;
      var wrote := WriteRuntimeFiles(plan.doc, a);
      if wrote && a.restart && a.active && a.listening {
        return Applied(true, plan.generation);
      }
      if rollback {
        RestoreBackup(copy, a);
      }
      return Failed;
    }
  }

  // ---------------------------------------------------------------- what a call keeps

  lemma SameSetIsSame(a: seq<Secret>, b: seq<Secret>)
    requires Normal(a) && Normal(b)
    ensures SameSet(a, b) <==> a == b
  {
    hide SecretOk, StrLess;
    if SameSet(a, b) {
      forall x ensures x in a <==> x in b {
        assert x in Elements(a) <==> x in Elements(b);
      }
      IncreasingUnique(a, b);
    }
  }

  /** A changing call raises the generation by one and stores exactly the normal form; every other call leaves both
      files alone, with rollback on and a restore that works. */
  lemma ApplyLaw(f: Files, f': Files, env: string, s: seq<Secret>, a: Answers, r: Outcome)
    requires Took(f, f', env, true, s, a, r) && a.restore
    ensures r == Failed || !r.changed ==> f' == f
    ensures r.Applied? ==>
      && f.store != Absent && ReadDocument(f.store).Some? && f'.store.Dump? && f'.env == Some(env)
      && Generation(ReadDocument(f.store).value) == Some(if r.changed then r.generation - 1 else r.generation)
      && Generation(f'.store.doc) == Some(r.generation)
      && Normalized(s).Some? && Items(f'.store.doc, "runtime_secrets") != []
      && UserSecrets(f'.store.doc) == Some(if r.changed then Kept(Normalized(s).value, false) else Normalized(s).value)
  {
    hide Normalized, UserSecrets, Generation, Stored, Normal, Kept;
    if r.Applied? {
      var doc := ReadDocument(f.store).value;
      NormalizedIsNormal(s);
      var desired := Normalized(s).value;
      if r.changed {
        StoredReadsBack(desired, doc, r.generation, a.nextToken);
      } else {
        var current := UserSecrets(doc).value;
        UserSecretsNormal(doc);
        SameSetIsSame(current, desired);
        StoredReadsBack(current, doc, r.generation, a.token);
      }
    }
  }

  /** A change counts as applied exactly when there is one to write and every step of it succeeds: the service is up and
      its port listens. Nothing to change counts as applied exactly when the service is ready. */
  lemma AppliedIff(f: Files, f': Files, env: string, rollback: bool, s: seq<Secret>, a: Answers, r: Outcome)
    requires Took(f, f', env, rollback, s, a, r)
    ensures r.Applied? && r.changed <==>
            && Planned(f, env, s, a.token, a.nextToken).Write? && a.ready && a.backup
            && a.write && a.writeEnv && a.permissions && a.restart && a.active && a.listening
    ensures r.Applied? && !r.changed <==> Planned(f, env, s, a.token, a.nextToken).Nothing? && a.ready
    ensures r == Failed && (!rollback || !a.restore) && f' != f ==>
              && Planned(f, env, s, a.token, a.nextToken).Write? && a.ready && a.backup && a.write
              && f'.store == Dump(Planned(f, env, s, a.token, a.nextToken).doc)
              && f'.env == if a.writeEnv then Some(env) else f.env
  {
    hide Planned;
  }

  /** A stored runtime list that cannot be looped over: null, a truth value or a number. */
  predicate BadRuntime(doc: Fields) {
    && "runtime_secrets" in doc
    && match doc["runtime_secrets"] case Arr(_) => false case Obj(_) => false case Str(_) => false case _ => true
  }

  /** A call is refused before it touches anything exactly when a file is missing, the store cannot be read, a secret
      asked for or stored is invalid, the generation is no number, or a placeholder is needed and cannot be
      looked up. */
  lemma RefusedIff(files: Files, env: string, s: seq<Secret>, token: string, nextToken: string)
    ensures Planned(files, env, s, token, nextToken) == Refuse <==>
            || files.store == Absent || files.env == None || ReadDocument(files.store) == None
            || (var doc := ReadDocument(files.store).value;
                || Normalized(s) == None || UserSecrets(doc) == None || Generation(doc) == None
                || (BadRuntime(doc) && (UserSecrets(doc) == Some([]) || Normalized(s) == Some([]))))
  {
    hide Normalized, UserSecrets, Generation, FirstPlaceholder, SecretItems;
    if files.store != Absent && files.env.Some? && ReadDocument(files.store).Some? {
      var doc := ReadDocument(files.store).value;
      forall k: string ensures Placeholder(doc, k) == None <==> BadRuntime(doc) {
      }
      if Normalized(s) == Some([]) && UserSecrets(doc).Some? {
        assert SameSet(UserSecrets(doc).value, []) ==> UserSecrets(doc).value == [] by {
          OnlyNothing(UserSecrets(doc).value);
        }
      }
    }
  }

  lemma OnlyNothing(s: seq<Secret>)
    ensures SameSet(s, []) ==> s == []
  {
    if s != [] {
      assert s[0] in Elements(s);
    }
  }

  lemma UserSecretsNormal(doc: Fields)
    requires UserSecrets(doc).Some?
    ensures Normal(UserSecrets(doc).value)
  {
    if Get(doc, "secrets").Arr? {
      hide Normalized, Normal;
      NormalizedIsNormal(ReadItems(doc["secrets"].items, false));
    }
  }

  /** Applying the same secrets again, in whatever order if no fingerprint repeats, does nothing, exactly when no
      fingerprint is empty; otherwise it rewrites the store each time. */
  lemma ReapplyIsNoOp(f: Files, f': Files, env: string, s: seq<Secret>, again: seq<Secret>, a: Answers, r: Outcome,
                      token: string, nextToken: string)
    requires Took(f, f', env, true, s, a, r) && r.Applied? && r.changed && a.nextToken != ""
    requires again == s || (FingerprintsOnce(s) && multiset(again) == multiset(s))
    ensures Normalized(s).Some?
    ensures Planned(f', env, again, token, nextToken) == Nothing(r.generation) <==> Readable(Normalized(s).value)
    ensures !Readable(Normalized(s).value) ==>
      Planned(f', env, again, token, nextToken).Write?
          && Planned(f', env, again, token, nextToken).generation == r.generation + 1
  {
    hide *;
    if again != s {
      OrderDoesNotMatter(s, again);
    }
    var doc, stored := WhatWasWritten(f, f', env, s, a, r);
    var desired := Normalized(s).value;
    NormalizedIsNormal(s);
    StoredReadsBack(desired, doc, r.generation, a.nextToken);
    KeptIsNormal(desired);
    StoredAgain(desired, doc, r.generation, a.nextToken, token);
    HasRuntimeList(desired, doc, r.generation, a.nextToken);
    StoredExists(stored, Kept(desired, false), desired, r.generation, token, nextToken);
    if !Readable(desired) {
      NotReadable(desired);
    }
    PlannedIs(f', env, stored, again, token, nextToken);
    JudgedAgain(f', env, stored, desired, Kept(desired, false), r.generation, token, nextToken);
  }

  /** A changing call leaves the document it planned. */
  lemma WhatWasWritten(f: Files, f': Files, env: string, s: seq<Secret>, a: Answers, r: Outcome)
    returns (doc: Fields, stored: Fields)
    requires Took(f, f', env, true, s, a, r) && r.Applied? && r.changed
    ensures Normalized(s).Some? && f' == Files(Dump(stored), Some(env))
    ensures Stored(Normalized(s).value, doc, r.generation, a.nextToken) == Some(stored)
  {
    hide Normalized, UserSecrets, Generation, Stored, SameSet;
    doc := ReadDocument(f.store).value;
    stored := f'.store.doc;
  }

  lemma PlannedIs(f: Files, env: string, doc: Fields, s: seq<Secret>, token: string, nextToken: string)
    requires f == Files(Dump(doc), Some(env))
    ensures Planned(f, env, s, token, nextToken)
            == Judged(f, env, doc, Normalized(s), UserSecrets(doc), Generation(doc), token, nextToken)
  {
    hide Judged, Normalized, UserSecrets, Generation;
  }

  lemma HasRuntimeList(s: seq<Secret>, current: Fields, generation: int, token: string)
    requires Stored(s, current, generation, token).Some?
    ensures Get(Stored(s, current, generation, token).value, "runtime_secrets").Arr?
  {
    hide Placeholder;
  }

  lemma JudgedAgain(f: Files, env: string, doc: Fields, desired: seq<Secret>, kept: seq<Secret>, generation: int,
                    token: string,
                    nextToken: string)
    requires f == Files(Dump(doc), Some(env)) && Normal(desired) && Normal(kept)
    requires kept == desired ==> Stored(kept, doc, generation, token) == Some(doc)
    requires Stored(kept, doc, generation, token).Some? && Stored(desired, doc, generation + 1, nextToken).Some?
    ensures var p := Judged(f, env, doc, Some(desired), Some(kept), Some(generation), token, nextToken);
            if kept == desired then p == Nothing(generation) else p.Write? && p.generation == generation + 1
  {
    hide Stored, Normal, SameSet;
    SameSetIsSame(kept, desired);
  }

  lemma NotReadable(s: seq<Secret>)
    requires !Readable(s)
    ensures Kept(s, false) != s
  {
    KeptAll(s);
  }

  lemma KeptIsNormal(s: seq<Secret>)
    requires Normal(s)
    ensures Normal(Kept(s, false)) && (Readable(s) ==> Kept(s, false) == s)
  {
    KeptNormal(s, false);
    KeptAll(s);
  }

  /** Storing what a document already stores gives that document, placeholder and all. */
  lemma StoredAgain(s: seq<Secret>, current: Fields, generation: int, token: string, other: string)
    requires Stored(s, current, generation, token).Some? && token != ""
    ensures Stored(s, Stored(s, current, generation, token).value, generation, other)
            == Stored(s, current, generation, token)
  {
    hide SecretItems;
    if s == [] {
      var p := Placeholder(current, token).value;
      FirstKeepsPlace(Items(current, "runtime_secrets"));
      assert KeepsPlace(p);
      var doc := Document(generation, [], [p]);
      assert Items(doc, "runtime_secrets") == [p];
      assert FirstPlaceholder([p]) == Some(p);
    }
  }

  lemma StoredExists(doc: Fields, a: seq<Secret>, b: seq<Secret>, generation: int, token: string, nextToken: string)
    requires Get(doc, "runtime_secrets").Arr?
    ensures Stored(a, doc, generation, token).Some? && Stored(b, doc, generation + 1, nextToken).Some?
  {
    hide FirstPlaceholder, SecretItems;
  }

  // ---------------------------------------------------------------- runs

  /** One call after another, each with its secrets, answers and outcome. */
  ghost predicate CallRun(trace: seq<Files>, env: string, calls: seq<seq<Secret>>, answers: seq<Answers>,
                          outcomes: seq<Outcome>) {
    && |trace| == |calls| + 1 && |answers| == |calls| && |outcomes| == |calls|
    && forall i :: 0 <= i < |calls| ==>
         answers[i].restore && Took(trace[i], trace[i + 1], env, true, calls[i], answers[i], outcomes[i])
  }

  function Changes(outcomes: seq<Outcome>): nat {
    if outcomes == [] then 0
    else
      var last := outcomes[|outcomes| - 1];
      Changes(outcomes[..|outcomes| - 1]) + (if last.Applied? && last.changed then 1 else 0)
  }

  /** The store's generation, where it has one. */
  function StoreGeneration(f: Files): Option<int> {
    if f.store == Absent || ReadDocument(f.store) == None then None else Generation(ReadDocument(f.store).value)
  }

  predicate HasRuntime(f: Files) {
    f.store.Dump? && Items(f.store.doc, "runtime_secrets") != []
  }

  /** Over every run the generation is the start value plus the number of changing calls that succeeded, and a
      runtime list that is not empty never becomes empty. */
  lemma {:induction false} RunCounts(trace: seq<Files>, env: string, calls: seq<seq<Secret>>, answers: seq<Answers>,
                                     outcomes: seq<Outcome>, n: nat)
    requires CallRun(trace, env, calls, answers, outcomes) && n <= |calls| && StoreGeneration(trace[0]).Some?
    ensures StoreGeneration(trace[n]) == Some(StoreGeneration(trace[0]).value + Changes(outcomes[..n]))
    ensures HasRuntime(trace[0]) || Changes(outcomes[..n]) > 0 ==> HasRuntime(trace[n])
  {
    hide Took, Generation, ReadDocument;
    if n > 0 {
      RunCounts(trace, env, calls, answers, outcomes, n - 1);
      assert outcomes[..n][..n - 1] == outcomes[..n - 1];
      ApplyStep(trace[n - 1], trace[n], env, calls[n - 1], answers[n - 1], outcomes[n - 1]);
    }
  }

  lemma ApplyStep(f: Files, f': Files, env: string, s: seq<Secret>, a: Answers, r: Outcome)
    requires Took(f, f', env, true, s, a, r) && a.restore
    ensures r == Failed || !r.changed ==> f' == f
    ensures r.Applied? && r.changed ==>
      HasRuntime(f') && StoreGeneration(f).Some? && StoreGeneration(f') == Some(StoreGeneration(f).value + 1)
  {
    hide Took, Generation;
    ApplyLaw(f, f', env, s, a, r);
  }

  // ---------------------------------------------------------------- an empty fingerprint

  /** A store without secrets. */
  function EmptyStore(env: string): Files {
    Files(Dump(Document(0, [], [])), Some(env))
  }

  lemma EmptyStoreReads(env: string, token: string)
    ensures var doc := Document(0, [], []);
            && ReadDocument(EmptyStore(env).store) == Some(doc) && UserSecrets(doc) == Some([])
                && Generation(doc) == Some(0)
            && Stored([], doc, 0, token).Some?
  {
    NormalIsFixed([]);
    hide Normalized;
  }

  lemma NotSame(s: seq<Secret>)
    requires s != []
    ensures !SameSet([], s)
  {
    assert s[0] in Elements(s);
  }

  lemma StoredSome(s: seq<Secret>, current: Fields, generation: int, token: string)
    requires s != []
    ensures Stored(s, current, generation, token).Some?
  {
  }

  lemma FirstPlan(env: string, s: seq<Secret>, token: string, nextToken: string)
    requires s != [] && Normal(s)
    ensures Stored(s, Document(0, [], []), 1, nextToken).Some?
    ensures Planned(EmptyStore(env), env, s, token, nextToken)
            == Write(Stored(s, Document(0, [], []), 1, nextToken).value, 1)
  {
    hide Normalized, UserSecrets, Generation, Stored, SameSet, Normal, Document, Planned;
    StoredSome(s, Document(0, [], []), 1, nextToken);
    NotSame(s);
    EmptyStoreReads(env, token);
    NormalIsFixed(s);
    PlannedIs(EmptyStore(env), env, Document(0, [], []), s, token, nextToken);
  }

  lemma FirstWrite(env: string, s: seq<Secret>, a: Answers)
    requires s != [] && Normal(s) && a.ready && a.backup && AllGood(a)
    ensures var doc := Stored(s, Document(0, [], []), 1, a.nextToken);
            && doc.Some?
            && Took(EmptyStore(env), Files(Dump(doc.value), Some(env)), env, true, s, a, Applied(true, 1))
  {
    hide Planned, Stored, Normal, Document, AllGood, EmptyStore;
    FirstPlan(env, s, a.token, a.nextToken);
  }

  /** A secret with an empty fingerprint is applied to an empty store; applying it again writes the store again. */
  lemma EmptyFingerprintRewrites(env: string, a: Answers, token: string, nextToken: string) returns (secret: string)
    requires a.ready && a.backup && AllGood(a) && a.nextToken != ""
    ensures SecretOk(secret)
    ensures var s := [Secret(secret, "", None, None)];
            var doc := Stored(s, Document(0, [], []), 1, a.nextToken);
            && doc.Some?
            && var f' := Files(Dump(doc.value), Some(env));
               && Took(EmptyStore(env), f', env, true, s, a, Applied(true, 1))
               && Planned(f', env, s, token, nextToken).Write?
  {
    secret := ZerosAreOk();
    var s := [Secret(secret, "", None, None)];
    OneIsNormal(secret, "");
    NormalIsFixed(s);
    assert s[0].fingerprint == "";
    hide Took, Planned, Normalized, Stored, SecretOk, AllGood, Normal;
    FirstWrite(env, s, a);
    var f' := Files(Dump(Stored(s, Document(0, [], []), 1, a.nextToken).value), Some(env));
    ReapplyIsNoOp(EmptyStore(env), f', env, s, s, a, Applied(true, 1), token, nextToken);
  }
}
