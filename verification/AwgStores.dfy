/** A peer in both stores, with rollback. */
module AwgStores {
  import opened Base
  import opened Text
  import opened AwgText
  import AwgPeers
  import opened AwgLayout
  import opened AwgFind
  import opened AwgRuns

  // Adding and removing a peer in the two stores at once, the config file and the live interface, with rollback
  // (`adapters/awg_config.py`, direct mode). What every command answers is a parameter.

  /** A command that reports success took effect; one that fails or raises may have taken effect or not. */
  datatype Command = Done | Failed(applied: bool) | Raised(applied: bool)

  predicate Applied(c: Command) {
    match c case Done => true case Failed(a) => a case Raised(a) => a
  }

  /** `awg show`: a listing, an error code, or an exception. */
  datatype Show = Listed | Unavailable | Crashed

  /** Answers during `add_peer`; a false flag is an exception raised at that point. */
  datatype AddAnswers = AddAnswers(
    ready: bool, read: bool, look: Show, validate: bool, same: bool, write: bool, apply: Command, verify: Show,
    restore: bool, cleanup: Command)

  datatype RemoveAnswers = RemoveAnswers(
    ready: bool, read: bool, validate: bool, same: bool, write: bool, apply: Command, verify: Show, restore: bool,
    sync: bool)

  /** The config file's text and the public keys the interface has as peers. */
  datatype Stores = Stores(config: string, runtime: set<string>)

  /** The public keys of the peers in a parsed config. */
  function PeerKeys(secs: Sections): set<string> {
    set s | s in secs && s.name == "Peer" && "PublicKey" in s.options :: s.options["PublicKey"]
  }

  function ConfigKeys(text: string): set<string> {
    match Parsed(text) case Err(_) => {} case Ok(secs) => PeerKeys(secs)
  }

  /** The runtime has exactly the config's peers. */
  predicate InStep(s: Stores) {
    Parsed(s.config).Ok? ==> s.runtime == ConfigKeys(s.config)
  }

  /** The checks in front of the lock; the label is checked when the block is printed. */
  predicate ArgumentsOk(e: Entry) {
    EntryOk(e.(labelText := ""))
  }

  class Adapter {
    var config: string
    var runtime: set<string>

    function Now(): Stores
      reads this
    {
      Stores(config, runtime)
    }

    constructor (text: string, keys: set<string>)
      ensures Now() == Stores(text, keys)
    {
      config, runtime := text, keys;
    }

    method AddPeerRuntime(publicKey: string, c: Command) returns (r: Result<bool, ()>)
      modifies this`runtime
      ensures runtime == if Applied(c) then old(runtime) + {publicKey} else old(runtime)
      ensures r == if c.Raised? then Err(()) else Ok(c.Done?)
    {
      if Applied(c) {
        runtime := runtime + {publicKey};
      }
      if c.Raised? {
        return Err(());
      }
      return Ok(c.Done?);
    }

    method RemovePeerRuntime(publicKey: string, c: Command) returns (r: Result<bool, ()>)
      modifies this`runtime
      ensures runtime == if Applied(c) then old(runtime) - {publicKey} else old(runtime)
      ensures r == if c.Raised? then Err(()) else Ok(c.Done?)
    {
      if Applied(c) {
        runtime := runtime - {publicKey};
      }
      if c.Raised? {
        return Err(());
      }
      return Ok(c.Done?);
    }

    /** `verify_runtime_peer`: a failed listing counts as "not there". */
    method VerifyRuntimePeer(publicKey: string, answer: Show) returns (r: Result<bool, ()>)
      ensures r == if answer == Crashed then Err(()) else Ok(answer == Listed && publicKey in runtime)
    {
      if answer == Crashed {
        return Err(());
      }
      return Ok(answer == Listed && publicKey in runtime);
    }

    /** The guarded part of `add_peer`; the flags say what there is to roll back. */
    method TryAdd(e: Entry, a: AddAnswers) returns (done: bool, wrote: bool, touched: bool)
      modifies this
      ensures Tried(old(Now()), Now(), e, a, done, wrote, touched)
    {
      hide Parsed, BlockExists, Known, Appended;
      done, wrote, touched := false, false, false;
      if !a.read {
        return;
      }
      var sections := ParseSections(config);
      if sections.Err? {
        return;
      }
      if BlockExists(config, e.keyId) {
        var present := VerifyRuntimePeer(e.publicKey, a.look);
        if present.Err? {
          return;
        }
        if !present.value {
          touched := true;
          var applied := AddPeerRuntime(e.publicKey, a.apply);
          done := applied == Ok(true);
          return;
        }
        done := true;
        return;
      }
      var other := FindPeer(sections.value, e.publicKey, e.ip);
      if other.Some? || !Clean(e.labelText) || !a.validate || !a.same {
        return;
      }
      var updated := Appended(config, e);
      var candidate := ParseSections(updated);
      if candidate.Err? || !a.write {
        return;
      }
      config := updated;
      wrote := true;
      touched := true;
      var applied := AddPeerRuntime(e.publicKey, a.apply);
      if applied != Ok(true) {
        return;
      }
      var present := VerifyRuntimePeer(e.publicKey, a.verify);
      done := present == Ok(true);
    }

    /** `_rollback_add_peer`. */
    method RollbackAdd(backup: string, wrote: bool, touched: bool, publicKey: string, a: AddAnswers)
      modifies this
      ensures Now() == AddUndone(old(Now()), backup, wrote, touched, publicKey, a)
    {
      if wrote && a.restore {
        config := backup;
      }
      if touched {
        var _ := RemovePeerRuntime(publicKey, a.cleanup);
      }
    }

    /** `add_peer`. */
    method AddPeer(e: Entry, a: AddAnswers) returns (ok: bool)
      modifies this
      ensures Added(old(Now()), Now(), e, a, ok)
    {
      hide Tried, KeyOk;
      if !ArgumentsOk(e) || !a.ready {
        return false;
      }
      var backup := config;
      ghost var before := Now();
      var done, wrote, touched := TryAdd(e, a);
      ghost var mid := Now();
      if !done {
        RollbackAdd(backup, wrote, touched, e.publicKey, a);
        assert Tried(before, mid, e, a, false, wrote, touched);
        return false;
      }
      assert Tried(before, mid, e, a, true, wrote, touched);
      return true;
    }

    method TryRemove(keyId: nat, publicKey: Option<string>, a: RemoveAnswers)
      returns (done: bool, wrote: bool, removed: bool)
      modifies this
      ensures TriedRemoval(old(Now()), Now(), keyId, publicKey, a, done, wrote, removed)
    {
      hide Parsed, Known, BlockRemoved, WithoutIdentity;
      done, wrote, removed := false, false, false;
      if !a.read {
        return;
      }
      var attempt := RemoveManagedBlock(config, keyId);
      if attempt.Err? {
        return;
      }
      var updated := attempt.value;
      if updated == config && publicKey.Some? && publicKey.value != "" {
        var other := RemovePeerSectionByIdentity(config, publicKey.value);
        if other.Err? {
          return;
        }
        updated := other.value;
      }
      if updated != config {
        var candidate := ParseSections(updated);
        if candidate.Err? || !a.validate || !a.same || !a.write {
          return;
        }
        config := updated;
        wrote := true;
      }
      if publicKey == None {
        done := true;
        return;
      }
      var key := publicKey.value;
      var applied := RemovePeerRuntime(key, a.apply);
      if applied != Ok(true) {
        return;
      }
      removed := true;
      var present := VerifyRuntimePeer(key, a.verify);
      if present != Ok(false) {
        return;
      }
      var sections := ParseSections(config);
      if sections.Err? {
        return;
      }
      var found := FindPeer(sections.value, key, "");
      done := found == None;
    }

    /** `_rollback_remove_peer`. */
    method RollbackRemove(backup: string, wrote: bool, removed: bool, a: RemoveAnswers)
      modifies this
      ensures Now() == RemoveUndone(old(Now()), backup, wrote, removed, a)
    {
      if wrote && a.restore {
        config := backup;
      }
      if removed && a.sync {
        runtime := ConfigKeys(config);
      }
    }

    /** `remove_peer`. */
    method RemovePeer(keyId: nat, publicKey: Option<string>, a: RemoveAnswers) returns (ok: bool)
      modifies this
      ensures Removed(old(Now()), Now(), keyId, publicKey, a, ok)
    {
      hide TriedRemoval, KeyOk;
      if (publicKey.Some? && !KeyOk(publicKey.value)) || !a.ready {
        return false;
      }
      var backup := config;
      ghost var before := Now();
      var done, wrote, removed := TryRemove(keyId, publicKey, a);
      ghost var mid := Now();
      if !done {
        RollbackRemove(backup, wrote, removed, a);
        assert TriedRemoval(before, mid, keyId, publicKey, a, false, wrote, removed);
        return false;
      }
      assert TriedRemoval(before, mid, keyId, publicKey, a, true, wrote, removed);
      return true;
    }
  }

  // ---------------------------------------------------------------- what a call does to the stores

  function SetPeer(s: Stores, key: string, c: Command): Stores {
    if Applied(c) then s.(runtime := s.runtime + {key}) else s
  }

  /** The guarded part of `add_peer` took the stores from `s` to `s'` and left these flags. */
  predicate Tried(s: Stores, s': Stores, e: Entry, a: AddAnswers, done: bool, wrote: bool, touched: bool) {
    if !a.read || Parsed(s.config).Err? then s' == s && !done && !wrote && !touched
    else if BlockExists(s.config, e.keyId) then
      && !wrote
      && (a.look == Crashed ==> s' == s && !done && !touched)
      && (a.look == Listed && e.publicKey in s.runtime ==> s' == s && done)
      && (a.look == Unavailable || (a.look == Listed && e.publicKey !in s.runtime) ==>
            touched && s' == SetPeer(s, e.publicKey, a.apply) && done == a.apply.Done?)
    else if Known(Parsed(s.config).value, e.publicKey, e.ip) then s' == s && !done && !wrote && !touched
    else if !Clean(e.labelText) || !a.validate || !a.same || !a.write || Parsed(Appended(s.config, e)).Err? then
      s' == s && !done && !wrote && !touched
    else
      && wrote && touched
      && s' == SetPeer(s.(config := Appended(s.config, e)), e.publicKey, a.apply)
      && done == (a.apply.Done? && a.verify == Listed)
  }

  function AddUndone(s: Stores, backup: string, wrote: bool, touched: bool, key: string, a: AddAnswers): Stores {
    Stores(if wrote && a.restore then backup else s.config,
           if touched && Applied(a.cleanup) then s.runtime - {key} else s.runtime)
  }

  /** `add_peer` took the stores from `s` to `s'`, returning or (`!ok`) raising. */
  ghost predicate Added(s: Stores, s': Stores, e: Entry, a: AddAnswers, ok: bool) {
    if !ArgumentsOk(e) || !a.ready then s' == s && !ok
    else exists mid, wrote, touched ::
      Tried(s, mid, e, a, ok, wrote, touched)
      && s' == if ok then mid else AddUndone(mid, s.config, wrote, touched, e.publicKey, a)
  }

  /** The removal on the text that `remove_peer` is about to write. */
  function Target(text: string, keyId: nat, publicKey: Option<string>): Result<string, Failure> {
    TextAfterRemove(text, keyId, if publicKey.Some? then publicKey.value else "")
  }

  predicate TriedRemoval(s: Stores, s': Stores, keyId: nat, publicKey: Option<string>, a: RemoveAnswers, done: bool,
                         wrote: bool, removed: bool)
  {
    var target := Target(s.config, keyId, publicKey);
    if !a.read || target.Err? then s' == s && !done && !wrote && !removed
    else if target.value != s.config && (Parsed(target.value).Err? || !a.validate || !a.same || !a.write) then
      s' == s && !done && !wrote && !removed
    else
      && (wrote <==> target.value != s.config) && s'.config == target.value
      && match publicKey
         case None => done && !removed && s'.runtime == s.runtime
         case Some(key) =>
           && s'.runtime == (if Applied(a.apply) then s.runtime - {key} else s.runtime)
           && (removed <==> a.apply.Done?)
           && (done <==> a.apply.Done? && a.verify != Crashed
                         && Parsed(target.value).Ok? && !Known(Parsed(target.value).value, key, ""))
  }

  function RemoveUndone(s: Stores, backup: string, wrote: bool, removed: bool, a: RemoveAnswers): Stores {
    var config := if wrote && a.restore then backup else s.config;
    Stores(config, if removed && a.sync then ConfigKeys(config) else s.runtime)
  }

  ghost predicate Removed(s: Stores, s': Stores, keyId: nat, publicKey: Option<string>, a: RemoveAnswers, ok: bool) {
    if (publicKey.Some? && !KeyOk(publicKey.value)) || !a.ready then s' == s && !ok
    else exists mid, wrote, removed ::
      TriedRemoval(s, mid, keyId, publicKey, a, ok, wrote, removed)
      && s' == if ok then mid else RemoveUndone(mid, s.config, wrote, removed, a)
  }

  // ---------------------------------------------------------------- all or nothing

  lemma KnownByKey(secs: Sections, key: string)
    requires key != ""
    ensures Known(secs, key, "") <==> key in PeerKeys(secs)
  {
    hide AllowedContains;
    if Known(secs, key, "") {
      var i :| 0 <= i < |secs| && Matches(secs[i], key, "");
      assert secs[i] in secs;
    }
    if key in PeerKeys(secs) {
      KeyMatches(secs, key, "");
    }
  }

  lemma KeyMatches(secs: Sections, key: string, ip: string)
    requires key != "" && key in PeerKeys(secs)
    ensures Known(secs, key, ip)
  {
    hide AllowedContains;
    var s :| s in secs && s.name == "Peer" && "PublicKey" in s.options && s.options["PublicKey"] == key;
    var i :| 0 <= i < |secs| && secs[i] == s;
    assert Matches(secs[i], key, ip);
  }

  lemma UnknownKey(secs: Sections, key: string, ip: string)
    requires key != "" && !Known(secs, key, ip)
    ensures key !in PeerKeys(secs)
  {
    hide Known, PeerKeys;
    if key in PeerKeys(secs) {
      KeyMatches(secs, key, ip);
    }
  }

  /** Appending a block adds its key to the config's and nothing else. */
  lemma AppendedKeys(t: string, e: Entry)
    requires EntryOk(e) && Parsed(t).Ok?
    ensures Parsed(Appended(t, e)).Ok? && ConfigKeys(Appended(t, e)) == ConfigKeys(t) + {e.publicKey}
    ensures BlockExists(Appended(t, e), e.keyId)
  {
    var peer := Section("Peer", PeerOptions(e));
    assert peer.options["PublicKey"] == e.publicKey;
    hide Parsed, Appended, EntryOk, BlockExists, PeerOptions;
    AwgPeers.AppendedParses(t, e);
    KeysSnoc(Parsed(t).value, peer);
    AppendedExists(t, e);
  }

  lemma KeysSnoc(secs: Sections, peer: Section)
    requires peer.name == "Peer" && "PublicKey" in peer.options
    ensures PeerKeys(secs + [peer]) == PeerKeys(secs) + {peer.options["PublicKey"]}
  {
    assert forall s :: s in secs + [peer] <==> s in secs || s == peer;
  }

  lemma AppendedExists(t: string, e: Entry)
    requires EntryOk(e)
    ensures BlockExists(Appended(t, e), e.keyId)
  {
    hide *;
    AwgPeers.AppendedLines(t, e);
    BlockHasRaw(AwgPeers.Lead(t) + [""], e, []);
    AwgPeers.AppendedShape(AwgPeers.Lead(t), BlockLines(e));
    ExistsIsRaw(Appended(t, e), e.keyId);
  }

  predicate RollbackWorks(a: AddAnswers) {
    a.restore && a.cleanup.Done?
  }

  /** `awg show` failed on a key whose block exists and whose peer is live, and setting it again failed too: the
      rollback then removes a peer it never added. */
  predicate BlindRepair(s: Stores, e: Entry, a: AddAnswers) {
    && ArgumentsOk(e) && a.ready && a.read && Parsed(s.config).Ok? && BlockExists(s.config, e.keyId)
    && a.look == Unavailable && !a.apply.Done? && e.publicKey in s.runtime
  }

  /** The key id is already managed, under a public key that is not this one. */
  predicate OtherOwner(s: Stores, e: Entry) {
    BlockExists(s.config, e.keyId) && e.publicKey !in ConfigKeys(s.config)
  }

  lemma AddWitness(s: Stores, s': Stores, e: Entry, a: AddAnswers, ok: bool) returns (mid: Stores, wrote: bool,
                   touched: bool)
    requires Added(s, s', e, a, ok) && ArgumentsOk(e) && a.ready
    ensures Tried(s, mid, e, a, ok, wrote, touched)
    ensures s' == if ok then mid else AddUndone(mid, s.config, wrote, touched, e.publicKey, a)
  {
    hide Tried, AddUndone, ArgumentsOk;
    mid, wrote, touched :|
      Tried(s, mid, e, a, ok, wrote, touched)
      && s' == if ok then mid else AddUndone(mid, s.config, wrote, touched, e.publicKey, a);
  }

  /** What the guarded part needs to know about the config: a key nobody has, and what appending adds. */
  lemma AppendKnown(s: Stores, e: Entry)
    requires ArgumentsOk(e) && Parsed(s.config).Ok?
    ensures !Known(Parsed(s.config).value, e.publicKey, e.ip) ==> e.publicKey !in ConfigKeys(s.config)
    ensures Clean(e.labelText) ==>
      && Parsed(Appended(s.config, e)).Ok? && ConfigKeys(Appended(s.config, e)) == ConfigKeys(s.config) + {e.publicKey}
      && BlockExists(Appended(s.config, e), e.keyId)
  {
    hide Parsed, BlockExists, Known, Appended, PeerKeys;
    if !Known(Parsed(s.config).value, e.publicKey, e.ip) {
      UnknownKey(Parsed(s.config).value, e.publicKey, e.ip);
    }
    if Clean(e.labelText) {
      AppendedKeys(s.config, e);
    }
  }

  lemma AddReturns(s: Stores, mid: Stores, e: Entry, a: AddAnswers, wrote: bool, touched: bool)
    requires Tried(s, mid, e, a, true, wrote, touched) && InStep(s) && ArgumentsOk(e)
    ensures TextAfterAdd(s.config, e) == Ok(mid.config) && BlockExists(mid.config, e.keyId)
    ensures mid.runtime == s.runtime + {e.publicKey}
    ensures (e.publicKey in ConfigKeys(mid.config) <==> !OtherOwner(s, e)) && (InStep(mid) <==> !OtherOwner(s, e))
  {
    AppendKnown(s, e);
    hide Parsed, BlockExists, Known, Appended, Clean, ConfigKeys, ArgumentsOk;
  }

  lemma AddRaises(s: Stores, mid: Stores, e: Entry, a: AddAnswers, wrote: bool, touched: bool)
    requires Tried(s, mid, e, a, false, wrote, touched) && InStep(s) && ArgumentsOk(e) && a.ready && RollbackWorks(a)
    ensures var after := AddUndone(mid, s.config, wrote, touched, e.publicKey, a);
            after.config == s.config && (after.runtime == s.runtime <==> !BlindRepair(s, e, a))
  {
    if a.read && Parsed(s.config).Ok? {
      AppendKnown(s, e);
    }
    SetUndo(s.runtime, e.publicKey);
    hide Parsed, BlockExists, Known, Appended, Clean, ConfigKeys, ArgumentsOk;
    var after := AddUndone(mid, s.config, wrote, touched, e.publicKey, a);
    if touched {
      assert after.runtime == mid.runtime - {e.publicKey};
      assert mid.runtime == if Applied(a.apply) then s.runtime + {e.publicKey} else s.runtime;
    } else {
      assert after == s;
    }
  }

  lemma SetUndo(keys: set<string>, key: string)
    ensures (keys + {key}) - {key} == keys - {key}
    ensures keys - {key} == keys <==> key !in keys
  {
  }

  /** Whatever the commands answer, `add_peer` either returns with the peer in both stores, or raises with the config
      text and the runtime as before; the two exceptions are exact. */
  lemma AddIsAtomic(s: Stores, s': Stores, e: Entry, a: AddAnswers, ok: bool)
    requires Added(s, s', e, a, ok) && InStep(s) && RollbackWorks(a)
    ensures ok ==>
      && TextAfterAdd(s.config, e) == Ok(s'.config) && BlockExists(s'.config, e.keyId)
      && s'.runtime == s.runtime + {e.publicKey}
      && (e.publicKey in ConfigKeys(s'.config) <==> !OtherOwner(s, e))
      && (InStep(s') <==> !OtherOwner(s, e))
    ensures !ok ==> s'.config == s.config && (s'.runtime == s.runtime <==> !BlindRepair(s, e, a))
  {
    hide ArgumentsOk, Parsed, BlockExists, Tried, AddUndone, InStep, RollbackWorks, TextAfterAdd, OtherOwner,
         ConfigKeys;
    if ArgumentsOk(e) && a.ready {
      var mid, wrote, touched := AddWitness(s, s', e, a, ok);
      if ok {
        AddReturns(s, mid, e, a, wrote, touched);
      } else {
        AddRaises(s, mid, e, a, wrote, touched);
      }
    }
  }

  /** The removal took effect but reported failure, so the rollback does not put the peer back. */
  predicate QuietRemoval(s: Stores, keyId: nat, publicKey: Option<string>, a: RemoveAnswers) {
    var target := Target(s.config, keyId, publicKey);
    && publicKey.Some? && KeyOk(publicKey.value) && a.ready && a.read && target.Ok?
    && (target.value == s.config || (Parsed(target.value).Ok? && a.validate && a.same && a.write))
    && (a.apply == Failed(true) || a.apply == Raised(true)) && publicKey.value in s.runtime
  }

  /** Whatever the commands answer, `remove_peer` with a public key either returns with the key in neither store, or
      raises with both stores as before, with one exact exception; without a public key it leaves the runtime. */
  lemma RemoveIsAtomic(s: Stores, s': Stores, keyId: nat, publicKey: Option<string>, a: RemoveAnswers, ok: bool)
    requires Removed(s, s', keyId, publicKey, a, ok)
    requires Parsed(s.config).Ok? && InStep(s) && a.restore && a.sync
    ensures ok ==> Target(s.config, keyId, publicKey) == Ok(s'.config)
    ensures ok && publicKey.Some? ==>
      && publicKey.value !in s'.runtime && publicKey.value !in ConfigKeys(s'.config)
      && s'.runtime == s.runtime - {publicKey.value}
    ensures ok && publicKey.None? ==> s'.runtime == s.runtime
    ensures !ok ==> s'.config == s.config && (s'.runtime == s.runtime <==> !QuietRemoval(s, keyId, publicKey, a))
  {
    if !(publicKey.Some? && !KeyOk(publicKey.value)) && a.ready {
      var mid, wrote, removed :|
        TriedRemoval(s, mid, keyId, publicKey, a, ok, wrote, removed)
        && s' == if ok then mid else RemoveUndone(mid, s.config, wrote, removed, a);
      hide Parsed, Known, Target;
      if publicKey.Some? && Parsed(mid.config).Ok? {
        KnownByKey(Parsed(mid.config).value, publicKey.value);
      }
    }
  }

  // ---------------------------------------------------------------- when a call succeeds

  /** `add_peer` returns exactly when its arguments are in order, the config parses, and: for a key id that has its
      block, the peer is live or can be made so; for a new one, nobody has the public key or the address, and every step
      from the check of the candidate to the final look succeeds. */
  lemma AddSucceedsIff(s: Stores, s': Stores, e: Entry, a: AddAnswers, ok: bool)
    requires Added(s, s', e, a, ok)
    ensures ok <==>
            && ArgumentsOk(e) && a.ready && a.read && Parsed(s.config).Ok?
            && if BlockExists(s.config, e.keyId) then
                 || (a.look == Listed && e.publicKey in s.runtime)
                 || (a.look != Crashed && a.apply.Done?)
               else
                 && !Known(Parsed(s.config).value, e.publicKey, e.ip) && Clean(e.labelText)
                 && a.validate && a.same && a.write && a.apply.Done? && a.verify == Listed
  {
    hide Parsed, BlockExists, Known, Appended, Clean, ArgumentsOk, AddUndone;
    if ArgumentsOk(e) && a.ready {
      var mid, wrote, touched := AddWitness(s, s', e, a, ok);
      if Parsed(s.config).Ok? {
        AppendKnown(s, e);
      }
    }
  }

  /** `remove_peer` returns exactly when its argument is in order, the text without the peer can be had and, if it is
      another one, written, and the runtime has let go of the public key, if there is one, with no section left
      for it. */
  lemma RemoveSucceedsIff(s: Stores, s': Stores, keyId: nat, publicKey: Option<string>, a: RemoveAnswers, ok: bool)
    requires Removed(s, s', keyId, publicKey, a, ok)
    ensures var target := Target(s.config, keyId, publicKey);
            ok <==>
            && (publicKey.Some? ==> KeyOk(publicKey.value)) && a.ready && a.read && target.Ok?
            && (target.value != s.config ==> Parsed(target.value).Ok? && a.validate && a.same && a.write)
            && (publicKey.Some? ==>
                  && a.apply.Done? && a.verify != Crashed && Parsed(target.value).Ok?
                  && !Known(Parsed(target.value).value, publicKey.value, ""))
  {
    hide Parsed, Known, Target, KeyOk, RemoveUndone;
    if !(publicKey.Some? && !KeyOk(publicKey.value)) && a.ready {
      var mid, wrote, removed :|
        TriedRemoval(s, mid, keyId, publicKey, a, ok, wrote, removed)
        && s' == if ok then mid else RemoveUndone(mid, s.config, wrote, removed, a);
    }
  }

  /** When `add_peer` raises, each half of its rollback does its part whatever becomes of the other: a restore that
      works leaves the config text, and a cleanup that works leaves no peer that was not there. */
  lemma AddRollbackHalves(s: Stores, s': Stores, e: Entry, a: AddAnswers)
    requires Added(s, s', e, a, false)
    ensures a.restore ==> s'.config == s.config
    ensures a.cleanup.Done? ==> s'.runtime <= s.runtime
    ensures s'.runtime - {e.publicKey} == s.runtime - {e.publicKey}
    ensures s'.config == s.config || s'.config == Appended(s.config, e)
  {
    hide Parsed, BlockExists, Known, Appended, Clean, ArgumentsOk;
    if ArgumentsOk(e) && a.ready {
      var mid, wrote, touched := AddWitness(s, s', e, a, false);
    }
  }

  /** When `remove_peer` raises, a restore that works leaves the config text; the interface is as it was, without the
      key, or synced with the file after a removal that was reported to have worked. */
  lemma RemoveRollbackHalves(s: Stores, s': Stores, keyId: nat, key: string, a: RemoveAnswers)
    requires Removed(s, s', keyId, Some(key), a, false)
    ensures a.restore ==> s'.config == s.config
    ensures s'.runtime == s.runtime || s'.runtime == s.runtime - {key}
            || (a.apply.Done? && a.sync && s'.runtime == ConfigKeys(s'.config))
    ensures s'.config != s.config ==> !a.restore && Target(s.config, keyId, Some(key)) == Ok(s'.config)
  {
    hide Parsed, Known, Target, KeyOk, ConfigKeys;
    if KeyOk(key) && a.ready {
      var mid, wrote, removed :|
        TriedRemoval(s, mid, keyId, Some(key), a, false, wrote, removed)
        && s' == RemoveUndone(mid, s.config, wrote, removed, a);
    }
  }

  // ---------------------------------------------------------------- the exceptions happen

  lemma AddedBy(s: Stores, mid: Stores, s': Stores, e: Entry, a: AddAnswers, ok: bool, wrote: bool, touched: bool)
    requires ArgumentsOk(e) && a.ready && Tried(s, mid, e, a, ok, wrote, touched)
    requires s' == if ok then mid else AddUndone(mid, s.config, wrote, touched, e.publicKey, a)
    ensures Added(s, s', e, a, ok)
  {
    hide Tried, ArgumentsOk, AddUndone;
  }

  lemma RemovedBy(s: Stores, mid: Stores, s': Stores, keyId: nat, key: string, a: RemoveAnswers, wrote: bool,
                  removed: bool)
    requires KeyOk(key) && a.ready && TriedRemoval(s, mid, keyId, Some(key), a, false, wrote, removed)
    requires s' == RemoveUndone(mid, s.config, wrote, removed, a)
    ensures Removed(s, s', keyId, Some(key), a, false)
  {
    hide TriedRemoval, KeyOk, RemoveUndone;
  }

  lemma BlindTry(s: Stores, e: Entry, a: AddAnswers)
    requires Parsed(s.config).Ok? && BlockExists(s.config, e.keyId)
    requires a.read && a.look == Unavailable && a.apply == Failed(false)
    ensures Tried(s, s, e, a, false, false, true)
  {
    hide Parsed, BlockExists, Known, Appended;
  }

  /** On any parseable text: a peer just added and live is lost from the runtime when one listing and one `awg set`
      fail during a repeated `add_peer`. */
  lemma RepeatedAddCanDropPeer(t: string, e: Entry)
    requires Parsed(t).Ok? && EntryOk(e)
    ensures var text := Appended(t, e);
            var a := AddAnswers(true, true, Unavailable, true, true, true, Failed(false), Listed, true, Done);
            var s := Stores(text, ConfigKeys(text));
            && InStep(s) && RollbackWorks(a) && e.publicKey in s.runtime
            && Added(s, Stores(text, s.runtime - {e.publicKey}), e, a, false)
  {
    assert ArgumentsOk(e);
    hide Parsed, Appended, BlockExists, Known, ConfigKeys, EntryOk, Added, ArgumentsOk, Tried;
    AppendedKeys(t, e);
    var s := Stores(Appended(t, e), ConfigKeys(Appended(t, e)));
    var a := AddAnswers(true, true, Unavailable, true, true, true, Failed(false), Listed, true, Done);
    BlindTry(s, e, a);
    AddedBy(s, s, Stores(s.config, s.runtime - {e.publicKey}), e, a, false, false, true);
  }

  lemma SetTry(s: Stores, e: Entry, a: AddAnswers)
    requires Parsed(s.config).Ok? && BlockExists(s.config, e.keyId) && e.publicKey !in s.runtime
    requires a.read && a.look == Listed && a.apply == Done
    ensures Tried(s, s.(runtime := s.runtime + {e.publicKey}), e, a, true, false, true)
  {
    hide Parsed, BlockExists, Known, Appended;
  }

  /** On any parseable text: `add_peer` for a key id that is managed under another public key returns, and the interface
      has a peer that the config has not. */
  lemma OtherOwnerRunsAhead(t: string, e: Entry, key: string)
    requires Parsed(t).Ok? && EntryOk(e) && KeyOk(key) && key !in ConfigKeys(Appended(t, e))
    ensures var text := Appended(t, e);
            var a := AddAnswers(true, true, Listed, true, true, true, Done, Listed, true, Done);
            var s, other := Stores(text, ConfigKeys(text)), e.(publicKey := key);
            && InStep(s) && RollbackWorks(a) && OtherOwner(s, other)
            && Added(s, Stores(text, s.runtime + {key}), other, a, true) && !InStep(Stores(text, s.runtime + {key}))
  {
    var other := e.(publicKey := key);
    assert ArgumentsOk(other);
    hide Parsed, Appended, BlockExists, Known, ConfigKeys, EntryOk, Added, ArgumentsOk, Tried, KeyOk;
    AppendedKeys(t, e);
    var s := Stores(Appended(t, e), ConfigKeys(Appended(t, e)));
    var a := AddAnswers(true, true, Listed, true, true, true, Done, Listed, true, Done);
    SetTry(s, other, a);
    var s' := Stores(s.config, s.runtime + {key});
    AddedBy(s, s', s', other, a, true, false, true);
  }

  function QuietFailure(): RemoveAnswers {
    RemoveAnswers(true, true, true, true, true, Failed(true), Listed, true, true)
  }

  lemma FailedTry(s: Stores, keyId: nat, key: string, text: string)
    requires Target(s.config, keyId, Some(key)) == Ok(text) && Parsed(text).Ok? && KeyOk(key)
    ensures Removed(s, Stores(s.config, s.runtime - {key}), keyId, Some(key), QuietFailure(), false)
  {
    var mid := Stores(text, s.runtime - {key});
    hide Parsed, Target, Known, KeyOk, Removed;
    RemovedBy(s, mid, Stores(s.config, s.runtime - {key}), keyId, key, QuietFailure(), text != s.config, false);
  }

  /** On any text reached by a run: `awg set ... remove` that works but reports failure leaves the config with a peer
      the runtime has lost, and the call raises. */
  lemma FailedRemoveCanDropPeer(t0: string, t: string, peers: Peers, keyId: nat)
    requires Fresh(t0) && Refines(t0, t, peers) && keyId in peers
    ensures var s, key := Stores(t, ConfigKeys(t)), peers[keyId].publicKey;
            key in s.runtime && Removed(s, Stores(t, s.runtime - {key}), keyId, Some(key), QuietFailure(), false)
  {
    var key := peers[keyId].publicKey;
    hide Parsed, Fresh, Refines, TextAfterRemove, KeyOk, Known, ConfigKeys, PeerKeys, Removed, QuietFailure;
    FreshIs(t0);
    RemoveRefines(t0, t, peers, keyId, key);
    KeysOfRun(t0, t, peers);
    assert key in ManagedKeys(peers);
    FailedTry(Stores(t, ConfigKeys(t)), keyId, key, TextAfterRemove(t, keyId, key).value);
  }

  function ManagedKeys(peers: Peers): set<string> {
    set k | k in peers :: peers[k].publicKey
  }

  lemma KeysOfSections(hand: Sections, es: seq<Entry>, peers: Peers)
    requires Tracks(es, peers)
    ensures PeerKeys(hand + PeerSections(es)) == PeerKeys(hand) + ManagedKeys(peers)
  {
    var secs := hand + PeerSections(es);
    forall i | 0 <= i < |es|
      ensures "PublicKey" in secs[|hand| + i].options && secs[|hand| + i].options["PublicKey"] == es[i].publicKey
    {
    }
    hide PeerOptions;
    forall key | key in PeerKeys(hand) + ManagedKeys(peers) ensures key in PeerKeys(secs) {
      if key in PeerKeys(hand) {
      } else {
        var k :| k in peers && peers[k].publicKey == key;
        var i := HasAt(es, peers, k);
        assert secs[|hand| + i] in secs;
      }
    }
    forall key | key in PeerKeys(secs) ensures key in PeerKeys(hand) + ManagedKeys(peers) {
      var s :| s in secs && s.name == "Peer" && "PublicKey" in s.options && s.options["PublicKey"] == key;
      var i :| 0 <= i < |secs| && secs[i] == s;
      if i < |hand| {
        assert hand[i] in hand;
      } else {
        assert es[i - |hand|].keyId in peers;
      }
    }
  }

  /** The public keys in the config of a run: the hand-written ones and, apart from them, the map's. */
  lemma KeysOfRun(t0: string, t: string, peers: Peers)
    requires Fresh(t0) && Refines(t0, t, peers)
    ensures Parsed(t0).Ok? && Parsed(t).Ok? && ConfigKeys(t) == PeerKeys(Parsed(t0).value) + ManagedKeys(peers)
    ensures forall k :: k in peers ==> KeyOk(peers[k].publicKey)
  {
    var gaps, es := Witness(t0, t, peers);
    HoldsIs(t0, t, peers, gaps, es);
    hide Fresh, Parsed, Refines, Laid, Apart, Tracks, Holds, KeyOk, PeerKeys, ManagedKeys;
    LaidParses(t0, t, gaps, es);
    KeysOfSections(Parsed(t0).value, es, peers);
    forall k | k in peers ensures KeyOk(peers[k].publicKey) {
      var i := HasAt(es, peers, k);
      assert EntryOk(es[i]);
    }
  }

  // ---------------------------------------------------------------- runs of both stores

  datatype Call = AddCall(e: Entry, adding: AddAnswers) | RemoveCall(keyId: nat, publicKey: string,
                          removing: RemoveAnswers)

  function RequestOf(c: Call): Request {
    match c case AddCall(e, _) => Add(e) case RemoveCall(k, key, _) => Remove(k, key)
  }

  ghost predicate Took(s: Stores, s': Stores, c: Call, ok: bool) {
    match c
    case AddCall(e, a) => Added(s, s', e, a, ok)
    case RemoveCall(k, key, a) => Removed(s, s', k, Some(key), a, ok)
  }

  /** The rollback commands work, a failing command has no effect on a live peer behind the adapter's back, and a key
      id is only added again for its own public key. */
  predicate Sane(s: Stores, peers: Peers, c: Call) {
    match c
    case AddCall(e, a) =>
      RollbackWorks(a) && !BlindRepair(s, e, a) && (e.keyId in peers ==> peers[e.keyId].publicKey == e.publicKey)
    case RemoveCall(k, key, a) => a.restore && a.sync && !QuietRemoval(s, k, Some(key), a)
  }

  /** The config stands for the map, and the runtime has the config's peers. */
  ghost predicate Sound(t0: string, s: Stores, peers: Peers) {
    Refines(t0, s.config, peers) && Parsed(s.config).Ok? && s.runtime == ConfigKeys(s.config)
  }

  lemma NotOtherOwner(t0: string, s: Stores, peers: Peers, e: Entry)
    requires Fresh(t0) && Refines(t0, s.config, peers) && (e.keyId in peers ==> peers[e.keyId].publicKey == e.publicKey)
    ensures !OtherOwner(s, e)
  {
    hide Fresh, Refines, Parsed, ConfigKeys, PeerKeys, BlockExists, ManagedKey, OnlyOwnSection;
    FreshIs(t0);
    KeysOfRun(t0, s.config, peers);
    WhatTheTextShows(t0, s.config, peers);
    assert e.keyId in peers ==> e.publicKey in ManagedKeys(peers);
  }

  lemma AddKeepsStores(t0: string, s: Stores, s': Stores, peers: Peers, e: Entry, a: AddAnswers, ok: bool)
    requires Fresh(t0) && Sound(t0, s, peers) && EntryOk(e) && Sane(s, peers, AddCall(e, a)) && Added(s, s', e, a, ok)
    ensures Parsed(t0).Ok? && Sound(t0, s', if ok then Step(Parsed(t0).value, peers, Add(e)) else peers)
    ensures !ok ==> s' == s
  {
    hide Fresh, Refines, Parsed, ConfigKeys, Added, BlindRepair, OtherOwner, Taken, EntryOk, BlockExists, TextAfterAdd;
    FreshIs(t0);
    NotOtherOwner(t0, s, peers, e);
    AddIsAtomic(s, s', e, a, ok);
    AddRefines(t0, s.config, peers, e);
    if ok {
      KeysOfRun(t0, s'.config, Step(Parsed(t0).value, peers, Add(e)));
    }
  }

  /** One call keeps both stores in step with the map: a call that returns takes the map's step, one that raises
      changes nothing. */
  lemma CallKeepsStores(t0: string, s: Stores, s': Stores, peers: Peers, c: Call, ok: bool)
    requires Fresh(t0) && Sound(t0, s, peers) && Permitted(peers, RequestOf(c)) && Sane(s, peers, c)
             && Took(s, s', c, ok)
    ensures Parsed(t0).Ok? && Sound(t0, s', if ok then Step(Parsed(t0).value, peers, RequestOf(c)) else peers)
    ensures !ok ==> s' == s
  {
    hide Fresh, Refines, Parsed, ConfigKeys, Added, Removed, QuietRemoval, BlindRepair, Taken, EntryOk;
    FreshIs(t0);
    match c
    case AddCall(e, a) =>
      AddKeepsStores(t0, s, s', peers, e, a, ok);
    case RemoveCall(k, key, a) =>
      RemoveKeepsStores(t0, s, s', peers, k, key, a, ok);
  }

  lemma ManagedMinus(peers: Peers, keyId: nat)
    requires keyId in peers
    ensures ManagedKeys(peers) == ManagedKeys(peers - {keyId}) + {peers[keyId].publicKey}
  {
    forall key | key in ManagedKeys(peers) ensures key in ManagedKeys(peers - {keyId}) + {peers[keyId].publicKey} {
      var k :| k in peers && peers[k].publicKey == key;
      assert k != keyId ==> k in peers - {keyId} && (peers - {keyId})[k].publicKey == key;
    }
  }

  lemma RemoveKeepsStores(t0: string, s: Stores, s': Stores, peers: Peers, keyId: nat, key: string,
                          a: RemoveAnswers, ok: bool)
    requires Fresh(t0) && Sound(t0, s, peers) && keyId in peers && peers[keyId].publicKey == key
    requires Sane(s, peers, RemoveCall(keyId, key, a)) && Removed(s, s', keyId, Some(key), a, ok)
    ensures Parsed(t0).Ok? && Sound(t0, s', if ok then peers - {keyId} else peers)
    ensures !ok ==> s' == s
  {
    hide Fresh, Refines, Parsed, ConfigKeys, Removed, QuietRemoval, TextAfterRemove, PeerKeys, ManagedKeys, Known;
    FreshIs(t0);
    RemoveIsAtomic(s, s', keyId, Some(key), a, ok);
    RemoveRefines(t0, s.config, peers, keyId, key);
    if ok {
      KeysOfRun(t0, s.config, peers);
      KeysOfRun(t0, s'.config, peers - {keyId});
      ManagedMinus(peers, keyId);
    }
  }

  /** The stores, the map and the answers along a run of calls. */
  ghost predicate CallRun(hand: Sections, trace: seq<Stores>, maps: seq<Peers>, calls: seq<Call>, oks: seq<bool>) {
    && |trace| == |maps| == |calls| + 1 && |oks| == |calls|
    && forall i :: 0 <= i < |calls| ==>
         && Permitted(maps[i], RequestOf(calls[i])) && Sane(trace[i], maps[i], calls[i])
         && Took(trace[i], trace[i + 1], calls[i], oks[i])
         && maps[i + 1] == if oks[i] then Step(hand, maps[i], RequestOf(calls[i])) else maps[i]
  }

  /** Along every run of calls, with any answers at all short of the two exceptions, the config file stands for the
      map of the calls that returned, and the runtime holds exactly the hand-written peers and the map's. */
  lemma {:induction false} StoresStayInStep(t0: string, trace: seq<Stores>, maps: seq<Peers>, calls: seq<Call>,
                                            oks: seq<bool>)
    requires Fresh(t0) && Parsed(t0).Ok? && CallRun(Parsed(t0).value, trace, maps, calls, oks)
    requires trace[0] == Stores(t0, ConfigKeys(t0)) && maps[0] == map[]
    ensures var last, peers := trace[|calls|], maps[|calls|];
            && Refines(t0, last.config, peers)
            && last.runtime == PeerKeys(Parsed(t0).value) + ManagedKeys(peers)
    decreases |calls|
  {
    StoresSound(t0, trace, maps, calls, oks, |calls|);
    hide Fresh, Refines, Parsed, ConfigKeys, CallRun, PeerKeys, ManagedKeys;
    KeysOfRun(t0, trace[|calls|].config, maps[|calls|]);
  }

  lemma {:induction false} StoresSound(t0: string, trace: seq<Stores>, maps: seq<Peers>, calls: seq<Call>,
                                       oks: seq<bool>, n: nat)
    requires Fresh(t0) && Parsed(t0).Ok? && CallRun(Parsed(t0).value, trace, maps, calls, oks) && n <= |calls|
    requires trace[0] == Stores(t0, ConfigKeys(t0)) && maps[0] == map[]
    ensures Sound(t0, trace[n], maps[n])
  {
    hide Fresh, Refines, Parsed, ConfigKeys, Permitted, Sane, Took, Step, RequestOf;
    if n == 0 {
      FreshRefinesNothing(t0);
    } else {
      StoresSound(t0, trace, maps, calls, oks, n - 1);
      CallKeepsStores(t0, trace[n - 1], trace[n], maps[n - 1], calls[n - 1], oks[n - 1]);
    }
  }
}
