/** Installing an Xray edit with rollback. */
module XrayApply {
  import opened Base
  import opened JsonTree
  import opened XrayDrift
  import opened XrayEdits
  import O = XrayOutcomes

  // Installing an edited Xray config with rollback (`adapters/xray_config.py`, direct mode), in all three apply
  // modes. What every command answers is a parameter.

  datatype Mode = Reload | Restart | Api

  /** How a command ends: well, with a result that is not ok, or with an exception out of the runner. */
  datatype Answer = Good | Bad | Raised

  /** A command that answers `Good` took effect; any other may have. */
  datatype Reply = Reply(answer: Answer, took: bool)

  /** `_api_reload_inbound`: whether the config could be read and the payload written, then `rmi`, then `adi`. */
  datatype Rebuild = Rebuild(ready: bool, rmi: Reply, adi: Reply)

  /** Answers during one edit. A false flag is an error or an exception at that point; `apply` is the reload or
      restart and `active` the `is-active` behind it; `undo` is the rebuild of the API rollback; `rebuilt` is the
      running inbound after systemd was asked to reload or restart. */
  datatype Answers = Answers(
    current: bool, backup: bool, read: bool, write: bool, test: bool, same: bool, replace: bool,
    apply: Answer, active: Answer, restore: bool, api: Rebuild, undo: Rebuild, rebuilt: Option<Json>)

  /** The inbound the adapter serves, in a config. */
  function Served(config: Fields, t: Target): Option<Json> {
    var items := Items(config, "inbounds");
    if Get(config, "inbounds").Arr? && Found(items, t).Ok? then Some(items[Found(items, t).value]) else None
  }

  /** Whether the edit inserts or removes a short id, which keeps it off the API path. */
  predicate TouchesShortId(config: Fields, t: Target, e: Edit) {
    var before := if Served(config, t).Some? then Served(config, t).value else Null;
    match e
    case AddClient(_, _, _, id, manage) => manage && ShortIdAdded(before, id).Ok? && ShortIdAdded(before, id).value.1
    case RemoveClient(_, _, id, remove) =>
      remove && id != "" && ShortIdRemoved(before, id).Ok? && ShortIdRemoved(before, id).value.1
    case _ => true
  }

  /** Running config and disk agree on the served inbound. */
  predicate Synced(config: Fields, running: Option<Json>, t: Target) {
    Served(config, t).Some? && running == Served(config, t)
  }

  // ---------------------------------------------------------------- what an edit does

  /** How a call ends, with config.json and the running inbound it leaves. */
  datatype Outcome = Outcome(ok: bool, disk: Fields, running: Option<Json>)

  /** The candidate was tested and took the place of config.json. */
  predicate Replaced(a: Answers) {
    a.test && a.same && a.replace
  }

  /** The service came up with the candidate. */
  predicate CameUp(a: Answers) {
    a.apply.Good? && a.active.Good?
  }

  /** A service command raised instead of answering, so the code behind it did not run. */
  predicate ServiceRaised(a: Answers) {
    a.apply.Raised? || (a.apply.Good? && a.active.Raised?)
  }

  /** `_apply_or_restore`, with the candidate in place. */
  function Applied(candidate: Fields, backup: Fields, a: Answers): Outcome {
    if CameUp(a) then Outcome(true, candidate, a.rebuilt)
    else Outcome(false, if !ServiceRaised(a) && a.restore then backup else candidate, a.rebuilt)
  }

  function Took(r: Reply): bool {
    r.answer.Good? || r.took
  }

  /** Whether the inbound went out and in again, and the running inbound afterwards. */
  function Rebuilt(inbound: Option<Json>, running: Option<Json>, r: Rebuild): (bool, Option<Json>) {
    if inbound == None || !r.ready then (false, running)
    else
      var gone := if Took(r.rmi) then None else running;
      if r.rmi.answer.Raised? then (false, gone)
      else (r.adi.answer.Good?, if Took(r.adi) then inbound else gone)
  }

  /** `_install_candidate_api`, with the candidate in place; every exception is caught and undone. */
  function AppliedApi(candidate: Fields, backup: Fields, running: Option<Json>, t: Target, a: Answers): Outcome {
    var first := Rebuilt(Served(candidate, t), running, a.api);
    if first.0 then Outcome(true, candidate, first.1)
    else if !a.restore then Outcome(false, candidate, first.1)
    else
      var second := Rebuilt(Served(backup, t), first.1, a.undo);
      Outcome(false, backup, if second.0 then second.1 else a.rebuilt)
  }

  /** The edit goes through the API: a pure client add or remove in `api` mode. */
  predicate ByApi(mode: Mode, config: Fields, t: Target, e: Edit) {
    mode == Api && !TouchesShortId(config, t, e)
  }

  function Installed(mode: Mode, disk: Fields, running: Option<Json>, t: Target, e: Edit, candidate: Fields,
                     a: Answers): Outcome {
    if !Replaced(a) then Outcome(false, disk, running)
    else if ByApi(mode, disk, t, e) then AppliedApi(candidate, disk, running, t, a)
    else Applied(candidate, disk, a)
  }

  /** One call of `add_client`, `remove_client`, `rename_clients` or `ensure_short_id`. */
  function Performed(mode: Mode, disk: Fields, running: Option<Json>, t: Target, e: Edit, w: Warp,
      a: Answers): Outcome {
    if Idle(t, e) then Outcome(true, disk, running)
    else if !a.current || !a.backup || !a.read then Outcome(false, disk, running)
    else
      match Edited(disk, t, e, w)
      case Err(_) => Outcome(false, disk, running)
      case Ok(None) => Outcome(true, disk, running)
      case Ok(Some(candidate)) =>
        if !a.write then Outcome(false, disk, running) else Installed(mode, disk, running, t, e, candidate, a)
  }

  class Adapter {
    const mode: Mode
    const target: Target
    var disk: Fields
    /** The inbound in the running Xray, as the API sees it. */
    var running: Option<Json>

    constructor (mode: Mode, target: Target, disk: Fields, running: Option<Json>)
      ensures this.mode == mode && this.target == target
      ensures this.disk == disk && this.running == running
    {
      this.mode, this.target, this.disk, this.running := mode, target, disk, running;
    }

    /** `_reload_or_restore` and `_restart_or_restore`: nothing catches what a service command raises. */
    method ApplyOrRestore(backup: Fields, a: Answers) returns (ok: bool)
      modifies this
      ensures Outcome(ok, disk, running) == Applied(old(disk), backup, a)
    {
      running := a.rebuilt;
      if a.apply.Raised? {
        return false;
      }
      if a.apply.Good? {
        if a.active.Raised? {
          return false;
        }
        if a.active.Good? {
          return true;
        }
      }
      if a.restore {
        disk := backup;
      }
      return false;
    }

    /** `_install_candidate`. */
    method InstallCandidate(candidate: Fields, a: Answers) returns (ok: bool)
      modifies this
      ensures ok <==> Replaced(a) && CameUp(a)
      ensures Outcome(ok, disk, running)
              == if Replaced(a) then Applied(candidate, old(disk), a) else Outcome(false, old(disk), old(running))
    {
      if !a.test || !a.same || !a.replace {
        return false;
      }
      var backup := disk;
      disk := candidate;
      ok := ApplyOrRestore(backup, a);
    }

    /** `_api_reload_inbound`: take the inbound out of the running Xray and put the one on disk in. */
    method ApiReloadInbound(r: Rebuild) returns (ok: bool)
      modifies this`running
      ensures (ok, running) == Rebuilt(Served(disk, target), old(running), r)
    {
      hide Served;
      var inbound := Served(disk, target);
      if inbound == None || !r.ready {
        return false;
      }
      if Took(r.rmi) {
        running := None;
      }
      if r.rmi.answer.Raised? {
        return false;
      }
      if Took(r.adi) {
        running := inbound;
      }
      return r.adi.answer.Good?;
    }

    /** `_install_candidate_api`. */
    method InstallCandidateApi(candidate: Fields, a: Answers) returns (ok: bool)
      modifies this
      ensures Outcome(ok, disk, running)
              == if Replaced(a) then AppliedApi(candidate, old(disk), old(running), target, a)
                 else Outcome(false, old(disk), old(running))
    {
      hide Served, Rebuilt;
      if !a.test || !a.same || !a.replace {
        return false;
      }
      var backup := disk;
      disk := candidate;
      ok := ApiReloadInbound(a.api);
      if ok {
        return;
      }
      if !a.restore {
        return;
      }
      disk := backup;
      var back := ApiReloadInbound(a.undo);
      if !back {
        running := a.rebuilt;
      }
    }

    /** `add_client`, `remove_client`, `rename_clients` and `ensure_short_id`: one edit, written and applied, or
        refused. */
    method Perform(e: Edit, w: Warp, a: Answers) returns (ok: bool)
      modifies this
      ensures Outcome(ok, disk, running) == Performed(mode, old(disk), old(running), target, e, w, a)
    {
      hide Edited, TouchesShortId, Applied, AppliedApi, Replaced;
      if Idle(target, e) {
        return true;
      }
      if !a.current || !a.backup || !a.read {
        return false;
      }
      var edited := Edited(disk, target, e, w);
      if edited.Err? {
        return false;
      }
      if edited.value == None {
        return true;
      }
      if !a.write {
        return false;
      }
      if mode == Api && !TouchesShortId(disk, target, e) {
        ok := InstallCandidateApi(edited.value.value, a);
      } else {
        ok := InstallCandidate(edited.value.value, a);
      }
    }
  }

  // ---------------------------------------------------------------- what an edit promises

  /** Something is written. */
  predicate Writes(disk: Fields, t: Target, e: Edit, w: Warp) {
    Edited(disk, t, e, w).Ok? && Edited(disk, t, e, w).value.Some?
  }

  /** The call got as far as replacing config.json. */
  predicate WentOut(disk: Fields, t: Target, e: Edit, w: Warp, a: Answers) {
    a.current && a.backup && a.read && a.write && Replaced(a) && Writes(disk, t, e, w)
  }

  lemma AppliedLaw(candidate: Fields, backup: Fields, a: Answers)
    requires candidate != backup
    ensures var o := Applied(candidate, backup, a);
            && (o.ok ==> o.disk == candidate)
            && (!o.ok ==> (o.disk == backup <==> a.restore && !ServiceRaised(a)))
  {
  }

  lemma AppliedApiLaw(candidate: Fields, backup: Fields, running: Option<Json>, t: Target, a: Answers)
    requires candidate != backup
    ensures var o := AppliedApi(candidate, backup, running, t, a);
            (o.ok ==> o.disk == candidate) && (!o.ok ==> (o.disk == backup <==> a.restore))
  {
    hide Served, Rebuilt;
  }

  lemma InstalledLaw(mode: Mode, disk: Fields, running: Option<Json>, t: Target, e: Edit, candidate: Fields, a: Answers)
    requires candidate != disk
    ensures var o := Installed(mode, disk, running, t, e, candidate, a);
            && (o.ok ==> o.disk == candidate && Replaced(a))
            && (!o.ok ==> (o.disk == disk <==>
                             !Replaced(a) || (a.restore && (ByApi(mode, disk, t, e) || !ServiceRaised(a)))))
  {
    hide ByApi, Applied, AppliedApi, ServiceRaised;
    AppliedLaw(candidate, disk, a);
    AppliedApiLaw(candidate, disk, running, t, a);
  }

  /** A call that returns leaves the edited config on the disk, or the old one when there was nothing to write; a call
      that raises leaves the old one exactly when it failed before the replace, or its rollback was reached and worked.
      The rollback is not reached when a service command raises outside the API path. */
  lemma PerformedLaw(mode: Mode, disk: Fields, running: Option<Json>, t: Target, e: Edit, w: Warp, a: Answers)
    ensures var o := Performed(mode, disk, running, t, e, w, a);
            && (o.ok ==> Edited(disk, t, e, w).Ok?
                         && o.disk == if Writes(disk, t, e, w) then Edited(disk, t, e, w).value.value else disk)
            && (!o.ok ==> (o.disk == disk <==>
                             !WentOut(disk, t, e, w, a)
                             || (a.restore && (ByApi(mode, disk, t, e) || !ServiceRaised(a)))))
            && (!Writes(disk, t, e, w) ==> o.running == running
                                           && (o.ok <==>
                                                 Idle(t, e)
                                                 || (a.current && a.backup && a.read && Edited(disk, t, e, w).Ok?)))
  {
    hide Edited, ByApi, Installed, ServiceRaised, Replaced, Idle;
    IdleWritesNothing(disk, t, e, w);
    if Writes(disk, t, e, w) {
      EditedDiffers(disk, t, e, w);
      InstalledLaw(mode, disk, running, t, e, Edited(disk, t, e, w).value.value, a);
    }
  }

  /** A call succeeds exactly when there is nothing to do, or the edit is accepted and every step to it succeeds: the
      service reloads or restarts and is active, or the API takes the inbound out and puts it in again. */
  lemma PerformedOkIff(mode: Mode, disk: Fields, running: Option<Json>, t: Target, e: Edit, w: Warp, a: Answers)
    ensures Performed(mode, disk, running, t, e, w, a).ok <==>
            || Idle(t, e)
            || (&& a.current && a.backup && a.read && Edited(disk, t, e, w).Ok?
                && (Edited(disk, t, e, w).value.None?
                    || (&& a.write && a.test && a.same && a.replace
                        && if ByApi(mode, disk, t, e) then
                             && Served(Edited(disk, t, e, w).value.value, t).Some?
                             && a.api.ready && !a.api.rmi.answer.Raised? && a.api.adi.answer.Good?
                           else a.apply.Good? && a.active.Good?)))
  {
    hide Edited, ByApi, Idle, Served;
  }

  /** Only a client is added or removed through the API: never a short id that has to be put in or taken out, and never
      a new label. */
  lemma ByApiIff(mode: Mode, config: Fields, t: Target, e: Edit, w: Warp)
    requires Writes(config, t, e, w)
    ensures Served(config, t).Some?
    ensures var ids := O.List(O.ShortIdsAt(Served(config, t).value));
            ByApi(mode, config, t, e) <==>
            && mode == Api
            && match e
               case AddClient(_, _, _, id, manage) => !(manage && Str(id) !in ids)
               case RemoveClient(_, _, id, remove) => !(remove && id != "" && Str(id) in ids)
               case _ => false
  {
    O.EditedOutcome(config, t, e, w);
    var before := Served(config, t).value;
    TakesIds(before, e);
    hide Found, ShortIdAdded, ShortIdRemoved, Edited, EditedInbound, O.ShortIdsAt, O.TakesShortId, HasReality;
    match e {
      case AddClient(_, _, _, id, _) => O.AddedIdOutcome(before, id);
      case RemoveClient(_, _, id, _) => var _ := O.RemovedIdOutcome(before, id);
      case _ =>
    }
  }

  /** An accepted edit finds a place for the short id it is to manage. */
  lemma TakesIds(inbound: Json, e: Edit)
    requires Dig(inbound, "settings").Obj? && EditedInbound(inbound, e).Ok?
    ensures e.AddClient? && e.manageShortId ==> O.TakesShortId(inbound)
    ensures e.RemoveClient? && e.removeShortId && e.shortId != "" ==> HasReality(inbound)
  {
    hide O.TakesShortId, HasReality, O.Taken, O.WithoutMeant;
    match e {
      case AddClient(uuid, email, flow, id, manage) =>
        O.AddInboundOutcome(inbound, ClientsOf(inbound).value, uuid, email, flow, id, manage);
      case RemoveClient(uuid, email, id, remove) =>
        var _, _ := O.RemoveInboundOutcome(inbound, ClientsOf(inbound).value, uuid, email, id, remove);
      case _ =>
    }
  }

  /** A reload that raises, a rollback that would have worked: the edit fails and stays on the disk. */
  lemma RaisingReloadKeepsCandidate(disk: Fields, running: Option<Json>, t: Target, e: Edit, w: Warp, idle: Rebuild)
    requires Writes(disk, t, e, w)
    ensures var a := Answers(true, true, true, true, true, true, true, Raised, Good, true, idle, idle, running);
            var o := Performed(Reload, disk, running, t, e, w, a);
            !o.ok && o.disk == Edited(disk, t, e, w).value.value && o.disk != disk
  {
    hide Edited, TouchesShortId, Idle;
    IdleWritesNothing(disk, t, e, w);
    EditedDiffers(disk, t, e, w);
  }

  /** Through the API the running inbound follows the disk: on return, and after a failure that was rolled back. */
  lemma ApiFollowsDisk(disk: Fields, running: Option<Json>, t: Target, e: Edit, w: Warp, a: Answers)
    requires ByApi(Api, disk, t, e) && Synced(disk, running, t)
    ensures var o := Performed(Api, disk, running, t, e, w, a);
            && (o.ok || !WentOut(disk, t, e, w, a) ==> Synced(o.disk, o.running, t))
            && (!o.ok && a.restore && a.undo.ready && !a.undo.rmi.answer.Raised? && a.undo.adi.answer.Good? ==>
                  o.disk == disk && o.running == running)
  {
    hide Edited, TouchesShortId, Served;
  }

  /** However the call ends, the drift report sees the same stripped config. */
  lemma PerformedKeepsStripped(mode: Mode, disk: Fields, running: Option<Json>, t: Target, e: Edit, w: Warp, a: Answers)
    requires AllListed(disk)
    ensures var o := Performed(mode, disk, running, t, e, w, a);
            AllListed(o.disk) && Stripped(o.disk) == Stripped(disk)
  {
    hide TouchesShortId, Served, AllListed, Stripped, Edited, Rebuilt;
    WriteKeepsStripped(disk, Write(t, e, w));
  }
}
