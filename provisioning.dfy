/** The provisioning state behind the bot's commands: the `users` table, the
    `vps` table with its AUTOINCREMENT counter, and the plan catalog, with the
    table helpers and the orchestration each command handler performs. Whether
    the caller is an administrator (`is_admin_ctx`) is an input. */
module Provisioning {
  import opened Types
  import opened Text
  import opened Backend
  import Names
  import Ledger
  import Registry

  /** How a command ends; each case stands for one reply the handler sends. */
  datatype Outcome =
    | Unauthorized                               // "You are not authorized."
    | UnknownPlan                                // "Unknown plan." / "Plan not found."
    | InsufficientCredits(cost: int, have: int)  // "You need {cost} credits but have {have}."
    | BackendFailed(msg: string)                 // "Failed ...: {msg}" / "Action failed: {msg}"
    | Created(id: int, name: string)
    | NotFound                                   // "VPS not found." / "VPS not found for that user/id."
    | NotOwner                                   // "You don't own this VPS."
    | InvalidAction
    | Deleted(id: int, name: string)
    | ActionDone(action: string, msg: string)
    | InvalidAmount
    | CreditsAdded(amount: int)
    | CreditsRemoved(amount: int)
    | AllCreditsRemoved
    | PlanUpdated(key: string)

  /** The name a create flow generates for `owner` and `tag` at time `t`. */
  function NameFor(owner: UserId, tag: string, t: Names.Stamp): string
    requires Names.ValidStamp(t)
  {
    Names.ContainerName(Names.OwnerBase(owner, tag), t)
  }

  class Bot {
    var credits: Ledger.Table
    var vps: Registry.Table
    /** The next id AUTOINCREMENT hands out: one more than the largest id ever
        issued, so ids of deleted rows are never reused. */
    var nextId: nat
    var plans: map<string, Plan>

    ghost predicate Valid()
      reads this
    {
      nextId >= 1 && forall id :: id in vps ==> 1 <= id < nextId
    }

    constructor (catalog: map<string, Plan>)
      ensures Valid()
      ensures credits == map[] && vps == map[] && nextId == 1 && plans == catalog
    {
      credits, vps, nextId, plans := map[], map[], 1, catalog;
    }

    // ---------- ledger ----------

    /** `add_credits`. */
    method AddCredits(u: UserId, amount: int)
      modifies this`credits
      ensures credits == Ledger.Credit(old(credits), u, amount)
    {
      credits := credits[u := Ledger.Balance(credits, u) + amount];
    }

    /** `remove_credits`. */
    method RemoveCredits(u: UserId, amount: int) returns (found: bool)
      modifies this`credits
      ensures (credits, found) == Ledger.Debit(old(credits), u, amount)
    {
      if u !in credits {
        return false;
      }
      var remaining := credits[u] - amount;
      if remaining < 0 {
        remaining := 0;
      }
      credits := credits[u := remaining];
      found := true;
    }

    /** The "remove all" UPDATE of the `adminrc` handler. */
    method ZeroCredits(u: UserId)
      modifies this`credits
      ensures credits == Ledger.Zero(old(credits), u)
    {
      if u in credits {
        credits := credits[u := 0];
      }
    }

    // ---------- registry ----------

    /** `create_vps_record`: a new row with status "running" under a fresh id
        larger than every id issued before; existing rows are untouched. */
    method CreateVpsRecord(owner: UserId, name: string, plan: string, ram: int, cpu: int,
                           arch: string, createdAt: string) returns (id: nat)
      requires Valid()
      modifies this`vps, this`nextId
      ensures Valid()
      ensures id == old(nextId) && nextId == id + 1
      ensures forall k :: k in old(vps) ==> k < id
      ensures vps == old(vps)[id := Vps(owner, name, plan, ram, cpu, arch, "running", createdAt)]
    {
      id := nextId;
      vps := vps[id := Vps(owner, name, plan, ram, cpu, arch, "running", createdAt)];
      nextId := nextId + 1;
    }

    /** `delete_vps_record`: removes the row with that id, if any, and no other. */
    method DeleteVpsRecord(id: int)
      requires Valid()
      modifies this`vps
      ensures Valid()
      ensures vps == old(vps) - {id}
    {
      vps := vps - {id};
    }

    // ---------- orchestration ----------

    /** `buywc`: the charged create. An unknown plan or a balance below the
        price ends it before the backend is called. The container is created
        before anything is charged: the ledger and the registry change only
        when the launch succeeded, and then the buyer pays exactly the price
        and exactly one row is added. */
    method BuyWithCredits(buyer: UserId, planArg: string, archArg: string, stamp: Names.Stamp,
                          createdAt: string, replies: seq<Reply>) returns (cmds: seq<Cmd>, res: Outcome)
      requires Valid() && Names.ValidStamp(stamp) && |replies| >= 3
      modifies this`credits, this`vps, this`nextId
      ensures Valid()
      ensures Lower(planArg) !in plans ==> res == UnknownPlan && cmds == []
      ensures var key := Lower(planArg);
              key in plans && Ledger.Balance(old(credits), buyer) < plans[key].price ==>
                res == InsufficientCredits(plans[key].price, Ledger.Balance(old(credits), buyer)) && cmds == []
      ensures var key := Lower(planArg);
              key in plans && Ledger.Balance(old(credits), buyer) >= plans[key].price ==>
                && |cmds| >= 1
                && cmds[0] == Launch(DefaultImage, NameFor(buyer, key, stamp), DefaultProfiles)
                && (res.Created? <==> replies[0].rc == 0)
                && (replies[0].rc != 0 ==> res == BackendFailed(Diagnostic(replies[0])) && cmds == [cmds[0]])
      ensures !res.Created? ==> credits == old(credits) && vps == old(vps) && nextId == old(nextId)
      ensures res.Created? ==>
                var key := Lower(planArg);
                && key in plans
                && plans[key].price <= Ledger.Balance(old(credits), buyer)
                && res.name == NameFor(buyer, key, stamp)
                && cmds == [Launch(DefaultImage, res.name, DefaultProfiles),
                            SetConfig(res.name, "limits.memory", plans[key].ramMb * BytesPerMb),
                            SetConfig(res.name, "limits.cpu", plans[key].cpu)]
                && res.id == old(nextId) && nextId == old(nextId) + 1 && res.id !in old(vps)
                && vps == old(vps)[res.id := Vps(buyer, res.name, key, plans[key].ramMb, plans[key].cpu,
                                                 Lower(archArg), "running", createdAt)]
                && credits == if buyer in old(credits)
                              then old(credits)[buyer := old(credits)[buyer] - plans[key].price]
                              else old(credits)
    {
      var key := Lower(planArg);
      var arch := Lower(archArg);
      if key !in plans {
        return [], UnknownPlan;
      }
      var cost := plans[key].price;
      var have := Ledger.Balance(credits, buyer);
      if have < cost {
        return [], InsufficientCredits(cost, have);
      }
      var name := NameFor(buyer, key, stamp);
      var ok, msg;
      cmds, ok, msg := CreateContainer(name, Some(DefaultImage), Some(DefaultProfiles),
                                       Some(plans[key].ramMb), Some(plans[key].cpu), replies);
      if !ok {
        return cmds, BackendFailed(msg);
      }
      // The handler ignores whether the debit found a row.
      var charged := RemoveCredits(buyer, cost);
      if charged {
        Ledger.DebitCovered(old(credits), buyer, cost);
      }
      var id := CreateVpsRecord(buyer, name, key, plans[key].ramMb, plans[key].cpu, arch, createdAt);
      res := Created(id, name);
    }

    /** `create`: an administrator's uncharged create with raw resources, plan
        "custom" and arch "intel". The ledger is outside its frame. */
    method AdminCreate(isAdmin: bool, target: UserId, ramMb: int, cpuCores: int, stamp: Names.Stamp,
                       createdAt: string, replies: seq<Reply>) returns (cmds: seq<Cmd>, res: Outcome)
      requires Valid() && Names.ValidStamp(stamp) && |replies| >= 3
      modifies this`vps, this`nextId
      ensures Valid()
      ensures !isAdmin ==> res == Unauthorized && cmds == []
      ensures isAdmin ==>
                && cmds == (if replies[0].rc == 0
                            then [Launch(DefaultImage, NameFor(target, "custom", stamp), DefaultProfiles),
                                  SetConfig(NameFor(target, "custom", stamp), "limits.memory", ramMb * BytesPerMb),
                                  SetConfig(NameFor(target, "custom", stamp), "limits.cpu", cpuCores)]
                            else [Launch(DefaultImage, NameFor(target, "custom", stamp), DefaultProfiles)])
                && (res.Created? <==> replies[0].rc == 0)
                && (replies[0].rc != 0 ==> res == BackendFailed(Diagnostic(replies[0])))
      ensures !res.Created? ==> vps == old(vps) && nextId == old(nextId)
      ensures res.Created? ==>
                && res.name == NameFor(target, "custom", stamp)
                && res.id == old(nextId) && nextId == old(nextId) + 1 && res.id !in old(vps)
                && vps == old(vps)[res.id := Vps(target, res.name, "custom", ramMb, cpuCores, "intel", "running", createdAt)]
    {
      if !isAdmin {
        return [], Unauthorized;
      }
      var name := NameFor(target, "custom", stamp);
      var ok, msg;
      cmds, ok, msg := CreateContainer(name, Some(DefaultImage), Some(DefaultProfiles), Some(ramMb), Some(cpuCores), replies);
      if !ok {
        return cmds, BackendFailed(msg);
      }
      var id := CreateVpsRecord(target, name, "custom", ramMb, cpuCores, "intel", createdAt);
      res := Created(id, name);
    }

    /** `giveplan`: an administrator's uncharged create with a catalog plan's
        resources, the default image and profile, and arch "intel". */
    method GivePlan(isAdmin: bool, target: UserId, planArg: string, stamp: Names.Stamp,
                    createdAt: string, replies: seq<Reply>) returns (cmds: seq<Cmd>, res: Outcome)
      requires Valid() && Names.ValidStamp(stamp) && |replies| >= 3
      modifies this`vps, this`nextId
      ensures Valid()
      ensures !isAdmin ==> res == Unauthorized && cmds == []
      ensures isAdmin && Lower(planArg) !in plans ==> res == UnknownPlan && cmds == []
      ensures var key := Lower(planArg);
              isAdmin && key in plans ==>
                && |cmds| >= 1
                && cmds[0] == Launch(DefaultImage, NameFor(target, key, stamp), DefaultProfiles)
                && (res.Created? <==> replies[0].rc == 0)
                && (replies[0].rc != 0 ==> res == BackendFailed(Diagnostic(replies[0])) && cmds == [cmds[0]])
      ensures !res.Created? ==> vps == old(vps) && nextId == old(nextId)
      ensures res.Created? ==>
                var key := Lower(planArg);
                && key in plans
                && res.name == NameFor(target, key, stamp)
                && cmds == [Launch(DefaultImage, res.name, DefaultProfiles),
                            SetConfig(res.name, "limits.memory", plans[key].ramMb * BytesPerMb),
                            SetConfig(res.name, "limits.cpu", plans[key].cpu)]
                && res.id == old(nextId) && nextId == old(nextId) + 1 && res.id !in old(vps)
                && vps == old(vps)[res.id := Vps(target, res.name, key, plans[key].ramMb, plans[key].cpu,
                                                 "intel", "running", createdAt)]
    {
      if !isAdmin {
        return [], Unauthorized;
      }
      var key := Lower(planArg);
      if key !in plans {
        return [], UnknownPlan;
      }
      var plan := plans[key];
      var name := NameFor(target, key, stamp);
      var ok, msg;
      cmds, ok, msg := CreateContainer(name, None, None, Some(plan.ramMb), Some(plan.cpu), replies);
      if !ok {
        return cmds, BackendFailed(msg);
      }
      var id := CreateVpsRecord(target, name, key, plan.ramMb, plan.cpu, "intel", createdAt);
      res := Created(id, name);
    }

    /** `manage`: the owner, or an administrator, deletes an instance or runs a
        lifecycle action on it. Only a successful backend `delete` removes the
        row; the forced stop before it is not consulted. Lifecycle actions touch
        neither the ledger nor the registry. */
    method Manage(caller: UserId, isAdmin: bool, actionArg: string, vpsId: int, replies: seq<Reply>)
      returns (cmds: seq<Cmd>, res: Outcome)
      requires Valid() && |replies| >= 2
      modifies this`vps
      ensures Valid()
      ensures vpsId !in old(vps) ==> res == NotFound && cmds == []
      ensures vpsId in old(vps) && old(vps)[vpsId].owner != caller && !isAdmin ==> res == NotOwner && cmds == []
      ensures vpsId in old(vps) && (old(vps)[vpsId].owner == caller || isAdmin) ==>
                var name := old(vps)[vpsId].containerName;
                var action := Lower(actionArg);
                && (action == "delete" ==>
                      && cmds == [ForceStop(name), Remove(name)]
                      && res == (if replies[1].rc == 0 then Deleted(vpsId, name)
                                 else BackendFailed(Diagnostic(replies[1]))))
                && (action != "delete" && !IsAction(action) ==> res == InvalidAction && cmds == [])
                && (IsAction(action) ==>
                      && cmds == [Lifecycle(action, name)]
                      && res == (if replies[0].rc == 0 then ActionDone(action, OrElse(replies[0].out, "OK"))
                                 else BackendFailed(Diagnostic(replies[0]))))
      ensures res.Deleted? ==> vps == old(vps) - {vpsId}
      ensures !res.Deleted? ==> vps == old(vps)
    {
      var row := Registry.Lookup(vps, vpsId);
      if row.None? {
        return [], NotFound;
      }
      if row.value.owner != caller && !isAdmin {
        return [], NotOwner;
      }
      var name := row.value.containerName;
      var action := Lower(actionArg);
      if action == "delete" {
        var ok, msg;
        cmds, ok, msg := DeleteContainer(name, replies);
        if !ok {
          return cmds, BackendFailed(msg);
        }
        DeleteVpsRecord(vpsId);
        return cmds, Deleted(vpsId, name);
      }
      if !IsAction(action) {
        return [], InvalidAction;
      }
      var ok, msg;
      cmds, ok, msg := ActionContainer(name, action, replies);
      if !ok {
        return cmds, BackendFailed(msg);
      }
      res := ActionDone(action, msg);
    }

    /** `delete-vps`: an administrator deletes an instance, which must belong to
        the named user. The row goes only when the backend `delete` succeeded. */
    method AdminDelete(isAdmin: bool, target: UserId, vpsId: int, replies: seq<Reply>)
      returns (cmds: seq<Cmd>, res: Outcome)
      requires Valid() && |replies| >= 2
      modifies this`vps
      ensures Valid()
      ensures !isAdmin ==> res == Unauthorized && cmds == []
      ensures isAdmin && (vpsId !in old(vps) || old(vps)[vpsId].owner != target) ==> res == NotFound && cmds == []
      ensures isAdmin && vpsId in old(vps) && old(vps)[vpsId].owner == target ==>
                var name := old(vps)[vpsId].containerName;
                && cmds == [ForceStop(name), Remove(name)]
                && res == (if replies[1].rc == 0 then Deleted(vpsId, name) else BackendFailed(Diagnostic(replies[1])))
      ensures res.Deleted? ==> vps == old(vps) - {vpsId}
      ensures !res.Deleted? ==> vps == old(vps)
    {
      if !isAdmin {
        return [], Unauthorized;
      }
      var row := Registry.Lookup(vps, vpsId);
      if row.None? || row.value.owner != target {
        return [], NotFound;
      }
      var name := row.value.containerName;
      var ok, msg;
      cmds, ok, msg := DeleteContainer(name, replies);
      if !ok {
        return cmds, BackendFailed(msg);
      }
      DeleteVpsRecord(vpsId);
      res := Deleted(vpsId, name);
    }

    /** `adminc`: an administrator adds credits; the amount may be negative. */
    method AdminAddCredits(isAdmin: bool, target: UserId, amount: int) returns (res: Outcome)
      modifies this`credits
      ensures !isAdmin ==> res == Unauthorized && credits == old(credits)
      ensures isAdmin ==> res == CreditsAdded(amount) && credits == Ledger.Credit(old(credits), target, amount)
    {
      if !isAdmin {
        return Unauthorized;
      }
      AddCredits(target, amount);
      res := CreditsAdded(amount);
    }

    /** `adminrc`: "all" zeroes an existing row; otherwise the text must parse
        as an integer, which is debited with `remove_credits` (its result is
        ignored, so a user without a row is reported as debited too). */
    method AdminRemoveCredits(isAdmin: bool, target: UserId, amount: string) returns (res: Outcome)
      modifies this`credits
      ensures !isAdmin ==> res == Unauthorized && credits == old(credits)
      ensures isAdmin && amount == "all" ==> res == AllCreditsRemoved && credits == Ledger.Zero(old(credits), target)
      ensures isAdmin && amount != "all" && ParseInt(amount).None? ==> res == InvalidAmount && credits == old(credits)
      ensures isAdmin && amount != "all" && ParseInt(amount).Some? ==>
                res == CreditsRemoved(ParseInt(amount).value) &&
                credits == Ledger.Debit(old(credits), target, ParseInt(amount).value).0
    {
      if !isAdmin {
        return Unauthorized;
      }
      if amount == "all" {
        ZeroCredits(target);
        return AllCreditsRemoved;
      }
      var parsed := ParseInt(amount);
      if parsed.None? {
        return InvalidAmount;
      }
      var _ := RemoveCredits(target, parsed.value);
      res := CreditsRemoved(parsed.value);
    }

    /** `editplans`: an administrator changes a plan's RAM, CPU and disk in
        place; its display name and price, and every other plan, are kept. */
    method EditPlan(isAdmin: bool, planName: string, ramMb: int, cpu: int, diskGb: int) returns (res: Outcome)
      modifies this`plans
      ensures !isAdmin ==> res == Unauthorized && plans == old(plans)
      ensures isAdmin && Lower(planName) !in old(plans) ==> res == UnknownPlan && plans == old(plans)
      ensures var key := Lower(planName);
              isAdmin && key in old(plans) ==>
                && res == PlanUpdated(key)
                && plans.Keys == old(plans).Keys
                && plans[key] == Plan(old(plans)[key].name, ramMb, cpu, diskGb, old(plans)[key].price)
                && forall k :: k in old(plans) && k != key ==> plans[k] == old(plans)[k]
    {
      if !isAdmin {
        return Unauthorized;
      }
      var key := Lower(planName);
      if key !in plans {
        return UnknownPlan;
      }
      plans := plans[key := plans[key].(ramMb := ramMb, cpu := cpu, diskGb := diskGb)];
      res := PlanUpdated(key);
    }
  }
}
