/** Four end-to-end cases of the bot's flows, whose assertions the verifier
    proves from the contracts alone: a paid purchase, a refused purchase, a
    failed launch, and a delete. */
module Scenarios {
  import opened Types
  import opened Backend
  import Text
  import Names
  import Ledger
  import Registry
  import opened Provisioning

  const Catalog: map<string, Plan> := map["basic" := Plan("Basic", 1024, 1, 10, 40)]
  const Noon: Names.Stamp := Names.Stamp(2025, 3, 14, 12, 0, 0)
  const Fine: Reply := Reply(0, "", "")
  const Broken: Reply := Reply(1, "", "Error: image not found")

  /** Balance 100, price 40: the purchase succeeds, 60 credits remain and the
      buyer owns one instance. */
  method PaidPurchase()
  {
    var bot := new Bot(Catalog);
    bot.AddCredits(7, 100);
    Text.LowerOfLower("basic");
    var cmds, res := bot.BuyWithCredits(7, "basic", "intel", Noon, "2025-03-14T12:00:00", [Fine, Fine, Fine]);
    assert res.Created? && |cmds| == 3;
    assert Ledger.Balance(bot.credits, 7) == 60;
    Registry.ByOwnerAfterInsert(map[], res.id, bot.vps[res.id]);
    assert |Registry.ByOwner(bot.vps, 7)| == 1;
  }

  /** The owner deletes an instance: the backend `delete` succeeds though the
      forced stop failed, the owner's listing shrinks by one and the balance
      stays. */
  method OwnerDelete()
  {
    var bot := new Bot(Catalog);
    bot.AddCredits(7, 60);
    var id := bot.CreateVpsRecord(7, "user7-basic-250314120000", "basic", 1024, 1, "intel", "2025-03-14T12:00:00");
    var before := bot.vps;
    Text.LowerOfLower("delete");
    var cmds, res := bot.Manage(7, false, "delete", id, [Broken, Fine]);
    assert res == Deleted(id, "user7-basic-250314120000");
    Registry.ByOwnerAfterRemove(before, id, 7);
    assert |Registry.ByOwner(bot.vps, 7)| == |Registry.ByOwner(before, 7)| - 1;
    assert Ledger.Balance(bot.credits, 7) == 60;
  }

  /** Balance 30, price 40: refused before the backend, nothing changes. */
  method RefusedPurchase()
  {
    var bot := new Bot(Catalog);
    bot.AddCredits(7, 30);
    Text.LowerOfLower("basic");
    var cmds, res := bot.BuyWithCredits(7, "basic", "intel", Noon, "2025-03-14T12:00:00", [Fine, Fine, Fine]);
    assert res == InsufficientCredits(40, 30) && cmds == [];
    assert Ledger.Balance(bot.credits, 7) == 30 && bot.vps == map[];
  }

  /** The launch fails: the error text is reported, nothing is charged and
      nothing is recorded. */
  method FailedLaunch()
  {
    var bot := new Bot(Catalog);
    bot.AddCredits(7, 100);
    Text.LowerOfLower("basic");
    var cmds, res := bot.BuyWithCredits(7, "basic", "intel", Noon, "2025-03-14T12:00:00", [Broken, Fine, Fine]);
    assert res == BackendFailed("Error: image not found") && |cmds| == 1;
    assert Ledger.Balance(bot.credits, 7) == 100 && bot.vps == map[];
  }
}
