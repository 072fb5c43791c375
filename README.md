# LXC VPS bot: provisioning model

A Dafny model of the provisioning core of `lxc_vps_bot.py`, a Discord bot that
rents LXC containers ("VPS") for credits. The model keeps the bot's three
pieces of state in one class, `Provisioning.Bot`:

- the credit ledger (`users` table), a map from user id to credits;
- the instance registry (`vps` table), a map from row id to row, with the
  AUTOINCREMENT counter `nextId`;
- the plan catalog (`plans.json`), a map from plan key to ram, cpu, disk and
  price.

The read-only table helpers are functions on map values: `get_credits` is
`Ledger.Balance`, `get_vps_by_id` is `Registry.Lookup` and `get_user_vps` is
`Registry.ByOwner`. The helpers that write are methods of `Bot`:
`add_credits`, `remove_credits` and the "remove all" update are specified by
`Ledger.Credit`, `Ledger.Debit` and `Ledger.Zero`, while `create_vps_record`
and `delete_vps_record` state the map update they make directly in their
contracts. The LXC adapter (`create_container`,
`delete_container`, `action_container`) is the module `Backend`: each
operation is a method that is given the `(rc, out, err)` replies the backend
would return, in order, and returns the commands it issued together with its
`(ok, msg)` result. Container-name generation (lower-casing, the `NAME_RE`
filter, the `%y%m%d%H%M%S` suffix) is the module `Names`, with the string
conversions it relies on in `Text`. The command handlers' logic — charged buy,
admin create, give-plan, manage, admin delete, admin credit changes and plan
edit — are methods of `Bot`; whether the caller is an administrator is a
boolean input, and the clock is a `Stamp` (for the name) and a `createdAt`
string (for the row). `Scenarios` states four end-to-end cases whose
assertions the verifier proves from the contracts alone. `Backend.Argv` gives
the `lxc` argument vector of each command the adapter issues.

The cross-resource invariant, stated in the contracts of the flows: a create
flow changes the ledger or the registry only when the backend launch
succeeded, and a delete flow removes a row only when the backend `delete`
succeeded; a failed forced stop before it does not matter.

The model follows the code as written; in particular:

- `add_credits` does not check the sign of its amount, and the `adminc`
  handler passes any integer through (lxc_vps_bot.py:284), so balances can be
  negative. `Ledger.ApplyKeepsNonNegative` proves the non-negativity invariant
  only for runs whose additions are non-negative, and
  `Ledger.NegativeAddBreaksNonNegative` shows it fails otherwise.
- The charged buy ignores the result of `remove_credits` (lxc_vps_bot.py:220)
  and reports no inconsistency. A buyer without a ledger row can pass the
  balance check only when the price is 0 or less; the vps row is still added, no
  ledger row is created and nothing is charged, and `Bot.BuyWithCredits` says
  so.
- `get_user_vps` has no ORDER BY, so `Registry.ByOwner` returns a map and
  promises no order.
- The `manage` handler lets an administrator act on any instance, not only its
  owner.
- The `timeout` parameter of `run_lxc_cmd` is never used.

## Model

| member | source | states |
|---|---|---|
| Text.Lower | lxc_vps_bot.py:204-205 | lower-casing keeps the length, leaves no upper-case letter, maps each upper-case letter to its lower-case form and keeps every other character |
| Text.Decimal | lxc_vps_bot.py:212 | the user id is rendered as a non-empty run of decimal digits |
| Text.DecimalValue | lxc_vps_bot.py:212 | the rendered digits read back as the user id, so the rendering is injective |
| Text.IntToString | lxc_vps_bot.py:143-145 | `str()` of an integer is non-empty, starts with `-` exactly when the integer is negative, and is otherwise decimal digits |
| Text.ParseInt | lxc_vps_bot.py:293-296 | a string is accepted exactly when it is an optionally signed numeral (so the empty string is "Invalid amount"); a leading `-` gives a non-positive value, no `-` a non-negative one |
| Text.NumeralEndsInDigit | lxc_vps_bot.py:293-296 | an accepted numeral ends in a digit: an underscore must be followed by one |
| Text.TrailingUnderscoreRejected | lxc_vps_bot.py:293-296 | any amount ending in `_`, signed or not, is rejected ("Invalid amount") |
| Text.ParseIntToString | lxc_vps_bot.py:293-296 | every integer, written as `str()` writes it, is parsed back to itself by `int()` |
| Names.Sanitize | lxc_vps_bot.py:51 | the `NAME_RE` substitution leaves only characters in `[a-z0-9-]` and never lengthens the string |
| Names.SanitizeCounts | lxc_vps_bot.py:51 | every allowed character is kept as often as it occurs and every other character is dropped |
| Names.SanitizeIdempotent | lxc_vps_bot.py:51 | sanitising a sanitised string changes nothing |
| Names.OwnerBaseSanitized | lxc_vps_bot.py:212-213 | sanitising `user{id}-{tag}` keeps `user`, the id digits and the dash intact; only the tag loses characters |
| Names.Suffix | lxc_vps_bot.py:214 | the `%y%m%d%H%M%S` suffix is exactly 12 decimal digits |
| Names.SuffixInjective | lxc_vps_bot.py:214 | two suffixes are equal exactly when the stamps agree on the second and on the year of the century |
| Names.ContainerName | lxc_vps_bot.py:212-215 | the generated name lies within `[a-z0-9-]` and is exactly the sanitised, lower-cased base, then `-`, then the 12-digit suffix |
| Names.DistinctSecondsDistinctNames | lxc_vps_bot.py:212-215 | names generated in different seconds differ whatever the bases; the same base in the same second gives the same name |
| Names.NameDeterminesOwner | lxc_vps_bot.py:212-215 | names generated for two different users never collide, whatever plans and times |
| Ledger.Balance | lxc_vps_bot.py:80-84 | `get_credits` is the stored credits, and 0 for a user without a row |
| Ledger.Credit | lxc_vps_bot.py:86-89 | `add_credits` creates the row with `amount` or adds `amount` to it; every other user keeps their balance |
| Ledger.Debit | lxc_vps_bot.py:91-99 | `remove_credits` returns false and changes nothing without a row; otherwise returns true and sets `max(0, old - amount)`, never negative; other users are untouched |
| Ledger.Zero | lxc_vps_bot.py:290-291 | the "remove all" UPDATE zeroes an existing row, creates none and touches no other user |
| Ledger.DebitCovered | lxc_vps_bot.py:208-211 | a debit of at most the balance lowers it by exactly the amount |
| Ledger.ApplyKeepsNonNegative | lxc_vps_bot.py:86-99 | any run of credits, debits and zeroings whose credits are non-negative keeps every balance non-negative |
| Ledger.NegativeAddBreaksNonNegative | lxc_vps_bot.py:284 | a negative `adminc` amount larger than the balance leaves a negative balance |
| Ledger.StepsOfOthersCommute | lxc_vps_bot.py:86-99 | adjustments of different users commute |
| Registry.Lookup | lxc_vps_bot.py:113-116 | `get_vps_by_id` finds a row exactly when the id is present, and returns that row |
| Registry.ByOwner | lxc_vps_bot.py:108-111 | `get_user_vps` holds exactly the rows whose owner is the user, unchanged, in no promised order |
| Registry.ByOwnerAfterInsert | lxc_vps_bot.py:101-106 | a row added under a fresh id grows its owner's listing by one |
| Registry.ByOwnerAfterInsertOther | lxc_vps_bot.py:101-106 | a row added under a fresh id leaves every other owner's listing equal |
| Registry.ByOwnerAfterRemove | lxc_vps_bot.py:118-121 | removing a row shrinks its owner's listing by one |
| Registry.ByOwnerAfterRemoveOther | lxc_vps_bot.py:118-121 | removing a row leaves every other owner's listing equal |
| Backend.OrElse | lxc_vps_bot.py:146 | `x or d` is `x` when `x` is non-empty and `d` otherwise |
| Backend.Argv | lxc_vps_bot.py:138-161 | every vector starts with `LXC_PATH` and names the container; a `config set` value is text that `int()` reads back as the integer (`str(mem_bytes)`, `str(cpu_cores)`); `info` and the three state changes are all `[LXC_PATH, action, name]`, never `delete` |
| Backend.IsAction | lxc_vps_bot.py:156 | the accepted actions are start, stop, restart and info; `delete` is not one of them |
| Backend.OptOrElse | lxc_vps_bot.py:136-137 | a given non-empty image or profile is used; an absent or empty one falls back to the default |
| Backend.Diagnostic | lxc_vps_bot.py:140 | the failure text is the error stream when non-empty, else the output stream |
| Backend.CreateContainer | lxc_vps_bot.py:135-146 | a failed launch returns `(False, err or out)` and issues no limit command; after a successful launch the memory limit is `ram_mb*1024*1024`, the CPU limit follows, and the result is True whatever the limit replies were |
| Backend.DeleteContainer | lxc_vps_bot.py:148-153 | a forced stop then `delete` are issued; only the `delete` reply decides the result |
| Backend.ActionContainer | lxc_vps_bot.py:155-164 | an action outside start/stop/restart/info gives "invalid action" with no command; otherwise one command is issued and its reply decides the result |
| Provisioning.Bot.AddCredits | lxc_vps_bot.py:86-89 | the ledger becomes `Ledger.Credit` of the old ledger; nothing else changes |
| Provisioning.Bot.RemoveCredits | lxc_vps_bot.py:91-99 | the ledger and the result are `Ledger.Debit` of the old ledger; nothing else changes |
| Provisioning.Bot.ZeroCredits | lxc_vps_bot.py:290-291 | the ledger becomes `Ledger.Zero` of the old ledger |
| Provisioning.Bot.CreateVpsRecord | lxc_vps_bot.py:101-106 | the new id is larger than every id issued before, the new row has status "running", existing rows are unchanged and the counter advances |
| Provisioning.Bot.DeleteVpsRecord | lxc_vps_bot.py:118-121 | only the row with that id is removed |
| Provisioning.Bot.BuyWithCredits | lxc_vps_bot.py:202-222 | unknown plan or too few credits: no command, no change; failed launch: no change; success: the buyer pays exactly the price, the AUTOINCREMENT counter advances by one and exactly one row is added under the old counter with that owner, name, plan, the plan's ram and cpu, and status "running" |
| Provisioning.Bot.AdminCreate | lxc_vps_bot.py:256-267 | non-admins are refused with no command; the ledger is never touched; a row with plan "custom" and arch "intel" is added under the old counter, which advances by one, exactly when the launch succeeds |
| Provisioning.Bot.GivePlan | lxc_vps_bot.py:312-327 | non-admins and unknown plans are refused with no command; the ledger is never touched; a row with the plan's resources is added under the old counter, which advances by one, exactly when the launch succeeds |
| Provisioning.Bot.Manage | lxc_vps_bot.py:234-253 | missing row or a non-owner non-admin: no command; delete removes exactly that row iff the backend `delete` succeeded, whatever the stop reply; lifecycle actions never change the registry; the ledger is never touched |
| Provisioning.Bot.AdminDelete | lxc_vps_bot.py:269-279 | non-admins and rows not owned by the named user are refused with no command; the row is removed exactly when the backend `delete` succeeded; the ledger is never touched |
| Provisioning.Bot.AdminAddCredits | lxc_vps_bot.py:281-285 | an admin's amount, of any sign, is added with `add_credits` |
| Provisioning.Bot.AdminRemoveCredits | lxc_vps_bot.py:287-298 | "all" zeroes an existing row; an unparsable amount changes nothing; a parsed amount is debited with `remove_credits`, its result ignored |
| Provisioning.Bot.EditPlan | lxc_vps_bot.py:300-310 | only the named plan's ram, cpu and disk change; its name and price and every other plan are kept; an unknown key changes nothing |

## Left out

- Discord plumbing (bot setup, `on_ready`, `on_command_error`, embeds and message texts) is not modelled; each reply is an `Outcome` case. `cmd_plans`, `cmd_buyc`, `cmd_credits` and `cmd_myvps` only render `plans`, `Ledger.Balance` and `Registry.ByOwner`.
- `is_admin_ctx` reads Discord permissions and roles; it is a boolean input.
- Loading config.json and plans.json and writing plans.json in `save_plans` are file I/O; the catalog is an in-memory map and plan entries are assumed to hold integer `ram_mb`, `cpu`, `disk_gb` and `price` (a missing key, a `KeyError` in Python, is not modelled).
- The SQLite connection, schema creation and cursors are replaced by maps; a failing INSERT or DELETE (an exception) is not modelled, and SQLite's 64-bit integer limit is not modelled (integers are unbounded).
- `run_lxc_cmd` (process execution, the fake mode chosen from `os.path.exists` and `/proc/version`, its `shlex.quote` echo, the `asyncio.sleep`) is not modelled: replies are inputs. Where `run_lxc_cmd` raises instead of returning a reply (a missing `lxc` binary with fake mode off gives `FileNotFoundError` when the process is spawned, a missing `/proc/version` fails the fake-mode test), the exception aborts the handler; the model has no such path, since every command receives a reply. Its `timeout` parameter is unused in the source, so there is nothing to model.
- Backend.CreateContainer: the unused `network` parameter is not modelled.
- Backend.CreateContainer, Backend.DeleteContainer, Backend.ActionContainer: the replies come as a sequence that must hold at least as many replies as the most commands the call can issue (3, 2 and 1); the flows pass that requirement on.
- Text.Lower: only ASCII letters are lower-cased; Python's `str.lower` also maps other scripts (the Kelvin sign becomes `k`, which `NAME_RE` then keeps).
- Text.ParseInt: Python's `int()` also strips surrounding whitespace and accepts non-ASCII decimal digits; neither is modelled.
- Names.ValidStamp: the day of the month is bounded by 31, not by the month's length; the clock is a parameter.
- The `created_at` ISO-8601 timestamp is an opaque string parameter.
- The 1900-character truncation of `info` output is display only; `ActionDone` carries the whole text.
- The `reason` argument of `delete-vps` is only displayed.
- Concurrency: the read-then-write in `remove_credits`, and concurrent manage/delete of the same row, are not modelled; every flow runs alone.
