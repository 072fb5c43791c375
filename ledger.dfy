/** The `users` table as a value: a map from user id to credits. A user has a
    row once `add_credits` has touched them; no operation deletes a row. */
module Ledger {
  import opened Types

  type Table = map<UserId, int>

  /** `get_credits`: the stored credits, or 0 for a user without a row. */
  function Balance(t: Table, u: UserId): (r: int)
    ensures u in t ==> r == t[u]
    ensures u !in t ==> r == 0
  {
    if u in t then t[u] else 0
  }

  /** `add_credits`: the upsert `INSERT ... ON CONFLICT DO UPDATE SET credits =
      credits + amount`. The sign of `amount` is not checked. */
  function Credit(t: Table, u: UserId, amount: int): (r: Table)
    ensures r.Keys == t.Keys + {u}
    ensures r[u] == Balance(t, u) + amount
    ensures forall v :: v in t && v != u ==> r[v] == t[v]
  {
    t[u := Balance(t, u) + amount]
  }

  /** `remove_credits`: no row means `false` and no change; otherwise the
      balance becomes `max(0, old - amount)` and the result is `true`. */
  function Debit(t: Table, u: UserId, amount: int): (r: (Table, bool))
    ensures r.1 <==> u in t
    ensures !r.1 ==> r.0 == t
    ensures r.1 ==> r.0.Keys == t.Keys && r.0[u] >= 0
    ensures r.1 ==> r.0[u] == if t[u] - amount < 0 then 0 else t[u] - amount
    ensures forall v :: v in t && v != u ==> r.0[v] == t[v]
  {
    if u !in t then (t, false)
    else (t[u := if t[u] - amount < 0 then 0 else t[u] - amount], true)
  }

  /** The "remove all" `UPDATE users SET credits=0 WHERE user_id=?`: only an
      existing row is zeroed. */
  function Zero(t: Table, u: UserId): (r: Table)
    ensures r.Keys == t.Keys
    ensures u in t ==> r[u] == 0
    ensures forall v :: v in t && v != u ==> r[v] == t[v]
  {
    if u in t then t[u := 0] else t
  }

  /** A debit of no more than the balance lowers it by exactly the amount. */
  lemma DebitCovered(t: Table, u: UserId, amount: int)
    requires u in t && amount <= t[u]
    ensures Debit(t, u, amount).0 == t[u := t[u] - amount]
  {
  }

  predicate NonNegative(t: Table) { forall u :: u in t ==> t[u] >= 0 }

  /** One adjustment of the ledger, as the admin commands issue them. */
  datatype Adjustment = Add(user: UserId, amount: int) | Remove(user: UserId, amount: int) | RemoveAll(user: UserId)

  function Step(t: Table, a: Adjustment): Table
  {
    match a
    case Add(u, n) => Credit(t, u, n)
    case Remove(u, n) => Debit(t, u, n).0
    case RemoveAll(u) => Zero(t, u)
  }

  function Apply(t: Table, adjs: seq<Adjustment>): Table
    decreases |adjs|
  {
    if adjs == [] then t else Apply(Step(t, adjs[0]), adjs[1..])
  }

  predicate AddsNonNegative(adjs: seq<Adjustment>)
  {
    forall i :: 0 <= i < |adjs| && adjs[i].Add? ==> adjs[i].amount >= 0
  }

  /** Balances stay non-negative through any run of adjustments whose additions
      are non-negative: removals clamp at 0 and zeroing sets 0. */
  lemma {:induction false} ApplyKeepsNonNegative(t: Table, adjs: seq<Adjustment>)
    requires NonNegative(t) && AddsNonNegative(adjs)
    ensures NonNegative(Apply(t, adjs))
    decreases |adjs|
  {
    if adjs != [] {
      assert NonNegative(Step(t, adjs[0]));
      assert AddsNonNegative(adjs[1..]) by {
        forall i | 0 <= i < |adjs[1..]| && adjs[1..][i].Add?
          ensures adjs[1..][i].amount >= 0
        {
          assert adjs[1..][i] == adjs[i + 1];
        }
      }
      ApplyKeepsNonNegative(Step(t, adjs[0]), adjs[1..]);
    }
  }

  /** Without that restriction the invariant fails: `add_credits` accepts a
      negative amount, and a large enough one leaves a negative balance. */
  lemma NegativeAddBreaksNonNegative(t: Table, u: UserId, amount: int)
    requires amount < -Balance(t, u)
    ensures !NonNegative(Apply(t, [Add(u, amount)]))
  {
  }

  /** Adjustments of different users commute: each row changes only through
      the adjustments naming it. */
  lemma StepsOfOthersCommute(t: Table, a: Adjustment, b: Adjustment)
    requires a.user != b.user
    ensures Step(Step(t, a), b) == Step(Step(t, b), a)
  {
  }
}
