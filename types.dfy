/** The values stored by the bot: plans of the catalog and rows of the
    `vps` table, plus the usual optional wrapper. */
module Types {

  datatype Option<T> = None | Some(value: T)

  /** A Discord user id, the primary key of the `users` table. */
  type UserId = nat

  /** One entry of the plan catalog (plans.json), keyed by its plan key. */
  datatype Plan = Plan(name: string, ramMb: int, cpu: int, diskGb: int, price: int)

  /** One row of the `vps` table, without its `id` (the id is the registry key). */
  datatype Vps = Vps(
    owner: UserId,
    containerName: string,
    plan: string,
    ramMb: int,
    cpuCores: int,
    arch: string,
    status: string,
    createdAt: string)
}
