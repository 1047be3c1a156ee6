/** Identifiers and times shared by the tables. */
module Ids {
  /** A tenant's database id, as the request resolves it. */
  type TenantId = nat

  /** A point in time, as the database orders timestamps. */
  type Instant = nat
}
