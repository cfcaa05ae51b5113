/** A row of the store's Order table, as the dashboard receives it. */
module Orders {
  import opened Platform

  type Id = string

  /**
   * An order: its primary key, its status, its last-update instant, and
   * every other column (tenant, customer, lines, total, ...) kept opaque.
   */
  datatype Order = Order(id: Id, status: string, updatedAt: Timestamp, columns: map<string, Json>)
}
