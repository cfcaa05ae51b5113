/**
 * The status change of one order: a blind write of `status` and
 * `updated_at` to the rows whose id matches, then a three-way tagged result.
 */
module UpdateOrderStatus {
  import opened Wrappers
  import opened Platform
  import opened Orders

  /** The Order table, keyed by primary key. */
  type Table = map<Id, Order>

  const UnknownError: string := "Unknown error occurred while updating order status."
  const NoMatch: string := "No matching order found to update."
  const Updated: string := "Order status updated successfully"

  /** The tagged record the server action returns; `data` is absent on failure. */
  datatype StatusResult = StatusResult(code: int, message: string, data: Option<Order>)

  /** Every row is stored under its own id. */
  predicate WellKeyed(t: Table)
  {
    forall k :: k in t ==> t[k].id == k
  }

  /** The store write: `update({ status, updated_at: now }).eq("id", orderId)`. */
  function WriteStatus(t: Table, orderId: Id, status: string, now: Timestamp): (r: Table)
    ensures r.Keys == t.Keys
    ensures forall k :: k in t && k != orderId ==> r[k] == t[k]
    ensures orderId in t ==> r[orderId] == t[orderId].(status := status, updatedAt := now)
    ensures orderId !in t ==> r == t
  {
    if orderId in t then t[orderId := t[orderId].(status := status, updatedAt := now)] else t
  }

  /** The rows `.select()` hands back after the write: those whose id is `orderId`. */
  function Returned(t: Table, orderId: Id): (rows: seq<Order>)
    requires WellKeyed(t)
    ensures forall o :: o in rows <==> o in t.Values && o.id == orderId
    ensures |rows| <= 1
  {
    if orderId in t then [t[orderId]] else []
  }

  /** The if-chain over `{ data, error }` that picks the tagged result. */
  function Classify(data: Option<seq<Order>>, error: Option<StoreError>): (r: StatusResult)
    ensures r.code == 1 <==> error.None? && data.Some? && data.value != []
    ensures r.code == 0 <==> !(r.code == 1)
    ensures error.Some? ==>
      r.message == (if error.value.message != "" then error.value.message else UnknownError) && r.data.None?
    ensures error.None? && (data.None? || data.value == []) ==> r.message == NoMatch && r.data.None?
    ensures r.code == 1 ==> r.message == Updated && r.data == Some(data.value[0])
  {
    if error.Some? then
      StatusResult(0, if error.value.message != "" then error.value.message else UnknownError, None)
    else if data.None? || data.value == [] then
      StatusResult(0, NoMatch, None)
    else
      StatusResult(1, Updated, Some(data.value[0]))
  }

  /** A store error wins over whatever rows came back. */
  lemma ErrorTakesPrecedence(data: Option<seq<Order>>, error: Option<StoreError>)
    requires error.Some?
    ensures Classify(data, error) == Classify(None, error)
    ensures Classify(data, error).code == 0
  {
  }

  /** The write keeps every row under its own id. */
  lemma WriteKeepsWellKeyed(t: Table, orderId: Id, status: string, now: Timestamp)
    requires WellKeyed(t)
    ensures WellKeyed(WriteStatus(t, orderId, status, now))
  {
  }

  /**
   * The write touches only rows whose id field is `orderId`, and of those only
   * `status` and `updatedAt`; it does not look at the current status.
   */
  lemma WriteTouchesOnlyMatching(t: Table, orderId: Id, status: string, now: Timestamp)
    requires WellKeyed(t)
    ensures var r := WriteStatus(t, orderId, status, now);
      forall k :: k in t ==>
        if t[k].id == orderId then
          r[k].status == status && r[k].updatedAt == now &&
          r[k].id == t[k].id && r[k].columns == t[k].columns
        else r[k] == t[k]
  {
  }

  /** A second identical write changes nothing more. */
  lemma WriteIdempotent(t: Table, orderId: Id, status: string, now: Timestamp)
    ensures WriteStatus(WriteStatus(t, orderId, status, now), orderId, status, now)
         == WriteStatus(t, orderId, status, now)
  {
  }

  /**
   * The whole server action on a value table: code 1 exactly when there was
   * no store error and a row with that id exists, and then the row it
   * returns carries the new status and instant.
   */
  lemma SuccessIffMatched(t: Table, orderId: Id, status: string, now: Timestamp, fault: Option<StoreError>)
    requires WellKeyed(t)
    ensures var t' := WriteStatus(t, orderId, status, now);
      var r := Classify(if fault.None? then Some(Returned(t', orderId)) else None, fault);
      && (r.code == 1 <==> fault.None? && orderId in t)
      && (r.code == 1 ==> r.data == Some(t[orderId].(status := status, updatedAt := now)))
      && (fault.None? && orderId !in t ==> r == StatusResult(0, NoMatch, None))
  {
  }

  /** The Order table the store holds. */
  class OrderTable {
    var rows: Table

    ghost predicate Valid()
      reads this
    {
      WellKeyed(rows)
    }

    constructor (initial: Table)
      requires WellKeyed(initial)
      ensures Valid() && rows == initial
    {
      rows := initial;
    }

    /**
     * `updateOrderStatus(orderId, status)`. `now` stands for `new Date()`;
     * `fault` is the error the store may report, in which case nothing is
     * written and no rows come back.
     */
    method UpdateOrderStatus(orderId: Id, status: string, now: Timestamp, fault: Option<StoreError>)
      returns (r: StatusResult)
      requires Valid()
      modifies this
      ensures Valid()
      ensures rows == if fault.None? then WriteStatus(old(rows), orderId, status, now) else old(rows)
      ensures r == Classify(if fault.None? then Some(Returned(rows, orderId)) else None, fault)
      ensures r.code == 1 <==> fault.None? && orderId in old(rows)
      ensures r.code == 1 ==> r.data == Some(rows[orderId]) && rows[orderId].status == status
    {
      var data: Option<seq<Order>> := None;
      if fault.None? {
        rows := WriteStatus(rows, orderId, status, now);
        data := Some(Returned(rows, orderId));
      }
      r := Classify(data, fault);
    }
  }
}
