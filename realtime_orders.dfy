/**
 * The realtime order list of one tenant's dashboard: an initial bulk fetch,
 * then one change event at a time folded into the list.
 */
module RealtimeOrders {
  import opened Wrappers
  import opened Platform
  import opened Orders

  /** A change event of the realtime channel: its type and the rows after and before. */
  datatype Payload = Payload(eventType: string, newRow: Order, oldRow: Order)

  /** UPDATE: every entry whose id is that of `row` becomes `row`; the rest stay. */
  function ReplaceById(prev: seq<Order>, row: Order): (r: seq<Order>)
    ensures |r| == |prev|
    ensures forall i :: 0 <= i < |prev| ==> r[i] == (if prev[i].id == row.id then row else prev[i])
  {
    if prev == [] then []
    else [if prev[0].id == row.id then row else prev[0]] + ReplaceById(prev[1..], row)
  }

  /** DELETE: the entries whose id is not `id`, in their original order. */
  function RemoveById(prev: seq<Order>, id: Id): (r: seq<Order>)
    ensures |r| <= |prev|
    ensures forall o :: o in r ==> o in prev && o.id != id
    ensures forall o :: o in prev && o.id != id ==> o in r
  {
    if prev == [] then []
    else if prev[0].id == id then RemoveById(prev[1..], id)
    else [prev[0]] + RemoveById(prev[1..], id)
  }

  /** The state update the channel callback performs for one event. */
  function Apply(prev: seq<Order>, p: Payload): (r: seq<Order>)
  {
    if p.eventType == "INSERT" then [p.newRow] + prev
    else if p.eventType == "UPDATE" then ReplaceById(prev, p.newRow)
    else if p.eventType == "DELETE" then RemoveById(prev, p.oldRow.id)
    else prev
  }

  /** The list after the initial fetch: replaced only by a fetch with no error and some data. */
  function AfterFetch(prev: seq<Order>, data: Option<seq<Order>>, error: Option<StoreError>): (r: seq<Order>)
    ensures error.None? && data.Some? ==> r == data.value
    ensures error.Some? || data.None? ==> r == prev
  {
    if error.None? && data.Some? then data.value else prev
  }

  /** How many entries of `s` carry `id`. */
  function CountId(s: seq<Order>, id: Id): nat
  {
    if s == [] then 0 else (if s[0].id == id then 1 else 0) + CountId(s[1..], id)
  }

  /** No two entries share an id. */
  predicate UniqueIds(s: seq<Order>)
  {
    forall i, j :: 0 <= i < j < |s| ==> s[i].id != s[j].id
  }

  // ---------------------------------------------------------------- INSERT

  /** INSERT puts the new row first and keeps the whole previous list behind it; no de-duplication. */
  lemma InsertPrepends(prev: seq<Order>, p: Payload)
    requires p.eventType == "INSERT"
    ensures |Apply(prev, p)| == |prev| + 1
    ensures Apply(prev, p)[0] == p.newRow && Apply(prev, p)[1..] == prev
    ensures CountId(Apply(prev, p), p.newRow.id) == CountId(prev, p.newRow.id) + 1
  {
    assert ([p.newRow] + prev)[1..] == prev;
  }

  /** An inserted row keeps the ids unique exactly when its id was not yet present. */
  lemma {:induction false} InsertUniqueIff(prev: seq<Order>, p: Payload)
    requires p.eventType == "INSERT"
    requires UniqueIds(prev)
    ensures UniqueIds(Apply(prev, p)) <==> CountId(prev, p.newRow.id) == 0
  {
    var r := Apply(prev, p);
    assert r == [p.newRow] + prev;
    if CountId(prev, p.newRow.id) == 0 {
      forall j | 0 <= j < |prev| ensures prev[j].id != p.newRow.id {
        CountIdZero(prev, p.newRow.id, j);
      }
    } else {
      var j := CountIdWitness(prev, p.newRow.id);
      assert r[0].id == r[j + 1].id;
    }
  }

  lemma {:induction false} CountIdZero(s: seq<Order>, id: Id, j: nat)
    requires CountId(s, id) == 0 && j < |s|
    ensures s[j].id != id
  {
    if j > 0 {
      CountIdZero(s[1..], id, j - 1);
    }
  }

  lemma {:induction false} CountIdWitness(s: seq<Order>, id: Id) returns (j: nat)
    requires CountId(s, id) > 0
    ensures j < |s| && s[j].id == id
  {
    if s[0].id != id {
      j := CountIdWitness(s[1..], id);
      j := j + 1;
    } else {
      j := 0;
    }
  }

  // ---------------------------------------------------------------- UPDATE

  /** UPDATE keeps the length and every id in its place. */
  lemma UpdateKeepsIds(prev: seq<Order>, p: Payload)
    requires p.eventType == "UPDATE"
    ensures |Apply(prev, p)| == |prev|
    ensures forall i :: 0 <= i < |prev| ==> Apply(prev, p)[i].id == prev[i].id
  {
  }

  /** UPDATE for an id that is not in the list leaves the list identical. */
  lemma UpdateUnknownIsNoOp(prev: seq<Order>, p: Payload)
    requires p.eventType == "UPDATE"
    requires forall o :: o in prev ==> o.id != p.newRow.id
    ensures Apply(prev, p) == prev
  {
    assert forall i :: 0 <= i < |prev| ==> prev[i] in prev;
  }

  /** Delivering the same UPDATE twice is the same as delivering it once. */
  lemma UpdateIdempotent(prev: seq<Order>, p: Payload)
    requires p.eventType == "UPDATE"
    ensures Apply(Apply(prev, p), p) == Apply(prev, p)
  {
  }

  /** UPDATE keeps ids unique. */
  lemma UpdateKeepsUnique(prev: seq<Order>, p: Payload)
    requires p.eventType == "UPDATE" && UniqueIds(prev)
    ensures UniqueIds(Apply(prev, p))
  {
    UpdateKeepsIds(prev, p);
  }

  // ---------------------------------------------------------------- DELETE

  /** DELETE distributes over concatenation, so the survivors keep their relative order. */
  lemma {:induction false} RemoveByIdConcat(a: seq<Order>, b: seq<Order>, id: Id)
    ensures RemoveById(a + b, id) == RemoveById(a, id) + RemoveById(b, id)
  {
    if a == [] {
      assert a + b == b;
    } else {
      assert (a + b)[0] == a[0];
      assert (a + b)[1..] == a[1..] + b;
      RemoveByIdConcat(a[1..], b, id);
    }
  }

  /**
   * DELETE keeps order: the survivors sit at strictly increasing positions
   * of the previous list, and exactly the entries without `id` survive.
   */
  lemma {:induction false} RemoveByIdKeepsOrder(prev: seq<Order>, id: Id) returns (pos: seq<nat>)
    ensures |pos| == |RemoveById(prev, id)|
    ensures forall k :: 0 <= k < |pos| ==> pos[k] < |prev| && RemoveById(prev, id)[k] == prev[pos[k]]
    ensures forall k, l :: 0 <= k < l < |pos| ==> pos[k] < pos[l]
    ensures forall i :: 0 <= i < |prev| ==> (prev[i].id != id <==> i in pos)
  {
    if prev == [] {
      pos := [];
    } else {
      var tail := RemoveByIdKeepsOrder(prev[1..], id);
      var shifted := Shift(tail);
      ShiftMembers(tail, |prev|);
      if prev[0].id == id {
        pos := shifted;
      } else {
        pos := [0] + shifted;
      }
    }
  }

  /** Every position moved one place right. */
  function Shift(pos: seq<nat>): (r: seq<nat>)
    ensures |r| == |pos|
    ensures forall k :: 0 <= k < |pos| ==> r[k] == pos[k] + 1
  {
    seq(|pos|, k requires 0 <= k < |pos| => pos[k] + 1)
  }

  lemma ShiftMembers(pos: seq<nat>, n: nat)
    ensures 0 !in Shift(pos)
    ensures forall i :: 1 <= i < n ==> (i in Shift(pos) <==> i - 1 in pos)
  {
    forall i | 1 <= i < n ensures i in Shift(pos) <==> i - 1 in pos {
      if i - 1 in pos {
        var k :| 0 <= k < |pos| && pos[k] == i - 1;
        assert Shift(pos)[k] == i;
      }
    }
  }

  /** DELETE for an id that is not in the list leaves the list identical. */
  lemma {:induction false} DeleteUnknownIsNoOp(prev: seq<Order>, id: Id)
    requires forall o :: o in prev ==> o.id != id
    ensures RemoveById(prev, id) == prev
  {
    if prev != [] {
      assert prev[0] in prev;
      assert forall o :: o in prev[1..] ==> o in prev;
      DeleteUnknownIsNoOp(prev[1..], id);
    }
  }

  /** DELETE removes exactly the entries carrying the id, and nothing else. */
  lemma {:induction false} DeleteLength(prev: seq<Order>, id: Id)
    ensures |RemoveById(prev, id)| == |prev| - CountId(prev, id)
    ensures CountId(RemoveById(prev, id), id) == 0
  {
    if prev != [] {
      DeleteLength(prev[1..], id);
    }
  }

  /** Over a list with unique ids, DELETE of a present id removes exactly one entry. */
  lemma {:induction false} DeleteRemovesOne(prev: seq<Order>, id: Id)
    requires UniqueIds(prev)
    requires exists i :: 0 <= i < |prev| && prev[i].id == id
    ensures |RemoveById(prev, id)| == |prev| - 1
  {
    UniqueCountAtMostOne(prev, id);
    var i :| 0 <= i < |prev| && prev[i].id == id;
    CountIdPositive(prev, id, i);
    DeleteLength(prev, id);
  }

  lemma {:induction false} UniqueCountAtMostOne(s: seq<Order>, id: Id)
    requires UniqueIds(s)
    ensures CountId(s, id) <= 1
  {
    if s != [] {
      assert UniqueIds(s[1..]) by {
        forall i, j | 0 <= i < j < |s[1..]| ensures s[1..][i].id != s[1..][j].id {
          assert s[1..][i] == s[i + 1] && s[1..][j] == s[j + 1];
        }
      }
      UniqueCountAtMostOne(s[1..], id);
      if s[0].id == id && CountId(s[1..], id) > 0 {
        var j := CountIdWitness(s[1..], id);
        assert false;
      }
    }
  }

  lemma {:induction false} CountIdPositive(s: seq<Order>, id: Id, i: nat)
    requires i < |s| && s[i].id == id
    ensures CountId(s, id) >= 1
  {
    if i > 0 {
      CountIdPositive(s[1..], id, i - 1);
    }
  }

  /** DELETE keeps ids unique. */
  lemma DeleteKeepsUnique(prev: seq<Order>, id: Id)
    requires UniqueIds(prev)
    ensures UniqueIds(RemoveById(prev, id))
  {
    var pos := RemoveByIdKeepsOrder(prev, id);
  }

  /** Delivering the same DELETE twice is the same as delivering it once. */
  lemma DeleteIdempotent(prev: seq<Order>, id: Id)
    ensures RemoveById(RemoveById(prev, id), id) == RemoveById(prev, id)
  {
    DeleteUnknownIsNoOp(RemoveById(prev, id), id);
  }

  // ---------------------------------------------------------------- all events

  /** An event whose type is none of INSERT, UPDATE, DELETE leaves the list unchanged. */
  lemma OtherEventIsNoOp(prev: seq<Order>, p: Payload)
    requires p.eventType !in {"INSERT", "UPDATE", "DELETE"}
    ensures Apply(prev, p) == prev
  {
  }

  /** Inserting a row with a fresh id and then deleting that id restores the list. */
  lemma InsertThenDelete(prev: seq<Order>, ins: Payload, del: Payload)
    requires ins.eventType == "INSERT" && del.eventType == "DELETE"
    requires del.oldRow.id == ins.newRow.id
    requires forall o :: o in prev ==> o.id != ins.newRow.id
    ensures Apply(Apply(prev, ins), del) == prev
  {
    DeleteUnknownIsNoOp(prev, ins.newRow.id);
  }

  /** Each event, applied to a list with unique ids, keeps them unique unless it inserts a known id. */
  lemma ApplyKeepsUnique(prev: seq<Order>, p: Payload)
    requires UniqueIds(prev)
    requires p.eventType == "INSERT" ==> CountId(prev, p.newRow.id) == 0
    ensures UniqueIds(Apply(prev, p))
  {
    if p.eventType == "INSERT" {
      InsertUniqueIff(prev, p);
    } else if p.eventType == "UPDATE" {
      UpdateKeepsUnique(prev, p);
    } else if p.eventType == "DELETE" {
      DeleteKeepsUnique(prev, p.oldRow.id);
    }
  }

  /**
   * The state the `useRealtimeOrders` hook holds: the current order list,
   * empty at first. The initial fetch is not awaited before the channel
   * subscribes, so the fetch and the delivered events may come in any order;
   * each method is one of them.
   */
  class OrderFeed {
    var orders: seq<Order>

    constructor ()
      ensures orders == []
    {
      orders := [];
    }

    /** The initial bulk fetch: `if (!error && data) setOrders(data)`. */
    method FetchInitial(data: Option<seq<Order>>, error: Option<StoreError>)
      modifies this
      ensures orders == AfterFetch(old(orders), data, error)
    {
      if error.None? && data.Some? {
        orders := data.value;
      }
    }

    method OnInsert(row: Order)
      modifies this
      ensures orders == [row] + old(orders)
    {
      orders := [row] + orders;
    }

    method OnUpdate(row: Order)
      modifies this
      ensures orders == ReplaceById(old(orders), row)
    {
      orders := ReplaceById(orders, row);
    }

    method OnDelete(row: Order)
      modifies this
      ensures orders == RemoveById(old(orders), row.id)
    {
      orders := RemoveById(orders, row.id);
    }

    /** The channel callback: dispatch on the event type, ignore any other type. */
    method Receive(p: Payload)
      modifies this
      ensures orders == Apply(old(orders), p)
    {
      if p.eventType == "INSERT" {
        OnInsert(p.newRow);
      } else if p.eventType == "UPDATE" {
        OnUpdate(p.newRow);
      } else if p.eventType == "DELETE" {
        OnDelete(p.oldRow);
      }
    }
  }
}
