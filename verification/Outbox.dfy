/** The publish step of the outbox (queue.py): committed commands reach the transport at least once. */
module Outboxes {
  import opened Wrappers
  import opened Rows

  /** An outbox row; rows are listed by creation time. */
  datatype OutboxRow = OutboxRow(key: Key, available: int, published: Option<int>)

  predicate IsPending(r: OutboxRow, now: int) { r.published.None? && r.available <= now }

  /** The positions of the rows that are due, in order. */
  function Pending(rows: seq<OutboxRow>, now: int): (r: seq<nat>)
    ensures forall k :: 0 <= k < |r| ==> r[k] < |rows| && IsPending(rows[r[k]], now)
    ensures forall k, l :: 0 <= k < l < |r| ==> r[k] < r[l]
  {
    if rows == [] then []
    else
      var n := |rows| - 1;
      if IsPending(rows[n], now) then Pending(rows[..n], now) + [n] else Pending(rows[..n], now)
  }

  /** Every row that is due is listed: one that was not published and whose time has come. */
  lemma {:induction false} PendingExactly(rows: seq<OutboxRow>, now: int)
    ensures forall i :: i in Pending(rows, now) <==>
              0 <= i < |rows| && rows[i].published == None && rows[i].available <= now
  {
    if rows != [] {
      var n := |rows| - 1;
      PendingExactly(rows[..n], now);
    }
  }

  /** The rows after the positions in `due` have been published. */
  function Publish(rows: seq<OutboxRow>, due: seq<nat>, now: int): (r: seq<OutboxRow>)
    requires forall k :: 0 <= k < |due| ==> due[k] < |rows|
    ensures |r| == |rows|
    ensures forall i: nat :: i < |rows| ==> r[i] == if i in due then rows[i].(published := Some(now)) else rows[i]
  {
    seq(|rows|, i requires 0 <= i < |rows| => if i in due then rows[i].(published := Some(now)) else rows[i])
  }

  function Keys(rows: seq<OutboxRow>, due: seq<nat>): seq<Key>
    requires forall k :: 0 <= k < |due| ==> due[k] < |rows|
  {
    seq(|due|, k requires 0 <= k < |due| => rows[due[k]].key)
  }

  class OutboxDispatcher {
    var rows: seq<OutboxRow>
    var sent: seq<Key>

    constructor (rows: seq<OutboxRow>)
      requires forall i :: 0 <= i < |rows| ==> rows[i].published.None?
      ensures this.rows == rows && sent == [] && Valid()
    {
      this.rows, sent := rows, [];
    }

    /** Nothing counts as published that the transport has not got. */
    ghost predicate Valid()
      reads this
    {
      forall i :: 0 <= i < |rows| && rows[i].published.Some? ==> rows[i].key in sent
    }

    /**
     * dispatch_pending in its transaction: `failAt` says at which row the transport raises, if at all. An exception
     * rolls every mark back, although earlier commands are already in the queue; their keys deduplicate them there.
     */
    method DispatchPending(now: int, limit: nat, failAt: Option<nat>) returns (published: Option<nat>)
      requires Valid()
      modifies this
      ensures Valid()
      ensures var due := Pending(old(rows), now)[..Min(limit, |Pending(old(rows), now)|)];
              if failAt.Some? && failAt.value < |due| then
                published == None && rows == old(rows) && sent == old(sent) + Keys(old(rows), due)[..failAt.value]
              else
                && published == Some(|due|) && rows == Publish(old(rows), due, now)
                && sent == old(sent) + Keys(old(rows), due)
    {
      hide Publish, Pending, IsPending;
      var saved := rows;
      var pending := Pending(rows, now);
      var due := pending[..Min(limit, |pending|)];
      var count := 0;
      PublishNothing(saved, now);
      for k := 0 to |due|
        invariant count == k && (failAt.Some? ==> k <= failAt.value)
        invariant rows == Publish(saved, due[..k], now)
        invariant sent == old(sent) + Keys(saved, due)[..k]
      {
        if failAt == Some(k) {
          rows := saved;
          return None;
        }
        PublishOne(saved, due, k, now);
        sent := sent + [rows[due[k]].key];
        rows := rows[due[k] := rows[due[k]].(published := Some(now))];
        count := count + 1;
        assert Keys(saved, due)[..k + 1] == Keys(saved, due)[..k] + [Keys(saved, due)[k]];
      }
      assert due[..|due|] == due;
      PublishedAreSent(saved, due, now, old(sent));
      published := Some(count);
    }

    static lemma PublishNothing(rows: seq<OutboxRow>, now: int)
      ensures Publish(rows, [], now) == rows
    {
    }

    static lemma PublishOne(rows: seq<OutboxRow>, due: seq<nat>, k: nat, now: int)
      requires k < |due| && forall i :: 0 <= i < |due| ==> due[i] < |rows|
      ensures var before := Publish(rows, due[..k], now);
              && before[due[k]].key == rows[due[k]].key
              && Publish(rows, due[..k + 1], now) == before[due[k] := before[due[k]].(published := Some(now))]
    {
      assert due[..k + 1] == due[..k] + [due[k]];
    }

    static lemma PublishedAreSent(rows: seq<OutboxRow>, due: seq<nat>, now: int, sent: seq<Key>)
      requires forall i :: 0 <= i < |due| ==> due[i] < |rows|
      requires forall i :: 0 <= i < |rows| && rows[i].published.Some? ==> rows[i].key in sent
      ensures var after := Publish(rows, due, now);
              forall i :: 0 <= i < |after| && after[i].published.Some? ==> after[i].key in sent + Keys(rows, due)
    {
      var after := Publish(rows, due, now);
      forall i: nat | i < |after| && after[i].published.Some?
        ensures after[i].key in sent + Keys(rows, due)
      {
        if i in due {
          var k :| 0 <= k < |due| && due[k] == i;
          assert Keys(rows, due)[k] == after[i].key;
        }
      }
    }
  }

  // Nothing stays behind

  /** Publishing a beginning of the due rows leaves the others due, in order. */
  lemma {:induction false} PublishAdvances(rows: seq<OutboxRow>, now: int, n: nat)
    requires n <= |Pending(rows, now)|
    ensures Pending(Publish(rows, Pending(rows, now)[..n], now), now) == Pending(rows, now)[n..]
  {
    if rows == [] {
      assert Publish(rows, Pending(rows, now)[..n], now) == rows;
    } else {
      hide Pending, Publish;
      var m := |rows| - 1;
      var front := Pending(rows[..m], now);
      PendingUnfolds(rows, now);
      if n <= |front| {
        PublishAdvances(rows[..m], now, n);
        AdvanceFront(rows, front, n, now);
      } else {
        PublishAdvances(rows[..m], now, |front|);
        AdvanceLast(rows, front, now);
        assert front + [m] == (front + [m])[..n];
      }
    }
  }

  lemma AdvanceFront(rows: seq<OutboxRow>, front: seq<nat>, n: nat, now: int)
    requires rows != [] && front == Pending(rows[..|rows| - 1], now) && n <= |front|
    requires Pending(Publish(rows[..|rows| - 1], front[..n], now), now) == front[n..]
    ensures var all := Pending(rows, now);
            n <= |all| && Pending(Publish(rows, all[..n], now), now) == all[n..]
  {
    hide Pending, Publish;
    var all := Pending(rows, now);
    PendingUnfolds(rows, now);
    assert all[..n] == front[..n];
    PublishFront(rows, front[..n], now);
    PendingUnfolds(Publish(rows, front[..n], now), now);
  }

  lemma AdvanceLast(rows: seq<OutboxRow>, front: seq<nat>, now: int)
    requires rows != [] && front == Pending(rows[..|rows| - 1], now) && IsPending(rows[|rows| - 1], now)
    requires Pending(Publish(rows[..|rows| - 1], front[..|front|], now), now) == front[|front|..]
    ensures Pending(Publish(rows, front + [|rows| - 1], now), now) == []
  {
    hide Pending, Publish;
    assert front[..|front|] == front;
    PublishLast(rows, front, now);
    PendingUnfolds(Publish(rows, front + [|rows| - 1], now), now);
  }

  lemma PendingUnfolds(rows: seq<OutboxRow>, now: int)
    requires rows != []
    ensures var m := |rows| - 1;
            Pending(rows, now) ==
              if IsPending(rows[m], now) then Pending(rows[..m], now) + [m] else Pending(rows[..m], now)
  {
  }

  /** Publishing rows before the last one leaves the last one alone. */
  lemma PublishFront(rows: seq<OutboxRow>, due: seq<nat>, now: int)
    requires rows != [] && forall k :: 0 <= k < |due| ==> due[k] < |rows| - 1
    ensures var after := Publish(rows, due, now);
            after[|rows| - 1] == rows[|rows| - 1] && after[..|rows| - 1] == Publish(rows[..|rows| - 1], due, now)
  {
  }

  lemma PublishLast(rows: seq<OutboxRow>, due: seq<nat>, now: int)
    requires rows != [] && forall k :: 0 <= k < |due| ==> due[k] < |rows| - 1
    ensures var m: nat := |rows| - 1;
            var after := Publish(rows, due + [m], now);
            after[m].published.Some? && after[..m] == Publish(rows[..m], due, now)
  {
    var m: nat := |rows| - 1;
    assert (due + [m])[|due|] == m;
    assert forall i: nat :: i < m ==> (i in due + [m] <==> i in due);
  }

  /** The rows after `rounds` successful dispatches at one time. */
  function Rounds(rows: seq<OutboxRow>, now: int, limit: nat, rounds: nat): seq<OutboxRow>
    decreases rounds
  {
    if rounds == 0 then rows
    else
      var due := Pending(rows, now)[..Min(limit, |Pending(rows, now)|)];
      Rounds(Publish(rows, due, now), now, limit, rounds - 1)
  }

  lemma OneRoundFewer(rounds: nat, limit: nat)
    requires rounds > 0
    ensures rounds * limit == (rounds - 1) * limit + limit
  {
  }

  lemma RoundUnfolds(rows: seq<OutboxRow>, now: int, limit: nat, rounds: nat) returns (rest: seq<OutboxRow>)
    requires rounds > 0
    ensures Rounds(rows, now, limit, rounds) == Rounds(rest, now, limit, rounds - 1)
    ensures |Pending(rest, now)| == Max(0, |Pending(rows, now)| - limit)
  {
    hide Publish, Pending;
    var n := Min(limit, |Pending(rows, now)|);
    rest := Publish(rows, Pending(rows, now)[..n], now);
    PublishAdvances(rows, now, n);
  }

  /** Enough dispatches publish every row that is due. */
  lemma {:induction false} DispatchDrains(rows: seq<OutboxRow>, now: int, limit: nat, rounds: nat)
    requires |Pending(rows, now)| <= rounds * limit
    ensures Pending(Rounds(rows, now, limit, rounds), now) == []
    decreases rounds
  {
    hide Pending;
    if rounds == 0 {
      assert Rounds(rows, now, limit, rounds) == rows;
    } else {
      hide Rounds;
      var rest := RoundUnfolds(rows, now, limit, rounds);
      OneRoundFewer(rounds, limit);
      DispatchDrains(rest, now, limit, rounds - 1);
    }
  }
}
