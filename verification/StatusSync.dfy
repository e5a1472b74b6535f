/**
 * The order service's copy of order statuses: rows are overwritten while active and frozen once
 * terminal.  Redelivery may move rows backwards for a while; reading to the end repairs them.
 */
module StatusSync {
  import opened Protocol
  import opened History
  import opened Delivery

  /** `status` None is 'pending': inserted, not yet acknowledged by the engine. */
  datatype Row = Row(status: Option<OrderStatus>, filledQty: nat)

  type Rows = map<Id, Row>

  predicate Active(r: Row) {
    r.status.None? || r.status.value.Open? || r.status.value.PartiallyFilled?
  }

  class StatusSync {
    var rows: Rows

    constructor (rows: Rows)
      ensures this.rows == rows
    {
      this.rows := rows;
    }

    /** The guarded UPDATE: it reports whether a row was changed. */
    method ApplyOrderUpdate(e: Event) returns (synced: bool)
      modifies this
      ensures rows == Sync(old(rows), [e])
      ensures synced <==> e.kind.OrderChanged? && e.kind.update.orderId in old(rows)
                          && Active(old(rows)[e.kind.update.orderId])
    {
      assert [e][..0] == [];
      synced := false;
      if e.kind.OrderChanged? {
        var u := e.kind.update;
        if u.orderId in rows && Active(rows[u.orderId]) {
          rows := rows[u.orderId := Row(Some(u.status), u.filledQty)];
          synced := true;
        }
      }
    }

    /** Consuming records one after the other. */
    method Consume(d: seq<Event>)
      modifies this
      ensures rows == Sync(old(rows), d)
    {
      var i := 0;
      assert d[..0] == [];
      while i < |d|
        invariant i <= |d|
        invariant rows == Sync(old(rows), d[..i])
      {
        var _ := ApplyOrderUpdate(d[i]);
        assert d[..i + 1][..i] == d[..i];
        i := i + 1;
      }
      assert d[..i] == d;
    }
  }

  function SyncOne(rows: Rows, e: Event): Rows {
    if e.kind.OrderChanged? && e.kind.update.orderId in rows && Active(rows[e.kind.update.orderId]) then
      rows[e.kind.update.orderId := Row(Some(e.kind.update.status), e.kind.update.filledQty)]
    else rows
  }

  function Sync(rows: Rows, d: seq<Event>): Rows {
    if d == [] then rows else SyncOne(Sync(rows, d[..|d| - 1]), d[|d| - 1])
  }

  lemma {:induction false} SyncKeys(rows: Rows, d: seq<Event>)
    ensures Sync(rows, d).Keys == rows.Keys
  {
    if d != [] {
      SyncKeys(rows, d[..|d| - 1]);
    }
  }

  /** Terminal rows are final, whatever is delivered later. */
  lemma {:induction false} TerminalIsFinal(rows: Rows, d: seq<Event>, id: Id)
    requires id in rows && !Active(rows[id])
    ensures id in Sync(rows, d) && Sync(rows, d)[id] == rows[id]
  {
    if d != [] {
      TerminalIsFinal(rows, d[..|d| - 1], id);
    }
  }

  predicate Updates(e: Event, id: Id) {
    e.kind.OrderChanged? && e.kind.update.orderId == id
  }

  function RowOf(e: Event): Row
    requires e.kind.OrderChanged?
  {
    Row(Some(e.kind.update.status), e.kind.update.filledQty)
  }

  /** Position just after the last update of the order; 0 when there is none. */
  function LastUpdate(d: seq<Event>, id: Id): (n: nat)
    ensures n <= |d|
    ensures n > 0 ==> Updates(d[n - 1], id)
  {
    if d == [] then 0
    else if Updates(d[|d| - 1], id) then |d|
    else LastUpdate(d[..|d| - 1], id)
  }

  /** All terminal updates of the order in d say the same. */
  predicate OneEnd(d: seq<Event>, id: Id) {
    forall i, j :: 0 <= i < |d| && 0 <= j < |d| && EndsAt(d[i], id) && EndsAt(d[j], id) ==> RowOf(d[i]) == RowOf(d[j])
  }

  /** The row in closed form: the terminal update if there is one, else the latest update. */
  lemma {:induction false} RowClosedForm(rows: Rows, d: seq<Event>, id: Id)
    requires id in rows && Active(rows[id]) && OneEnd(d, id)
    ensures id in Sync(rows, d)
    ensures forall k :: 0 <= k < |d| && EndsAt(d[k], id) ==> Sync(rows, d)[id] == RowOf(d[k])
    ensures (forall k :: 0 <= k < |d| ==> !EndsAt(d[k], id)) ==>
              var n := LastUpdate(d, id);
              Active(Sync(rows, d)[id]) && Sync(rows, d)[id] == if n == 0 then rows[id] else RowOf(d[n - 1])
  {
    SyncKeys(rows, d);
    if d != [] {
      var front := d[..|d| - 1];
      assert forall k :: 0 <= k < |front| ==> front[k] == d[k];
      RowClosedForm(rows, front, id);
      if k :| 0 <= k < |front| && EndsAt(front[k], id) {
        assert !Active(Sync(rows, front)[id]);
      }
    }
  }

  // ---------- walks ----------

  /** Positions visited by a reader that moves one forward or jumps back. */
  predicate Walk(w: seq<nat>, n: nat) {
    w == [] ||
    (Walk(w[..|w| - 1], n) && w[|w| - 1] < n && w[|w| - 1] <= if |w| == 1 then 0 else w[|w| - 2] + 1)
  }

  function Furthest(w: seq<nat>): nat {
    if w == [] then 0
    else if w[|w| - 1] + 1 > Furthest(w[..|w| - 1]) then w[|w| - 1] + 1
    else Furthest(w[..|w| - 1])
  }

  lemma {:induction false} WalkCovers(w: seq<nat>, n: nat)
    requires Walk(w, n)
    ensures Furthest(w) <= n && (forall i | i in w :: i < Furthest(w))
    ensures forall i :: 0 <= i < Furthest(w) ==> i in w
    ensures w != [] ==> w[|w| - 1] < Furthest(w)
  {
    if w != [] {
      var front := w[..|w| - 1];
      WalkCovers(front, n);
      assert w == front + [w[|w| - 1]];
    }
  }

  /** Either the last update seen is the latest one so far reached, or the reader stands before it. */
  ghost predicate Caught(b: seq<Event>, w: seq<nat>, id: Id)
    requires w != [] && Furthest(w) <= |b| && InRange(w, |b|)
  {
    var target := LastUpdate(b[..Furthest(w)], id);
    var seen := LastUpdate(Pick(b, w), id);
    w[|w| - 1] + 1 < target || (if target == 0 then seen == 0 else seen > 0 && w[seen - 1] == target - 1)
  }

  lemma {:induction false} WalkLastUpdate(b: seq<Event>, w: seq<nat>, id: Id)
    requires Walk(w, |b|) && InRange(w, |b|) && w != []
    ensures Furthest(w) <= |b| && Caught(b, w, id)
  {
    WalkCovers(w, |b|);
    var front := w[..|w| - 1];
    if front == [] {
      var x := w[0];
      assert b[..1][..0] == [] && Pick(b, w)[..0] == [];
    } else {
      assert w == front + [w[|w| - 1]];
      WalkCovers(front, |b|);
      WalkLastUpdate(b, front, id);
      assert InRange(front + [w[|w| - 1]], |b|);
      CaughtStep(b, front, w[|w| - 1], id);
    }
  }

  lemma CaughtStep(b: seq<Event>, front: seq<nat>, x: nat, id: Id)
    requires front != [] && InRange(front, |b|) && x < |b| && x <= front[|front| - 1] + 1
    requires front[|front| - 1] < Furthest(front) <= |b| && Caught(b, front, id)
    requires InRange(front + [x], |b|)
    ensures Furthest(front + [x]) <= |b| && Caught(b, front + [x], id)
  {
    hide InRange, Pick, LastUpdate, Furthest;
    var far := Furthest(front);
    LastUpdateIs(b[..far], id);
    PickGrows(b, front, x, id);
    PrefixGrows(b, far, x, id);
    LastUpdateBound(Pick(b, front), id);
    FurthestGrows(front, x);
    var w := front + [x];
    var seen := LastUpdate(Pick(b, front), id);
    var target := LastUpdate(b[..far], id);
    if Updates(b[x], id) {
      assert LastUpdate(Pick(b, w), id) == |w| && w[|w| - 1] == x;
    } else {
      assert LastUpdate(Pick(b, w), id) == seen;
      assert LastUpdate(b[..Furthest(w)], id) == target;
      assert seen > 0 ==> w[seen - 1] == front[seen - 1];
    }
  }

  lemma FurthestGrows(front: seq<nat>, x: nat)
    ensures Furthest(front + [x]) == if x + 1 > Furthest(front) then x + 1 else Furthest(front)
  {
  }

  lemma LastUpdateBound(d: seq<Event>, id: Id)
    ensures LastUpdate(d, id) <= |d|
  {
  }

  lemma PickGrows(b: seq<Event>, front: seq<nat>, x: nat, id: Id)
    requires InRange(front, |b|) && x < |b|
    ensures |Pick(b, front)| == |front|
    ensures LastUpdate(Pick(b, front + [x]), id)
         == if Updates(b[x], id) then |front| + 1 else LastUpdate(Pick(b, front), id)
  {
    var d := Pick(b, front + [x]);
    assert d[..|front|] == Pick(b, front);
  }

  lemma PrefixGrows(b: seq<Event>, far: nat, x: nat, id: Id)
    requires far <= |b| && x < |b|
    ensures x == far ==>
              LastUpdate(b[..far + 1], id) == if Updates(b[x], id) then far + 1 else LastUpdate(b[..far], id)
    ensures x < far && Updates(b[x], id) ==> x < LastUpdate(b[..far], id)
  {
    if x == far {
      assert b[..far + 1][..far] == b[..far];
    } else if x < far {
      LastUpdateIs(b[..far], id);
      assert b[..far][x] == b[x];
    }
  }

  lemma {:induction false} LastUpdateIs(d: seq<Event>, id: Id)
    ensures forall k :: LastUpdate(d, id) <= k < |d| ==> !Updates(d[k], id)
  {
    if d != [] {
      LastUpdateIs(d[..|d| - 1], id);
    }
  }

  /** Reading to the end, with any jumps back in between, leaves every row as one pass would. */
  lemma WalkConverges(rows: Rows, b: seq<Event>, w: seq<nat>, id: Id)
    requires id in rows && Active(rows[id]) && OneEnd(b, id)
    requires Walk(w, |b|) && InRange(w, |b|)
    requires w != [] && w[|w| - 1] == |b| - 1
    ensures id in Sync(rows, b) && id in Sync(rows, Pick(b, w))
    ensures Sync(rows, Pick(b, w))[id] == Sync(rows, b)[id]
  {
    hide Sync, OneEnd, Walk, Furthest, LastUpdate, Caught;
    var d := Pick(b, w);
    OneEndPicked(b, w, id);
    RowClosedForm(rows, b, id);
    RowClosedForm(rows, d, id);
    WalkCovers(w, |b|);
    if k :| 0 <= k < |b| && EndsAt(b[k], id) {
      var j := Visited(w, k);
      assert EndsAt(d[j], id);
    } else {
      WalkLastUpdate(b, w, id);
      SameLastUpdate(b, w, id);
      assert forall k :: 0 <= k < |d| ==> d[k] == b[w[k]];
    }
  }

  lemma Visited(w: seq<nat>, k: nat) returns (j: nat)
    requires k in w
    ensures j < |w| && w[j] == k
  {
    j :| 0 <= j < |w| && w[j] == k;
  }

  lemma SameLastUpdate(b: seq<Event>, w: seq<nat>, id: Id)
    requires InRange(w, |b|) && w != [] && w[|w| - 1] == |b| - 1
    requires Furthest(w) == |b| && Caught(b, w, id)
    ensures var n := LastUpdate(b, id);
            var m := LastUpdate(Pick(b, w), id);
            if n == 0 then m == 0 else m > 0 && Pick(b, w)[m - 1] == b[n - 1]
  {
    assert b[..|b|] == b;
  }

  // ---------- the topic as a walk over the history ----------

  /** No event is skipped forwards: each number is at most one more than the previous one. */
  predicate NoJump(d: seq<Event>) {
    d == [] || (NoJump(d[..|d| - 1]) && d[|d| - 1].seqNo <= LastSeq(d[..|d| - 1]) + 1)
  }

  function Positions(d: seq<Event>): seq<nat>
    requires forall k :: 0 <= k < |d| ==> 1 <= d[k].seqNo
  {
    seq(|d|, k requires 0 <= k < |d| => d[k].seqNo - 1)
  }

  lemma AllKnown(full: seq<Event>, d: seq<Event>)
    requires Delivers(full, d)
    ensures forall k :: 0 <= k < |d| ==> 1 <= d[k].seqNo <= |full| && d[k] == full[d[k].seqNo - 1]
  {
    forall k | 0 <= k < |d| {
      DeliveredAt(full, d, k);
    }
  }

  lemma TopicIsPicked(full: seq<Event>, d: seq<Event>)
    requires Delivers(full, d)
    ensures forall k :: 0 <= k < |d| ==> 1 <= d[k].seqNo <= |full|
    ensures InRange(Positions(d), |full|) && Pick(full, Positions(d)) == d
  {
    hide Delivers;
    AllKnown(full, d);
  }

  lemma {:induction false} TopicWalks(d: seq<Event>, n: nat)
    requires NoJump(d) && forall k :: 0 <= k < |d| ==> 1 <= d[k].seqNo <= n
    ensures Walk(Positions(d), n)
  {
    if d != [] {
      TopicWalks(d[..|d| - 1], n);
      assert Positions(d)[..|d| - 1] == Positions(d[..|d| - 1]);
    }
  }

  ghost predicate LifeCycled(full: seq<Event>) {
    exists orders :: LifeCycle(orders, full)
  }

  lemma OneEndInHistory(full: seq<Event>, id: Id)
    requires LifeCycled(full)
    ensures OneEnd(full, id)
  {
    var orders :| LifeCycle(orders, full);
    forall i, j | 0 <= i < |full| && 0 <= j < |full| && EndsAt(full[i], id) && EndsAt(full[j], id)
      ensures RowOf(full[i]) == RowOf(full[j])
    {
      if i != j {
        var lo := if i < j then i else j;
        var hi := if i < j then j else i;
        LifeCycleAt(orders, full, hi);
        EndedFrom(full, id, lo, hi);
      }
    }
  }

  lemma OneEndPicked(b: seq<Event>, w: seq<nat>, id: Id)
    requires OneEnd(b, id) && InRange(w, |b|)
    ensures OneEnd(Pick(b, w), id)
  {
  }

  /** Convergence: a topic without forward jumps, caught up with the history, read with any restarts up to
      its end, leaves every order's row exactly as delivering the history once would. */
  lemma StatusConverges(rows: Rows, full: seq<Event>, topic: seq<Event>, c: seq<nat>, id: Id)
    requires LifeCycled(full) && Delivers(full, topic) && NoJump(topic)
    requires topic != [] && topic[|topic| - 1].seqNo == |full|
    requires Walk(c, |topic|) && InRange(c, |topic|)
    requires c != [] && c[|c| - 1] == |topic| - 1
    requires id in rows && Active(rows[id])
    ensures id in Sync(rows, full) && id in Sync(rows, Pick(topic, c))
    ensures Sync(rows, Pick(topic, c))[id] == Sync(rows, full)[id]
  {
    hide Sync, Delivers, NoJump, Walk, OneEnd, Pick, LifeCycled, InRange;
    TopicIsPicked(full, topic);
    TopicWalks(topic, |full|);
    OneEndInHistory(full, id);
    WalkConverges(rows, full, Positions(topic), id);
    OneEndPicked(full, Positions(topic), id);
    WalkConverges(rows, topic, c, id);
  }
}
