/**
 * At-least-once delivery of a numbered event history: what a topic written by a crashing publisher
 * and read by a restarting consumer can contain, and what dropping known sequence numbers leaves.
 */
module Delivery {
  import opened Protocol

  /** Highest sequence number delivered so far. */
  function High(d: seq<Event>): nat {
    if d == [] then 0
    else if d[|d| - 1].seqNo > High(d[..|d| - 1]) then d[|d| - 1].seqNo
    else High(d[..|d| - 1])
  }

  function LastSeq(d: seq<Event>): nat {
    if d == [] then 0 else d[|d| - 1].seqNo
  }

  /** The n-th event of a history carries the number n. */
  predicate Numbered(full: seq<Event>) {
    forall i :: 0 <= i < |full| ==> full[i].seqNo == i + 1
  }

  /** Every delivery repeats a known event unchanged or brings the next one. */
  predicate Delivers(full: seq<Event>, d: seq<Event>) {
    d == [] ||
    (Delivers(full, d[..|d| - 1]) &&
     var e := d[|d| - 1];
     1 <= e.seqNo <= |full| && e == full[e.seqNo - 1] && e.seqNo <= High(d[..|d| - 1]) + 1)
  }

  /** What a consumer keeps when it drops every number it has already reached. */
  function Dedup(d: seq<Event>): seq<Event> {
    if d == [] then []
    else if d[|d| - 1].seqNo > High(d[..|d| - 1]) then Dedup(d[..|d| - 1]) + [d[|d| - 1]]
    else Dedup(d[..|d| - 1])
  }

  /** Deduplication recovers a gap-free prefix of the history, however often events were repeated. */
  lemma {:induction false} DedupIsPrefix(full: seq<Event>, d: seq<Event>)
    requires Delivers(full, d)
    ensures High(d) <= |full| && Dedup(d) == full[..High(d)]
  {
    if d != [] {
      var front := d[..|d| - 1];
      DedupIsPrefix(full, front);
      if d[|d| - 1].seqNo > High(front) {
        assert full[..High(front) + 1] == full[..High(front)] + [full[High(front)]];
      }
    }
  }

  lemma {:induction false} DeliversGrows(full: seq<Event>, full': seq<Event>, d: seq<Event>)
    requires Delivers(full, d) && full <= full'
    ensures Delivers(full', d)
  {
    if d != [] {
      DeliversGrows(full, full', d[..|d| - 1]);
    }
  }

  lemma DeliverOne(full: seq<Event>, d: seq<Event>, e: Event)
    requires Delivers(full, d)
    requires 1 <= e.seqNo <= |full| && e == full[e.seqNo - 1] && e.seqNo <= High(d) + 1
    ensures Delivers(full, d + [e]) && LastSeq(d + [e]) == e.seqNo
    ensures High(d + [e]) == if e.seqNo > High(d) then e.seqNo else High(d)
  {
  }

  lemma DeliveredLast(full: seq<Event>, d: seq<Event>, e: Event)
    requires Delivers(full, d + [e])
    ensures Delivers(full, d) && 1 <= e.seqNo <= |full| && e == full[e.seqNo - 1] && e.seqNo <= High(d) + 1
    ensures High(d + [e]) == if e.seqNo > High(d) then e.seqNo else High(d)
  {
  }

  lemma {:induction false} DeliveredAt(full: seq<Event>, d: seq<Event>, k: nat)
    requires Delivers(full, d) && k < |d|
    ensures 1 <= d[k].seqNo <= |full| && d[k] == full[d[k].seqNo - 1]
    ensures d[k].seqNo <= High(d[..k]) + 1 && d[k].seqNo <= High(d)
  {
    if k < |d| - 1 {
      DeliveredAt(full, d[..|d| - 1], k);
      assert d[..|d| - 1][..k] == d[..k];
    } else {
      assert d[..k] == d[..|d| - 1];
    }
  }

  /** A number always stands for the same event. */
  lemma SameNumberSameEvent(full: seq<Event>, d: seq<Event>, i: nat, j: nat)
    requires Delivers(full, d) && i < |d| && j < |d| && d[i].seqNo == d[j].seqNo
    ensures d[i] == d[j]
  {
    DeliveredAt(full, d, i);
    DeliveredAt(full, d, j);
  }

  // ---------- a consumer that may restart at any earlier position ----------

  /** One past the furthest position read. */
  function Reach(c: seq<nat>): nat {
    if c == [] then 0
    else if c[|c| - 1] >= Reach(c[..|c| - 1]) then c[|c| - 1] + 1
    else Reach(c[..|c| - 1])
  }

  /** Positions read one after the other, except for restarts at earlier ones. */
  predicate Reads(c: seq<nat>, n: nat) {
    c == [] || (Reads(c[..|c| - 1], n) && c[|c| - 1] < n && c[|c| - 1] <= Reach(c[..|c| - 1]))
  }

  predicate InRange(c: seq<nat>, n: nat) {
    forall k :: 0 <= k < |c| ==> c[k] < n
  }

  function Pick(t: seq<Event>, c: seq<nat>): seq<Event>
    requires InRange(c, |t|)
  {
    seq(|c|, k requires 0 <= k < |c| => t[c[k]])
  }

  lemma {:induction false} ReadsInRange(c: seq<nat>, n: nat)
    requires Reads(c, n)
    ensures Reach(c) <= n && InRange(c, n)
  {
    if c != [] {
      ReadsInRange(c[..|c| - 1], n);
    }
  }

  lemma ReadsLast(c: seq<nat>, x: nat, n: nat)
    requires Reads(c + [x], n)
    ensures Reads(c, n) && x < n && x <= Reach(c)
    ensures Reach(c + [x]) == if x == Reach(c) then x + 1 else Reach(c)
  {
    assert (c + [x])[..|c|] == c;
  }

  lemma PickLast(t: seq<Event>, c: seq<nat>, x: nat)
    requires InRange(c + [x], |t|)
    ensures InRange(c, |t|) && x < |t| && Pick(t, c + [x]) == Pick(t, c) + [t[x]]
  {
    assert (c + [x])[|c|] == x;
    assert forall k :: 0 <= k < |c| ==> (c + [x])[k] == c[k];
  }

  /** Restarts only repeat: what is read is again a delivery, and it is as far as the prefix read. */
  lemma {:induction false} ReadsDeliver(full: seq<Event>, t: seq<Event>, c: seq<nat>)
    requires Delivers(full, t) && Reads(c, |t|)
    ensures Reach(c) <= |t| && InRange(c, |t|)
    ensures Delivers(full, Pick(t, c)) && High(Pick(t, c)) == High(t[..Reach(c)])
  {
    hide *;
    ReadsInRange(c, |t|);
    if c == [] {
      NothingRead(full, t);
    } else {
      var front, x := c[..|c| - 1], c[|c| - 1];
      assert c == front + [x];
      ReadsLast(front, x, |t|);
      ReadsDeliver(full, t, front);
      PickLast(t, front, x);
      ReadOne(full, t, Pick(t, front), x, Reach(front));
    }
  }

  lemma ReadOne(full: seq<Event>, t: seq<Event>, d: seq<Event>, x: nat, n: nat)
    requires Delivers(full, t) && Delivers(full, d) && x < |t| && x <= n <= |t| && High(d) == High(t[..n])
    ensures Delivers(full, d + [t[x]]) && High(d + [t[x]]) == High(t[..if x == n then x + 1 else n])
  {
    hide *;
    NextOrBefore(full, t, x, n);
    DeliverOne(full, d, t[x]);
  }

  lemma NothingRead(full: seq<Event>, t: seq<Event>)
    ensures InRange([], |t|) && Reach([]) == 0 && Delivers(full, Pick(t, [])) && High(Pick(t, [])) == High(t[..0])
  {
    assert Pick(t, []) == [] && t[..0] == [];
  }

  /** An event at or before a position of the topic is the next number there, or one already below it. */
  lemma NextOrBefore(full: seq<Event>, t: seq<Event>, x: nat, n: nat)
    requires Delivers(full, t) && x < |t| && x <= n <= |t|
    ensures 1 <= t[x].seqNo <= |full| && t[x] == full[t[x].seqNo - 1] && t[x].seqNo <= High(t[..n]) + 1
    ensures x < n ==> t[x].seqNo <= High(t[..n])
    ensures x == n ==> High(t[..n + 1]) == if t[x].seqNo > High(t[..n]) then t[x].seqNo else High(t[..n])
  {
    DeliveredAt(full, t, x);
    HighUpTo(t, x, n);
    DeliversPrefix(full, t, n);
    hide Delivers, High;
    if x < n {
      DeliveredAt(full, t[..n], x);
    } else {
      assert t[..n + 1] == t[..n] + [t[n]];
      HighLast(t[..n], t[n]);
    }
  }

  lemma HighLast(d: seq<Event>, e: Event)
    ensures High(d + [e]) == if e.seqNo > High(d) then e.seqNo else High(d)
  {
    assert (d + [e])[..|d|] == d;
  }

  lemma {:induction false} DeliversPrefix(full: seq<Event>, d: seq<Event>, n: nat)
    requires Delivers(full, d) && n <= |d|
    ensures Delivers(full, d[..n])
  {
    if n < |d| {
      DeliversPrefix(full, d[..|d| - 1], n);
      assert d[..|d| - 1][..n] == d[..n];
    } else {
      assert d[..n] == d;
    }
  }

  lemma {:induction false} HighUpTo(t: seq<Event>, x: nat, y: nat)
    requires x <= y <= |t|
    ensures High(t[..x]) <= High(t[..y])
  {
    if x < y {
      assert t[..y][..y - 1] == t[..y - 1];
      HighUpTo(t, x, y - 1);
    }
  }
}
