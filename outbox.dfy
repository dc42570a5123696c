/** The outbound SDS queue of TetraLogic: sdsQueue, a std::map from an int
    key to an Sds, modelled as a list of entries in ascending key order (the
    order in which std::map iterates), with the map operations queueSds and
    checkSds use, and checkSds's scan as a function. */
module Outbox {
  import opened Basics

  datatype Direction = Incoming | Outgoing

  /** ACK_SDS, the type of a confirmation SDS; any other type is sent
      with createSDS. */
  const AckSds: int := 25

  /** The Sds record as queueSds and checkSds use it: destination TSI,
      payload, direction, type, time of sending (0: not sent yet), number of
      tries and a remark. */
  datatype Sds = Sds(tsi: string, message: string, direction: Direction, sdsType: int,
                     tos: int, nroftries: int, remark: string)

  datatype Entry = Entry(key: int, sds: Sds)

  /** Keys strictly ascending: a std::map in iteration order. */
  predicate Ordered(q: seq<Entry>)
  {
    forall i, j :: 0 <= i < j < |q| ==> q[i].key < q[j].key
  }

  function Keys(q: seq<Entry>): set<int>
  {
    set i | 0 <= i < |q| :: q[i].key
  }

  // ---------------------------------------------------------------------
  // std::map::insert and std::map::erase
  // ---------------------------------------------------------------------

  /** Where `key` goes: after every smaller key. */
  function InsertPos(q: seq<Entry>, key: int): (p: nat)
    ensures p <= |q|
    ensures forall j :: 0 <= j < p ==> q[j].key < key
    ensures p < |q| ==> q[p].key >= key
  {
    if q == [] || q[0].key >= key then 0 else 1 + InsertPos(q[1..], key)
  }

  /** std::map::insert: an entry under a key that is already present is not
      stored; otherwise the new entry takes its place in key order. */
  function Insert(q: seq<Entry>, key: int, sds: Sds): (r: seq<Entry>)
    requires Ordered(q)
    ensures Ordered(r)
    ensures key in Keys(q) ==> r == q
    ensures key !in Keys(q) ==>
      r == q[..InsertPos(q, key)] + [Entry(key, sds)] + q[InsertPos(q, key)..] &&
      Keys(r) == Keys(q) + {key}
  {
    var p := InsertPos(q, key);
    if p < |q| && q[p].key == key then q
    else
      var r := q[..p] + [Entry(key, sds)] + q[p..];
      InsertAt(q, p, key, sds);
      r
  }

  /** Placing a new key at its position keeps the order and adds the key. */
  lemma InsertAt(q: seq<Entry>, p: nat, key: int, sds: Sds)
    requires Ordered(q) && p == InsertPos(q, key) && !(p < |q| && q[p].key == key)
    ensures key !in Keys(q)
    ensures Ordered(q[..p] + [Entry(key, sds)] + q[p..])
    ensures Keys(q[..p] + [Entry(key, sds)] + q[p..]) == Keys(q) + {key}
  {
    var r := q[..p] + [Entry(key, sds)] + q[p..];
    InsertShape(q, p, Entry(key, sds));
    InsertAbsent(q, p, key);
    InsertKeys(q, p, key, r);
    InsertOrdered(q, p, key, r);
  }

  /** Where each entry lands when `e` is placed at index p. */
  lemma InsertShape(q: seq<Entry>, p: nat, e: Entry)
    requires p <= |q|
    ensures var r := q[..p] + [e] + q[p..];
      |r| == |q| + 1 && r[p] == e &&
      (forall i :: 0 <= i < p ==> r[i] == q[i]) && (forall i :: p < i < |r| ==> r[i] == q[i - 1])
  {
  }

  lemma InsertOrdered(q: seq<Entry>, p: nat, key: int, r: seq<Entry>)
    requires Ordered(q) && p == InsertPos(q, key) && !(p < |q| && q[p].key == key)
    requires |r| == |q| + 1 && r[p].key == key
    requires forall i :: 0 <= i < p ==> r[i] == q[i]
    requires forall i :: p < i < |r| ==> r[i] == q[i - 1]
    ensures Ordered(r)
  {
    forall i, j | 0 <= i < j < |r| ensures r[i].key < r[j].key {
      if j < p {
      } else if i < p && j == p {
      } else if i < p {
        assert r[j] == q[j - 1];
      } else if i == p {
        assert r[j] == q[j - 1];
        assert q[p].key <= q[j - 1].key;
      } else {
        assert r[i] == q[i - 1] && r[j] == q[j - 1];
      }
    }
  }

  lemma InsertAbsent(q: seq<Entry>, p: nat, key: int)
    requires Ordered(q) && p == InsertPos(q, key) && !(p < |q| && q[p].key == key)
    ensures key !in Keys(q)
  {
    forall i | 0 <= i < |q| ensures q[i].key != key {
      if i > p {
        assert q[p].key < q[i].key;
      }
    }
  }

  lemma InsertKeys(q: seq<Entry>, p: nat, key: int, r: seq<Entry>)
    requires p <= |q| && |r| == |q| + 1 && r[p].key == key
    requires forall i :: 0 <= i < p ==> r[i] == q[i]
    requires forall i :: p < i < |r| ==> r[i] == q[i - 1]
    ensures Keys(r) == Keys(q) + {key}
  {
    forall k | k in Keys(r) ensures k in Keys(q) + {key} {
      var i :| 0 <= i < |r| && r[i].key == k;
      if i > p {
        assert r[i].key == q[i - 1].key;
      }
    }
    forall k | k in Keys(q) ensures k in Keys(r) {
      var i :| 0 <= i < |q| && q[i].key == k;
      if i >= p {
        assert r[i + 1] == q[i];
      }
    }
  }

  /** std::map::erase of a key: every other entry stays, in order. */
  function EraseKey(q: seq<Entry>, k: int): (r: seq<Entry>)
    ensures forall e :: e in r <==> e in q && e.key != k
    ensures |r| <= |q|
    ensures Ordered(q) ==> Ordered(r)
  {
    if q == [] then []
    else
      var t := EraseKey(q[1..], k);
      if q[0].key == k then t else
        KeepHead(q, t);
        [q[0]] + t
  }

  /** Keeping the head of an ordered list in front of entries taken from
      its tail keeps it ordered. */
  lemma KeepHead(q: seq<Entry>, t: seq<Entry>)
    requires q != [] && forall e :: e in t ==> e in q[1..]
    ensures Ordered(q) && Ordered(t) ==> Ordered([q[0]] + t)
  {
    if Ordered(q) && Ordered(t) {
      var r := [q[0]] + t;
      forall i, j | 0 <= i < j < |r| ensures r[i].key < r[j].key {
        if i == 0 {
          assert r[j] in q[1..];
          var m :| 0 <= m < |q[1..]| && q[1..][m] == r[j];
          assert q[m + 1] == r[j];
        } else {
          assert r[i] == t[i - 1] && r[j] == t[j - 1];
        }
      }
    }
  }

  /** Erasing the keys of a list one after the other, as the todelete loop
      of checkSds does. */
  function EraseKeys(q: seq<Entry>, ks: seq<int>): (r: seq<Entry>)
    ensures forall e :: e in r <==> e in q && e.key !in ks
    ensures Ordered(q) ==> Ordered(r)
  {
    if ks == [] then q
    else
      var r := EraseKey(EraseKeys(q, ks[..|ks| - 1]), ks[|ks| - 1]);
      assert ks == ks[..|ks| - 1] + [ks[|ks| - 1]];
      r
  }

  /** One more key of the list erased. */
  lemma EraseKeysNext(q: seq<Entry>, ks: seq<int>, j: nat)
    requires j < |ks|
    ensures EraseKeys(q, ks[..j + 1]) == EraseKey(EraseKeys(q, ks[..j]), ks[j])
  {
    assert ks[..j + 1][..j] == ks[..j];
  }

  // ---------------------------------------------------------------------
  // checkSds
  // ---------------------------------------------------------------------

  /** An outgoing SDS not sent yet. */
  predicate IsTarget(s: Sds)
  {
    s.tos == 0 && s.direction == Outgoing
  }

  /** The age test: difftime(tos, now) is tos - now, so an entry counts as
      old only when it was stamped more than an hour after `now`. */
  predicate Stale(s: Sds, now: int)
  {
    s.tos != 0 && s.tos - now > 3600
  }

  /** The index of the first entry not sent yet, or |q| when there is none. */
  function FirstTarget(q: seq<Entry>): (t: nat)
    ensures t <= |q|
    ensures t < |q| ==> IsTarget(q[t].sds)
    ensures forall j :: 0 <= j < t ==> !IsTarget(q[j].sds)
  {
    if q == [] then 0
    else if IsTarget(q[0].sds) then 0
    else 1 + FirstTarget(q[1..])
  }

  /** An index with no entry waiting before it and one waiting at it is the
      first entry not sent yet. */
  lemma {:induction false} FirstTargetAt(q: seq<Entry>, i: nat)
    requires i < |q| && IsTarget(q[i].sds)
    requires forall j :: 0 <= j < i ==> !IsTarget(q[j].sds)
    ensures FirstTarget(q) == i
    decreases i
  {
    if i > 0 {
      assert !IsTarget(q[0].sds);
      assert forall j :: 0 <= j < i - 1 ==> q[1..][j] == q[j + 1];
      FirstTargetAt(q[1..], i - 1);
    }
  }

  /** An entry appended behind one waiting to be sent does not change
      which is sent first. */
  lemma FirstTargetAppend(q: seq<Entry>, e: Entry)
    requires FirstTarget(q) < |q|
    ensures FirstTarget(q + [e]) == FirstTarget(q)
  {
    var t := FirstTarget(q);
    assert forall j :: 0 <= j <= t ==> (q + [e])[j] == q[j];
    FirstTargetAt(q + [e], t);
  }

  /** An entry waiting to be sent, appended to a queue with none waiting,
      is the one sent first. */
  lemma FirstTargetLast(q: seq<Entry>, e: Entry)
    requires FirstTarget(q) == |q| && IsTarget(e.sds)
    ensures FirstTarget(q + [e]) == |q|
  {
    assert forall j :: 0 <= j <= |q| - 1 ==> (q + [e])[j] == q[j];
    FirstTargetAt(q + [e], |q|);
  }

  /** An entry appended to a queue with none waiting is the one the scan
      tries: it gains a try and, when sent, the stamp `now`. */
  lemma TriedLast(q: seq<Entry>, e: Entry, now: int)
    requires FirstTarget(q) == |q| && IsTarget(e.sds)
    ensures FirstTarget(q + [e]) == |q|
    ensures Tried(q + [e], true, now)[|q|] == Entry(e.key, e.sds.(nroftries := e.sds.nroftries + 1, tos := now))
  {
    FirstTargetLast(q, e);
  }

  /** A queue with no entry waiting has none to send. */
  lemma {:induction false} FirstTargetNone(q: seq<Entry>)
    requires forall j :: 0 <= j < |q| ==> !IsTarget(q[j].sds)
    ensures FirstTarget(q) == |q|
    decreases |q|
  {
    if q != [] {
      assert forall j :: 0 <= j < |q| - 1 ==> q[1..][j] == q[j + 1];
      FirstTargetNone(q[1..]);
    }
  }

  /** One more entry scanned: its key joins the old ones if it is old. */
  lemma StaleKeysNext(q: seq<Entry>, i: nat, now: int)
    requires i < |q|
    ensures StaleKeys(q[..i + 1], now) ==
      StaleKeys(q[..i], now) + (if Stale(q[i].sds, now) then [q[i].key] else [])
  {
    assert q[..i + 1][..i] == q[..i];
  }

  /** The keys the scan collects in todelete, in scan order. */
  function StaleKeys(q: seq<Entry>, now: int): (ks: seq<int>)
    ensures forall i :: 0 <= i < |q| && Stale(q[i].sds, now) ==> q[i].key in ks
    ensures forall k :: k in ks ==> exists i :: 0 <= i < |q| && q[i].key == k && Stale(q[i].sds, now)
  {
    if q == [] then []
    else
      var last := q[|q| - 1];
      var ks := StaleKeys(q[..|q| - 1], now) + (if Stale(last.sds, now) then [last.key] else []);
      assert forall i :: 0 <= i < |q| - 1 ==> q[..|q| - 1][i] == q[i];
      ks
  }

  /** The queue with the first entry not sent yet given one more try and,
      when it is sent, stamped with `now`. */
  function Tried(q: seq<Entry>, ready: bool, now: int): (u: seq<Entry>)
    ensures |u| == |q|
  {
    var t := FirstTarget(q);
    if t == |q| then q
    else q[t := Entry(q[t].key, q[t].sds.(nroftries := q[t].sds.nroftries + 1,
                                           tos := if ready then now else 0))]
  }

  /** What a checkSds call does to the queue when a CMGS answer is not
      awaited: the new queue, the SDS handed to the radio if any, and the
      value returned. */
  datatype Outcome = Outcome(queue: seq<Entry>, sent: Option<Sds>, result: bool)

  /** The scan stops at the first entry not sent yet; it counts one more try
      for it and, when the radio is ready, stamps it with `now` and sends it.
      Old entries met before that point are erased afterwards. The result is
      true when an SDS was sent or some entry was passed over. */
  function Check(q: seq<Entry>, ready: bool, now: int): Outcome
  {
    var t := FirstTarget(q);
    var u := Tried(q, ready, now);
    var rest := EraseKeys(u, StaleKeys(q[..t], now));
    if t == |q| then Outcome(rest, None, |q| > 0)
    else if ready then Outcome(rest, Some(u[t].sds), true)
    else Outcome(rest, None, t > 0)
  }

  /** The scan loop of checkSds: entries are visited in key order, the
      keys of old ones collected, and the visit stops at the first entry
      not sent yet, which gains a try and, when the radio is ready, is
      stamped with `now`. The result is true when that entry is sent or
      some entry was passed over. */
  method Scan(q: seq<Entry>, ready: bool, now: int) returns (queue: seq<Entry>, todelete: seq<int>, t: nat, retsds: bool)
    ensures t == FirstTarget(q)
    ensures queue == Tried(q, ready, now)
    ensures todelete == StaleKeys(q[..t], now)
    ensures retsds == Check(q, ready, now).result
  {
    queue := q;
    todelete := [];
    retsds := false;
    t := 0;
    while t < |queue|
      invariant t <= |q| && queue == q
      invariant forall j :: 0 <= j < t ==> !IsTarget(q[j].sds)
      invariant todelete == StaleKeys(q[..t], now)
      invariant retsds == (t > 0)
    {
      if Stale(queue[t].sds, now) {
        todelete := todelete + [queue[t].key];
      }
      if IsTarget(queue[t].sds) {
        FirstTargetAt(q, t);
        var s := queue[t].sds.(nroftries := queue[t].sds.nroftries + 1);
        if ready {
          s := s.(tos := now);
          retsds := true;
        }
        queue := queue[t := Entry(queue[t].key, s)];
        break;
      }
      StaleKeysNext(q, t, now);
      retsds := true;
      t := t + 1;
    }
    if t == |q| {
      FirstTargetNone(q);
    }
  }

  /** The erase loop of checkSds. */
  method EraseAll(q: seq<Entry>, todelete: seq<int>) returns (rest: seq<Entry>)
    ensures rest == EraseKeys(q, todelete)
  {
    rest := q;
    var j := 0;
    while j < |todelete|
      invariant 0 <= j <= |todelete|
      invariant rest == EraseKeys(q, todelete[..j])
    {
      EraseKeysNext(q, todelete, j);
      rest := EraseKey(rest, todelete[j]);
      j := j + 1;
    }
    assert todelete[..j] == todelete;
  }

  // ---------------------------------------------------------------------
  // Properties of checkSds
  // ---------------------------------------------------------------------

  /** No entry before the first one not sent yet shares its key. */
  lemma TargetKeyNotStale(q: seq<Entry>, now: int)
    requires Ordered(q) && FirstTarget(q) < |q|
    ensures q[FirstTarget(q)].key !in StaleKeys(q[..FirstTarget(q)], now)
  {
    var t := FirstTarget(q);
    forall i | 0 <= i < |q[..t]| ensures q[..t][i].key != q[t].key {
      assert q[..t][i] == q[i];
    }
  }

  /** The first entry not sent yet gains one try and is stamped exactly when
      it is sent; every other entry is left as it was. */
  lemma TriedEntries(q: seq<Entry>, ready: bool, now: int)
    requires FirstTarget(q) < |q|
    ensures var t := FirstTarget(q);
      Tried(q, ready, now)[t] ==
        Entry(q[t].key, q[t].sds.(nroftries := q[t].sds.nroftries + 1, tos := if ready then now else 0))
    ensures forall j :: 0 <= j < |q| && j != FirstTarget(q) ==> Tried(q, ready, now)[j] == q[j]
  {
  }

  /** That entry is never erased, and it is what goes to the radio when the
      radio is ready. */
  lemma CheckTarget(q: seq<Entry>, ready: bool, now: int)
    requires Ordered(q) && FirstTarget(q) < |q|
    ensures Tried(q, ready, now)[FirstTarget(q)] in Check(q, ready, now).queue
    ensures Check(q, ready, now).sent ==
      (if ready then Some(Tried(q, ready, now)[FirstTarget(q)].sds) else None)
  {
    var t := FirstTarget(q);
    var u := Tried(q, ready, now);
    assert u[t].key == q[t].key;
    TargetKeyNotStale(q, now);
    assert u[t] in u;
  }

  /** Nothing but the first entry not sent yet changes: every entry of the
      new queue is that entry or one of the old queue. */
  lemma CheckChangesOnlyTarget(q: seq<Entry>, ready: bool, now: int)
    requires Ordered(q)
    ensures forall e :: e in Check(q, ready, now).queue ==>
      e in q || (FirstTarget(q) < |q| && e.key == q[FirstTarget(q)].key)
  {
    var t := FirstTarget(q);
    if t < |q| {
      var s := q[t].sds.(nroftries := q[t].sds.nroftries + 1, tos := if ready then now else 0);
      var u := q[t := Entry(q[t].key, s)];
      forall e | e in u ensures e in q || e.key == q[t].key {
        var i :| 0 <= i < |u| && u[i] == e;
        if i != t {
          assert e == q[i];
        }
      }
    }
  }

  /** An entry leaves the queue only when it was old and met before the
      first entry not sent yet. */
  lemma CheckErasesOnlyStale(q: seq<Entry>, ready: bool, now: int, i: int)
    requires Ordered(q) && 0 <= i < |q|
    requires !(i < FirstTarget(q) && Stale(q[i].sds, now))
    ensures q[i].key in Keys(Check(q, ready, now).queue)
    ensures Tried(q, ready, now)[i] in Check(q, ready, now).queue
  {
    var t := FirstTarget(q);
    var u := Tried(q, ready, now);
    var ks := StaleKeys(q[..t], now);
    assert u[i].key == q[i].key;
    assert q[i].key !in ks by {
      forall j | 0 <= j < |q[..t]| && Stale(q[..t][j].sds, now) ensures q[..t][j].key != q[i].key {
        assert q[..t][j] == q[j];
        assert j != i;
        assert q[j].key != q[i].key;
      }
    }
    assert u[i] in EraseKeys(u, ks);
  }

  /** An entry queued after the first one not sent yet comes through the
      try and the scan as it was. */
  lemma CheckKeepsLater(q: seq<Entry>, ready: bool, now: int, i: int)
    requires Ordered(q) && FirstTarget(q) < i < |q|
    ensures q[i] in Tried(q, ready, now) && q[i] in Check(q, ready, now).queue
  {
    TriedEntries(q, ready, now);
    CheckErasesOnlyStale(q, ready, now, i);
  }

  /** With no entry waiting, the scan changes no entry and keeps every one
      that is not old: stamps and tries stay as they were. */
  lemma CheckKeepsSent(q: seq<Entry>, ready: bool, now: int)
    requires Ordered(q) && FirstTarget(q) == |q|
    ensures forall e :: e in Check(q, ready, now).queue ==> e in q
    ensures forall i :: 0 <= i < |q| && !Stale(q[i].sds, now) ==> q[i] in Check(q, ready, now).queue
  {
    CheckChangesOnlyTarget(q, ready, now);
    forall i | 0 <= i < |q| && !Stale(q[i].sds, now) ensures q[i] in Check(q, ready, now).queue {
      CheckErasesOnlyStale(q, ready, now, i);
    }
  }

  /** An old entry met before the first entry not sent yet is erased. */
  lemma CheckErasesStale(q: seq<Entry>, ready: bool, now: int, i: int)
    requires Ordered(q) && 0 <= i < FirstTarget(q) && Stale(q[i].sds, now)
    ensures q[i].key !in Keys(Check(q, ready, now).queue)
  {
    var t := FirstTarget(q);
    var ks := StaleKeys(q[..t], now);
    assert q[..t][i] == q[i];
    assert q[i].key in ks;
    var r := Check(q, ready, now).queue;
    forall j | 0 <= j < |r| ensures r[j].key != q[i].key {
      assert r[j] in r;
    }
  }

  /** The scan erases exactly the old entries it meets before the first
      entry not sent yet, and keeps every other key. */
  lemma CheckErasesExactly(q: seq<Entry>, ready: bool, now: int, i: int)
    requires Ordered(q) && 0 <= i < |q|
    ensures q[i].key !in Keys(Check(q, ready, now).queue) <==>
      i < FirstTarget(q) && Stale(q[i].sds, now)
  {
    if i < FirstTarget(q) && Stale(q[i].sds, now) {
      CheckErasesStale(q, ready, now, i);
    } else {
      CheckErasesOnlyStale(q, ready, now, i);
    }
  }

  /** Because the age test is reversed, an entry stamped at or before
      `now + 3600` is never old; with a clock that does not run backwards no
      entry is ever erased and the queue never shrinks. */
  lemma CheckNeverErasesPastStamps(q: seq<Entry>, ready: bool, now: int)
    requires Ordered(q)
    requires forall i :: 0 <= i < |q| ==> q[i].sds.tos <= now + 3600
    ensures Keys(Check(q, ready, now).queue) == Keys(q)
  {
    var r := Check(q, ready, now).queue;
    forall k | k in Keys(q) ensures k in Keys(r) {
      var i :| 0 <= i < |q| && q[i].key == k;
      CheckErasesOnlyStale(q, ready, now, i);
    }
    forall k | k in Keys(r) ensures k in Keys(q) {
      var i :| 0 <= i < |r| && r[i].key == k;
      CheckChangesOnlyTarget(q, ready, now);
      assert r[i] in r;
      if r[i] in q {
        var j :| 0 <= j < |q| && q[j] == r[i];
      }
    }
  }

  /** Trying the first entry not sent yet leaves every key in its place. */
  lemma TriedOrdered(q: seq<Entry>, ready: bool, now: int)
    requires Ordered(q)
    ensures Ordered(Tried(q, ready, now))
  {
    var u := Tried(q, ready, now);
    forall i, j | 0 <= i < j < |u| ensures u[i].key < u[j].key {
      assert u[i].key == q[i].key && u[j].key == q[j].key;
    }
  }

  /** The scan keeps the queue in key order. */
  lemma CheckOrdered(q: seq<Entry>, ready: bool, now: int)
    requires Ordered(q)
    ensures Ordered(Check(q, ready, now).queue)
  {
    TriedOrdered(q, ready, now);
  }

  /** Sending requires an entry not sent yet and a ready radio, and then
      the result is true. */
  lemma CheckSendsOnlyWhenReady(q: seq<Entry>, ready: bool, now: int)
    ensures Check(q, ready, now).sent.Some? <==> ready && FirstTarget(q) < |q|
    ensures Check(q, ready, now).sent.Some? ==> Check(q, ready, now).result
  {
  }

  /** checkSds returns true exactly when the scan passed over some entry
      before stopping or sent the entry it stopped at. */
  lemma CheckResult(q: seq<Entry>, ready: bool, now: int)
    ensures Check(q, ready, now).result <==> 0 < FirstTarget(q) || (ready && FirstTarget(q) < |q|)
  {
  }

  /** The result of the scan (CheckResult) once an entry not sent yet,
      `e`, is appended: true when some older entry is passed over, when the
      radio is ready, or when `e` itself is passed over as incoming. */
  lemma AppendedResult(q: seq<Entry>, e: Entry, ready: bool)
    requires e.sds.tos == 0
    ensures var t := FirstTarget(q + [e]);
      (0 < t || (ready && t < |q| + 1)) <==>
      0 < FirstTarget(q) || ready || (q == [] && e.sds.direction != Outgoing)
  {
    if FirstTarget(q) < |q| {
      FirstTargetAppend(q, e);
    } else if IsTarget(e.sds) {
      FirstTargetLast(q, e);
    } else {
      FirstTargetPassed(q, e);
    }
  }

  /** An entry that is not waiting, appended to a queue with none waiting,
      leaves none waiting. */
  lemma FirstTargetPassed(q: seq<Entry>, e: Entry)
    requires FirstTarget(q) == |q| && !IsTarget(e.sds)
    ensures FirstTarget(q + [e]) == |q| + 1
  {
    forall j | 0 <= j < |q| + 1 ensures !IsTarget((q + [e])[j].sds) {
      if j < |q| {
        assert (q + [e])[j] == q[j];
      }
    }
    FirstTargetNone(q + [e]);
  }

  /** An entry waiting to be sent, appended to a queue with none waiting,
      gains a try but no stamp while the radio is busy. */
  lemma TriedLastBusy(q: seq<Entry>, e: Entry, now: int)
    requires FirstTarget(q) == |q| && IsTarget(e.sds)
    ensures FirstTarget(q + [e]) == |q|
    ensures Tried(q + [e], false, now)[|q|] == Entry(e.key, e.sds.(nroftries := e.sds.nroftries + 1, tos := 0))
  {
    FirstTargetLast(q, e);
  }

  /** A stamped entry is no longer waiting to be sent, as long as the clock
      is not at 0. */
  lemma SentIsNoTarget(q: seq<Entry>, now: int)
    requires Ordered(q) && now != 0 && FirstTarget(q) < |q|
    ensures Check(q, true, now).sent.Some? && !IsTarget(Check(q, true, now).sent.value)
  {
  }

  // ---------------------------------------------------------------------
  // Keys handed out by queueSds
  // ---------------------------------------------------------------------

  /** The keys are exactly 1 to |q|. */
  predicate Dense(q: seq<Entry>)
  {
    Ordered(q) && forall i :: 0 <= i < |q| ==> q[i].key == i + 1
  }

  /** No entry is old at `now`: every stamp is 0 or at most an hour after
      `now`. */
  predicate NoneStale(q: seq<Entry>, now: int)
  {
    forall i :: 0 <= i < |q| ==> !Stale(q[i].sds, now)
  }

  /** An entry that is not old stays so as the clock moves on. */
  lemma NoneStaleLater(q: seq<Entry>, now: int, later: int)
    requires NoneStale(q, now) && now <= later
    ensures NoneStale(q, later)
  {
  }

  /** With nothing old in it, the scan collects no key to erase. */
  lemma {:induction false} NoStaleKeys(q: seq<Entry>, now: int)
    requires NoneStale(q, now)
    ensures StaleKeys(q, now) == []
    decreases |q|
  {
    if q != [] {
      var p := q[..|q| - 1];
      assert forall i :: 0 <= i < |p| ==> p[i] == q[i];
      NoStaleKeys(p, now);
    }
  }

  /** With nothing old in it, the scan erases nothing: the keys stay 1 to
      n, and the stamp it sets, `now`, is not old either. */
  lemma CheckKeepsDense(q: seq<Entry>, ready: bool, now: int)
    requires Dense(q) && NoneStale(q, now)
    ensures Check(q, ready, now).queue == Tried(q, ready, now)
    ensures Dense(Tried(q, ready, now)) && NoneStale(Tried(q, ready, now), now)
  {
    var t := FirstTarget(q);
    assert forall i :: 0 <= i < |q[..t]| ==> q[..t][i] == q[i];
    NoStaleKeys(q[..t], now);
    TriedOrdered(q, ready, now);
    if t < |q| {
      TriedEntries(q, ready, now);
    }
  }

  /** queueSds's key |q| + 1 is new while the keys are 1 to |q|: the SDS
      is appended and the keys stay dense. */
  lemma EnqueueDense(q: seq<Entry>, sds: Sds)
    requires Dense(q)
    ensures Insert(q, |q| + 1, sds) == q + [Entry(|q| + 1, sds)]
    ensures Dense(Insert(q, |q| + 1, sds))
  {
    var key := |q| + 1;
    assert key !in Keys(q) by {
      forall i | 0 <= i < |q| ensures q[i].key != key {
      }
    }
    assert InsertPos(q, key) == |q|;
    assert q[..|q|] == q && q[|q|..] == [];
  }

  /** Once an erase has left a gap, the key |q| + 1 can be taken: with the
      single entry keyed 2 left, the next SDS gets key 2 and is not stored. */
  lemma EnqueueCollision(old2: Sds, sds: Sds)
    requires old2 != sds
    ensures var q := [Entry(2, old2)];
      Ordered(q) && Insert(q, |q| + 1, sds) == q && Entry(2, sds) !in Insert(q, |q| + 1, sds)
  {
    var q := [Entry(2, old2)];
    assert q[0].key == 2;
    assert 2 in Keys(q);
  }
}
