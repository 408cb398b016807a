/** How many response senders the tables hold for a request, before and after a change to one queue. */
module SessionTables {
  import opened ByteStrings
  import opened Errors
  import opened Multiplexer

  lemma {:induction false} LiveInAppend<P>(q: seq<Entry<P>>, e: Entry<P>, id: u64)
    ensures LiveIn(q + [e], id) == LiveIn(q, id) + (if e.id == id && e.live then 1 else 0)
  {
    if q == [] {
      assert q + [e] == [e];
    } else {
      assert (q + [e])[1..] == q[1..] + [e];
      LiveInAppend(q[1..], e, id);
    }
  }

  lemma {:induction false} LiveInKilled<P>(q: seq<Entry<P>>, id: u64, other: u64)
    ensures LiveIn(KillFirst(q, id), other) + (if other == id && FirstIsLive(q, id) then 1 else 0) == LiveIn(q, other)
  {
    if q != [] {
      LiveInKilled(q[1..], id, other);
    }
  }

  lemma {:induction false} LiveInRemoved<P>(q: seq<Entry<P>>, id: u64, other: u64)
    ensures LiveIn(RemoveFirst(q, id), other) + (if other == id && FirstIsLive(q, id) then 1 else 0) == LiveIn(q, other)
  {
    if q != [] {
      LiveInRemoved(q[1..], id, other);
    }
  }

  /** The sum over the queues may start with any of them. */
  lemma {:induction false} LiveFirst<P>(m: Table<P>, keys: set<u16>, id: u64, t: u16)
    requires t in keys
    ensures LiveInKeys(m, keys, id) == LiveIn(QueueAt(m, t), id) + LiveInKeys(m, keys - {t}, id)
    decreases keys
  {
    var u :| u in keys && LiveInKeys(m, keys, id) == LiveIn(QueueAt(m, u), id) + LiveInKeys(m, keys - {u}, id);
    if u != t {
      LiveFirst(m, keys - {u}, id, t);
      LiveFirst(m, keys - {t}, id, u);
      assert keys - {u} - {t} == keys - {t} - {u};
    }
  }

  lemma {:induction false} LiveSame<P>(m: Table<P>, m': Table<P>, keys: set<u16>, id: u64)
    requires forall t :: t in keys ==> QueueAt(m, t) == QueueAt(m', t)
    ensures LiveInKeys(m, keys, id) == LiveInKeys(m', keys, id)
    decreases keys
  {
    if keys != {} {
      var t :| t in keys;
      LiveFirst(m, keys, id, t);
      LiveFirst(m', keys, id, t);
      LiveSame(m, m', keys - {t}, id);
    }
  }

  /** A table's count is one queue's count and the rest. */
  lemma LiveApart<P>(m: Table<P>, t: u16, id: u64)
    ensures LiveInTable(m, id) == LiveIn(QueueAt(m, t), id) + LiveInKeys(m, m.Keys - {t}, id)
  {
    if t in m {
      LiveFirst(m, m.Keys, id, t);
    } else {
      assert m.Keys - {t} == m.Keys;
    }
  }

  /** Changing one queue changes the table's count by that queue's count. */
  lemma LiveUpdate<P>(m: Table<P>, t: u16, q: seq<Entry<P>>, id: u64)
    ensures LiveInTable(m[t := q], id) + LiveIn(QueueAt(m, t), id) == LiveInTable(m, id) + LiveIn(q, id)
  {
    LiveApart(m, t, id);
    LiveApart(m[t := q], t, id);
    assert m[t := q].Keys - {t} == m.Keys - {t};
    LiveSame(m, m[t := q], m.Keys - {t}, id);
  }

  /** An empty queue counts like no queue. */
  lemma LiveDropEmpty<P>(m: Table<P>, t: u16, id: u64)
    requires QueueAt(m, t) == []
    ensures LiveInTable(m - {t}, id) == LiveInTable(m, id)
  {
    LiveApart(m, t, id);
    assert (m - {t}).Keys == m.Keys - {t};
    LiveSame(m, m - {t}, m.Keys - {t}, id);
  }

  // ---------------------------------------------------------------- draining the tables

  /** Every sender gone from the tables since `start` has reported a closed connection. */
  ghost predicate Settled(
    start: State, answers: Answers, correlated: map<u64, bool>, pending: Table<()>, queued: Table<Parked>)
  {
    forall i: u64 :: SettledFor(start, answers, correlated, pending, queued, i)
  }

  ghost predicate SettledFor(
    start: State, answers: Answers, correlated: map<u64, bool>, pending: Table<()>, queued: Table<Parked>, i: u64)
  {
    var now := LiveOf(correlated, pending, queued, i);
    now <= Live(start, i)
    && answers[i] == start.answers[i] + Repeat(Live(start, i) - now, Failure(ConnectionClosed))
  }

  /** The answers after one more sender has been used, if the slot had one. */
  ghost function Closing(answers: Answers, id: u64, live: bool): Answers {
    if live then answers[id := answers[id] + [Failure(ConnectionClosed)]] else answers
  }

  lemma SettleOne(
    start: State, answers: Answers, id: u64, live: bool,
    correlated: map<u64, bool>, pending: Table<()>, queued: Table<Parked>,
    correlated': map<u64, bool>, pending': Table<()>, queued': Table<Parked>)
    requires Settled(start, answers, correlated, pending, queued)
    requires forall i: u64 :: LiveOf(correlated', pending', queued', i) + (if i == id && live then 1 else 0)
                           == LiveOf(correlated, pending, queued, i)
    ensures Settled(start, Closing(answers, id, live), correlated', pending', queued')
  {
    hide LiveOf, Live, Repeat;
    forall i: u64 ensures SettledFor(start, Closing(answers, id, live), correlated', pending', queued', i) {
      assert SettledFor(start, answers, correlated, pending, queued, i);
      OneMoreClosed(start.answers[i], Live(start, i), LiveOf(correlated, pending, queued, i));
    }
  }

  lemma OneMoreClosed(before: seq<Outcome>, owed: nat, now: nat)
    requires now <= owed
    ensures now == 0 || before + Repeat(owed - now, Failure(ConnectionClosed)) + [Failure(ConnectionClosed)]
                     == before + Repeat(owed - (now - 1), Failure(ConnectionClosed))
  {
  }

  lemma SettlePending(start: State, answers: Answers, correlated: map<u64, bool>, pending: Table<()>, queued: Table<Parked>, t: u16)
    requires Settled(start, answers, correlated, pending, queued) && QueueAt(pending, t) != []
    ensures var slot := pending[t][0];
            Settled(start, Closing(answers, slot.id, slot.live), correlated, pending[t := pending[t][1..]], queued)
  {
    var slot, pending' := pending[t][0], pending[t := pending[t][1..]];
    hide LiveInTable, Settled;
    forall i: u64
      ensures LiveOf(correlated, pending', queued, i) + (if i == slot.id && slot.live then 1 else 0)
           == LiveOf(correlated, pending, queued, i)
    {
      LiveUpdate(pending, t, pending[t][1..], i);
    }
    SettleOne(start, answers, slot.id, slot.live, correlated, pending, queued, correlated, pending', queued);
  }

  lemma SettleQueued(start: State, answers: Answers, correlated: map<u64, bool>, pending: Table<()>, queued: Table<Parked>, t: u16)
    requires Settled(start, answers, correlated, pending, queued) && QueueAt(queued, t) != []
    ensures var slot := queued[t][0];
            Settled(start, Closing(answers, slot.id, slot.live), correlated, pending, queued[t := queued[t][1..]])
  {
    var slot, queued' := queued[t][0], queued[t := queued[t][1..]];
    hide LiveInTable, Settled;
    forall i: u64
      ensures LiveOf(correlated, pending, queued', i) + (if i == slot.id && slot.live then 1 else 0)
           == LiveOf(correlated, pending, queued, i)
    {
      LiveUpdate(queued, t, queued[t][1..], i);
    }
    SettleOne(start, answers, slot.id, slot.live, correlated, pending, queued, correlated, pending, queued');
  }

  lemma SettleCorrelated(start: State, answers: Answers, correlated: map<u64, bool>, pending: Table<()>, queued: Table<Parked>, id: u64)
    requires Settled(start, answers, correlated, pending, queued) && id in correlated
    ensures Settled(start, Closing(answers, id, correlated[id]), correlated - {id}, pending, queued)
  {
    SettleOne(start, answers, id, correlated[id], correlated, pending, queued, correlated - {id}, pending, queued);
  }

  /** Emptied queues can be forgotten. */
  lemma SettledWithout(start: State, answers: Answers, correlated: map<u64, bool>, pending: Table<()>, queued: Table<Parked>, t: u16)
    requires Settled(start, answers, correlated, pending, queued)
    ensures QueueAt(pending, t) == [] ==> Settled(start, answers, correlated, pending - {t}, queued)
    ensures QueueAt(queued, t) == [] ==> Settled(start, answers, correlated, pending, queued - {t})
  {
    hide Live, LiveOf, Repeat;
    forall i: u64
      ensures QueueAt(pending, t) == [] ==> SettledFor(start, answers, correlated, pending - {t}, queued, i)
      ensures QueueAt(queued, t) == [] ==> SettledFor(start, answers, correlated, pending, queued - {t}, i)
    {
      assert SettledFor(start, answers, correlated, pending, queued, i);
      SameWithout(correlated, pending, queued, t, i);
    }
  }

  lemma SameWithout(correlated: map<u64, bool>, pending: Table<()>, queued: Table<Parked>, t: u16, i: u64)
    ensures QueueAt(pending, t) == [] ==>
              LiveOf(correlated, pending - {t}, queued, i) == LiveOf(correlated, pending, queued, i)
    ensures QueueAt(queued, t) == [] ==>
              LiveOf(correlated, pending, queued - {t}, i) == LiveOf(correlated, pending, queued, i)
  {
    hide LiveInTable;
    if QueueAt(pending, t) == [] {
      LiveDropEmpty(pending, t, i);
    }
    if QueueAt(queued, t) == [] {
      LiveDropEmpty(queued, t, i);
    }
  }

  lemma SettledAtStart(start: State)
    ensures Settled(start, start.answers, start.correlated, start.pending, start.queued)
  {
    forall i: u64 ensures SettledFor(start, start.answers, start.correlated, start.pending, start.queued, i) {
      assert start.answers[i] + [] == start.answers[i];
    }
  }

  /** With empty tables, every sender held at the start has answered. */
  lemma SettledInFull(start: State, answers: Answers)
    requires Settled(start, answers, map[], map[], map[])
    ensures answers == ClosedAnswers(start)
  {
    forall i: u64 ensures answers[i] == ClosedAnswers(start)[i] {
      assert SettledFor(start, answers, map[], map[], map[], i);
    }
  }
}
