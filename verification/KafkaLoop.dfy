/** pkg/messaging/kafka/consumer.go: what a whole run of the consume loop makes of the log, turn by turn. */
module KafkaLoop {
  import opened Retry
  import opened KafkaDelivery
  import opened KafkaConsumer

  /** The state after the first `n` turns. */
  function AfterTurns(s: State, p: DeliveryPolicy, turns: seq<Turn>, n: nat): State
    requires n <= |turns|
  {
    if n == 0 then s else AfterTurn(AfterTurns(s, p, turns, n - 1), p, turns[n - 1])
  }

  /** Messages that have arrived in the first `n` turns. */
  function ArrivedBy(turns: seq<Turn>, n: nat): nat
    requires n <= |turns|
  {
    if n == 0 then 0 else ArrivedBy(turns, n - 1) + |turns[n - 1].arrivals|
  }

  /** Messages fetched by them. */
  function FetchedBy(turns: seq<Turn>, n: nat): nat
    requires n <= |turns|
  {
    if n == 0 then 0 else FetchedBy(turns, n - 1) + if turns[n - 1].fetching.Got? then 1 else 0
  }

  /** The turn lets the loop go on. */
  predicate GoesOn(t: Turn) {
    !t.stop && t.fetching != FetchCancelled
  }

  lemma {:induction false} ArrivedIsProduced(s: State, count: nat)
    ensures Exec(s, Arrived(count)) == s.(end := s.end + count)
  {
    if count > 0 {
      ArrivedIsProduced(s, count - 1);
      assert Arrived(count)[..count - 1] == Arrived(count - 1);
    }
  }

  lemma {:induction false} DlqIsKept(s: State, es: seq<Event>)
    ensures Exec(s, es).enableDLQ == s.enableDLQ
  {
    if es != [] {
      DlqIsKept(s, es[..|es| - 1]);
    }
  }

  /** A turn that ends the loop, and one whose fetch fails, only let their arrivals in. */
  lemma IdleTurn(s: State, p: DeliveryPolicy, t: Turn)
    requires !GoesOn(t) || !t.fetching.Got?
    ensures AfterTurn(s, p, t) == s.(end := s.end + |t.arrivals|)
  {
    ArrivedIsProduced(s, |t.arrivals|);
  }

  lemma TurnOfLoop(s: State, p: DeliveryPolicy, turns: seq<Turn>, i: nat, now: State, after: State)
    requires i < |turns| && now == AfterTurns(s, p, turns, i) && after == AfterTurns(s, p, turns, i + 1)
    ensures Exec(now, LoopEvents(p, turns, i)) ==
            if GoesOn(turns[i]) then Exec(after, LoopEvents(p, turns, i + 1)) else after
  {
    TurnThenRest(now, p, turns, i);
    assert after == AfterTurn(now, p, turns[i]);
  }

  /** The loop's events from turn `i` on lead from turn to turn, up to the one that ends it. */
  lemma {:induction false} LoopIsItsTurns(s: State, p: DeliveryPolicy, turns: seq<Turn>, i: nat, m: nat, now: State,
      end: State)
    requires i <= m <= |turns| && (forall k | i <= k < m - 1 :: GoesOn(turns[k]))
    requires m < |turns| ==> i < m && !GoesOn(turns[m - 1])
    requires now == AfterTurns(s, p, turns, i) && end == AfterTurns(s, p, turns, m)
    ensures Exec(now, LoopEvents(p, turns, i)) == end
    decreases m - i
  {
    if i < m {
      var after := AfterTurns(s, p, turns, i + 1);
      TurnOfLoop(s, p, turns, i, now, after);
      if GoesOn(turns[i]) {
        LoopIsItsTurns(s, p, turns, i + 1, m, after, end);
      } else {
        assert i + 1 == m;
      }
    }
  }

  /** The turn fetches a message, and its handler succeeds in the end. */
  predicate Succeeds(p: DeliveryPolicy, t: Turn) {
    t.fetching.Got? && WithRetrySpec(t.env, p).err.None?
  }

  /** The turn fetches a message that ends up in the dead-letter topic. */
  predicate Letters(p: DeliveryPolicy, t: Turn) {
    t.fetching.Got? && WithRetrySpec(t.env, p).err.Some? && p.enableDLQ && t.dlqOk
  }

  /** Its commit moves the mark. */
  predicate Marks(p: DeliveryPolicy, t: Turn) {
    (Succeeds(p, t) || Letters(p, t)) && t.commitOk
  }

  /** The offsets that the first `n` turns handle, from `pos` on. */
  function HandledBy(pos: nat, p: DeliveryPolicy, turns: seq<Turn>, n: nat): set<nat>
    requires n <= |turns|
  {
    if n == 0 then {}
    else HandledBy(pos, p, turns, n - 1) + if Succeeds(p, turns[n - 1]) then {pos + FetchedBy(turns, n - 1)} else {}
  }

  /** The offsets that they dead-letter. */
  function LetteredBy(pos: nat, p: DeliveryPolicy, turns: seq<Turn>, n: nat): set<nat>
    requires n <= |turns|
  {
    if n == 0 then {}
    else LetteredBy(pos, p, turns, n - 1) + if Letters(p, turns[n - 1]) then {pos + FetchedBy(turns, n - 1)} else {}
  }

  lemma {:induction false} OffsetsAreTheTurns(pos: nat, p: DeliveryPolicy, turns: seq<Turn>, n: nat, o: nat)
    requires n <= |turns|
    ensures o in HandledBy(pos, p, turns, n) <==>
            exists k: nat :: k < n && Succeeds(p, turns[k]) && o == pos + FetchedBy(turns, k)
    ensures o in LetteredBy(pos, p, turns, n) <==>
            exists k: nat :: k < n && Letters(p, turns[k]) && o == pos + FetchedBy(turns, k)
  {
    if n > 0 {
      OffsetsAreTheTurns(pos, p, turns, n - 1, o);
    }
  }

  /** Where the mark is then: past the last message whose commit worked, or where it was. */
  function MarkBy(s: State, p: DeliveryPolicy, turns: seq<Turn>, n: nat): nat
    requires n <= |turns|
  {
    if n == 0 then s.committed
    else if Marks(p, turns[n - 1]) then s.pos + FetchedBy(turns, n - 1) + 1
    else MarkBy(s, p, turns, n - 1)
  }

  lemma {:induction false} MarkIsTheLast(s: State, p: DeliveryPolicy, turns: seq<Turn>, k: nat, n: nat)
    requires k < n <= |turns| && Marks(p, turns[k]) && forall j | k < j < n :: !Marks(p, turns[j])
    ensures MarkBy(s, p, turns, n) == s.pos + FetchedBy(turns, k) + 1
  {
    if k < n - 1 {
      MarkIsTheLast(s, p, turns, k, n - 1);
    }
  }

  /** What the first `n` turns made of every offset and of the mark. */
  ghost predicate TurnsFate(s: State, u: State, p: DeliveryPolicy, turns: seq<Turn>, n: nat)
    requires n <= |turns|
  {
    && u.stage.Idle? && u.pos == s.pos + FetchedBy(turns, n)
    && u.handled == s.handled + HandledBy(s.pos, p, turns, n)
    && u.dead == s.dead + LetteredBy(s.pos, p, turns, n)
    && u.committed == MarkBy(s, p, turns, n)
  }

  /** What one turn that goes on makes of its message. */
  ghost predicate Turned(s: State, u: State, p: DeliveryPolicy, t: Turn) {
    && u.stage.Idle? && u.end == s.end + |t.arrivals| && u.pos == s.pos + (if t.fetching.Got? then 1 else 0)
    && u.handled == (if Succeeds(p, t) then s.handled + {s.pos} else s.handled)
    && u.dead == (if Letters(p, t) then s.dead + {s.pos} else s.dead)
    && u.committed == (if Marks(p, t) then s.pos + 1 else s.committed)
    && u.enableDLQ == s.enableDLQ
  }

  lemma TurnAdds(s: State, p: DeliveryPolicy, t: Turn)
    requires s.stage.Idle? && s.enableDLQ == p.enableDLQ && GoesOn(t)
    requires t.fetching.Got? ==> s.pos < s.end + |t.arrivals|
    ensures Turned(s, AfterTurn(s, p, t), p, t)
  {
    if t.fetching.Got? {
      var arrived := s.(end := s.end + |t.arrivals|);
      ArrivedIsProduced(s, |t.arrivals|);
      DlqIsKept(arrived, TurnEvents(p, t));
      TurnFate(arrived, p, t);
    } else {
      IdleTurn(s, p, t);
    }
  }

  lemma OneMoreTurn(s: State, before: State, u: State, p: DeliveryPolicy, turns: seq<Turn>, n: nat)
    requires 0 < n <= |turns| && TurnsFate(s, before, p, turns, n - 1) && Turned(before, u, p, turns[n - 1])
    ensures TurnsFate(s, u, p, turns, n)
  {
  }

  /** No turn among the first `n` looks for a message that is not there yet. */
  ghost predicate Fed(s: State, turns: seq<Turn>, n: nat)
    requires n <= |turns|
  {
    forall k | 0 <= k < n && turns[k].fetching.Got? ::
      s.pos + FetchedBy(turns, k) < s.end + ArrivedBy(turns, k + 1)
  }

  lemma {:induction false} TurnsAddUp(s: State, p: DeliveryPolicy, turns: seq<Turn>, n: nat)
    requires n <= |turns| && s.stage.Idle? && s.enableDLQ == p.enableDLQ && Fed(s, turns, n)
    requires forall k | 0 <= k < n :: GoesOn(turns[k])
    ensures var u := AfterTurns(s, p, turns, n);
            TurnsFate(s, u, p, turns, n) && u.enableDLQ == p.enableDLQ && u.end == s.end + ArrivedBy(turns, n)
  {
    if n > 0 {
      var before := AfterTurns(s, p, turns, n - 1);
      TurnsAddUp(s, p, turns, n - 1);
      assert turns[n - 1].fetching.Got? ==> before.pos < before.end + |turns[n - 1].arrivals|;
      TurnAdds(before, p, turns[n - 1]);
      OneMoreTurn(s, before, AfterTurns(s, p, turns, n), p, turns, n);
    }
  }

  lemma ArrivalsDoNotMatter(s: State, u: State, count: nat, p: DeliveryPolicy, turns: seq<Turn>, n: nat)
    requires n <= |turns| && TurnsFate(s, u, p, turns, n)
    ensures TurnsFate(s, u.(end := u.end + count), p, turns, n)
  {
  }

  /** The whole loop: messages are fetched one by one in the order of the log; those that the handler settles are
      handled, those that fail are dead-lettered where there is a topic for it and the write works, and the mark is past
      the last one settled whose commit worked. A failed fetch costs nothing; a stop or a cancelled fetch ends it. */
  lemma LoopFate(s: State, p: DeliveryPolicy, turns: seq<Turn>, n: nat)
    requires n <= |turns| && s.stage.Idle? && s.enableDLQ == p.enableDLQ && Fed(s, turns, n)
    requires forall k | 0 <= k < n :: !turns[k].stop && turns[k].fetching != FetchCancelled
    requires n < |turns| ==> turns[n].stop || turns[n].fetching == FetchCancelled
    ensures TurnsFate(s, Exec(s, LoopEvents(p, turns, 0)), p, turns, n)
  {
    TurnsAddUp(s, p, turns, n);
    var m := if n < |turns| then n + 1 else n;
    LoopIsItsTurns(s, p, turns, 0, m, s, AfterTurns(s, p, turns, m));
    if n < |turns| {
      IdleTurn(AfterTurns(s, p, turns, n), p, turns[n]);
      ArrivalsDoNotMatter(s, AfterTurns(s, p, turns, n), |turns[n].arrivals|, p, turns, n);
    }
  }
}
