/** pkg/messaging/kafka: one partition under one consumer group. Offsets are fetched in order from the session's read
    position, a commit is cumulative, and the loop goes on after a message it could not settle. */
module KafkaDelivery {

  /** Where the loop is with the message it fetched last. */
  datatype Stage =
    | Idle
    | Fetched(offset: nat)
    | Failed(offset: nat)        // retries exhausted, dead-letter write to come
    | Settled(offset: nat)       // handled or dead-lettered, commit to come

  /** `skipped` and `overtaken` keep the story of the run: offsets this session left unsettled, and offsets some session
      left unsettled before it committed a higher one. */
  datatype State = State(
    enableDLQ: bool, end: nat, committed: nat, pos: nat, stage: Stage,
    handled: set<nat>, dead: set<nat>, skipped: set<nat>, overtaken: set<nat>)

  datatype Event =
    | Produce
    | Fetch
    | HandlerNil
    | HandlerErr
    | DlqWrite(ok: bool)
    | Commit(ok: bool)
    | Restart             // crash, cancellation, stop or rebalance: a new session from the committed mark

  function Start(enableDLQ: bool): State {
    State(enableDLQ, 0, 0, 0, Idle, {}, {}, {}, {})
  }

  function Next(s: State, e: Event): State {
    match e
    case Produce => s.(end := s.end + 1)
    case Fetch => if s.stage.Idle? && s.pos < s.end then s.(stage := Fetched(s.pos), pos := s.pos + 1) else s
    case HandlerNil =>
      if s.stage.Fetched? then s.(stage := Settled(s.stage.offset), handled := s.handled + {s.stage.offset}) else s
    case HandlerErr =>
      if !s.stage.Fetched? then s
      else if s.enableDLQ then s.(stage := Failed(s.stage.offset))
      else s.(stage := Idle, skipped := s.skipped + {s.stage.offset})
    case DlqWrite(ok) =>
      if !s.stage.Failed? then s
      else if ok then s.(stage := Settled(s.stage.offset), dead := s.dead + {s.stage.offset})
      else s.(stage := Idle, skipped := s.skipped + {s.stage.offset})
    case Commit(ok) =>
      if !s.stage.Settled? then s
      else if ok then s.(stage := Idle, committed := s.stage.offset + 1, overtaken := s.overtaken + s.skipped)
      else s.(stage := Idle)
    case Restart => s.(stage := Idle, pos := s.committed, skipped := {})
  }

  function Exec(s: State, es: seq<Event>): State {
    if es == [] then s else Next(Exec(s, es[..|es| - 1]), es[|es| - 1])
  }

  /** Below the mark, so never delivered again, and neither handled nor dead-lettered. */
  ghost predicate Lost(s: State, o: nat) {
    o < s.committed && o !in s.handled && o !in s.dead
  }

  ghost predicate Done(s: State, o: nat) {
    o in s.handled || o in s.dead
  }

  ghost predicate StageOk(s: State) {
    match s.stage
    case Idle => true
    case Settled(o) => s.committed <= o && s.pos == o + 1 && Done(s, o)
    case _ => s.committed <= s.stage.offset && s.pos == s.stage.offset + 1
  }

  /** Every offset is accounted for: settled, overtaken, skipped in this session, in hand, or still to be fetched. */
  ghost predicate Accounted(s: State) {
    && s.committed <= s.pos <= s.end
    && StageOk(s)
    && (forall o: nat | o < s.committed :: Done(s, o) || o in s.overtaken)
    && (forall o | o in s.overtaken :: o < s.committed)
    && (forall o: nat | s.committed <= o < s.pos ::
        Done(s, o) || o in s.skipped || (!s.stage.Idle? && o == s.stage.offset))
    && (forall o | o in s.skipped :: o < s.pos && (s.stage.Idle? || o != s.stage.offset))
    && (forall o | o in s.handled || o in s.dead :: o < s.end)
  }

  lemma StepKeepsAccounted(s: State, e: Event)
    requires Accounted(s)
    ensures Accounted(Next(s, e))
  {
  }

  lemma {:induction false} RunsAreAccounted(enableDLQ: bool, es: seq<Event>)
    ensures Accounted(Exec(Start(enableDLQ), es)) && Exec(Start(enableDLQ), es).enableDLQ == enableDLQ
  {
    if es != [] {
      RunsAreAccounted(enableDLQ, es[..|es| - 1]);
      StepKeepsAccounted(Exec(Start(enableDLQ), es[..|es| - 1]), es[|es| - 1]);
    }
  }

  /** Event i of the run leaves `o`, the message in hand, unsettled: the handler gave up and there is no dead-letter
      topic, or writing to it failed. */
  ghost predicate LeftUnsettled(s0: State, es: seq<Event>, i: nat, o: nat)
    requires i < |es|
  {
    var s := Exec(s0, es[..i]);
    match es[i]
    case HandlerErr => s.stage == Fetched(o) && !s.enableDLQ
    case DlqWrite(ok) => s.stage == Failed(o) && !ok
    case _ => false
  }

  /** Event j commits an offset. */
  ghost predicate Commits(s0: State, es: seq<Event>, j: nat)
    requires j < |es|
  {
    Exec(s0, es[..j]).stage.Settled? && es[j] == Commit(true)
  }

  predicate SameSession(es: seq<Event>, i: nat, j: nat)
    requires i <= j <= |es|
  {
    forall k | i <= k < j :: es[k] != Restart
  }

  ghost predicate SkippedBy(s0: State, es: seq<Event>, o: nat) {
    exists i: nat :: i < |es| && LeftUnsettled(s0, es, i, o) && SameSession(es, i, |es|)
  }

  /** Some session left `o` unsettled and then committed a higher offset. */
  ghost predicate OvertakenBy(s0: State, es: seq<Event>, o: nat) {
    exists i: nat, j: nat :: i < j < |es| && LeftUnsettled(s0, es, i, o) && Commits(s0, es, j) && SameSession(es, i, j)
  }

  lemma LeftUnsettledPrefix(s0: State, es: seq<Event>, i: nat, o: nat)
    requires i < |es| - 1
    ensures LeftUnsettled(s0, es[..|es| - 1], i, o) == LeftUnsettled(s0, es, i, o)
    ensures Commits(s0, es[..|es| - 1], i) == Commits(s0, es, i)
  {
    assert es[..|es| - 1][..i] == es[..i];
  }

  lemma SessionPrefix(es: seq<Event>, i: nat, j: nat)
    requires i <= j <= |es| - 1
    ensures SameSession(es[..|es| - 1], i, j) == SameSession(es, i, j)
    ensures SameSession(es, i, |es|) <==> SameSession(es, i, |es| - 1) && es[|es| - 1] != Restart
  {
  }

  lemma SkippedByStep(s0: State, es: seq<Event>, o: nat)
    requires es != []
    ensures SkippedBy(s0, es, o) <==>
            es[|es| - 1] != Restart && (SkippedBy(s0, es[..|es| - 1], o) || LeftUnsettled(s0, es, |es| - 1, o))
  {
    var fs := es[..|es| - 1];
    if SkippedBy(s0, es, o) {
      var i: nat :| i < |es| && LeftUnsettled(s0, es, i, o) && SameSession(es, i, |es|);
      SessionPrefix(es, i, |es| - 1);
      if i < |fs| {
        LeftUnsettledPrefix(s0, es, i, o);
        assert SkippedBy(s0, fs, o);
      }
    }
    if SkippedBy(s0, fs, o) && es[|es| - 1] != Restart {
      var i: nat :| i < |fs| && LeftUnsettled(s0, fs, i, o) && SameSession(fs, i, |fs|);
      LeftUnsettledPrefix(s0, es, i, o);
      SessionPrefix(es, i, |es| - 1);
      assert LeftUnsettled(s0, es, i, o) && SameSession(es, i, |es|);
    }
  }

  lemma OvertakenByStep(s0: State, es: seq<Event>, o: nat)
    requires es != []
    ensures OvertakenBy(s0, es, o) <==>
            OvertakenBy(s0, es[..|es| - 1], o) || (SkippedBy(s0, es[..|es| - 1], o) && Commits(s0, es, |es| - 1))
  {
    var fs := es[..|es| - 1];
    if OvertakenBy(s0, es, o) {
      var i: nat, j: nat :| i < j < |es| && LeftUnsettled(s0, es, i, o) && Commits(s0, es, j) && SameSession(es, i, j);
      LeftUnsettledPrefix(s0, es, i, o);
      SessionPrefix(es, i, j);
      if j < |fs| {
        LeftUnsettledPrefix(s0, es, j, o);
      }
    }
    if OvertakenBy(s0, fs, o) {
      var i: nat, j: nat :| i < j < |fs| && LeftUnsettled(s0, fs, i, o) && Commits(s0, fs, j) && SameSession(fs, i, j);
      LeftUnsettledPrefix(s0, es, i, o);
      LeftUnsettledPrefix(s0, es, j, o);
      SessionPrefix(es, i, j);
      assert LeftUnsettled(s0, es, i, o) && Commits(s0, es, j);
    }
    if SkippedBy(s0, fs, o) && Commits(s0, es, |es| - 1) {
      var i: nat :| i < |fs| && LeftUnsettled(s0, fs, i, o) && SameSession(fs, i, |fs|);
      LeftUnsettledPrefix(s0, es, i, o);
      SessionPrefix(es, i, |es| - 1);
      assert LeftUnsettled(s0, es, i, o) && Commits(s0, es, |es| - 1);
    }
  }

  /** The two story sets say what happened in the run. */
  lemma {:induction false} StoryIsTheRun(enableDLQ: bool, es: seq<Event>, o: nat)
    ensures var s0 := Start(enableDLQ); var s := Exec(s0, es);
            (o in s.skipped <==> SkippedBy(s0, es, o)) && (o in s.overtaken <==> OvertakenBy(s0, es, o))
  {
    if es != [] {
      var s0, fs := Start(enableDLQ), es[..|es| - 1];
      StoryIsTheRun(enableDLQ, fs, o);
      SkippedByStep(s0, es, o);
      OvertakenByStep(s0, es, o);
    }
  }

  /** Loss, exactly: an offset is lost if and only if it was never settled and some session left it unsettled and then
      committed a higher one. */
  lemma LossExactly(enableDLQ: bool, es: seq<Event>, o: nat)
    ensures var s0 := Start(enableDLQ); var s := Exec(s0, es);
            Lost(s, o) <==> OvertakenBy(s0, es, o) && !Done(s, o)
  {
    RunsAreAccounted(enableDLQ, es);
    StoryIsTheRun(enableDLQ, es, o);
  }

  /** What is lost stays lost, whatever happens afterwards. */
  lemma {:induction false} LossIsForever(enableDLQ: bool, es: seq<Event>, later: seq<Event>, o: nat)
    requires Lost(Exec(Start(enableDLQ), es), o)
    ensures Lost(Exec(Start(enableDLQ), es + later), o)
    decreases |later|
  {
    if later == [] {
      assert es + later == es;
    } else {
      var fs := es + later[..|later| - 1];
      LossIsForever(enableDLQ, es, later[..|later| - 1], o);
      RunsAreAccounted(enableDLQ, fs);
      assert (es + later)[..|es + later| - 1] == fs;
    }
  }

  /** A new session starts with the first message that was not committed over, if there is one. */
  lemma {:induction false} RestartRefetches(enableDLQ: bool, es: seq<Event>)
    ensures var s := Exec(Start(enableDLQ), es); var t := Next(Next(s, Restart), Fetch);
            && (s.committed < s.end ==> t.stage == Fetched(s.committed) && t.pos == s.committed + 1)
            && (s.committed >= s.end ==> t == Next(s, Restart))
            && t.handled == s.handled && t.dead == s.dead && t.committed == s.committed && t.skipped == {}
  {
    RunsAreAccounted(enableDLQ, es);
  }

  /** With a dead-letter topic that takes every write, nothing is ever lost, through any crashes and failed commits. */
  lemma NothingLostWithDLQ(es: seq<Event>, o: nat)
    requires DlqWrite(false) !in es
    ensures !Lost(Exec(Start(true), es), o)
  {
    NothingSkippedWithDLQ(es);
    RunsAreAccounted(true, es);
    var s := Exec(Start(true), es);
    assert o < s.committed ==> Done(s, o) || o in s.overtaken;
  }

  lemma {:induction false} NothingSkippedWithDLQ(es: seq<Event>)
    requires DlqWrite(false) !in es
    ensures var s := Exec(Start(true), es); s.enableDLQ && s.skipped == {} && s.overtaken == {}
  {
    if es != [] {
      NothingSkippedWithDLQ(es[..|es| - 1]);
      assert es[|es| - 1] in es;
    }
  }

  /** The promise to redeliver after a restart holds until the next commit, and no longer: from a state that has
      skipped `o`, a restart after `rest` fetches `o` again if and only if nothing was committed in between. */
  lemma {:induction false} RedeliveredUntilNextCommit(s: State, rest: seq<Event>, o: nat)
    requires Accounted(s) && o in s.skipped && s.committed <= o && Restart !in rest
    ensures Next(Exec(s, rest), Restart).pos <= o <==> forall j | 0 <= j < |rest| :: !Commits(s, rest, j)
    ensures Accounted(Exec(s, rest)) && o in Exec(s, rest).skipped
  {
    if rest != [] {
      var front, e := rest[..|rest| - 1], rest[|rest| - 1];
      assert e in rest;
      RedeliveredUntilNextCommit(s, front, o);
      StepKeepsAccounted(Exec(s, front), e);
      forall j | 0 <= j < |front| ensures Commits(s, front, j) == Commits(s, rest, j) {
        assert front[..j] == rest[..j];
      }
      CommitPassesSkipped(Exec(s, front), o, e);
      assert Commits(s, rest, |front|) <==> Exec(s, front).stage.Settled? && e == Commit(true);
    }
  }

  /** Within a session the next commit is above everything the session skipped. */
  lemma CommitPassesSkipped(s: State, o: nat, e: Event)
    requires Accounted(s) && o in s.skipped && e != Restart
    ensures o < Next(s, e).committed <==> o < s.committed || (s.stage.Settled? && e == Commit(true))
  {
    if s.stage.Settled? && o < s.pos {
      assert o <= s.stage.offset;
    }
  }

  /** Two messages, no dead-letter topic: the first fails, the second is handled and committed. */
  const LOSING_RUN: seq<Event> := [Produce, Produce, Fetch, HandlerErr, Fetch, HandlerNil, Commit(true)]

  /** So the redelivery promise can be broken: offset 0 is lost, for good. */
  lemma RedeliveryPromiseFails(later: seq<Event>)
    ensures Lost(Exec(Start(false), LOSING_RUN + later), 0)
  {
    var s0 := Start(false);
    var run := LOSING_RUN;
    ExecStep(s0, run, 0);
    ExecStep(s0, run, 1);
    ExecStep(s0, run, 2);
    ExecStep(s0, run, 3);
    ExecStep(s0, run, 4);
    ExecStep(s0, run, 5);
    ExecStep(s0, run, 6);
    assert run[..7] == run;
    LossIsForever(false, run, later, 0);
  }

  lemma ExecStep(s: State, es: seq<Event>, n: nat)
    requires n < |es|
    ensures es[..0] == [] && Exec(s, es[..n + 1]) == Next(Exec(s, es[..n]), es[n])
  {
    assert es[..n + 1][..n] == es[..n];
  }

  lemma {:induction false} ExecConcat(s: State, es: seq<Event>, fs: seq<Event>)
    ensures Exec(s, es + fs) == Exec(Exec(s, es), fs)
    decreases |fs|
  {
    if fs == [] {
      assert es + fs == es;
    } else {
      ExecConcat(s, es, fs[..|fs| - 1]);
      assert (es + fs)[..|es + fs| - 1] == es + fs[..|fs| - 1];
    }
  }

  lemma ExecOne(s: State, e: Event)
    ensures Exec(s, [e]) == Next(s, e)
  {
    assert [e][..0] == [];
  }

  lemma ExecTwo(s: State, e: Event, f: Event)
    ensures Exec(s, [e, f]) == Next(Next(s, e), f)
  {
    assert [e, f] == [e] + [f];
    ExecConcat(s, [e], [f]);
    ExecOne(s, e);
    ExecOne(Next(s, e), f);
  }
}
