/** The poll loop of `processBlocks` as a state machine over the current
    delay and the position of the next master block. One event is one
    iteration of the loop: a failed `LookupBlock`, or a successful one
    followed by `processMcBlock` with the outcome it had. */
module Backoff {
  import opened Base
  import opened Ton

  /** Delays in whole seconds. */
  const DelayBase: nat := 2
  const DelayMax: nat := 8

  datatype PollState = PollState(delay: nat, last: Block)

  datatype PollEvent =
    /** `LookupBlock` failed; `notFound` is `errors.Is(err, ErrBlockNotFound)`,
        which only chooses whether the failure is logged. */
    | LookupFailed(notFound: bool)
    /** `LookupBlock` returned `master`; `processMcBlock` then returned
        `processErr` and left the scanner at position `lastAfter`. */
    | Looked(master: BlockIdExt, processErr: Option<string>, lastAfter: Block)

  /** What a run of the loop shows: the state it reaches, the sleeps it
      asked for, and the position each `LookupBlock` call was given. */
  datatype Trace = Trace(final: PollState, sleeps: seq<nat>, lookups: seq<Block>)

  /** `delay *= 2` capped at `DelayMax`. */
  function Double(d: nat): nat {
    if 2 * d > DelayMax then DelayMax else 2 * d
  }

  /** One iteration of the loop: the next state and the sleep, if any. */
  function Step(s: PollState, e: PollEvent): (PollState, Option<nat>) {
    match e
    case LookupFailed(_) =>
      (PollState(Double(s.delay), s.last), Some(s.delay))
    case Looked(_, None, after) =>
      (PollState(DelayBase, after), None)
    case Looked(_, Some(err), after) =>
      // the lookup success has just reset the delay to DelayBase
      if Contains(err, NotInDb) then (PollState(Double(DelayBase), after), Some(DelayBase))
      else (PollState(DelayBase, after), None)
  }

  function SleepSeq(sleep: Option<nat>): seq<nat> {
    match sleep
    case None => []
    case Some(d) => [d]
  }

  /** The loop run over the events `es`, in order, from state `s`. */
  function Run(s: PollState, es: seq<PollEvent>): Trace {
    if es == [] then Trace(s, [], [])
    else
      var t := Run(s, es[..|es| - 1]);
      var (s', sleep) := Step(t.final, Last(es));
      Trace(s', t.sleeps + SleepSeq(sleep), t.lookups + [t.final.last])
  }

  /** The delays the loop can ever hold: 2, 4 or 8 seconds. */
  predicate OnLadder(d: nat) {
    d == 2 || d == 4 || d == 8
  }

  /** The sleep before the k-th retry of consecutive failed lookups. */
  function Schedule(k: int): nat {
    if k <= 0 then 2 else if k == 1 then 4 else 8
  }

  predicate Failures(es: seq<PollEvent>) {
    forall k :: 0 <= k < |es| ==> es[k].LookupFailed?
  }

  /** Any iteration `e`, whatever came before it and after it: it looks
      up the position the history left. A failed lookup sleeps the current
      delay, doubles it up to the cap and keeps the position. A processed
      block moves to the position `processMcBlock` left and restarts from
      the base delay, except that an error holding "is not in db" first
      sleeps exactly the base delay and leaves twice the base delay; any
      other error sleeps nothing. The rest of the run goes on from there. */
  lemma Iteration(s: PollState, before: seq<PollEvent>, e: PollEvent, after: seq<PollEvent>)
    ensures var t := Run(s, before);
      var d := t.final.delay;
      var (next, slept) :=
        if e.LookupFailed? then (PollState(Double(d), t.final.last), [d])
        else if e.processErr.Some? && Contains(e.processErr.value, NotInDb) then
          (PollState(2 * DelayBase, e.lastAfter), [DelayBase])
        else (PollState(DelayBase, e.lastAfter), []);
      var u := Run(next, after);
      Run(s, before + [e] + after) ==
        Trace(u.final, t.sleeps + slept + u.sleeps, t.lookups + [t.final.last] + u.lookups)
  {
    var t := Run(s, before);
    RunAppend(s, before, [e]);
    assert [e][..0] == [];
    RunAppend(s, before + [e], after);
  }

  /** Running `a` then `b` is running `a + b`. */
  lemma {:induction false} RunAppend(s: PollState, a: seq<PollEvent>, b: seq<PollEvent>)
    ensures Run(s, a + b) ==
      var ta := Run(s, a);
      var tb := Run(ta.final, b);
      Trace(tb.final, ta.sleeps + tb.sleeps, ta.lookups + tb.lookups)
    decreases |b|
  {
    if b == [] {
      assert a + b == a;
    } else {
      var b' := b[..|b| - 1];
      assert (a + b)[..|a + b| - 1] == a + b';
      assert Last(a + b) == Last(b);
      RunAppend(s, a, b');
    }
  }

  /** From any delay of 2, 4 or 8 s the delay stays one of them, and every
      sleep lies between the base and the cap. */
  lemma {:induction false} RunStaysOnLadder(s: PollState, es: seq<PollEvent>)
    requires OnLadder(s.delay)
    ensures OnLadder(Run(s, es).final.delay)
    ensures forall k :: 0 <= k < |Run(s, es).sleeps| ==>
      OnLadder(Run(s, es).sleeps[k]) && DelayBase <= Run(s, es).sleeps[k] <= DelayMax
    decreases |es|
  {
    if es != [] {
      RunStaysOnLadder(s, es[..|es| - 1]);
    }
  }

  /** Consecutive failed lookups of either kind, starting at the `j`-th
      delay of the schedule (2 s for `j` = 0), sleep the schedule from
      there on, 2, 4, 8, 8, ... seconds, and retry the same position each
      time. */
  lemma {:induction false} FailuresBackOff(s: PollState, es: seq<PollEvent>, j: nat)
    requires s.delay == Schedule(j)
    requires Failures(es)
    ensures |Run(s, es).sleeps| == |Run(s, es).lookups| == |es|
    ensures forall k :: 0 <= k < |es| ==> Run(s, es).sleeps[k] == Schedule(j + k)
    ensures forall k :: 0 <= k < |es| ==> Run(s, es).lookups[k] == s.last
    ensures Run(s, es).final == PollState(Schedule(j + |es|), s.last)
    decreases |es|
  {
    if es != [] {
      var init := es[..|es| - 1];
      assert Failures(init) by {
        forall k | 0 <= k < |init| ensures init[k].LookupFailed? {
          assert init[k] == es[k];
        }
      }
      FailuresBackOff(s, init, j);
      assert Last(es) == es[|es| - 1];
    }
  }

  /** After a successful iteration (a lookup success whose processing did
      not fail with "is not in db"), a following streak of failed lookups
      sleeps 2, 4, 8, 8, ... again, whatever the delay was before. */
  lemma ResetThenBackOff(s: PollState, before: seq<PollEvent>, e: PollEvent, fails: seq<PollEvent>)
    requires e.Looked? && (e.processErr.None? || !Contains(e.processErr.value, NotInDb))
    requires Failures(fails)
    ensures var t := Run(s, before + [e] + fails);
      && t.sleeps == Run(s, before).sleeps + seq(|fails|, k => Schedule(k))
      && t.final == PollState(Schedule(|fails|), e.lastAfter)
  {
    var t0 := Run(s, before);
    var s1 := Step(t0.final, e).0;
    RunAppend(s, before, [e]);
    assert Run(t0.final, [e]).sleeps == [] by {
      assert [e][..0] == [];
    }
    RunAppend(s, before + [e], fails);
    FailuresBackOff(s1, fails, 0);
    assert Run(s1, fails).sleeps == seq(|fails|, k => Schedule(k));
  }

  /** After a block whose processing failed with "is not in db", which
      sleeps the base delay once, a following streak of failed lookups
      sleeps 4, 8, 8, ... seconds: the delay was left at twice the base. */
  lemma NotInDbThenBackOff(s: PollState, before: seq<PollEvent>, e: PollEvent, fails: seq<PollEvent>)
    requires e.Looked? && e.processErr.Some? && Contains(e.processErr.value, NotInDb)
    requires Failures(fails)
    ensures var t := Run(s, before + [e] + fails);
      && t.sleeps == Run(s, before).sleeps + [DelayBase] + seq(|fails|, k => Schedule(k + 1))
      && t.final == PollState(Schedule(|fails| + 1), e.lastAfter)
  {
    var t0 := Run(s, before);
    var s1 := PollState(2 * DelayBase, e.lastAfter);
    RunAppend(s, before, [e]);
    assert Run(t0.final, [e]) == Trace(s1, [DelayBase], [t0.final.last]) by {
      assert [e][..0] == [];
    }
    RunAppend(s, before + [e], fails);
    FailuresBackOff(s1, fails, 1);
    assert Run(s1, fails).sleeps == seq(|fails|, k => Schedule(k + 1));
  }

  /** Failed lookups never move the position, so the same block is
      looked up until a lookup succeeds. */
  lemma {:induction false} FailuresKeepPosition(s: PollState, es: seq<PollEvent>)
    requires Failures(es)
    ensures Run(s, es).final.last == s.last
    ensures forall k :: 0 <= k < |Run(s, es).lookups| ==> Run(s, es).lookups[k] == s.last
    decreases |es|
  {
    if es != [] {
      var init := es[..|es| - 1];
      assert Failures(init) by {
        forall k | 0 <= k < |init| ensures init[k].LookupFailed? {
          assert init[k] == es[k];
        }
      }
      FailuresKeepPosition(s, init);
      assert Last(es) == es[|es| - 1];
    }
  }
}
