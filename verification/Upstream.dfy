/** The upstream slots of HTTPHandler (http_upstream.go): eight tokens in a channel, taken by Exchange and given back
    once, by the deferred release of a failing call or by the first Close of the returned body. */
module Upstream {
  import opened Bytes

  const SLOTS := 8

  /** One call of Exchange and the body it returns. Failing and Closing are about to receive from the channel. */
  datatype Phase = Asking | Refused | Working | Failing | Failed | Open | Closing | Closed

  /** back counts, per call, how often its slot has been given back. */
  datatype Exchange = Exchange(phase: Phase, back: nat)

  datatype State = State(calls: seq<Exchange>, occupied: int)

  const INITIAL := State([], 0)

  /** Arrive: a new call. Cancel: its context ends while it waits for a slot. Succeed hands out the body; CloseBody is
      any Close of it, the one in HTTPHandler.Open included, from any goroutine. GiveBack is the receive. */
  datatype Step =
    | Arrive
    | Cancel(i: nat)
    | TakeSlot(i: nat)
    | Fail(i: nat)
    | Succeed(i: nat)
    | CloseBody(i: nat)
    | GiveBack(i: nat)

  predicate At(s: State, i: nat, phase: Phase) { i < |s.calls| && s.calls[i].phase == phase }

  /** A send blocks on a full channel, a receive on an empty one; a second Close waits for the first to finish. */
  predicate Enabled(s: State, step: Step) {
    match step
    case Arrive => true
    case Cancel(i) => At(s, i, Asking)
    case TakeSlot(i) => At(s, i, Asking) && s.occupied < SLOTS
    case Fail(i) => At(s, i, Working)
    case Succeed(i) => At(s, i, Working)
    case CloseBody(i) => At(s, i, Open) || At(s, i, Closed)
    case GiveBack(i) => (At(s, i, Failing) || At(s, i, Closing)) && s.occupied > 0
  }

  function Put(s: State, i: nat, phase: Phase, back: nat): State
    requires i < |s.calls|
  {
    s.(calls := s.calls[i := Exchange(phase, s.calls[i].back + back)])
  }

  function Apply(s: State, step: Step): State
    requires Enabled(s, step)
  {
    match step
    case Arrive => s.(calls := s.calls + [Exchange(Asking, 0)])
    case Cancel(i) => Put(s, i, Refused, 0)
    case TakeSlot(i) => Put(s, i, Working, 0).(occupied := s.occupied + 1)
    case Fail(i) => Put(s, i, Failing, 0)
    case Succeed(i) => Put(s, i, Open, 0)
    case CloseBody(i) => if s.calls[i].phase.Open? then Put(s, i, Closing, 0) else s
    case GiveBack(i) =>
      Put(s, i, if s.calls[i].phase.Failing? then Failed else Closed, 1).(occupied := s.occupied - 1)
  }

  function After(s: State, steps: seq<Step>): Option<State>
    decreases |steps|
  {
    if steps == [] then Some(s)
    else if !Enabled(s, steps[0]) then None
    else After(Apply(s, steps[0]), steps[1..])
  }

  /** In-flight calls that hold a slot, and returned bodies whose slot is not yet back. */
  predicate Holds(phase: Phase) {
    phase.Working? || phase.Failing? || phase.Open? || phase.Closing?
  }

  function Holding(calls: seq<Exchange>): nat {
    if calls == [] then 0 else Holding(calls[..|calls| - 1]) + if Holds(calls[|calls| - 1].phase) then 1 else 0
  }

  lemma {:induction false} HoldingPut(calls: seq<Exchange>, i: nat, e: Exchange)
    requires i < |calls|
    ensures Holding(calls[i := e])
         == Holding(calls) - (if Holds(calls[i].phase) then 1 else 0) + if Holds(e.phase) then 1 else 0
    ensures Holds(calls[i].phase) ==> Holding(calls) > 0
  {
    var last := |calls| - 1;
    if i == last {
      assert calls[i := e][..last] == calls[..last];
    } else {
      assert calls[i := e][..last] == calls[..last][i := e];
      HoldingPut(calls[..last], i, e);
    }
  }

  /** Returned once after a failure or a close, and never before or again. */
  predicate BackOnce(e: Exchange) {
    e.back == if e.phase.Failed? || e.phase.Closed? then 1 else 0
  }

  /** Occupied slots are exactly the calls in flight and the bodies not yet closed, at most eight; each slot is given
      back at most once, and exactly once after an error or a close. */
  predicate Inv(s: State) {
    && s.occupied == Holding(s.calls) <= 8
    && forall i :: 0 <= i < |s.calls| ==> BackOnce(s.calls[i])
  }

  lemma StepKeeps(s: State, step: Step)
    requires Inv(s) && Enabled(s, step)
    ensures Inv(Apply(s, step))
  {
    match step
    case Arrive =>
      var calls := s.calls + [Exchange(Asking, 0)];
      assert calls[..|calls| - 1] == s.calls;
    case _ =>
      HoldingPut(s.calls, step.i, Apply(s, step).calls[step.i]);
      assert s.calls[step.i := s.calls[step.i]] == s.calls;
  }

  lemma {:induction false} InvAlways(s: State, steps: seq<Step>)
    requires Inv(s) && After(s, steps).Some?
    ensures Inv(After(s, steps).value)
    decreases |steps|
  {
    if steps != [] {
      StepKeeps(s, steps[0]);
      InvAlways(Apply(s, steps[0]), steps[1..]);
    }
  }

  /** In every interleaving of calls, failures and repeated or concurrent closes: the slots add up, and a release
      never blocks, because what it receives is still there. */
  lemma EverySlotReturns(steps: seq<Step>)
    requires After(INITIAL, steps).Some?
    ensures var s := After(INITIAL, steps).value;
            && Inv(s)
            && (forall i: nat :: At(s, i, Failing) || At(s, i, Closing) ==> Enabled(s, GiveBack(i)))
  {
    InvAlways(INITIAL, steps);
    var s := After(INITIAL, steps).value;
    forall i: nat | At(s, i, Failing) || At(s, i, Closing) ensures Enabled(s, GiveBack(i)) {
      HoldingPut(s.calls, i, s.calls[i]);
    }
  }

  /** When every call has ended and every body is closed, all eight slots are free again. */
  lemma {:induction false} AllFree(calls: seq<Exchange>)
    requires forall i :: 0 <= i < |calls| ==> !Holds(calls[i].phase)
    ensures Holding(calls) == 0
  {
    if calls != [] {
      AllFree(calls[..|calls| - 1]);
    }
  }

  // ----- nothing keeps a slot or a caller for good -----

  /** A waiting exchange can go ahead exactly when fewer than eight slots are held. */
  lemma TakesWhenFree(s: State, i: nat)
    requires Inv(s) && At(s, i, Asking)
    ensures Enabled(s, TakeSlot(i)) <==> Holding(s.calls) < 8
  {
  }

  lemma {:induction false} AfterThen(s: State, a: seq<Step>, b: seq<Step>)
    requires After(s, a).Some?
    ensures After(s, a + b) == After(After(s, a).value, b)
    decreases |a|
  {
    if a == [] {
      assert a + b == b;
    } else {
      assert (a + b)[1..] == a[1..] + b;
      AfterThen(Apply(s, a[0]), a[1..], b);
    }
  }

  function ToGo(phase: Phase): nat {
    match phase case Working => 2 case Open => 2 case Failing => 1 case Closing => 1 case _ => 0
  }

  /** An exchange in flight can fail, and an open body be closed, without waiting for anyone: its slot comes back. */
  lemma {:induction false} FreeOne(s: State, i: nat) returns (steps: seq<Step>)
    requires Inv(s) && i < |s.calls| && Holds(s.calls[i].phase)
    ensures After(s, steps).Some?
    ensures var t := After(s, steps).value;
            && Inv(t) && |t.calls| == |s.calls| && t.occupied == s.occupied - 1
            && t.calls[i].phase == (if s.calls[i].phase.Working? || s.calls[i].phase.Failing? then Failed else Closed)
            && t.calls[i].back == 1 && forall j :: 0 <= j < |s.calls| && j != i ==> t.calls[j] == s.calls[j]
    decreases ToGo(s.calls[i].phase)
  {
    HoldingPut(s.calls, i, s.calls[i]);
    var step := match s.calls[i].phase
                case Working => Fail(i)
                case Open => CloseBody(i)
                case _ => GiveBack(i);
    StepKeeps(s, step);
    var t := Apply(s, step);
    var more: seq<Step> := [];
    if step.GiveBack? {
      assert After(t, more) == Some(t);
    } else {
      more := FreeOne(t, i);
    }
    steps := [step] + more;
    assert steps[1..] == more;
  }

  /** From every moment all eight slots can be had back. */
  lemma {:induction false} CanFreeAll(s: State) returns (steps: seq<Step>)
    requires Inv(s)
    ensures After(s, steps).Some? && Inv(After(s, steps).value) && After(s, steps).value.occupied == 0
    decreases s.occupied
  {
    if s.occupied == 0 {
      steps := [];
    } else {
      var i := HolderOf(s.calls);
      var first := FreeOne(s, i);
      var rest := CanFreeAll(After(s, first).value);
      AfterThen(s, first, rest);
      steps := first + rest;
    }
  }

  lemma {:induction false} HolderOf(calls: seq<Exchange>) returns (i: nat)
    requires Holding(calls) > 0
    ensures i < |calls| && Holds(calls[i].phase)
  {
    i := |calls| - 1;
    if !Holds(calls[i].phase) {
      i := HolderOf(calls[..i]);
    }
  }
}
