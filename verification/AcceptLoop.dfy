/** Server.Serve's accept loop, its capacity channel and its workers (server.go), as one machine whose steps interleave
    freely: every capacity slot and every limiter slot is accounted for exactly once. */
module AcceptLoop {
  import opened Bytes
  import L = Limiter

  /** The loop between two shared steps: about to accept, holding an acquired slot, about to give one back because
      capacity is full, waiting for the workers, returned. */
  datatype Loop = Accepting | Acquired(key: string) | Refusing(key: string) | Waiting | Returned

  /** A worker serves its connection, then receives from capacity, releases the peer slot and leaves the wait group. */
  datatype Phase = Serving | Draining | Releasing | Leaving

  datatype Worker = Worker(key: string, phase: Phase)

  /** Workers by a number given at the start, next the first number unused; calls is the limiter's history. */
  datatype State = State(loop: Loop, workers: map<nat, Worker>, next: nat, group: int, capacity: int, calls: seq<L.Event>)

  datatype Config = Config(lim: L.Limits, maximum: nat)

  const INITIAL := State(Accepting, map[], 0, 0, 0, [])

  datatype Step =
    | Accept(peer: string, now: int)
    | AcceptFails
    | Admit
    | GiveBack
    | AskRequest(worker: nat, now: int)
    | Finish(worker: nat)
    | Drain(worker: nat)
    | ReleaseSlot(worker: nat)
    | Leave(worker: nat)
    | Return

  predicate At(s: State, w: nat, phase: Phase) { w in s.workers && s.workers[w].phase == phase }

  /** Clocks are monotonic and each reading is used under the limiter's lock in that order. */
  predicate Timely(s: State, now: int) { s.calls != [] ==> L.Last(s.calls).now <= now }

  function Clock(s: State): int { if s.calls == [] then 0 else L.Last(s.calls).now }

  /** Receiving from an empty channel blocks, so Drain needs something to receive. */
  predicate Enabled(s: State, step: Step) {
    match step
    case Accept(_, now) => s.loop.Accepting? && Timely(s, now)
    case AcceptFails => s.loop.Accepting?
    case Admit => s.loop.Acquired?
    case GiveBack => s.loop.Refusing?
    case AskRequest(w, now) => At(s, w, Serving) && Timely(s, now)
    case Finish(w) => At(s, w, Serving)
    case Drain(w) => At(s, w, Draining) && s.capacity > 0
    case ReleaseSlot(w) => At(s, w, Releasing)
    case Leave(w) => At(s, w, Leaving)
    case Return => s.loop.Waiting? && s.group == 0
  }

  function Move(s: State, w: nat, phase: Phase): State
    requires w in s.workers
  {
    s.(workers := s.workers[w := s.workers[w].(phase := phase)])
  }

  function Apply(cfg: Config, s: State, step: Step): State
    requires Enabled(s, step)
  {
    match step
    case Accept(key, now) =>
      var calls := s.calls + [L.Event(L.Acquire, key, now)];
      s.(calls := calls, loop := if L.Said(cfg.lim, calls).Yes? then Acquired(key) else Accepting)
    case AcceptFails => s.(loop := Waiting)
    case Admit =>
      if s.capacity < cfg.maximum then
        s.(loop := Accepting, capacity := s.capacity + 1, group := s.group + 1,
           workers := s.workers[s.next := Worker(s.loop.key, Serving)], next := s.next + 1)
      else s.(loop := Refusing(s.loop.key))
    case GiveBack =>
      s.(loop := Accepting, calls := s.calls + [L.Event(L.Release, s.loop.key, Clock(s))])
    case AskRequest(w, now) => s.(calls := s.calls + [L.Event(L.Request, s.workers[w].key, now)])
    case Finish(w) => Move(s, w, Draining)
    case Drain(w) => Move(s, w, Releasing).(capacity := s.capacity - 1)
    case ReleaseSlot(w) =>
      Move(s, w, Leaving).(calls := s.calls + [L.Event(L.Release, s.workers[w].key, Clock(s))])
    case Leave(w) => s.(workers := s.workers - {w}, group := s.group - 1)
    case Return => s.(loop := Returned)
  }

  function After(cfg: Config, s: State, steps: seq<Step>): Option<State>
    decreases |steps|
  {
    if steps == [] then Some(s)
    else if !Enabled(s, steps[0]) then None
    else After(cfg, Apply(cfg, s, steps[0]), steps[1..])
  }

  // ----- accounts -----

  /** Workers that have not yet received from capacity. */
  function Undrained(ws: map<nat, Worker>): set<nat> {
    set w | w in ws && (ws[w].phase.Serving? || ws[w].phase.Draining?)
  }

  /** Workers that have not yet released the slot of this peer. */
  function Unreleased(ws: map<nat, Worker>, key: string): set<nat> {
    set w | w in ws && ws[w].key == key && !ws[w].phase.Leaving?
  }

  function InHand(loop: Loop, key: string): nat {
    if (loop.Acquired? || loop.Refusing?) && loop.key == key then 1 else 0
  }

  ghost predicate Inv(cfg: Config, s: State) {
    && L.Orderly(cfg.lim, s.calls)
    && (forall w :: w in s.workers ==> w < s.next)
    && s.group == |s.workers| && s.capacity == |Undrained(s.workers)| <= cfg.maximum
    && (forall key :: L.Held(cfg.lim, s.calls, key) == InHand(s.loop, key) + |Unreleased(s.workers, key)|)
    && (s.loop.Returned? ==> s.workers == map[])
  }

  /** The history grows by a call of an orderly caller. */
  lemma CallMade(cfg: Config, calls: seq<L.Event>, e: L.Event)
    requires L.Orderly(cfg.lim, calls) && (calls != [] ==> L.Last(calls).now <= e.now)
    requires !e.what.Acquire? ==> L.Held(cfg.lim, calls, e.key) > 0
    ensures L.Orderly(cfg.lim, calls + [e])
    ensures forall key :: L.Held(cfg.lim, calls + [e], key) == L.Held(cfg.lim, calls, key) +
              if e.key != key then 0
              else if e.what.Acquire? && L.Said(cfg.lim, calls + [e]).Yes? then 1
              else if e.what.Release? then -1 else 0
  {
    assert L.Front(calls + [e]) == calls && L.Last(calls + [e]) == e;
  }

  /** A worker moves one phase on: it leaves Undrained when it has drained, Unreleased when it has released. */
  lemma Moved(ws: map<nat, Worker>, w: nat, phase: Phase)
    requires w in ws
    requires (ws[w].phase, phase) in {(Serving, Draining), (Draining, Releasing), (Releasing, Leaving)}
    ensures var us := ws[w := ws[w].(phase := phase)];
            && |us| == |ws|
            && |Undrained(us)| == |Undrained(ws)| - (if phase.Releasing? then 1 else 0)
            && forall key :: |Unreleased(us, key)|
                 == |Unreleased(ws, key)| - if phase.Leaving? && ws[w].key == key then 1 else 0
  {
    var us := ws[w := ws[w].(phase := phase)];
    assert us.Keys == ws.Keys;
    assert Undrained(us) == if phase.Releasing? then Undrained(ws) - {w} else Undrained(ws);
    forall key ensures |Unreleased(us, key)| == |Unreleased(ws, key)| - if phase.Leaving? && ws[w].key == key then 1 else 0 {
      assert Unreleased(us, key) == if phase.Leaving? && ws[w].key == key then Unreleased(ws, key) - {w} else Unreleased(ws, key);
    }
  }

  lemma JoinedUnreleased(ws: map<nat, Worker>, w: nat, key: string, k: string)
    requires w !in ws
    ensures |Unreleased(ws[w := Worker(key, Serving)], k)| == |Unreleased(ws, k)| + if k == key then 1 else 0
  {
    var us := ws[w := Worker(key, Serving)];
    if k == key {
      assert Unreleased(us, k) == Unreleased(ws, k) + {w};
    } else {
      assert Unreleased(us, k) == Unreleased(ws, k);
    }
  }

  lemma Joined(ws: map<nat, Worker>, w: nat, key: string)
    requires w !in ws
    ensures var us := ws[w := Worker(key, Serving)];
            && |us| == |ws| + 1 && |Undrained(us)| == |Undrained(ws)| + 1
            && forall k :: |Unreleased(us, k)| == |Unreleased(ws, k)| + if k == key then 1 else 0
  {
    var us := ws[w := Worker(key, Serving)];
    assert Undrained(us) == Undrained(ws) + {w};
    assert us.Keys == ws.Keys + {w};
    forall k ensures |Unreleased(us, k)| == |Unreleased(ws, k)| + if k == key then 1 else 0 {
      JoinedUnreleased(ws, w, key, k);
    }
  }

  lemma Left(ws: map<nat, Worker>, w: nat)
    requires w in ws && ws[w].phase.Leaving?
    ensures var us := ws - {w};
            && |us| == |ws| - 1 && Undrained(us) == Undrained(ws)
            && forall k :: Unreleased(us, k) == Unreleased(ws, k)
  {
    assert (ws - {w}).Keys == ws.Keys - {w};
  }

  lemma AcceptKeeps(cfg: Config, s: State, key: string, now: int)
    requires Inv(cfg, s) && Enabled(s, Accept(key, now))
    ensures Inv(cfg, Apply(cfg, s, Accept(key, now)))
  {
    CallMade(cfg, s.calls, L.Event(L.Acquire, key, now));
    hide L.Said, L.Held, L.Orderly, Undrained, Unreleased;
  }

  lemma AdmitKeeps(cfg: Config, s: State)
    requires Inv(cfg, s) && Enabled(s, Admit)
    ensures Inv(cfg, Apply(cfg, s, Admit))
  {
    Joined(s.workers, s.next, s.loop.key);
    hide L.Held, L.Orderly, Undrained, Unreleased;
  }

  lemma GiveBackKeeps(cfg: Config, s: State)
    requires Inv(cfg, s) && Enabled(s, GiveBack)
    ensures Inv(cfg, Apply(cfg, s, GiveBack))
  {
    CallMade(cfg, s.calls, L.Event(L.Release, s.loop.key, Clock(s)));
    hide L.Said, L.Held, L.Orderly, Undrained, Unreleased;
  }

  lemma WorkerStepKeeps(cfg: Config, s: State, step: Step)
    requires Inv(cfg, s) && Enabled(s, step)
    requires step.AskRequest? || step.Finish? || step.Drain? || step.ReleaseSlot? || step.Leave?
    ensures Inv(cfg, Apply(cfg, s, step))
  {
    var w := step.worker;
    Member(s.workers, w);
    hide L.Said, L.Held, L.Orderly, Undrained, Unreleased;
    match step
    case AskRequest(_, now) => CallMade(cfg, s.calls, L.Event(L.Request, s.workers[w].key, now));
    case Finish(_) => Moved(s.workers, w, Draining);
    case Drain(_) => Moved(s.workers, w, Releasing);
    case ReleaseSlot(_) =>
      Moved(s.workers, w, Leaving);
      CallMade(cfg, s.calls, L.Event(L.Release, s.workers[w].key, Clock(s)));
    case Leave(_) => Left(s.workers, w);
  }

  lemma Member(ws: map<nat, Worker>, w: nat)
    requires w in ws
    ensures ws[w].phase.Serving? || ws[w].phase.Draining? <==> w in Undrained(ws)
    ensures !ws[w].phase.Leaving? <==> w in Unreleased(ws, ws[w].key)
    ensures w in Undrained(ws) ==> |Undrained(ws)| > 0
    ensures w in Unreleased(ws, ws[w].key) ==> |Unreleased(ws, ws[w].key)| > 0
  {
  }

  lemma StepKeeps(cfg: Config, s: State, step: Step)
    requires Inv(cfg, s) && Enabled(s, step)
    ensures Inv(cfg, Apply(cfg, s, step))
  {
    hide L.Said, L.Held, L.Orderly, Undrained, Unreleased;
    match step
    case Accept(key, now) => AcceptKeeps(cfg, s, key, now);
    case Admit => AdmitKeeps(cfg, s);
    case GiveBack => GiveBackKeeps(cfg, s);
    case AcceptFails =>
    case Return =>
    case _ => WorkerStepKeeps(cfg, s, step);
  }

  lemma {:induction false} InvAlways(cfg: Config, s: State, steps: seq<Step>)
    requires Inv(cfg, s) && After(cfg, s, steps).Some?
    ensures Inv(cfg, After(cfg, s, steps).value)
    decreases |steps|
  {
    if steps != [] {
      StepKeeps(cfg, s, steps[0]);
      hide Inv, Enabled, Apply;
      InvAlways(cfg, Apply(cfg, s, steps[0]), steps[1..]);
    }
  }

  ghost predicate Accounted(cfg: Config, s: State) {
    var table := L.Current(cfg.lim, s.calls);
    && L.Orderly(cfg.lim, s.calls)
    && (forall key :: L.Active(table, key) == InHand(s.loop, key) + |Unreleased(s.workers, key)|)
    && s.capacity == |Undrained(s.workers)| <= cfg.maximum
    && (forall w :: At(s, w, Draining) ==> Enabled(s, Drain(w)))
    && (forall w :: At(s, w, Releasing) ==> L.Active(table, s.workers[w].key) > 0)
    && (s.loop.Refusing? ==> L.Active(table, s.loop.key) > 0)
    && (s.loop.Returned? ==> s.workers == map[] && s.capacity == 0 && forall key :: L.Active(table, key) == 0)
  }

  lemma InvAccounts(cfg: Config, s: State)
    requires Inv(cfg, s)
    ensures Accounted(cfg, s)
  {
    var table := L.Current(cfg.lim, s.calls);
    hide L.Current, L.Held, L.Orderly, L.Active;
    forall key ensures L.Active(table, key) == InHand(s.loop, key) + |Unreleased(s.workers, key)| {
      L.ActiveIsHeld(cfg.lim, s.calls, key);
    }
    forall w | w in s.workers
      ensures At(s, w, Draining) ==> s.capacity > 0
      ensures At(s, w, Releasing) ==> |Unreleased(s.workers, s.workers[w].key)| > 0 {
      Member(s.workers, w);
    }
    assert s.loop.Returned? ==> Undrained(s.workers) == {} && forall key :: Unreleased(s.workers, key) == {};
    hide Undrained, Unreleased;
  }

  /** At every moment of every interleaving: a peer's active count is its pending acquire plus its workers that have
      not released; occupied capacity is the workers that have not drained, within MaxConnections; a worker about to
      drain or release has something to return; the limiter's callers are orderly; and all is zero on return. */
  lemma EverySlotOnce(cfg: Config, steps: seq<Step>)
    requires After(cfg, INITIAL, steps).Some?
    ensures Accounted(cfg, After(cfg, INITIAL, steps).value)
  {
    assert Inv(cfg, INITIAL);
    InvAlways(cfg, INITIAL, steps);
    InvAccounts(cfg, After(cfg, INITIAL, steps).value);
  }

  lemma {:induction false} AfterThen(cfg: Config, s: State, a: seq<Step>, b: seq<Step>)
    requires After(cfg, s, a).Some?
    ensures After(cfg, s, a + b) == After(cfg, After(cfg, s, a).value, b)
    decreases |a|
  {
    if a == [] {
      assert a + b == b;
    } else {
      assert (a + b)[1..] == a[1..] + b;
      AfterThen(cfg, Apply(cfg, s, a[0]), a[1..], b);
    }
  }

  function ToGo(phase: Phase): nat {
    match phase case Serving => 3 case Draining => 2 case Releasing => 1 case Leaving => 0
  }

  /** Nothing a worker does can block once its connection is served. */
  lemma {:induction false} WorkerLeaves(cfg: Config, s: State, w: nat) returns (steps: seq<Step>)
    requires Inv(cfg, s) && w in s.workers
    ensures var t := After(cfg, s, steps);
            t.Some? && Inv(cfg, t.value) && t.value.loop == s.loop && t.value.group == s.group - 1
    decreases ToGo(s.workers[w].phase)
  {
    var step := match s.workers[w].phase
                case Serving => Finish(w)
                case Draining => Drain(w)
                case Releasing => ReleaseSlot(w)
                case Leaving => Step.Leave(w);
    Member(s.workers, w);
    WorkerStepKeeps(cfg, s, step);
    var t := Apply(cfg, s, step);
    hide Inv;
    var more: seq<Step> := [];
    if step.Leave? {
      assert After(cfg, t, more) == Some(t);
    } else {
      more := WorkerLeaves(cfg, t, w);
    }
    steps := [step] + more;
    assert steps[1..] == more;
  }

  /** So a loop that has stopped accepting can always return. */
  lemma {:induction false} CanReturn(cfg: Config, s: State) returns (steps: seq<Step>)
    requires Inv(cfg, s) && s.loop.Waiting?
    ensures After(cfg, s, steps).Some? && After(cfg, s, steps).value.loop.Returned?
    decreases s.group
  {
    if s.workers == map[] {
      steps := [Return];
      assert steps[1..] == [];
    } else {
      var w :| w in s.workers;
      var first := WorkerLeaves(cfg, s, w);
      assert s.group > 0;
      var rest := CanReturn(cfg, After(cfg, s, first).value);
      AfterThen(cfg, s, first, rest);
      steps := first + rest;
    }
  }

  /** A new connection is closed at once unless its peer gets a slot; a peer with fewer unreleased workers than its
      maximum and fewer than 240 connections in the last minute gets one, unless the table is full. */
  lemma SlotFate(cfg: Config, s: State, peer: string, now: int)
    requires Inv(cfg, s) && Enabled(s, Accept(peer, now))
    ensures var calls := s.calls + [L.Event(L.Acquire, peer, now)];
            var t := Apply(cfg, s, Accept(peer, now));
            && t.workers == s.workers && t.capacity == s.capacity
            && (t.loop == if L.Said(cfg.lim, calls).Yes? then Acquired(peer) else Accepting)
            && (!L.Said(cfg.lim, calls).Full? && |Unreleased(s.workers, peer)| < cfg.lim.maximum
                && L.Granted(cfg.lim, s.calls, L.Acquire, peer, now - 60_000_000_000 + 1) < 240
                ==> t.loop == Acquired(peer))
  {
    var e := L.Event(L.Acquire, peer, now);
    var calls := s.calls + [e];
    CallMade(cfg, s.calls, e);
    assert L.Front(calls) == s.calls && L.Last(calls) == e;
    if !L.Said(cfg.lim, calls).Full? {
      L.FairToAll(cfg.lim, calls);
    }
    hide L.Said, L.Held, L.Orderly, L.Granted, Undrained, Unreleased;
  }

  /** A connection whose peer has a slot gets a worker exactly when fewer than MaxConnections workers have yet to
      drain; otherwise the slot goes back. */
  lemma ConnectionFate(cfg: Config, t: State)
    requires Inv(cfg, t) && t.loop.Acquired?
    ensures var peer, u := t.loop.key, Apply(cfg, t, Admit);
            if |Undrained(t.workers)| < cfg.maximum then
              && u.loop.Accepting? && t.next !in t.workers && u.workers == t.workers[t.next := Worker(peer, Serving)]
            else
              && u.loop == Refusing(peer) && u.workers == t.workers
              && var v := Apply(cfg, u, GiveBack);
                 && v.loop.Accepting? && v.workers == t.workers
                 && L.Held(cfg.lim, v.calls, peer) == L.Held(cfg.lim, t.calls, peer) - 1
  {
    CallMade(cfg, t.calls, L.Event(L.Release, t.loop.key, Clock(t)));
    hide L.Said, L.Held, L.Orderly, Undrained, Unreleased;
  }
}
