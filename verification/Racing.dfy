/** Fetch, Exchange and Close racing on one Session (client.go, application.go): any number of goroutines whose
    atomic steps interleave freely. */
module Racing {
  import opened Bytes
  import opened Messages
  import C = Client

  datatype Talk = Talk(id: uint32, call: C.Call)

  /** Where a goroutine stands. A caller takes the lock, looks at closed, takes an ID and talks; after a failure it
      marks the session closed, closes the connection and only then unlocks. Close marks first and locks if it can. */
  datatype Thread =
    | Calling(call: C.Call)
    | Locked(call: C.Call)
    | Cleared(call: C.Call)
    | Talking(id: uint32, left: seq<Frame>)
    | Failing
    | Shutting
    | Unlocking
    | Closing
    | Wanting
    | Saying
    | Releasing
    | Ending
    | Gone

  /** History: what is out, the talks begun, how many frames of the last one are out (cut), whether CLOSE is out,
      and whether some write failed midway. */
  datatype Log = Log(output: seq<Frame>, talks: seq<Talk>, cut: nat, said: bool, torn: bool)

  /** What the goroutines share; closer is history, who got past the swap in Close. */
  datatype Shared = Shared(lock: Option<nat>, closed: bool, open: bool, nextID: uint32, closer: Option<nat>, log: Log)

  datatype State = State(threads: seq<Thread>, shared: Shared)

  const CLOSE := Frame(Kind.Close, 0, Empty, [])

  predicate Fresh(threads: seq<Thread>) {
    forall t :: 0 <= t < |threads| ==> threads[t].Calling? || threads[t].Closing?
  }

  function Initial(threads: seq<Thread>): State {
    State(threads, Shared(None, false, true, 1, None, Log([C.HELLO], [], 0, false, false)))
  }

  /** What a whole conversation puts on the wire from the client. */
  function Whole(cfg: C.Config, k: Talk): seq<Frame> {
    [C.RequestFrame(cfg, k.id, k.call)] + if k.call.Exchange? then C.UploadFrames(cfg, k.id, k.call) else []
  }

  /** One atomic step of a goroutine, or the connection going down under all of them. Stop leaves before an ID is
      taken, Fail is any error after, Tear a write that fails with part of its frame out. */
  datatype Act = TryLock | Look | Stop | TakeID | Send | Fail | Tear | Succeed | MarkClosed | Shut | Unlock
               | Swap | TryLockToClose | Say | SayNothing | Release | End
  datatype Step = Go(t: nat, act: Act) | Lost

  predicate Ready(g: Shared, me: Thread, act: Act) {
    match act
    case TryLock => me.Calling?
    case Look => me.Locked?
    case Stop => me.Cleared?
    case TakeID => me.Cleared?
    case Send => me.Talking? && me.left != [] && g.open
    case Fail => me.Cleared? || me.Talking?
    case Tear => ((me.Talking? && me.left != []) || me.Saying?) && g.open
    case Succeed => me.Talking? && me.left == []
    case MarkClosed => me.Failing?
    case Shut => me.Shutting?
    case Unlock => me.Unlocking?
    case Swap => me.Closing?
    case TryLockToClose => me.Wanting?
    case Say => me.Saying? && g.open
    case SayNothing => me.Saying?
    case Release => me.Releasing?
    case End => me.Ending?
  }

  /** One atomic step of goroutine t, which stands at me. */
  function Move(cfg: C.Config, g: Shared, t: nat, me: Thread, act: Act): (Thread, Shared)
    requires Ready(g, me, act)
  {
    match act
    case TryLock => if g.lock == None then (Locked(me.call), g.(lock := Some(t))) else (Gone, g)
    case Look => (if g.closed then Unlocking else Cleared(me.call), g)
    case Stop => (Unlocking, g)
    case TakeID => if g.nextID == 0 then (Unlocking, g) else Begins(cfg, g, Talk(g.nextID, me.call))
    case Send => (me.(left := me.left[1..]), g.(log := g.log.(output := g.log.output + [me.left[0]], cut := g.log.cut + 1)))
    case Fail => (Failing, g)
    case Tear => (if me.Saying? then Releasing else Failing, g.(log := g.log.(torn := true)))
    case Succeed => (Unlocking, g)
    case MarkClosed => (Shutting, g.(closed := true))
    case Shut => (Unlocking, g.(open := false))
    case Unlock => (Gone, g.(lock := None))
    case Swap => if g.closed then (Gone, g) else (Wanting, g.(closed := true, closer := Some(t)))
    case TryLockToClose => if g.lock == None then (Saying, g.(lock := Some(t))) else (Thread.Ending, g)
    case Say => (Releasing, g.(log := g.log.(output := g.log.output + [CLOSE], said := true)))
    case SayNothing => (Releasing, g)
    case Release => (Thread.Ending, g.(lock := None))
    case End => (Gone, g.(open := false))
  }

  function Begins(cfg: C.Config, g: Shared, k: Talk): (Thread, Shared) {
    (Talking(k.id, Whole(cfg, k)),
     g.(nextID := (k.id + 1) % 0x1_0000_0000, log := g.log.(talks := g.log.talks + [k], cut := 0)))
  }

  predicate Enabled(s: State, step: Step) {
    step.Lost? || (step.t < |s.threads| && Ready(s.shared, s.threads[step.t], step.act))
  }

  function Apply(cfg: C.Config, s: State, step: Step): State
    requires Enabled(s, step)
  {
    if step.Lost? then s.(shared := s.shared.(open := false))
    else
      var (me, g) := Move(cfg, s.shared, step.t, s.threads[step.t], step.act);
      State(s.threads[step.t := me], g)
  }

  function After(cfg: C.Config, s: State, steps: seq<Step>): Option<State>
    decreases |steps|
  {
    if steps == [] then Some(s)
    else if !Enabled(s, steps[0]) then None
    else After(cfg, Apply(cfg, s, steps[0]), steps[1..])
  }

  // ----- the wire -----

  function Wholes(cfg: C.Config, talks: seq<Talk>): seq<Frame> {
    if talks == [] then [] else Wholes(cfg, talks[..|talks| - 1]) + Whole(cfg, talks[|talks| - 1])
  }

  function Done(talks: seq<Talk>): seq<Talk> { if talks == [] then [] else talks[..|talks| - 1] }

  /** How long the last conversation begun is. */
  function Length(cfg: C.Config, talks: seq<Talk>): nat {
    if talks == [] then 0 else |Whole(cfg, talks[|talks| - 1])|
  }

  function Begun(cfg: C.Config, talks: seq<Talk>, cut: nat): seq<Frame>
    requires cut <= Length(cfg, talks)
  {
    if talks == [] then [] else Whole(cfg, talks[|talks| - 1])[..cut]
  }

  /** HELLO, whole conversations with IDs 1, 2, 3, ..., the last possibly cut off, then at most one CLOSE, which never
      follows a cut. */
  predicate Wire(cfg: C.Config, w: Log) {
    && (forall i :: 0 <= i < |w.talks| ==> w.talks[i].id == i + 1)
    && w.cut <= Length(cfg, w.talks)
    && w.output == [C.HELLO] + Wholes(cfg, Done(w.talks)) + Begun(cfg, w.talks, w.cut) + (if w.said then [CLOSE] else [])
    && (w.said ==> w.cut == Length(cfg, w.talks))
  }

  // ----- the invariant -----

  predicate Holding(me: Thread) {
    me.Locked? || me.Cleared? || me.Talking? || me.Failing? || me.Shutting? || me.Unlocking? || me.Saying? || me.Releasing?
  }

  predicate Parting(me: Thread) { me.Wanting? || me.Saying? || me.Releasing? || me.Ending? }

  predicate Past(me: Thread) { me.Releasing? || me.Ending? || me.Gone? }

  /** The conversation in progress is its talker's to finish. */
  predicate ThreadOk(cfg: C.Config, g: Shared, t: nat, me: Thread) {
    && (Holding(me) <==> g.lock == Some(t))
    && (Parting(me) ==> g.closer == Some(t))
    && (me.Cleared? || me.Talking? ==> !g.log.said && !g.log.torn)
    && (me.Talking? ==> Continues(cfg, g.log, me.left))
    && (me.Cleared? ==> g.log.cut == Length(cfg, g.log.talks))
    && (me.Shutting? ==> g.closed)
    && (me.Saying? ==> !g.log.said)
  }

  predicate Continues(cfg: C.Config, w: Log, left: seq<Frame>) {
    w.talks != [] && w.cut <= Length(cfg, w.talks) && left == Whole(cfg, w.talks[|w.talks| - 1])[w.cut..]
  }

  function Holder(s: State): Option<Thread> {
    if s.shared.lock.Some? && s.shared.lock.value < |s.threads| then Some(s.threads[s.shared.lock.value]) else None
  }

  function Closer(s: State): Option<Thread> {
    if s.shared.closer.Some? && s.shared.closer.value < |s.threads| then Some(s.threads[s.shared.closer.value]) else None
  }

  /** Someone is dealing with a failure, or the session and its connection are down. */
  predicate Doomed(g: Shared, holder: Option<Thread>) {
    (holder.Some? && (holder.value.Failing? || holder.value.Shutting?)) || (g.closed && !g.open)
  }

  /** An unfinished conversation is being talked or given up; given up, it leaves the session closed and, before the
      lock is free again, the connection too. */
  predicate Global(cfg: C.Config, g: Shared, holder: Option<Thread>, closer: Option<Thread>) {
    && (g.lock.Some? <==> holder.Some?) && (g.closer.Some? <==> closer.Some?)
    && (g.closer.Some? ==> g.closed)
    && (g.log.cut < Length(cfg, g.log.talks) ==> (holder.Some? && holder.value.Talking?) || Doomed(g, holder))
    && (g.log.said ==> closer.Some? && Past(closer.value))
    && (g.log.torn ==> Doomed(g, holder) || (closer.Some? && Past(closer.value)))
    && |g.log.talks| < 0x1_0000_0000 && g.nextID == (|g.log.talks| + 1) % 0x1_0000_0000
  }

  predicate Inv(cfg: C.Config, s: State) {
    && Wire(cfg, s.shared.log)
    && (forall t :: 0 <= t < |s.threads| ==> ThreadOk(cfg, s.shared, t, s.threads[t]))
    && Global(cfg, s.shared, Holder(s), Closer(s))
  }

  lemma OneMore<T>(head: seq<T>, whole: seq<T>, cut: nat)
    requires cut < |whole|
    ensures head + whole[..cut] + [] + [whole[cut]] == head + whole[..cut + 1] + []
  {
  }

  lemma WireSend(cfg: C.Config, w: Log, f: Frame)
    requires Wire(cfg, w) && w.talks != [] && w.cut < Length(cfg, w.talks) && !w.said
    requires f == Whole(cfg, w.talks[|w.talks| - 1])[w.cut]
    ensures Wire(cfg, w.(output := w.output + [f], cut := w.cut + 1))
  {
    OneMore([C.HELLO] + Wholes(cfg, Done(w.talks)), Whole(cfg, w.talks[|w.talks| - 1]), w.cut);
    hide Whole, Wholes, Done;
  }

  lemma WireBegin(cfg: C.Config, w: Log, k: Talk)
    requires Wire(cfg, w) && w.cut == Length(cfg, w.talks) && !w.said && k.id == |w.talks| + 1
    ensures Wire(cfg, w.(talks := w.talks + [k], cut := 0))
  {
    hide Whole;
    var talks := w.talks + [k];
    assert Done(talks) == w.talks;
    if w.talks != [] {
      var whole := Whole(cfg, w.talks[|w.talks| - 1]);
      assert whole[..|whole|] == whole;
      assert Wholes(cfg, w.talks) == Wholes(cfg, Done(w.talks)) + whole;
    }
    assert Whole(cfg, k)[..0] == [];
  }

  lemma WireClose(cfg: C.Config, w: Log)
    requires Wire(cfg, w) && w.cut == Length(cfg, w.talks) && !w.said
    ensures Wire(cfg, w.(output := w.output + [CLOSE], said := true))
  {
    hide Whole, Wholes, Done;
  }

  lemma Rest<T>(whole: seq<T>, cut: nat)
    requires cut < |whole|
    ensures whole[cut..][1..] == whole[cut + 1..] && whole[cut..][0] == whole[cut] && whole[cut..] != []
  {
  }

  /** What one goroutine's step may do to what the others rely on. */
  predicate Gentle(g: Shared, u: Shared, t: nat) {
    && (u.lock == g.lock || (g.lock == None && u.lock == Some(t)) || (g.lock == Some(t) && u.lock == None))
    && (u.closer == g.closer || (g.closer == None && u.closer == Some(t)))
    && (g.closed ==> u.closed)
    && (u.log == g.log || g.lock == Some(t))
  }

  lemma OthersOk(cfg: C.Config, g: Shared, u: Shared, t: nat, other: nat, me: Thread)
    requires Gentle(g, u, t) && other != t && ThreadOk(cfg, g, other, me)
    ensures ThreadOk(cfg, u, other, me)
  {
    hide Whole;
  }

  lemma ActIsGentle(cfg: C.Config, g: Shared, t: nat, me: Thread, act: Act)
    requires ThreadOk(cfg, g, t, me) && Ready(g, me, act) && (g.closer.Some? ==> g.closed)
    ensures Gentle(g, Move(cfg, g, t, me, act).1, t)
  {
    hide Whole;
  }

  lemma SendOk(cfg: C.Config, g: Shared, t: nat, me: Thread)
    requires ThreadOk(cfg, g, t, me) && Ready(g, me, Send) && Wire(cfg, g.log)
    ensures var (you, u) := Move(cfg, g, t, me, Send);
            && ThreadOk(cfg, u, t, you) && Wire(cfg, u.log) && !g.log.torn
  {
    hide Whole, Wire;
    var whole := Whole(cfg, g.log.talks[|g.log.talks| - 1]);
    Rest(whole, g.log.cut);
    WireSend(cfg, g.log, me.left[0]);
  }

  lemma TakeIDOk(cfg: C.Config, g: Shared, t: nat, me: Thread)
    requires ThreadOk(cfg, g, t, me) && Ready(g, me, TakeID) && Wire(cfg, g.log)
    requires g.nextID == (|g.log.talks| + 1) % 0x1_0000_0000 && |g.log.talks| < 0x1_0000_0000
    ensures var (you, u) := Move(cfg, g, t, me, TakeID);
            && ThreadOk(cfg, u, t, you) && Wire(cfg, u.log) && !g.log.torn
  {
    hide Wire, Whole;
    if g.nextID != 0 {
      WireBegin(cfg, g.log, Talk(g.nextID, me.call));
    }
  }

  lemma SayOk(cfg: C.Config, g: Shared, t: nat, me: Thread, holder: Option<Thread>, closer: Option<Thread>)
    requires ThreadOk(cfg, g, t, me) && Ready(g, me, Say) && Global(cfg, g, holder, closer)
    requires holder == Some(me) && closer == Some(me) && g.log.cut <= Length(cfg, g.log.talks)
    ensures g.log.cut == Length(cfg, g.log.talks) && !g.log.said && !g.log.torn
    ensures ThreadOk(cfg, g.(log := g.log.(output := g.log.output + [CLOSE], said := true)), t, Releasing)
  {
    hide Length;
  }

  lemma QuietOk(cfg: C.Config, g: Shared, t: nat, me: Thread, act: Act, holder: Option<Thread>, closer: Option<Thread>)
    requires ThreadOk(cfg, g, t, me) && Ready(g, me, act) && Global(cfg, g, holder, closer)
    requires (g.lock == Some(t) ==> holder == Some(me)) && (g.closer == Some(t) ==> closer == Some(me))
    requires !act.Send? && !act.TakeID? && !act.Say? && g.log.cut <= Length(cfg, g.log.talks)
    ensures var (you, u) := Move(cfg, g, t, me, act);
            && ThreadOk(cfg, u, t, you)
            && u.log == (if act.Tear? then g.log.(torn := true) else g.log)
  {
    hide Length, Continues;
  }

  lemma SelfOk(cfg: C.Config, g: Shared, t: nat, me: Thread, act: Act, holder: Option<Thread>, closer: Option<Thread>)
    requires ThreadOk(cfg, g, t, me) && Ready(g, me, act) && Wire(cfg, g.log) && Global(cfg, g, holder, closer)
    requires (g.lock == Some(t) ==> holder == Some(me)) && (g.closer == Some(t) ==> closer == Some(me))
    ensures var (you, u) := Move(cfg, g, t, me, act);
            && ThreadOk(cfg, u, t, you) && Wire(cfg, u.log)
            && (g.log.torn ==> u.log.output == g.log.output && u.log.torn)
  {
    assert g.log.cut <= Length(cfg, g.log.talks);
    hide Wire, Length, Continues;
    match act
    case Send => SendOk(cfg, g, t, me); hide Move;
    case TakeID => TakeIDOk(cfg, g, t, me); hide Move;
    case Say => SayOk(cfg, g, t, me, holder, closer); WireClose(cfg, g.log);
    case _ =>
      QuietOk(cfg, g, t, me, act, holder, closer);
      WireTorn(cfg, g.log);
      hide Move, Global, ThreadOk;
  }

  lemma WireTorn(cfg: C.Config, w: Log)
    requires Wire(cfg, w)
    ensures Wire(cfg, w.(torn := true))
  {
  }

  lemma GlobalOk(cfg: C.Config, g: Shared, t: nat, me: Thread, act: Act, holder: Option<Thread>, closer: Option<Thread>)
    requires ThreadOk(cfg, g, t, me) && Ready(g, me, act) && Global(cfg, g, holder, closer)
    requires (g.lock == Some(t) ==> holder == Some(me)) && (g.closer == Some(t) ==> closer == Some(me))
    ensures var (you, u) := Move(cfg, g, t, me, act);
            Global(cfg, u, if u.lock == Some(t) then Some(you) else if u.lock == None then None else holder,
                           if u.closer == Some(t) then Some(you) else closer)
  {
    hide Wire, Whole;
  }

  lemma HolderAfter(cfg: C.Config, s: State, t: nat, you: Thread, u: Shared)
    requires t < |s.threads| && Gentle(s.shared, u, t)
    requires Global(cfg, u, if u.lock == Some(t) then Some(you) else if u.lock == None then None else Holder(s),
                            if u.closer == Some(t) then Some(you) else Closer(s))
    ensures var after := State(s.threads[t := you], u); Global(cfg, u, Holder(after), Closer(after))
  {
    hide Global;
  }

  lemma StepKeeps(cfg: C.Config, s: State, step: Step)
    requires Inv(cfg, s) && Enabled(s, step)
    ensures var t := Apply(cfg, s, step);
            Inv(cfg, t) && (s.shared.log.torn ==> t.shared.log.torn && t.shared.log.output == s.shared.log.output)
  {
    hide Wire, Whole, Move, ThreadOk;
    if step.Go? {
      var me := s.threads[step.t];
      assert ThreadOk(cfg, s.shared, step.t, me);
      HolderIs(cfg, s, step.t);
      GlobalOk(cfg, s.shared, step.t, me, step.act, Holder(s), Closer(s));
      SelfOk(cfg, s.shared, step.t, me, step.act, Holder(s), Closer(s));
      ActIsGentle(cfg, s.shared, step.t, me, step.act);
      var (you, u) := Move(cfg, s.shared, step.t, me, step.act);
      HolderAfter(cfg, s, step.t, you, u);
      hide Global;
      forall v | 0 <= v < |s.threads| && v != step.t ensures ThreadOk(cfg, u, v, s.threads[v]) {
        OthersOk(cfg, s.shared, u, step.t, v, s.threads[v]);
      }
    } else {
      LostKeeps(cfg, s);
    }
  }

  lemma HolderIs(cfg: C.Config, s: State, t: nat)
    requires t < |s.threads|
    ensures s.shared.lock == Some(t) ==> Holder(s) == Some(s.threads[t])
    ensures s.shared.closer == Some(t) ==> Closer(s) == Some(s.threads[t])
  {
  }

  lemma LostKeeps(cfg: C.Config, s: State)
    requires Inv(cfg, s)
    ensures Inv(cfg, s.(shared := s.shared.(open := false)))
  {
    var t := s.(shared := s.shared.(open := false));
    hide Wire, Length;
    forall v | 0 <= v < |t.threads| ensures ThreadOk(cfg, t.shared, v, t.threads[v]) {
      assert ThreadOk(cfg, s.shared, v, s.threads[v]);
    }
    assert Holder(t) == Holder(s) && Closer(t) == Closer(s);
  }

  lemma {:induction false} WireAlways(cfg: C.Config, s: State, steps: seq<Step>)
    requires Inv(cfg, s) && After(cfg, s, steps).Some?
    ensures var t := After(cfg, s, steps).value;
            Inv(cfg, t) && (s.shared.log.torn ==> t.shared.log.output == s.shared.log.output)
    decreases |steps|
  {
    if steps != [] {
      StepKeeps(cfg, s, steps[0]);
      hide Inv, Apply, Enabled;
      WireAlways(cfg, Apply(cfg, s, steps[0]), steps[1..]);
    }
  }

  /** Every interleaving of Fetch, Exchange and Close keeps the wire in order, with IDs 1, 2, 3, ... that never come
      round again, and no byte follows a frame that was written in part. */
  lemma RacersKeepOrder(cfg: C.Config, threads: seq<Thread>, steps: seq<Step>, more: seq<Step>)
    requires Fresh(threads) && After(cfg, Initial(threads), steps).Some?
    ensures var t := After(cfg, Initial(threads), steps).value;
            && Wire(cfg, t.shared.log) && |t.shared.log.talks| < 0x1_0000_0000
            && var later := After(cfg, t, more);
               later.Some? && t.shared.log.torn ==> later.value.shared.log.output == t.shared.log.output
  {
    var s := Initial(threads);
    assert Inv(cfg, s) by {
      assert [C.HELLO] + [] + [] + [] == [C.HELLO];
    }
    WireAlways(cfg, s, steps);
    var t := After(cfg, s, steps).value;
    if After(cfg, t, more).Some? {
      WireAlways(cfg, t, more);
    }
    hide After;
  }

  // ----- a call that is alone gets through -----

  lemma {:induction false} AfterThen(cfg: C.Config, s: State, a: seq<Step>, b: seq<Step>)
    requires After(cfg, s, a).Some?
    ensures After(cfg, s, a + b) == After(cfg, After(cfg, s, a).value, b)
    decreases |a|
  {
    hide Apply, Enabled;
    if a == [] {
      assert a + b == b;
    } else {
      assert (a + b)[1..] == a[1..] + b;
      AfterThen(cfg, Apply(cfg, s, a[0]), a[1..], b);
    }
  }

  lemma AfterOne(cfg: C.Config, s: State, steps: seq<Step>, step: Step)
    requires After(cfg, s, steps).Some? && Enabled(After(cfg, s, steps).value, step)
    ensures After(cfg, s, steps + [step]) == Some(Apply(cfg, After(cfg, s, steps).value, step))
  {
    AfterThen(cfg, s, steps, [step]);
    hide Apply, Enabled;
    var t := After(cfg, s, steps).value;
    assert [step][1..] == [];
    assert After(cfg, t, [step]) == After(cfg, Apply(cfg, t, step), []);
  }

  /** All the frames a talker has left go out. */
  lemma {:induction false} SendsRest(cfg: C.Config, s: State, t: nat) returns (steps: seq<Step>)
    requires t < |s.threads| && s.threads[t].Talking? && s.shared.open
    ensures var me, w := s.threads[t], s.shared.log;
            After(cfg, s, steps) == Some(State(
              s.threads[t := Talking(me.id, [])],
              s.shared.(log := w.(output := w.output + me.left, cut := w.cut + |me.left|))))
    decreases |s.threads[t].left|
  {
    var me, w := s.threads[t], s.shared.log;
    if me.left == [] {
      steps := [];
      assert s.threads[t := me] == s.threads && w.output + me.left == w.output;
    } else {
      var u := Apply(cfg, s, Go(t, Send));
      var more := SendsRest(cfg, u, t);
      steps := [Go(t, Send)] + more;
      assert steps[1..] == more;
      assert w.output + [me.left[0]] + me.left[1..] == w.output + me.left;
      assert u.threads[t := Talking(me.id, [])] == s.threads[t := Talking(me.id, [])];
    }
  }

  /** A caller that finds the lock free, the session open and an ID left puts its whole conversation on the wire
      under that ID and leaves the session free for the next. */
  lemma LoneCall(cfg: C.Config, s: State, t: nat) returns (steps: seq<Step>)
    requires t < |s.threads| && s.threads[t].Calling?
    requires s.shared.lock == None && !s.shared.closed && s.shared.open && s.shared.nextID != 0
    ensures After(cfg, s, steps).Some?
    ensures var u, k := After(cfg, s, steps).value, Talk(s.shared.nextID, s.threads[t].call);
            && u.threads == s.threads[t := Gone] && u.shared.lock == None && !u.shared.closed && u.shared.open
            && u.shared.nextID == (k.id + 1) % 0x1_0000_0000
            && u.shared.log.output == s.shared.log.output + Whole(cfg, k) && u.shared.log.talks == s.shared.log.talks + [k]
  {
    hide Whole;
    var call := s.threads[t].call;
    var k := Talk(s.shared.nextID, call);
    var g := s.shared;
    var locked := State(s.threads[t := Locked(call)], g.(lock := Some(t)));
    var cleared := State(s.threads[t := Cleared(call)], g.(lock := Some(t)));
    var talking := State(s.threads[t := Talking(k.id, Whole(cfg, k))], g.(
      lock := Some(t), nextID := (k.id + 1) % 0x1_0000_0000, log := g.log.(talks := g.log.talks + [k], cut := 0)));
    StartsTalking(cfg, s, t, locked, cleared, talking);
    var begins := [Go(t, TryLock), Go(t, Look), Go(t, TakeID)];
    var sends := SendsRest(cfg, talking, t);
    AfterThen(cfg, s, begins, sends);
    var sent := After(cfg, talking, sends).value;
    assert sent.threads[t] == Talking(k.id, []);
    AfterOne(cfg, s, begins + sends, Go(t, Succeed));
    AfterOne(cfg, s, begins + sends + [Go(t, Succeed)], Go(t, Unlock));
    steps := begins + sends + [Go(t, Succeed)] + [Go(t, Unlock)];
    hide After, Move;
    assert sent.threads[t := Unlocking][t := Gone] == s.threads[t := Gone];
  }

  lemma StartsTalking(cfg: C.Config, s: State, t: nat, locked: State, cleared: State, talking: State)
    requires t < |s.threads| && s.threads[t].Calling?
    requires s.shared.lock == None && !s.shared.closed && s.shared.nextID != 0
    requires var call, g := s.threads[t].call, s.shared;
             var k := Talk(g.nextID, call);
             && locked == State(s.threads[t := Locked(call)], g.(lock := Some(t)))
             && cleared == State(s.threads[t := Cleared(call)], g.(lock := Some(t)))
             && talking == State(s.threads[t := Talking(k.id, Whole(cfg, k))], g.(
                  lock := Some(t), nextID := (k.id + 1) % 0x1_0000_0000, log := g.log.(talks := g.log.talks + [k], cut := 0)))
    ensures After(cfg, s, [Go(t, TryLock), Go(t, Look), Go(t, TakeID)]) == Some(talking)
  {
    hide Whole;
    assert Apply(cfg, s, Go(t, TryLock)) == locked;
    assert Apply(cfg, locked, Go(t, Look)) == cleared;
    assert Apply(cfg, cleared, Go(t, TakeID)) == talking;
    assert Enabled(s, Go(t, TryLock)) && Enabled(locked, Go(t, Look)) && Enabled(cleared, Go(t, TakeID));
    hide Apply, Enabled;
    var steps := [Go(t, TryLock), Go(t, Look), Go(t, TakeID)];
    var s1 := steps[1..];
    var s2 := s1[1..];
    assert s2[1..] == [];
    assert After(cfg, cleared, s2) == Some(talking);
    assert After(cfg, locked, s1) == Some(talking);
  }

  /** A caller that finds the session busy, closed or out of IDs goes away and leaves it as it was. */
  lemma TurnedAway(cfg: C.Config, s: State, t: nat)
    requires t < |s.threads| && s.threads[t].Calling?
    ensures s.shared.lock.Some? ==>
              var u := Apply(cfg, s, Go(t, TryLock)); u.threads[t] == Gone && u.shared == s.shared
    ensures s.shared.lock == None && s.shared.closed ==>
              var u := Apply(cfg, Apply(cfg, s, Go(t, TryLock)), Go(t, Look));
              u.threads[t] == Unlocking && Apply(cfg, u, Go(t, Unlock)).shared == s.shared
    ensures s.shared.lock == None && !s.shared.closed && s.shared.nextID == 0 ==>
              var u := Apply(cfg, Apply(cfg, Apply(cfg, s, Go(t, TryLock)), Go(t, Look)), Go(t, TakeID));
              u.threads[t] == Unlocking && Apply(cfg, u, Go(t, Unlock)).shared == s.shared
  {
  }

  /** Close on a session that is open and free says CLOSE, once, and shuts the connection. */
  lemma LoneClose(cfg: C.Config, s: State, t: nat) returns (steps: seq<Step>)
    requires t < |s.threads| && s.threads[t].Closing?
    requires s.shared.lock == None && !s.shared.closed && s.shared.open
    ensures After(cfg, s, steps).Some?
    ensures var u := After(cfg, s, steps).value;
            && u.threads == s.threads[t := Gone] && u.shared.closed && !u.shared.open && u.shared.lock == None
            && u.shared.log.output == s.shared.log.output + [CLOSE]
  {
    var g := s.shared;
    var a := State(s.threads[t := Wanting], g.(closed := true, closer := Some(t)));
    var b := State(s.threads[t := Saying], a.shared.(lock := Some(t)));
    var c := State(s.threads[t := Releasing], b.shared.(log := g.log.(output := g.log.output + [CLOSE], said := true)));
    var d := State(s.threads[t := Thread.Ending], c.shared.(lock := None));
    var e := State(s.threads[t := Gone], d.shared.(open := false));
    steps := [Go(t, Swap), Go(t, TryLockToClose), Go(t, Say), Go(t, Release), Go(t, Act.End)];
    assert Apply(cfg, s, Go(t, Swap)) == a;
    assert Apply(cfg, a, Go(t, TryLockToClose)) == b;
    assert Apply(cfg, b, Go(t, Say)) == c;
    assert Apply(cfg, c, Go(t, Release)) == d;
    assert Apply(cfg, d, Go(t, Act.End)) == e;
    ClosePath(cfg, s, a, b, c, d, e, steps);
  }

  lemma ClosePath(cfg: C.Config, s: State, a: State, b: State, c: State, d: State, e: State, steps: seq<Step>)
    requires |steps| == 5
    requires Enabled(s, steps[0]) && a == Apply(cfg, s, steps[0])
    requires Enabled(a, steps[1]) && b == Apply(cfg, a, steps[1])
    requires Enabled(b, steps[2]) && c == Apply(cfg, b, steps[2])
    requires Enabled(c, steps[3]) && d == Apply(cfg, c, steps[3])
    requires Enabled(d, steps[4]) && e == Apply(cfg, d, steps[4])
    ensures After(cfg, s, steps) == Some(e)
  {
    hide Apply, Enabled;
    var s1 := steps[1..];
    var s2 := s1[1..];
    var s3 := s2[1..];
    var s4 := s3[1..];
    assert s4[1..] == [];
    assert After(cfg, d, s4) == Some(e);
    assert After(cfg, c, s3) == Some(e);
    assert After(cfg, b, s2) == Some(e);
    assert After(cfg, a, s1) == Some(e);
  }
}
