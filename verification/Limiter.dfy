/** Per-peer connection and request budgets in a bounded, evicting table (limits.go). */
module Limiter {
  import opened Bytes

  /** Times are in nanoseconds. */
  const SECOND := 1_000_000_000
  const MINUTE := 60 * SECOND
  const TRACKED := 4096
  const CONNECTIONS := 240

  datatype Limits = Limits(maximum: nat, requests: nat)
  datatype Budget = Budget(active: nat, window: int, connections: nat, requests: nat)
  datatype Table = Table(peers: map<string, Budget>, lastPrune: Option<int>)

  /** Full is the refusal of an untracked peer for lack of room. */
  datatype Verdict = Yes | No | Full

  datatype What = Acquire | Release | Request
  datatype Event = Event(what: What, key: string, now: int)

  function Reset(b: Budget, now: int): Budget {
    if now - b.window >= MINUTE then Budget(b.active, now, 0, 0) else b
  }

  /** What one budget answers to an event. */
  function Answer(lim: Limits, budget: Budget, e: Event): (Budget, Verdict) {
    match e.what
    case Acquire =>
      var b := Reset(budget, e.now);
      if b.active >= lim.maximum || b.connections >= CONNECTIONS then (b, No)
      else (b.(active := b.active + 1, connections := b.connections + 1), Yes)
    case Release => (if budget.active > 0 then budget.(active := budget.active - 1) else budget, Yes)
    case Request =>
      var b := Reset(budget, e.now);
      if b.requests >= lim.requests then (b, No) else (b.(requests := b.requests + 1), Yes)
  }

  predicate Stale(b: Budget, now: int) { b.active == 0 && now - b.window >= MINUTE }

  function Pruned(peers: map<string, Budget>, now: int): map<string, Budget> {
    map k | k in peers && !Stale(peers[k], now) :: peers[k]
  }

  /** A full table is pruned for a new peer, at most once a second. */
  function MakeRoom(t: Table, key: string, now: int): Table {
    if key in t.peers || |t.peers| < TRACKED || (t.lastPrune.Some? && now - t.lastPrune.value < SECOND) then t
    else Table(Pruned(t.peers, now), Some(now))
  }

  /** One call of the limiter. */
  function Step(lim: Limits, t: Table, e: Event): (Table, Verdict) {
    var u := if e.what.Acquire? then MakeRoom(t, e.key, e.now) else t;
    if e.key in u.peers then
      var (b, v) := Answer(lim, u.peers[e.key], e);
      (u.(peers := u.peers[e.key := b]), v)
    else if !e.what.Acquire? then (u, No)
    else if |u.peers| >= TRACKED then (u, Full)
    else
      var (b, v) := Answer(lim, Budget(0, e.now, 0, 0), e);
      (u.(peers := u.peers[e.key := b]), v)
  }

  class PeerLimiter {
    const limits: Limits
    var peers: map<string, Budget>
    var lastPrune: Option<int>

    constructor (maximum: nat, requests: nat)
      ensures limits == Limits(maximum, requests) && Now() == EMPTY
    {
      limits := Limits(maximum, requests);
      peers, lastPrune := map[], None;
    }

    function Now(): Table
      reads this
    {
      Table(peers, lastPrune)
    }

    /** The sweep over the table. */
    method Prune(now: int)
      modifies this`peers
      ensures peers == Pruned(old(peers), now)
    {
      var names := peers.Keys;
      while names != {}
        invariant names <= old(peers).Keys
        invariant peers == map k | k in old(peers) && (k in names || !Stale(old(peers)[k], now)) :: old(peers)[k]
        decreases |names|
      {
        var name :| name in names;
        if peers[name].active == 0 && now - peers[name].window >= MINUTE {
          peers := peers - {name};
        }
        names := names - {name};
      }
    }

    method Acquire(key: string, now: int) returns (ok: bool)
      modifies this
      ensures var (t, v) := Step(limits, old(Now()), Event(What.Acquire, key, now)); Now() == t && (ok <==> v.Yes?)
    {
      if key !in peers {
        if |peers| >= TRACKED {
          if lastPrune == None || now - lastPrune.value >= SECOND {
            Prune(now);
            lastPrune := Some(now);
          }
          if |peers| >= TRACKED {
            return false;
          }
        }
        peers := peers[key := Budget(0, now, 0, 0)];
      }
      ResetBudget(key, now);
      var budget := peers[key];
      if budget.active >= limits.maximum || budget.connections >= CONNECTIONS {
        return false;
      }
      peers := peers[key := budget.(active := budget.active + 1, connections := budget.connections + 1)];
      ok := true;
    }

    method ResetBudget(key: string, now: int)
      requires key in peers
      modifies this`peers
      ensures peers == old(peers)[key := Reset(old(peers)[key], now)]
    {
      if now - peers[key].window >= MINUTE {
        peers := peers[key := peers[key].(window := now, connections := 0, requests := 0)];
      }
    }

    method Release(key: string, ghost now: int)
      modifies this`peers
      ensures Now() == Step(limits, old(Now()), Event(What.Release, key, now)).0
    {
      if key in peers && peers[key].active > 0 {
        peers := peers[key := peers[key].(active := peers[key].active - 1)];
      }
    }

    method AllowRequest(key: string, now: int) returns (ok: bool)
      modifies this`peers
      ensures var (t, v) := Step(limits, old(Now()), Event(What.Request, key, now)); Now() == t && (ok <==> v.Yes?)
    {
      if key !in peers {
        return false;
      }
      ResetBudget(key, now);
      if peers[key].requests >= limits.requests {
        return false;
      }
      peers := peers[key := peers[key].(requests := peers[key].requests + 1)];
      ok := true;
    }
  }

  const EMPTY := Table(map[], None)

  // ----- histories -----

  /** The limiter that never forgets a peer. */
  type Memory = map<string, Budget>

  function Recall(lim: Limits, m: Memory, e: Event): (Memory, Verdict) {
    if e.key !in m && !e.what.Acquire? then (m, No)
    else
      var (b, v) := Answer(lim, if e.key in m then m[e.key] else Budget(0, e.now, 0, 0), e);
      (m[e.key := b], v)
  }

  function Front(es: seq<Event>): seq<Event>
    requires es != []
  {
    es[..|es| - 1]
  }

  function Last(es: seq<Event>): Event
    requires es != []
  {
    es[|es| - 1]
  }

  /** The table after a history of calls. */
  function Current(lim: Limits, es: seq<Event>): Table {
    if es == [] then EMPTY else Step(lim, Current(lim, Front(es)), Last(es)).0
  }

  /** What the table answered to the last call. */
  function Said(lim: Limits, es: seq<Event>): Verdict
    requires es != []
  {
    Step(lim, Current(lim, Front(es)), Last(es)).1
  }

  /** The memory after the same calls, but for those refused for lack of room. */
  function Remembered(lim: Limits, es: seq<Event>): Memory {
    if es == [] then map[]
    else if Said(lim, es).Full? then Remembered(lim, Front(es))
    else Recall(lim, Remembered(lim, Front(es)), Last(es)).0
  }

  /** Slots of a peer granted and not yet returned. */
  function Held(lim: Limits, es: seq<Event>, key: string): int {
    if es == [] then 0
    else
      Held(lim, Front(es), key) +
        if Last(es).key != key then 0
        else if Last(es).what.Acquire? && Said(lim, es).Yes? then 1
        else if Last(es).what.Release? then -1 else 0
  }

  /** Call times do not decrease, and only holders of a slot release or ask for requests. */
  predicate Orderly(lim: Limits, es: seq<Event>) {
    es == [] || (
      && Orderly(lim, Front(es))
      && (Front(es) != [] ==> Last(Front(es)).now <= Last(es).now)
      && (!Last(es).what.Acquire? ==> Held(lim, Front(es), Last(es).key) > 0))
  }

  /** How many calls of that sort were granted to a peer in the minute that starts at from. */
  function Granted(lim: Limits, es: seq<Event>, what: What, key: string, from: int): nat {
    if es == [] then 0
    else Granted(lim, Front(es), what, key, from) +
         if Last(es).what == what && Last(es).key == key && Said(lim, es).Yes? && from <= Last(es).now < from + MINUTE
         then 1 else 0
  }

  // ----- active counts -----

  function Active(t: Table, key: string): int {
    if key in t.peers then t.peers[key].active else 0
  }

  /** One call changes the active count of its own peer alone, and pruning touches none. */
  lemma StepActive(lim: Limits, t: Table, e: Event, key: string)
    ensures var (u, v) := Step(lim, t, e);
            Active(u, key) == Active(t, key) + (
              if e.key != key then 0
              else if e.what.Acquire? && v.Yes? then 1
              else if e.what.Release? && Active(t, key) > 0 then -1 else 0)
  {
  }

  /** A peer's active count is exactly what it holds: so a peer with active connections is never evicted. */
  lemma {:induction false} ActiveIsHeld(lim: Limits, es: seq<Event>, key: string)
    requires Orderly(lim, es)
    ensures Active(Current(lim, es), key) == Held(lim, es, key)
    ensures Held(lim, es, key) > 0 ==> key in Current(lim, es).peers
    ensures 0 <= Held(lim, es, key) <= lim.maximum
  {
    if es != [] {
      ActiveIsHeld(lim, Front(es), key);
      hide Step;
      StepActive(lim, Current(lim, Front(es)), Last(es), key);
      if Last(es).what.Acquire? && Said(lim, es).Yes? {
        YesFits(lim, Current(lim, Front(es)), Last(es));
      }
    }
  }

  lemma YesFits(lim: Limits, t: Table, e: Event)
    requires e.what.Acquire? && Step(lim, t, e).1.Yes?
    ensures Active(t, e.key) < lim.maximum
  {
  }

  lemma PrunedFits(peers: map<string, Budget>, now: int)
    ensures |Pruned(peers, now)| <= |peers|
  {
    assert Pruned(peers, now).Keys <= peers.Keys;
    SmallerSet(Pruned(peers, now).Keys, peers.Keys);
  }

  lemma {:induction false} SmallerSet<T>(a: set<T>, b: set<T>)
    requires a <= b
    ensures |a| <= |b|
    decreases |a|
  {
    if a != {} {
      var x :| x in a;
      SmallerSet(a - {x}, b - {x});
    }
  }

  /** The table never tracks more than 4096 peers. */
  lemma {:induction false} TableBounded(lim: Limits, es: seq<Event>)
    ensures |Current(lim, es).peers| <= 4096
  {
    if es != [] {
      TableBounded(lim, Front(es));
      var t, e := Current(lim, Front(es)), Last(es);
      PrunedFits(t.peers, e.now);
      hide Answer, Pruned;
    }
  }

  // ----- forgetting nothing -----

  /** Tracked peers are remembered exactly; forgotten ones hold nothing and their window is over. */
  ghost predicate Alike(t: Table, m: Memory, now: int) {
    && (forall k :: k in t.peers ==> k in m && m[k] == t.peers[k])
    && (forall k :: k in m && k !in t.peers ==> Stale(m[k], now))
  }

  lemma AlikeStep(lim: Limits, t: Table, m: Memory, e: Event, before: int)
    requires Alike(t, m, before) && before <= e.now
    requires !e.what.Acquire? ==> e.key in t.peers
    ensures var (u, v) := Step(lim, t, e);
            if v.Full? then Alike(u, m, e.now)
            else Recall(lim, m, e).1 == v && Alike(u, Recall(lim, m, e).0, e.now)
  {
    var u := if e.what.Acquire? then MakeRoom(t, e.key, e.now) else t;
    assert Alike(u, m, e.now);
    if e.what.Acquire? && e.key !in u.peers && e.key in m {
      assert Answer(lim, m[e.key], e) == Answer(lim, Budget(0, e.now, 0, 0), e);
    }
    hide Answer, MakeRoom;
  }

  /** The evicting table answers every orderly history as the limiter that never forgets a peer does, except that it
      refuses a peer it does not track when all its 4096 places stay taken. */
  lemma {:induction false} RefinesMemory(lim: Limits, es: seq<Event>)
    requires Orderly(lim, es)
    ensures es != [] ==> Alike(Current(lim, es), Remembered(lim, es), Last(es).now)
    ensures es != [] ==>
      var t, e := Current(lim, Front(es)), Last(es);
      && (Said(lim, es).Full? <==> e.what.Acquire? && e.key !in t.peers && |MakeRoom(t, e.key, e.now).peers| == TRACKED)
      && (!Said(lim, es).Full? ==> Said(lim, es) == Recall(lim, Remembered(lim, Front(es)), e).1)
  {
    if es != [] {
      var t, e, m := Current(lim, Front(es)), Last(es), Remembered(lim, Front(es));
      RefinesMemory(lim, Front(es));
      ActiveIsHeld(lim, Front(es), e.key);
      TableBounded(lim, Front(es));
      PrunedFits(t.peers, e.now);
      FullWhen(lim, t, e);
      hide Step, MakeRoom, Recall, Held;
      AlikeStep(lim, t, m, e, if Front(es) == [] then e.now else Last(Front(es)).now);
    }
  }

  lemma FullWhen(lim: Limits, t: Table, e: Event)
    requires |t.peers| <= TRACKED
    ensures Step(lim, t, e).1.Full?
       <==> e.what.Acquire? && e.key !in t.peers && |MakeRoom(t, e.key, e.now).peers| == TRACKED
  {
    PrunedFits(t.peers, e.now);
  }

  // ----- budgets per minute -----

  function Cap(lim: Limits, what: What): nat {
    if what.Acquire? then CONNECTIONS else lim.requests
  }

  function Spent(b: Budget, what: What): nat {
    if what.Acquire? then b.connections else b.requests
  }

  /** A minute may touch the current window and the one before, never a third. */
  function Bound(lim: Limits, m: Memory, what: What, key: string, from: int): nat {
    if key !in m then 0
    else if m[key].window < from then Spent(m[key], what)
    else if m[key].window < from + MINUTE then Cap(lim, what) + Spent(m[key], what)
    else 2 * Cap(lim, what)
  }

  ghost predicate Budgeted(lim: Limits, m: Memory, what: What, key: string, from: int, granted: nat, now: int) {
    && granted <= Bound(lim, m, what, key, from)
    && (key in m ==> m[key].window <= now && Spent(m[key], what) <= Cap(lim, what))
    && (now < from ==> granted == 0)
  }

  lemma BudgetStep(lim: Limits, m: Memory, e: Event, what: What, key: string, from: int, granted: nat, before: int)
    requires what != Release
    requires Budgeted(lim, m, what, key, from, granted, before) && before <= e.now
    ensures var (u, v) := Recall(lim, m, e);
            Budgeted(lim, u, what, key, from,
                     granted + if e.what == what && e.key == key && v.Yes? && from <= e.now < from + MINUTE then 1 else 0,
                     e.now)
  {
  }

  lemma {:induction false} HistoryBudgeted(lim: Limits, es: seq<Event>, what: What, key: string, from: int)
    requires Orderly(lim, es) && what != Release
    ensures Granted(lim, es, what, key, from) <= Bound(lim, Remembered(lim, es), what, key, from)
    ensures es != [] ==>
      Budgeted(lim, Remembered(lim, es), what, key, from, Granted(lim, es, what, key, from), Last(es).now)
  {
    if es != [] {
      HistoryBudgeted(lim, Front(es), what, key, from);
      RefinesMemory(lim, es);
      hide Recall, Step, Held;
      BudgetStep(lim, Remembered(lim, Front(es)), Last(es), what, key, from, Granted(lim, Front(es), what, key, from),
                 if Front(es) == [] then Last(es).now else Last(Front(es)).now);
    }
  }

  /** Any half-open minute holds at most 2 * 240 admitted connections and 2 * RequestsPerMinute allowed requests of
      one peer, across disconnects, reconnects and evictions. */
  lemma TwicePerMinute(lim: Limits, es: seq<Event>, key: string, from: int)
    requires Orderly(lim, es)
    ensures Granted(lim, es, Acquire, key, from) <= 2 * 240
    ensures Granted(lim, es, Request, key, from) <= 2 * lim.requests
  {
    HistoryBudgeted(lim, es, Acquire, key, from);
    HistoryBudgeted(lim, es, Request, key, from);
  }

  // ----- the answers, told from the history alone -----

  /** The call that opened the current minute of a peer: its first, then each one a minute or more after the opening
      of the minute before. Calls refused for lack of room leave no trace. */
  function Opening(lim: Limits, es: seq<Event>, key: string): (o: Option<nat>)
    ensures o.Some? ==> o.value < |es|
  {
    if es == [] then None
    else
      var o := Opening(lim, Front(es), key);
      if Last(es).key != key || Last(es).what.Release? || Said(lim, es).Full? then o
      else if o == None then (if Last(es).what.Acquire? then Some(|es| - 1) else None)
      else if Last(es).now - es[o.value].now >= 60_000_000_000 then Some(|es| - 1)
      else o
  }

  /** Calls of that sort granted to a peer from position k on. */
  function GrantedSince(lim: Limits, es: seq<Event>, k: nat, what: What, key: string): nat {
    if |es| <= k then 0
    else GrantedSince(lim, Front(es), k, what, key)
         + if Last(es).what == what && Last(es).key == key && Said(lim, es).Yes? then 1 else 0
  }

  /** A remembered budget is what the history says: opened then, that much spent since, that many slots held. */
  predicate Recorded(lim: Limits, es: seq<Event>, key: string) {
    var m, o := Remembered(lim, es), Opening(lim, es, key);
    && (key in m <==> o.Some?)
    && (o.Some? ==>
          && m[key].window == es[o.value].now
          && m[key].connections == GrantedSince(lim, es, o.value, Acquire, key)
          && m[key].requests == GrantedSince(lim, es, o.value, Request, key))
  }

  lemma {:induction false} MemoryIsRecorded(lim: Limits, es: seq<Event>, key: string)
    requires Orderly(lim, es)
    ensures Recorded(lim, es, key)
  {
    if es != [] {
      MemoryIsRecorded(lim, Front(es), key);
      RefinesMemory(lim, es);
      if !Last(es).what.Acquire? {
        AskerIsRemembered(lim, es);
      }
      hide Orderly, Held, Recorded;
      RecordedStep(lim, es, key);
    }
  }

  lemma RecordedStep(lim: Limits, es: seq<Event>, key: string)
    requires es != [] && Recorded(lim, Front(es), key)
    requires !Said(lim, es).Full? ==> Said(lim, es) == Recall(lim, Remembered(lim, Front(es)), Last(es)).1
    requires Last(es).what.Acquire? || Last(es).key in Remembered(lim, Front(es))
    ensures Recorded(lim, es, key)
  {
    var front, e := Front(es), Last(es);
    RecallRecords(lim, Remembered(lim, front), e, key);
    hide Recall, Said;
    var o := Opening(lim, es, key);
    if o.Some? && o == Opening(lim, front, key) {
      assert es[o.value] == front[o.value];
    }
  }

  lemma AskerIsRemembered(lim: Limits, es: seq<Event>)
    requires es != [] && Orderly(lim, es) && !Last(es).what.Acquire?
    ensures Last(es).key in Remembered(lim, Front(es))
  {
    ActiveIsHeld(lim, Front(es), Last(es).key);
    RefinesMemory(lim, Front(es));
    hide Step, Recall;
  }

  /** What one call does to the minute of a budget and to what is spent of it. */
  lemma RecallRecords(lim: Limits, m: Memory, e: Event, key: string)
    ensures var (u, v) := Recall(lim, m, e);
            && (e.key != key ==> (key in u <==> key in m) && (key in m ==> u[key] == m[key]))
            && (e.key == key && (key in m || e.what.Acquire?) ==>
                  && key in u
                  && (var opens := !e.what.Release? && (key !in m || e.now - m[key].window >= MINUTE);
                      && u[key].window == (if opens then e.now else if key in m then m[key].window else e.now)
                      && u[key].connections == (if opens then 0 else if key in m then m[key].connections else 0)
                                               + (if e.what.Acquire? && v.Yes? then 1 else 0)
                      && u[key].requests == (if opens then 0 else if key in m then m[key].requests else 0)
                                            + (if e.what.Request? && v.Yes? then 1 else 0)))
  {
  }

  /** In an orderly history, a call that is not refused for lack of room gets Yes exactly when: for an acquire, the
      peer holds fewer than the maximum and was granted fewer than 240 connections since the opening of its current
      minute, counting this call as opening it if a minute is over; for a request, it was granted fewer requests than
      the limit since then; a release always. */
  lemma AnswersByHistory(lim: Limits, es: seq<Event>)
    requires es != [] && Orderly(lim, es) && !Said(lim, es).Full?
    ensures var e, o := Last(es), Opening(lim, es, Last(es).key);
            o.Some? &&
            (Said(lim, es).Yes? <==> match e.what
               case Acquire => Held(lim, Front(es), e.key) < lim.maximum
                               && GrantedSince(lim, Front(es), o.value, Acquire, e.key) < 240
               case Request => GrantedSince(lim, Front(es), o.value, Request, e.key) < lim.requests
               case Release => true)
  {
    var front, e := Front(es), Last(es);
    MemoryIsRecorded(lim, front, e.key);
    RefinesMemory(lim, es);
    RememberedHeld(lim, front, e.key);
    if !e.what.Acquire? {
      AskerIsRemembered(lim, es);
    }
    hide Step, Held, Current, Orderly;
  }

  lemma RememberedHeld(lim: Limits, es: seq<Event>, key: string)
    requires Orderly(lim, es)
    ensures var m := Remembered(lim, es); Held(lim, es, key) == if key in m then m[key].active else 0
  {
    ActiveIsHeld(lim, es, key);
    RefinesMemory(lim, es);
    hide Step, Recall, Held;
  }

  lemma {:induction false} OrderlyTimes(lim: Limits, es: seq<Event>, k: nat)
    requires Orderly(lim, es) && k < |es|
    ensures es[k].now <= Last(es).now
  {
    if k < |es| - 1 {
      OrderlyTimes(lim, Front(es), k);
    }
  }

  /** What was granted since a call less than a minute ago was granted in the minute that ends now. */
  lemma {:induction false} SinceIsRecent(lim: Limits, es: seq<Event>, k: nat, what: What, key: string, now: int)
    requires Orderly(lim, es) && (es != [] ==> Last(es).now <= now)
    requires k < |es| ==> now - es[k].now < MINUTE
    ensures GrantedSince(lim, es, k, what, key) <= Granted(lim, es, what, key, now - MINUTE + 1)
  {
    if |es| > k {
      OrderlyTimes(lim, es, k);
      hide Said, Held;
      SinceIsRecent(lim, Front(es), k, what, key, now);
    }
  }

  lemma {:induction false} OpeningIsRecent(lim: Limits, es: seq<Event>, key: string)
    requires es != [] && Last(es).key == key && !Last(es).what.Release? && !Said(lim, es).Full?
    ensures var o := Opening(lim, es, key); o.Some? ==> Last(es).now - es[o.value].now < MINUTE
  {
  }

  /** Nobody is turned away early: a peer below its maximum and below 240 connections in the minute that ends now is
      admitted, and one below the request limit in that minute is allowed, unless there is no room. A peer at its
      maximum is not admitted. */
  lemma FairToAll(lim: Limits, es: seq<Event>)
    requires es != [] && Orderly(lim, es) && !Said(lim, es).Full?
    ensures var e, front := Last(es), Front(es);
            var recent := e.now - 60_000_000_000 + 1;
            && (e.what.Acquire? && Held(lim, front, e.key) < lim.maximum && Granted(lim, front, Acquire, e.key, recent) < 240
                ==> Said(lim, es).Yes?)
            && (e.what.Request? && Granted(lim, front, Request, e.key, recent) < lim.requests ==> Said(lim, es).Yes?)
            && (e.what.Acquire? && Held(lim, front, e.key) >= lim.maximum ==> Said(lim, es).No?)
  {
    var e, o := Last(es), Opening(lim, es, Last(es).key);
    AnswersByHistory(lim, es);
    if !e.what.Release? {
      OpeningIsRecent(lim, es, e.key);
      SinceIsRecent(lim, Front(es), o.value, e.what, e.key, e.now);
    }
    hide Said, Opening, Held, GrantedSince, Granted, Orderly;
  }

  lemma {:induction false} SameSet<T>(a: set<T>, b: set<T>)
    requires a <= b
    ensures |a| == |b| <==> a == b
  {
    SmallerSet(a, b);
    if a != b {
      var x :| x in b && x !in a;
      SmallerSet(a, b - {x});
    }
  }

  /** No room means: a new peer, 4096 entries, and either a sweep less than a second ago or no entry that is idle with
      its minute over. */
  lemma FullMeans(lim: Limits, es: seq<Event>)
    requires es != []
    ensures var t, e := Current(lim, Front(es)), Last(es);
            Said(lim, es).Full? <==>
              && e.what.Acquire? && e.key !in t.peers && |t.peers| == 4096
              && (|| (t.lastPrune.Some? && e.now - t.lastPrune.value < 1_000_000_000)
                  || forall k :: k in t.peers ==> t.peers[k].active > 0 || e.now - t.peers[k].window < 60_000_000_000)
  {
    var t, e := Current(lim, Front(es)), Last(es);
    TableBounded(lim, Front(es));
    FullWhen(lim, t, e);
    var kept := Pruned(t.peers, e.now);
    assert kept.Keys <= t.peers.Keys;
    SameSet(kept.Keys, t.peers.Keys);
    assert |kept| == |kept.Keys| && |t.peers| == |t.peers.Keys|;
    hide Answer;
  }
}
