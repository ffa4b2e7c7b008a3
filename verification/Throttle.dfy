/**
 `wait_for_domain` in `ingest/fetch/throttle.py` as the interleaving of any number of coroutines:
 a lock and a last-fetch time per domain, and a clock that moves between any two instructions.
 */
module Throttle {
  import opened Wrappers

  type Id = nat

  type Domain = string

  datatype Pc =
    | Wanting              // waits for the lock of the domain
    | Holding              // has the lock, has not read the clock
    | Sleeping(end: real)  // has the lock
    | Granting             // has the lock, about to store the fetch time
    | Granted
    | Cancelled

  datatype Coroutine = Coroutine(domain: Domain, pc: Pc)

  datatype State = State(
    clock: real, last: map<Domain, real>, owner: map<Domain, Id>, coroutines: map<Id, Coroutine>,
    grants: map<Domain, seq<real>>)

  datatype Action =
    | Tick(elapsed: real)
    | Call(id: Id, domain: Domain)
    | Acquire(id: Id)
    | ReadClock(id: Id)
    | Wake(id: Id)
    | Grant(id: Id)
    | Cancel(id: Id)

  function LastFetch(s: State, d: Domain): real {
    if d in s.last then s.last[d] else 0.0
  }

  function GrantsOf(s: State, d: Domain): seq<real> {
    if d in s.grants then s.grants[d] else []
  }

  predicate At(s: State, id: Id, pc: Pc) {
    id in s.coroutines && s.coroutines[id].pc == pc
  }

  predicate Enabled(s: State, a: Action) {
    match a
    case Tick(elapsed) => elapsed >= 0.0
    case Call(id, _) => id !in s.coroutines
    case Acquire(id) => At(s, id, Wanting) && s.coroutines[id].domain !in s.owner
    case ReadClock(id) => At(s, id, Holding)
    case Wake(id) => id in s.coroutines && s.coroutines[id].pc.Sleeping? && s.clock >= s.coroutines[id].pc.end
    case Grant(id) => At(s, id, Granting)
    case Cancel(id) => id in s.coroutines && (s.coroutines[id].pc.Sleeping? || s.coroutines[id].pc.Wanting?)
  }

  function Moved(s: State, id: Id, pc: Pc): map<Id, Coroutine>
    requires id in s.coroutines
  {
    s.coroutines[id := s.coroutines[id].(pc := pc)]
  }

  function Next(delay: real, s: State, a: Action): State
    requires Enabled(s, a)
  {
    match a
    case Tick(elapsed) => s.(clock := s.clock + elapsed)
    case Call(id, domain) =>
      s.(coroutines := s.coroutines[id := Coroutine(domain, if delay <= 0.0 then Granted else Wanting)])
    case Acquire(id) =>
      s.(owner := s.owner[s.coroutines[id].domain := id], coroutines := Moved(s, id, Holding))
    case ReadClock(id) =>
      var wait := delay - (s.clock - LastFetch(s, s.coroutines[id].domain));
      s.(coroutines := Moved(s, id, if wait > 0.0 then Sleeping(s.clock + wait) else Granting))
    case Wake(id) => s.(coroutines := Moved(s, id, Granting))
    case Grant(id) =>
      var d := s.coroutines[id].domain;
      s.(last := s.last[d := s.clock], owner := s.owner - {d}, coroutines := Moved(s, id, Granted),
         grants := s.grants[d := GrantsOf(s, d) + [s.clock]])
    case Cancel(id) =>
      // `async with` releases the lock of a coroutine cancelled in its sleep
      s.(owner := if s.coroutines[id].pc.Sleeping? then s.owner - {s.coroutines[id].domain} else s.owner,
         coroutines := Moved(s, id, Cancelled))
  }

  function Start(clock: real): State {
    State(clock, map[], map[], map[], map[])
  }

  predicate CanRun(delay: real, s: State, actions: seq<Action>)
    decreases |actions|
  {
    actions == [] || (Enabled(s, actions[0]) && CanRun(delay, Next(delay, s, actions[0]), actions[1..]))
  }

  function After(delay: real, s: State, actions: seq<Action>): State
    requires CanRun(delay, s, actions)
    decreases |actions|
  {
    if actions == [] then s else After(delay, Next(delay, s, actions[0]), actions[1..])
  }

  // --- one grant per delay ---

  predicate HasLock(pc: Pc) {
    pc.Holding? || pc.Sleeping? || pc.Granting?
  }

  // Successive grants are at least `delay` apart.
  ghost predicate Spaced(grants: seq<real>, delay: real) {
    forall i, j :: 0 <= i < j < |grants| ==> grants[j] - grants[i] >= delay
  }

  ghost predicate CoroutineFits(delay: real, s: State, id: Id)
    requires id in s.coroutines
  {
    var c := s.coroutines[id];
    && (HasLock(c.pc) <==> c.domain in s.owner && s.owner[c.domain] == id)
    && (c.pc.Sleeping? ==> c.pc.end == LastFetch(s, c.domain) + delay)
    && (c.pc.Granting? ==> s.clock >= LastFetch(s, c.domain) + delay)
  }

  ghost predicate DomainFits(delay: real, s: State, d: Domain) {
    && Spaced(GrantsOf(s, d), delay)
    && (d in s.owner ==> s.owner[d] in s.coroutines && s.coroutines[s.owner[d]].domain == d)
    && (if GrantsOf(s, d) == [] then d !in s.last
        else d in s.last && forall i :: 0 <= i < |GrantsOf(s, d)| ==> GrantsOf(s, d)[i] <= s.last[d])
    && (forall i :: 0 <= i < |GrantsOf(s, d)| ==> GrantsOf(s, d)[i] >= delay)
  }

  ghost predicate Invariant(delay: real, s: State) {
    && (forall id :: id in s.coroutines ==> CoroutineFits(delay, s, id))
    && (forall d :: DomainFits(delay, s, d))
  }

  predicate MovesOne(a: Action) {
    a.Acquire? || a.ReadClock? || a.Wake? || a.Grant? || a.Cancel?
  }

  // A step by a coroutine changes nothing of the other domains, and only the holder of a lock
  // changes its domain's last fetch.
  lemma CoroutineKept(delay: real, s: State, a: Action, id: Id)
    requires delay > 0.0 && Invariant(delay, s) && Enabled(s, a) && id in Next(delay, s, a).coroutines
    ensures CoroutineFits(delay, Next(delay, s, a), id)
  {
    assert id in s.coroutines ==> CoroutineFits(delay, s, id);
    assert MovesOne(a) ==> CoroutineFits(delay, s, a.id);
    if a.Call? && id == a.id && a.domain in s.owner {
      assert DomainFits(delay, s, a.domain);
    }
    hide Spaced;
  }

  lemma DomainKept(delay: real, s: State, a: Action, d: Domain)
    requires delay > 0.0 && Invariant(delay, s) && Enabled(s, a)
    ensures DomainFits(delay, Next(delay, s, a), d)
  {
    assert DomainFits(delay, s, d);
    if MovesOne(a) {
      assert CoroutineFits(delay, s, a.id);
    }
    if a.Grant? && s.coroutines[a.id].domain == d {
      GrantKeeps(delay, s, a.id);
    } else {
      hide Spaced;
    }
  }

  lemma GrantKeeps(delay: real, s: State, id: Id)
    requires delay > 0.0 && At(s, id, Granting)
    requires CoroutineFits(delay, s, id) && DomainFits(delay, s, s.coroutines[id].domain)
    ensures DomainFits(delay, Next(delay, s, Grant(id)), s.coroutines[id].domain)
  {
    var d := s.coroutines[id].domain;
    var before, after := GrantsOf(s, d), GrantsOf(Next(delay, s, Grant(id)), d);
    assert after == before + [s.clock];
    assert before != [] ==> before[0] >= delay && before[0] <= s.last[d];
    assert s.clock >= delay;
  }

  lemma NextKeeps(delay: real, s: State, a: Action)
    requires delay > 0.0 && Invariant(delay, s) && Enabled(s, a)
    ensures Invariant(delay, Next(delay, s, a))
  {
    hide CoroutineFits, DomainFits, Enabled, Next;
    var s' := Next(delay, s, a);
    forall id | id in s'.coroutines ensures CoroutineFits(delay, s', id) {
      CoroutineKept(delay, s, a, id);
    }
    forall d ensures DomainFits(delay, s', d) {
      DomainKept(delay, s, a, d);
    }
  }

  lemma {:induction false} RunKeeps(delay: real, s: State, actions: seq<Action>)
    requires delay > 0.0 && Invariant(delay, s) && CanRun(delay, s, actions)
    ensures Invariant(delay, After(delay, s, actions))
    decreases |actions|
  {
    hide Invariant, Enabled, Next;
    if actions != [] {
      NextKeeps(delay, s, actions[0]);
      RunKeeps(delay, Next(delay, s, actions[0]), actions[1..]);
    }
  }

  // However the coroutines interleave, and whichever are cancelled, any two grants for a domain are
  // at least `delay` apart; the clock's own start counts as a fetch, so the first waits for it too.
  lemma GrantsAreSpaced(delay: real, clock: real, actions: seq<Action>, d: Domain)
    requires delay > 0.0 && CanRun(delay, Start(clock), actions)
    ensures Spaced(GrantsOf(After(delay, Start(clock), actions), d), delay)
    ensures forall t :: t in GrantsOf(After(delay, Start(clock), actions), d) ==> t >= delay
  {
    RunKeeps(delay, Start(clock), actions);
    assert DomainFits(delay, After(delay, Start(clock), actions), d);
  }

  // Without a positive delay nobody ever waits and no fetch time is kept.
  ghost predicate NobodyWaits(s: State) {
    s.last == map[] && s.owner == map[] && forall id :: id in s.coroutines ==> s.coroutines[id].pc == Granted
  }

  lemma {:induction false} NoDelayNoWait(delay: real, s: State, actions: seq<Action>)
    requires delay <= 0.0 && NobodyWaits(s) && CanRun(delay, s, actions)
    ensures NobodyWaits(After(delay, s, actions))
    decreases |actions|
  {
    if actions != [] {
      NoDelayNoWait(delay, Next(delay, s, actions[0]), actions[1..]);
    }
  }

  // The coroutines of a domain that got through.
  function Through(s: State, d: Domain): set<Id> {
    set id | id in s.coroutines && s.coroutines[id] == Coroutine(d, Granted)
  }

  // With one, nobody gets through without a recorded grant, and nobody gets two.
  lemma {:induction false} OneGrantEach(delay: real, s: State, actions: seq<Action>, d: Domain)
    requires delay > 0.0 && CanRun(delay, s, actions) && |Through(s, d)| == |GrantsOf(s, d)|
    ensures |Through(After(delay, s, actions), d)| == |GrantsOf(After(delay, s, actions), d)|
    decreases |actions|
  {
    if actions != [] {
      var a, s1 := actions[0], Next(delay, s, actions[0]);
      if a.Grant? && s.coroutines[a.id].domain == d {
        assert Through(s1, d) == Through(s, d) + {a.id};
      } else {
        assert Through(s1, d) == Through(s, d);
      }
      OneGrantEach(delay, s1, actions[1..], d);
    }
  }

  // A coroutine can be cancelled while it waits for the lock or sleeps; then its domain is not locked
  // by it, nobody else is affected, and no fetch is recorded.
  lemma CancelLeavesNoTrace(delay: real, s: State, id: Id)
    requires delay > 0.0 && Invariant(delay, s) && id in s.coroutines
    requires s.coroutines[id].pc.Wanting? || s.coroutines[id].pc.Sleeping?
    ensures Enabled(s, Cancel(id))
    ensures
      var s', d := Next(delay, s, Cancel(id)), s.coroutines[id].domain;
      && s'.last == s.last && s'.grants == s.grants && s'.coroutines == s.coroutines[id := Coroutine(d, Cancelled)]
      && (d in s'.owner ==> s'.owner[d] != id)
      && (forall e :: e in s.owner && (e != d || s.owner[e] != id) ==> e in s'.owner && s'.owner[e] == s.owner[e])
  {
    hide Spaced;
    assert CoroutineFits(delay, s, id);
    assert DomainFits(delay, s, s.coroutines[id].domain);
  }

  // --- how many grants a span holds ---

  // The grants from `from` to `to`, both included.
  function InSpan(grants: seq<real>, from: real, to: real): seq<real> {
    if grants == [] then []
    else
      var newest := grants[|grants| - 1];
      InSpan(grants[..|grants| - 1], from, to) + if from <= newest <= to then [newest] else []
  }

  lemma {:induction false} InSpanAre(grants: seq<real>, from: real, to: real, grant: real)
    ensures multiset(InSpan(grants, from, to))[grant] == if from <= grant <= to then multiset(grants)[grant] else 0
  {
    if grants != [] {
      var n := |grants| - 1;
      InSpanAre(grants[..n], from, to, grant);
      assert grants == grants[..n] + [grants[n]];
    }
  }

  function Delays(k: int, delay: real): real {
    k as real * delay
  }

  lemma OneMoreDelay(k: int, delay: real)
    ensures Delays(k + 1, delay) == Delays(k, delay) + delay
    ensures Delays(0, delay) == 0.0
  {
  }

  // The last counted of k spaced grants comes at least k - 1 delays after the span begins.
  lemma {:induction false} SpanStretches(grants: seq<real>, delay: real, from: real, to: real) returns (at: nat)
    requires delay > 0.0 && Spaced(grants, delay) && InSpan(grants, from, to) != []
    ensures at < |grants| && grants[at] <= to
    ensures grants[at] >= from + Delays(|InSpan(grants, from, to)| - 1, delay)
  {
    hide Delays;
    var n := |grants| - 1;
    var before := InSpan(grants[..n], from, to);
    OneMoreDelay(|before| - 1, delay);
    if !(from <= grants[n] <= to) {
      at := SpanStretches(grants[..n], delay, from, to);
    } else {
      at := n;
      if before != [] {
        var last := SpanStretches(grants[..n], delay, from, to);
        assert grants[n] >= grants[last] + delay;
      }
    }
  }

  lemma CountFromLength(k: int, delay: real, length: real)
    requires delay > 0.0 && Delays(k, delay) <= length
    ensures k <= (length / delay).Floor
  {
    assert length / delay * delay == length;
    assert k as real <= length / delay;
  }

  // Any span of the given length holds at most floor(length / delay) + 1 grants for one domain.
  lemma GrantsInSpan(delay: real, clock: real, actions: seq<Action>, d: Domain, from: real, length: real)
    requires delay > 0.0 && length >= 0.0 && CanRun(delay, Start(clock), actions)
    ensures
      var grants := GrantsOf(After(delay, Start(clock), actions), d);
      |InSpan(grants, from, from + length)| <= (length / delay).Floor + 1
  {
    GrantsAreSpaced(delay, clock, actions, d);
    var grants := GrantsOf(After(delay, Start(clock), actions), d);
    hide CanRun, After, GrantsOf;
    var count := |InSpan(grants, from, from + length)|;
    if count > 0 {
      var at := SpanStretches(grants, delay, from, from + length);
      CountFromLength(count - 1, delay, length);
    } else {
      OneMoreDelay(0, delay);
      CountFromLength(0, delay, length);
    }
  }

  // --- no longer than needed, and never for ever ---

  // Whoever holds the lock of a domain can finish once the clock has passed the last fetch by one
  // delay; a cancelled holder has given the lock back.
  lemma HolderFinishes(delay: real, s: State, d: Domain, elapsed: real) returns (steps: seq<Action>)
    requires delay > 0.0 && Invariant(delay, s) && d in s.owner
    requires elapsed >= 0.0 && s.clock + elapsed >= LastFetch(s, d) + delay
    ensures CanRun(delay, s, steps)
    ensures
      var s' := After(delay, s, steps);
      && s'.clock == LastFetch(s', d) == s.clock + elapsed
      && s'.owner == s.owner - {d}
      && s.owner[d] in s.coroutines && s'.coroutines == Moved(s, s.owner[d], Granted)
      && GrantsOf(s', d) == GrantsOf(s, d) + [s.clock + elapsed]
  {
    assert DomainFits(delay, s, d);
    var id := s.owner[d];
    assert CoroutineFits(delay, s, id);
    hide Spaced, Invariant;
    var pc := s.coroutines[id].pc;
    var tick, grant := Tick(elapsed), Grant(id);
    if pc.Granting? {
      steps := [tick, grant];
      assert steps[1..] == [grant] && [grant][1..] == [];
      var s1 := Next(delay, s, tick);
      assert CanRun(delay, s1, [grant]);
      assert After(delay, s1, [grant]) == Next(delay, s1, grant);
    } else {
      var ready := if pc.Holding? then ReadClock(id) else Wake(id);
      steps := [tick, ready, grant];
      assert steps[1..] == [ready, grant] && [ready, grant][1..] == [grant] && [grant][1..] == [];
      var s1 := Next(delay, s, tick);
      assert Enabled(s1, ready);
      var s2 := Next(delay, s1, ready);
      assert Enabled(s2, grant) && CanRun(delay, s2, [grant]);
      assert CanRun(delay, s1, [ready, grant]);
      assert After(delay, s2, [grant]) == Next(delay, s2, grant);
      assert After(delay, s1, [ready, grant]) == After(delay, s2, [grant]);
    }
  }

  lemma {:induction false} RunsJoin(delay: real, s: State, first: seq<Action>, second: seq<Action>)
    requires CanRun(delay, s, first) && CanRun(delay, After(delay, s, first), second)
    ensures CanRun(delay, s, first + second)
    ensures After(delay, s, first + second) == After(delay, After(delay, s, first), second)
    decreases |first|
  {
    hide Enabled, Next;
    if first == [] {
      assert first + second == second;
    } else {
      RunsJoin(delay, Next(delay, s, first[0]), first[1..], second);
      assert (first + second)[1..] == first[1..] + second;
    }
  }

  // The time from which the domain may be fetched again.
  function FreeFrom(delay: real, s: State, d: Domain): real {
    if s.clock >= LastFetch(s, d) + delay then s.clock else LastFetch(s, d) + delay
  }

  // At first that is one delay after the clock's zero, and right away on a clock already past it.
  lemma FreeAtStart(delay: real, clock: real, d: Domain)
    requires delay > 0.0
    ensures FreeFrom(delay, Start(clock), d) == if clock < delay then delay else clock
  {
  }

  // The grants of n waiters served one after the other without a pause.
  function OneEachDelay(start: real, delay: real, n: nat): seq<real> {
    seq(n, i => start + Delays(i, delay))
  }

  predicate Waits(s: State, id: Id, d: Domain) {
    At(s, id, Wanting) && s.coroutines[id].domain == d
  }

  ghost predicate Queue(s: State, d: Domain, waiters: seq<Id>) {
    && (forall w :: w in waiters ==> Waits(s, w, d))
    && (forall i, j :: 0 <= i < j < |waiters| ==> waiters[i] != waiters[j])
  }

  // A waiter that takes the free lock of its domain is granted as soon as the delay has passed.
  lemma WaiterIsServed(delay: real, s: State, d: Domain, w: Id) returns (steps: seq<Action>)
    requires delay > 0.0 && Invariant(delay, s) && d !in s.owner && Waits(s, w, d)
    ensures CanRun(delay, s, steps)
    ensures
      var s' := After(delay, s, steps);
      && Invariant(delay, s')
      && s'.clock == LastFetch(s', d) == FreeFrom(delay, s, d)
      && d !in s'.owner && s'.coroutines == Moved(s, w, Granted)
      && GrantsOf(s', d) == GrantsOf(s, d) + [FreeFrom(delay, s, d)]
  {
    hide Invariant, Spaced;
    var acquire := Acquire(w);
    var s1 := Next(delay, s, acquire);
    NextKeeps(delay, s, acquire);
    var rest := HolderFinishes(delay, s1, d, FreeFrom(delay, s, d) - s.clock);
    RunKeeps(delay, s1, rest);
    assert s1.owner - {d} == s.owner;
    steps := [acquire] + rest;
    assert steps[0] == acquire && steps[1..] == rest;
  }

  // Whatever the order in which the lock is handed on, the waiters of a free domain can all be
  // granted, the k-th of them k delays after the first.
  lemma {:induction false} QueueDrains(delay: real, s: State, d: Domain, waiters: seq<Id>)
    returns (steps: seq<Action>)
    requires delay > 0.0 && Invariant(delay, s) && d !in s.owner && Queue(s, d, waiters)
    ensures CanRun(delay, s, steps)
    ensures forall w :: w in waiters ==> At(After(delay, s, steps), w, Granted)
    ensures forall id :: id !in waiters ==>
      Lookup(After(delay, s, steps).coroutines, id) == Lookup(s.coroutines, id)
    ensures
      GrantsOf(After(delay, s, steps), d)
      == GrantsOf(s, d) + OneEachDelay(FreeFrom(delay, s, d), delay, |waiters|)
    decreases |waiters|
  {
    hide Invariant, Spaced, Delays;
    if waiters == [] {
      steps := [];
    } else {
      var first := WaiterIsServed(delay, s, d, waiters[0]);
      var s1 := After(delay, s, first);
      forall w | w in waiters[1..] ensures Waits(s1, w, d) {
        assert w != waiters[0] && Waits(s, w, d);
      }
      var rest := QueueDrains(delay, s1, d, waiters[1..]);
      RunsJoin(delay, s, first, rest);
      steps := first + rest;
      EachDelayUnfolds(FreeFrom(delay, s, d), delay, |waiters|);
    }
  }

  lemma EachDelayUnfolds(start: real, delay: real, n: nat)
    requires n > 0
    ensures OneEachDelay(start, delay, n) == [start] + OneEachDelay(start + delay, delay, n - 1)
  {
    hide Delays;
    OneMoreDelay(0, delay);
    forall i | 0 < i < n ensures Delays(i, delay) == Delays(i - 1, delay) + delay {
      OneMoreDelay(i - 1, delay);
    }
  }

  // No run grants them sooner: the k-th grant of a domain from now on comes at least k delays after
  // the domain is free.
  lemma {:induction false} NoneSooner(delay: real, s: State, actions: seq<Action>, d: Domain)
    requires delay > 0.0 && Invariant(delay, s) && CanRun(delay, s, actions)
    ensures GrantsOf(s, d) <= GrantsOf(After(delay, s, actions), d)
    ensures
      var later := GrantsOf(After(delay, s, actions), d)[|GrantsOf(s, d)|..];
      forall k :: 0 <= k < |later| ==> later[k] >= FreeFrom(delay, s, d) + Delays(k, delay)
    decreases |actions|
  {
    hide Delays;
    if actions != [] {
      var s1 := Next(delay, s, actions[0]);
      NextKeeps(delay, s, actions[0]);
      NoneSooner(delay, s1, actions[1..], d);
      FreeFromGrows(delay, s, actions[0], d);
      var later := GrantsOf(After(delay, s, actions), d);
      forall k | |GrantsOf(s, d)| <= k < |later|
        ensures later[k] >= FreeFrom(delay, s, d) + Delays(k - |GrantsOf(s, d)|, delay)
      {
        OneMoreDelay(k - |GrantsOf(s, d)| - 1, delay);
      }
    }
  }

  lemma FreeFromGrows(delay: real, s: State, a: Action, d: Domain)
    requires delay > 0.0 && Invariant(delay, s) && Enabled(s, a)
    ensures
      var s' := Next(delay, s, a);
      if a.Grant? && s.coroutines[a.id].domain == d
      then
        && GrantsOf(s', d) == GrantsOf(s, d) + [s.clock]
        && s.clock == FreeFrom(delay, s, d) && FreeFrom(delay, s', d) == s.clock + delay
      else
        GrantsOf(s', d) == GrantsOf(s, d) && FreeFrom(delay, s', d) >= FreeFrom(delay, s, d)
  {
    hide Spaced;
    if MovesOne(a) {
      assert CoroutineFits(delay, s, a.id);
    }
  }

  // --- domains do not delay each other ---

  // What one domain can see of the state.
  datatype View = View(
    clock: real, last: Option<real>, owner: Option<Id>, coroutines: map<Id, Coroutine>, grants: seq<real>)

  function ViewOf(s: State, d: Domain): View {
    View(s.clock, Lookup(s.last, d), Lookup(s.owner, d),
         Members(s.coroutines, d), GrantsOf(s, d))
  }

  function Members(coroutines: map<Id, Coroutine>, d: Domain): map<Id, Coroutine> {
    map id | id in coroutines && coroutines[id].domain == d :: coroutines[id]
  }

  // The actions of the domain's own coroutines, and time passing.
  predicate Concerns(s: State, a: Action, d: Domain) {
    || a.Tick?
    || (a.Call? && a.domain == d)
    || (MovesOne(a) && a.id in s.coroutines && s.coroutines[a.id].domain == d)
  }

  // The same run with everything the other domains do left out.
  function Only(delay: real, s: State, actions: seq<Action>, d: Domain): seq<Action>
    requires CanRun(delay, s, actions)
    decreases |actions|
  {
    if actions == [] then []
    else
      (if Concerns(s, actions[0], d) then [actions[0]] else [])
      + Only(delay, Next(delay, s, actions[0]), actions[1..], d)
  }

  lemma OthersAreInvisible(delay: real, s: State, a: Action, d: Domain)
    requires Enabled(s, a) && !Concerns(s, a, d)
    ensures ViewOf(Next(delay, s, a), d) == ViewOf(s, d)
  {
  }

  lemma ViewDecides(delay: real, s: State, t: State, a: Action, d: Domain)
    requires Enabled(s, a) && Concerns(s, a, d) && ViewOf(s, d) == ViewOf(t, d)
    requires a.Call? ==> a.id !in t.coroutines
    ensures Enabled(t, a)
    ensures ViewOf(Next(delay, s, a), d) == ViewOf(Next(delay, t, a), d)
  {
    if MovesOne(a) {
      SameCoroutine(s, t, a.id, d);
    }
    assert Lookup(s.owner, d) == Lookup(t.owner, d) && Lookup(s.last, d) == Lookup(t.last, d);
    assert Enabled(t, a);
    SameCoroutinesNext(delay, s, t, a, d);
  }

  lemma SameCoroutine(s: State, t: State, id: Id, d: Domain)
    requires ViewOf(s, d) == ViewOf(t, d) && id in s.coroutines && s.coroutines[id].domain == d
    ensures id in t.coroutines && t.coroutines[id] == s.coroutines[id]
  {
    assert id in ViewOf(s, d).coroutines;
    assert id in ViewOf(t, d).coroutines;
  }

  lemma MembersUpdated(m: map<Id, Coroutine>, n: map<Id, Coroutine>, id: Id, c: Coroutine, d: Domain)
    requires Members(m, d) == Members(n, d) && c.domain == d
    ensures Members(m[id := c], d) == Members(m, d)[id := c] == Members(n[id := c], d)
  {
  }

  lemma SameCoroutinesNext(delay: real, s: State, t: State, a: Action, d: Domain)
    requires Enabled(s, a) && Enabled(t, a) && Concerns(s, a, d) && ViewOf(s, d) == ViewOf(t, d)
    requires MovesOne(a) ==> t.coroutines[a.id] == s.coroutines[a.id]
    ensures ViewOf(Next(delay, s, a), d).coroutines == ViewOf(Next(delay, t, a), d).coroutines
  {
    hide Members, GrantsOf;
    if !a.Tick? {
      MembersUpdated(s.coroutines, t.coroutines, a.id, Next(delay, s, a).coroutines[a.id], d);
    }
  }

  lemma {:induction false} OwnStepsSuffice(delay: real, s: State, t: State, actions: seq<Action>, d: Domain)
    requires CanRun(delay, s, actions) && ViewOf(s, d) == ViewOf(t, d) && t.coroutines.Keys <= s.coroutines.Keys
    ensures CanRun(delay, t, Only(delay, s, actions, d))
    ensures ViewOf(After(delay, s, actions), d) == ViewOf(After(delay, t, Only(delay, s, actions, d)), d)
    decreases |actions|
  {
    hide ViewOf, Enabled, Next, Concerns;
    if actions != [] {
      var a, rest := actions[0], actions[1..];
      var s' := Next(delay, s, a);
      OwnStep(delay, s, t, a, d);
      var own := Only(delay, s', rest, d);
      if Concerns(s, a, d) {
        assert ([a] + own)[0] == a && ([a] + own)[1..] == own;
        OwnStepsSuffice(delay, s', Next(delay, t, a), rest, d);
      } else {
        assert [] + own == own;
        OwnStepsSuffice(delay, s', t, rest, d);
      }
    }
  }

  lemma OwnStep(delay: real, s: State, t: State, a: Action, d: Domain)
    requires Enabled(s, a) && ViewOf(s, d) == ViewOf(t, d) && t.coroutines.Keys <= s.coroutines.Keys
    ensures t.coroutines.Keys <= Next(delay, s, a).coroutines.Keys
    ensures if Concerns(s, a, d)
      then Enabled(t, a) && ViewOf(Next(delay, s, a), d) == ViewOf(Next(delay, t, a), d)
           && Next(delay, t, a).coroutines.Keys <= Next(delay, s, a).coroutines.Keys
      else ViewOf(Next(delay, s, a), d) == ViewOf(t, d)
  {
    if Concerns(s, a, d) {
      ViewDecides(delay, s, t, a, d);
    } else {
      OthersAreInvisible(delay, s, a, d);
    }
    hide ViewOf;
  }

  // A domain gets the same grants at the same times as if no other domain were ever fetched.
  lemma DomainsAreIndependent(delay: real, clock: real, actions: seq<Action>, d: Domain)
    requires CanRun(delay, Start(clock), actions)
    ensures
      var own := Only(delay, Start(clock), actions, d);
      && CanRun(delay, Start(clock), own)
      && GrantsOf(After(delay, Start(clock), own), d) == GrantsOf(After(delay, Start(clock), actions), d)
  {
    hide CanRun, After, Only;
    OwnStepsSuffice(delay, Start(clock), Start(clock), actions, d);
  }
}
