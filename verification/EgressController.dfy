/** The concurrent controller around the verdict (native/adaptive_egress/adaptive/state.go).

    An action is one critical section of the source, so a sequence of actions, by any callers, is
    an interleaving of `Check`, `Invalidate`, `InvalidateAll` and `Close`. A caller inside `check`
    is described by what it remembers between two sections. */
module EgressController {
  import opened AdaptiveEgress
  import A = AdaptiveEgress
  import opened Wrappers

  type Caller = nat

  /** Between two sections a caller waits for a flight, or runs the probe it has started. */
  datatype Local = Waiting | Probing(epoch: nat, revision: nat)

  /** The controller's fields, the process-wide revision `current`, the callers inside check; and
      the history: how many sections there were, which one last invalidated, which one started
      the probe in flight, and which one started the probe that the verdict rests on. */
  datatype Core = Core(
    state: State,
    flight: Option<Caller>,
    generation: nat,
    revision: nat,
    current: nat,
    force: bool,
    closed: bool,
    locals: map<Caller, Local>,
    moment: nat,
    invalidated: nat,
    started: nat,
    basis: nat)

  datatype Action =
    | Check(caller: Caller, cancelled: bool, sinceChecked: int)
    | Finish(caller: Caller, sample: Sample, cancelled: bool, now: int)
    | GiveUp(caller: Caller)
    | Invalidate
    | InvalidateAll
    | Close

  function Opened(restored: State): Core {
    Core(restored, None, 0, 0, 0, true, false, map[], 0, 0, 0, 0)
  }

  predicate Allowed(c: Core, a: Action) {
    match a
    case Check(caller, cancelled, sinceChecked) => caller in c.locals ==> c.locals[caller].Waiting?
    case Finish(caller, sample, cancelled, now) => caller in c.locals && c.locals[caller].Probing?
    case GiveUp(caller) => caller in c.locals && c.locals[caller].Waiting?
    case _ => true
  }

  /** A changed process-wide revision counts as an invalidation of this controller. */
  function Synchronised(c: Core): Core {
    if c.current == c.revision then c
    else c.(force := true, generation := c.generation + 1, state := c.state.(successes := 0), revision := c.current)
  }

  /** The result of a probe is used. */
  predicate Uses(c: Core, a: Action)
    requires a.Finish? && Allowed(c, a)
  {
    && !c.closed && !a.cancelled
    && c.locals[a.caller].epoch == c.generation && c.locals[a.caller].revision == c.current
  }

  /** The caller gets the verdict without a probe. */
  predicate FromCache(c: Core, a: Action)
    requires a.Check? && Allowed(c, a)
  {
    && !c.closed && !a.cancelled
    && Synchronised(c).flight.None? && !Synchronised(c).force && a.sinceChecked < INTERVAL
  }

  /** The section of check, once the revision has been looked at. */
  function Looked(s: Core, caller: Caller, sinceChecked: int): Core {
    if s.flight.Some? then s.(locals := s.locals[caller := Waiting])
    else if !s.force && sinceChecked < INTERVAL then s.(locals := s.locals - {caller})
    else s.(flight := Some(caller), locals := s.locals[caller := Probing(s.generation, s.current)], started := s.moment)
  }

  function Next(c: Core, a: Action): Core
    requires Allowed(c, a)
  {
    var m := c.moment + 1;
    match a
    case Check(caller, cancelled, sinceChecked) =>
      if c.closed || cancelled then c.(locals := c.locals - {caller}, moment := m)
      else Looked(Synchronised(c).(moment := m), caller, sinceChecked)
    case Finish(caller, sample, cancelled, now) =>
      var landed := c.(flight := None, locals := c.locals - {caller}, moment := m);
      if Uses(c, a) then landed.(state := Apply(c.state, sample, now), force := false, basis := c.started) else landed
    case GiveUp(caller) => c.(locals := c.locals - {caller}, moment := m)
    case Invalidate =>
      c.(generation := c.generation + 1, force := true, state := c.state.(successes := 0), moment := m, invalidated := m)
    case InvalidateAll => c.(current := c.current + 1, moment := m, invalidated := m)
    case Close => c.(closed := true, generation := c.generation + 1, moment := m, invalidated := m)
  }

  /** At most one probe is in flight, and it is the recorded one. */
  ghost predicate SingleFlight(c: Core) {
    forall k :: k in c.locals && c.locals[k].Probing? <==> c.flight == Some(k)
  }

  ghost predicate Inv(c: Core) {
    && SingleFlight(c)
    && (c.flight.Some? ==> c.flight.value in c.locals)
    && c.revision <= c.current && c.invalidated <= c.moment && c.started <= c.moment
    && (forall k :: k in c.locals && c.locals[k].Probing? ==>
          && c.locals[k].epoch <= c.generation && c.locals[k].revision <= c.current
          && (c.locals[k].epoch == c.generation && c.locals[k].revision == c.current ==> c.started > c.invalidated))
    // A verdict that is not due rests on a probe since the last invalidation.
    && (!c.force && c.revision == c.current && !c.closed ==> c.basis > c.invalidated)
    && (c.state.ipv4Only ==> c.state.verified)
  }

  lemma SynchronisedKeeps(c: Core)
    requires Inv(c)
    ensures Inv(Synchronised(c).(moment := c.moment + 1)) && Synchronised(c).revision == c.current
  {
  }

  lemma LookedKeeps(s: Core, caller: Caller, sinceChecked: int)
    requires Inv(s) && s.moment > s.invalidated && s.revision == s.current
    requires caller in s.locals ==> s.locals[caller].Waiting?
    ensures Inv(Looked(s, caller, sinceChecked))
  {
  }

  lemma CheckKeeps(c: Core, a: Action)
    requires Inv(c) && a.Check? && Allowed(c, a)
    ensures Inv(Next(c, a))
  {
    if !c.closed && !a.cancelled {
      SynchronisedKeeps(c);
      LookedKeeps(Synchronised(c).(moment := c.moment + 1), a.caller, a.sinceChecked);
    }
  }

  lemma FinishKeeps(c: Core, a: Action)
    requires Inv(c) && a.Finish? && Allowed(c, a)
    ensures Inv(Next(c, a))
  {
  }

  lemma NextKeeps(c: Core, a: Action)
    requires Inv(c) && Allowed(c, a)
    ensures Inv(Next(c, a))
  {
    if a.Check? {
      CheckKeeps(c, a);
    } else if a.Finish? {
      FinishKeeps(c, a);
    }
  }

  predicate Possible(c: Core, actions: seq<Action>)
    decreases |actions|, 0
  {
    actions != [] ==>
      var before := actions[..|actions| - 1];
      Possible(c, before) && Allowed(After(c, before), actions[|actions| - 1])
  }

  function After(c: Core, actions: seq<Action>): Core
    requires Possible(c, actions)
    decreases |actions|, 1
  {
    if actions == [] then c else Next(After(c, actions[..|actions| - 1]), actions[|actions| - 1])
  }

  /** Over every interleaving at most one probe is in flight. */
  lemma {:induction false} Interleaving(restored: State, actions: seq<Action>)
    requires Sound(restored) && Possible(Opened(restored), actions)
    ensures Inv(After(Opened(restored), actions))
    ensures var c := After(Opened(restored), actions);
            forall k, l :: k in c.locals && l in c.locals && c.locals[k].Probing? && c.locals[l].Probing? ==> k == l
  {
    if actions != [] {
      Interleaving(restored, actions[..|actions| - 1]);
      NextKeeps(After(Opened(restored), actions[..|actions| - 1]), actions[|actions| - 1]);
    }
  }

  /** A probe's result is used only if the probe started after the last invalidation; and an
      answer without a probe rests on such a probe as well. */
  lemma OnlyFreshResults(restored: State, actions: seq<Action>, a: Action)
    requires Sound(restored) && Possible(Opened(restored), actions) && Allowed(After(Opened(restored), actions), a)
    ensures var c := After(Opened(restored), actions);
            && (a.Finish? && Uses(c, a) ==> c.started > c.invalidated && !c.closed && c.flight == Some(a.caller))
            && (a.Check? && FromCache(c, a) ==> c.basis > c.invalidated)
            && (a.Finish? && !Uses(c, a) ==> Next(c, a).state == c.state && Next(c, a).force == c.force)
  {
    Interleaving(restored, actions);
  }

  /** The caller's probe began in an epoch that has ended. */
  predicate Stale(c: Core, k: Caller, probe: Local) {
    && k in c.locals && c.locals[k] == probe && probe.Probing?
    && (probe.epoch < c.generation || probe.revision < c.current)
  }

  lemma StaleStep(c: Core, a: Action, k: Caller, probe: Local)
    requires Allowed(c, a) && Stale(c, k, probe) && !(a.Finish? && a.caller == k)
    ensures Stale(Next(c, a), k, probe)
  {
  }

  lemma StaleUnused(c: Core, k: Caller, probe: Local)
    requires Stale(c, k, probe)
    ensures forall sample, cancelled, now :: !Uses(c, Finish(k, sample, cancelled, now))
  {
  }

  /** An invalidation reaches the probe in flight: whatever else happens until that probe ends,
      its result is not used. */
  lemma {:induction false} StaleForever(c: Core, a: Action, actions: seq<Action>, k: Caller)
    requires Inv(c) && (a.Invalidate? || a.InvalidateAll? || a.Close?)
    requires k in c.locals && c.locals[k].Probing? && Possible(Next(c, a), actions)
    requires forall b :: b in actions ==> !(b.Finish? && b.caller == k)
    ensures Stale(After(Next(c, a), actions), k, c.locals[k])
    ensures forall sample, cancelled, now ::
              !Uses(After(Next(c, a), actions), Finish(k, sample, cancelled, now))
  {
    if actions == [] {
    } else {
      hide Inv, Stale, Next, Allowed;
      var n := |actions| - 1;
      assert actions[n] in actions;
      StaleForever(c, a, actions[..n], k);
      StaleStep(After(Next(c, a), actions[..n]), actions[n], k, c.locals[k]);
      StaleUnused(After(Next(c, a), actions), k, c.locals[k]);
    }
  }

  // The verdict over an interleaving.

  /** What an action does to the verdict. */
  function Emits(c: Core, a: Action): (events: seq<Event>)
    requires Allowed(c, a)
    ensures |events| <= 1
  {
    match a
    case Check(caller, cancelled, sinceChecked) => if c.closed || cancelled || c.current == c.revision then [] else [Reset]
    case Finish(caller, sample, cancelled, now) => if Uses(c, a) then [Probed(sample, now)] else []
    case Invalidate => [Reset]
    case _ => []
  }

  /** The used results and the resets of an interleaving, in order. */
  function History(c: Core, actions: seq<Action>): seq<Event>
    requires Possible(c, actions)
  {
    if actions == [] then []
    else
      var before := actions[..|actions| - 1];
      History(c, before) + Emits(After(c, before), actions[|actions| - 1])
  }

  lemma EmitsExplains(c: Core, a: Action)
    requires Allowed(c, a)
    ensures Next(c, a).state == A.After(c.state, Emits(c, a))
  {
    var events := Emits(c, a);
    if events != [] { assert events[..0] == []; }
  }

  lemma {:induction false} AfterBoth(s: State, first: seq<Event>, second: seq<Event>)
    ensures A.After(s, first + second) == A.After(A.After(s, first), second)
  {
    if second == [] {
      assert first + second == first;
    } else {
      var n := |second| - 1;
      assert (first + second)[..|first + second| - 1] == first + second[..n];
      AfterBoth(s, first, second[..n]);
    }
  }

  /** Over every interleaving the controller's verdict is the one of its used results and resets
      alone, in the order in which they took effect. */
  lemma {:induction false} VerdictOfHistory(c: Core, actions: seq<Action>)
    requires Possible(c, actions)
    ensures After(c, actions).state == A.After(c.state, History(c, actions))
  {
    if actions != [] {
      hide Next, Emits, Allowed;
      var n := |actions| - 1;
      VerdictOfHistory(c, actions[..n]);
      EmitsExplains(After(c, actions[..n]), actions[n]);
      AfterBoth(c.state, History(c, actions[..n]), Emits(After(c, actions[..n]), actions[n]));
    }
  }

  lemma {:induction false} PrefixHistory(c: Core, actions: seq<Action>, k: nat)
    requires Possible(c, actions) && k <= |actions|
    ensures Possible(c, actions[..k])
    ensures |History(c, actions[..k])| <= |History(c, actions)|
    ensures History(c, actions)[..|History(c, actions[..k])|] == History(c, actions[..k])
    decreases |actions|
  {
    if k == |actions| {
      assert actions[..k] == actions;
    } else {
      hide Next, Emits, Allowed;
      var n := |actions| - 1;
      PrefixHistory(c, actions[..n], k);
      assert actions[..n][..k] == actions[..k];
    }
  }

  /** Before action k of the interleaving: how many events there were, and the verdict. */
  function Seen(c: Core, actions: seq<Action>, k: nat): nat
    requires Possible(c, actions) && k <= |actions|
  {
    PrefixHistory(c, actions, k);
    |History(c, actions[..k])|
  }

  predicate IPv4OnlyAt(c: Core, actions: seq<Action>, k: nat)
    requires Possible(c, actions) && k <= |actions|
  {
    PrefixHistory(c, actions, k);
    After(c, actions[..k]).state.ipv4Only
  }

  lemma SeenMeans(c: Core, actions: seq<Action>, k: nat)
    requires Possible(c, actions) && k <= |actions|
    ensures Seen(c, actions, k) <= |History(c, actions)|
    ensures A.V4(c.state, History(c, actions), Seen(c, actions, k)) == IPv4OnlyAt(c, actions, k)
  {
    hide Next, Emits, Allowed;
    PrefixHistory(c, actions, k);
    VerdictOfHistory(c, actions[..k]);
  }

  lemma SeenStep(c: Core, actions: seq<Action>, k: nat)
    requires Possible(c, actions) && k < |actions|
    ensures Possible(c, actions[..k]) && Allowed(After(c, actions[..k]), actions[k])
    ensures var events := Emits(After(c, actions[..k]), actions[k]);
            && Seen(c, actions, k + 1) == Seen(c, actions, k) + |events| <= |History(c, actions)|
            && (events != [] ==> History(c, actions)[Seen(c, actions, k)] == events[0])
            && (events == [] ==> IPv4OnlyAt(c, actions, k + 1) == IPv4OnlyAt(c, actions, k))
  {
    hide Next, Emits;
    PrefixHistory(c, actions, k);
    PrefixHistory(c, actions, k + 1);
    assert actions[..k + 1][..k] == actions[..k];
    EmitsExplains(After(c, actions[..k]), actions[k]);
  }

  /** Each count of events up to some moment was reached at some action. */
  lemma {:induction false} Reached(c: Core, actions: seq<Action>, i: nat, j: nat, m: nat) returns (k: nat)
    requires Possible(c, actions) && i <= j <= |actions| && Seen(c, actions, i) < m <= Seen(c, actions, j)
    ensures i < k <= j && Seen(c, actions, k) == m
    decreases j
  {
    hide Seen, Emits, History;
    if Seen(c, actions, j) == m {
      k := j;
    } else {
      SeenStep(c, actions, j - 1);
      k := Reached(c, actions, i, j - 1, m);
    }
  }

  /** A change of the verdict is the use of a probe's result. */
  predicate Switches(c: Core, actions: seq<Action>, k: nat)
    requires Possible(c, actions) && k < |actions|
  {
    IPv4OnlyAt(c, actions, k) != IPv4OnlyAt(c, actions, k + 1)
  }

  lemma SwitchSeen(c: Core, actions: seq<Action>, k: nat)
    requires Possible(c, actions) && k < |actions| && Switches(c, actions, k)
    ensures Seen(c, actions, k + 1) == Seen(c, actions, k) + 1 <= |History(c, actions)|
    ensures A.V4(c.state, History(c, actions), Seen(c, actions, k)) == IPv4OnlyAt(c, actions, k)
    ensures A.V4(c.state, History(c, actions), Seen(c, actions, k) + 1) == IPv4OnlyAt(c, actions, k + 1)
    ensures History(c, actions)[Seen(c, actions, k)].Probed? ==>
              actions[k].Finish? && actions[k].now == History(c, actions)[Seen(c, actions, k)].now
              && Possible(c, actions[..k]) && Allowed(After(c, actions[..k]), actions[k])
              && Uses(After(c, actions[..k]), actions[k])
  {
    hide Seen, History, IPv4OnlyAt, Next;
    SeenStep(c, actions, k);
    SeenMeans(c, actions, k);
    SeenMeans(c, actions, k + 1);
  }

  /** Anti-flapping of the concurrent controller: over every interleaving, an IPv4-only episode
      begins and ends with a used result, these are at least the cooldown apart, and the latter
      is the third IPv6 success in a row since the last reset. */
  lemma EpisodesLast(restored: State, actions: seq<Action>, i: nat, j: nat)
    requires Sound(restored) && Possible(Opened(restored), actions) && i < j < |actions|
    requires var c := Opened(restored);
             && !IPv4OnlyAt(c, actions, i) && !IPv4OnlyAt(c, actions, j + 1)
             && forall k :: i < k <= j ==> IPv4OnlyAt(c, actions, k)
    ensures actions[i].Finish? && actions[j].Finish? && actions[j].now - actions[i].now >= COOLDOWN
    ensures var h := History(Opened(restored), actions);
            Seen(Opened(restored), actions, j) < |h| && Streak(h[..Seen(Opened(restored), actions, j) + 1]) >= 3
  {
    hide Seen, History, IPv4OnlyAt, Next, Allowed, Uses, V4;
    var c := Opened(restored);
    var h, from, to := History(c, actions), Seen(c, actions, i), Seen(c, actions, j);
    assert Switches(c, actions, i) && Switches(c, actions, j);
    SwitchSeen(c, actions, i);
    SwitchSeen(c, actions, j);
    SeenGrows(c, actions, i + 1, j);
    forall m: nat | from < m <= to ensures V4(restored, h, m) {
      var k := Reached(c, actions, i, j, m);
      SeenMeans(c, actions, k);
    }
    EpisodeLasts(restored, h, from, to);
  }

  lemma {:induction false} SeenGrows(c: Core, actions: seq<Action>, i: nat, j: nat)
    requires Possible(c, actions) && i <= j <= |actions|
    ensures Seen(c, actions, i) <= Seen(c, actions, j)
    decreases j
  {
    hide Seen, Emits, History;
    if i < j {
      SeenStep(c, actions, j - 1);
      SeenGrows(c, actions, i, j - 1);
    }
  }

  /** And two exits from IPv4-only are at least the cooldown apart, if time does not go back. */
  lemma ExitsStayApart(restored: State, actions: seq<Action>, j: nat, k: nat)
    requires Sound(restored) && Possible(Opened(restored), actions) && j < k < |actions|
    requires Ordered(History(Opened(restored), actions))
    requires var c := Opened(restored);
             && IPv4OnlyAt(c, actions, j) && !IPv4OnlyAt(c, actions, j + 1)
             && IPv4OnlyAt(c, actions, k) && !IPv4OnlyAt(c, actions, k + 1)
    ensures actions[j].Finish? && actions[k].Finish? && actions[k].now - actions[j].now >= COOLDOWN
  {
    hide Seen, History, IPv4OnlyAt, Next, Allowed, Uses, V4, Ordered;
    var c := Opened(restored);
    assert Switches(c, actions, j) && Switches(c, actions, k);
    SwitchSeen(c, actions, j);
    SwitchSeen(c, actions, k);
    SeenGrows(c, actions, j + 1, k);
    ExitsApart(restored, History(c, actions), Seen(c, actions, j), Seen(c, actions, k));
  }

  lemma LookedIs(s: Core, caller: Caller, sinceChecked: int)
    ensures Looked(s, caller, sinceChecked) ==
            if s.flight.Some? then s.(locals := s.locals[caller := Waiting])
            else if !s.force && sinceChecked < INTERVAL then s.(locals := s.locals - {caller})
            else s.(flight := Some(caller), locals := s.locals[caller := Probing(s.generation, s.current)], started := s.moment)
  {
  }

  /** The controller itself; each method is one critical section. */
  class Controller {
    var state: State
    var flight: Option<Caller>
    var generation: nat
    var revision: nat
    var current: nat
    var force: bool
    var closed: bool
    var locals: map<Caller, Local>
    ghost var moment: nat
    ghost var invalidated: nat
    ghost var started: nat
    ghost var basis: nat

    ghost function View(): Core
      reads this
    {
      Core(state, flight, generation, revision, current, force, closed, locals, moment, invalidated, started, basis)
    }

    constructor (restored: State)
      ensures View() == Opened(restored)
    {
      state := restored;
      flight := None;
      generation, revision, current := 0, 0, 0;
      force, closed := true, false;
      locals := map[];
      moment, invalidated, started, basis := 0, 0, 0, 0;
    }

    /** The loop of check up to its next blocking point; Some is the verdict it returns. */
    method CheckSection(caller: Caller, cancelled: bool, sinceChecked: int) returns (answer: Option<State>)
      requires Inv(View()) && Allowed(View(), Check(caller, cancelled, sinceChecked))
      modifies this
      ensures View() == Next(old(View()), Check(caller, cancelled, sinceChecked)) && Inv(View())
      ensures answer == if caller in locals then None else Some(state)
    {
      hide Inv, Apply, Allowed, SingleFlight, Uses, Looked;
      NextKeeps(View(), Check(caller, cancelled, sinceChecked));
      moment := moment + 1;
      if closed || cancelled {
        locals := locals - {caller};
        return Some(state);
      }
      if current != revision {
        force := true;
        generation := generation + 1;
        state := state.(successes := 0);
        revision := current;
      }
      ghost var looking := View();
      assert looking == Synchronised(old(View())).(moment := moment);
      LookedIs(looking, caller, sinceChecked);
      if flight.Some? {
        locals := locals[caller := Waiting];
        return None;
      }
      if !force && sinceChecked < INTERVAL {
        locals := locals - {caller};
        return Some(state);
      }
      flight := Some(caller);
      locals := locals[caller := Probing(generation, current)];
      started := moment;
      return None;
    }

    /** The section after the probe: its result counts only if nothing has intervened. */
    method FinishSection(caller: Caller, sample: Sample, cancelled: bool, now: int) returns (answer: State)
      requires Inv(View()) && Allowed(View(), Finish(caller, sample, cancelled, now))
      modifies this
      ensures View() == Next(old(View()), Finish(caller, sample, cancelled, now)) && Inv(View())
      ensures answer == state && caller !in locals
    {
      hide Inv;
      NextKeeps(View(), Finish(caller, sample, cancelled, now));
      moment := moment + 1;
      var epoch, seen := locals[caller].epoch, locals[caller].revision;
      if !closed && epoch == generation && seen == current && !cancelled {
        state := Apply(state, sample, now);
        force := false;
        basis := started;
      }
      flight := None;
      locals := locals - {caller};
      answer := state;
    }

    method InvalidateSection()
      requires Inv(View())
      modifies this
      ensures View() == Next(old(View()), Invalidate) && Inv(View())
    {
      hide Inv;
      NextKeeps(View(), Invalidate);
      moment := moment + 1;
      invalidated := moment;
      generation := generation + 1;
      force := true;
      state := state.(successes := 0);
    }

    method InvalidateAllSection()
      requires Inv(View())
      modifies this
      ensures View() == Next(old(View()), InvalidateAll) && Inv(View())
    {
      hide Inv;
      NextKeeps(View(), InvalidateAll);
      moment := moment + 1;
      invalidated := moment;
      current := current + 1;
    }

    method CloseSection()
      requires Inv(View())
      modifies this
      ensures View() == Next(old(View()), Close) && Inv(View())
    {
      hide Inv;
      NextKeeps(View(), Close);
      moment := moment + 1;
      invalidated := moment;
      closed := true;
      generation := generation + 1;
    }
  }
}
