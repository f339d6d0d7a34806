/** The verdict of the adaptive egress controller (native/adaptive_egress/adaptive/state.go): a
    hysteresis over probe samples. Times are seconds; 0 is the zero time of a fresh state. */
module AdaptiveEgress {

  const INTERVAL: int := 5 * 60
  const COOLDOWN: int := 10 * 60

  datatype Sample = Sample(ipv4: bool, ipv6: bool)

  datatype State = State(ipv4Only: bool, verified: bool, successes: int, checkedAt: int, changedAt: int)

  const FRESH := State(false, false, 0, 0, 0)

  function Apply(s: State, sample: Sample, now: int): State {
    var counted := if sample.ipv6 then s.successes + 1 else 0;
    var verdict :=
      if sample.ipv6 then
        if !s.verified || !s.ipv4Only || (counted >= 3 && now - s.changedAt >= COOLDOWN)
        then s.(ipv4Only := false, verified := true, changedAt := if s.ipv4Only then now else s.changedAt)
        else s.(verified := true)
      else if sample.ipv4 then
        s.(ipv4Only := true, verified := true, changedAt := if !s.ipv4Only || !s.verified then now else s.changedAt)
      else s;
    verdict.(successes := if counted > 3 then 3 else counted, checkedAt := now)
  }

  /** What happens to a verdict: a probe result is applied, or an invalidation resets the count. */
  datatype Event = Probed(sample: Sample, now: int) | Reset

  function After(s: State, events: seq<Event>): State {
    if events == [] then s
    else
      var before := After(s, events[..|events| - 1]);
      match events[|events| - 1]
      case Probed(sample, now) => Apply(before, sample, now)
      case Reset => before.(successes := 0)
  }

  /** How many IPv6 successes in a row end the trace, with no reset between them. */
  function Streak(events: seq<Event>): nat {
    if events == [] then 0
    else
      match events[|events| - 1]
      case Probed(sample, now) => if sample.ipv6 then Streak(events[..|events| - 1]) + 1 else 0
      case Reset => 0
  }

  predicate Ordered(events: seq<Event>) {
    forall i, j :: 0 <= i < j < |events| && events[i].Probed? && events[j].Probed? ==> events[i].now <= events[j].now
  }

  /** A fresh verdict, or one restored from disk. */
  predicate Sound(s: State) {
    s.successes == 0 && (s.ipv4Only ==> s.verified)
  }

  /** IPv4-only implies verified, and the count is the streak, capped at three. */
  lemma {:induction false} Counted(s: State, events: seq<Event>)
    requires Sound(s)
    ensures var t := After(s, events);
            && (t.ipv4Only ==> t.verified)
            && (s.verified ==> t.verified)
            && t.successes == if Streak(events) > 3 then 3 else Streak(events)
  {
    if events != [] { Counted(s, events[..|events| - 1]); }
  }

  /** A probe that reached neither family, and a reset, leave the verdict alone. */
  lemma InconclusiveKeeps(s: State, events: seq<Event>, e: Event)
    requires Sound(s) && (e.Reset? || (!e.sample.ipv4 && !e.sample.ipv6))
    ensures var t, u := After(s, events), After(s, events + [e]);
            u.ipv4Only == t.ipv4Only && u.verified == t.verified && u.changedAt == t.changedAt
  {
    assert (events + [e])[..|events|] == events;
  }

  predicate V4(s: State, events: seq<Event>, k: nat)
    requires k <= |events|
  {
    After(s, events[..k]).ipv4Only
  }

  /** An IPv4-only episode: entered at event i, left at event j, IPv4-only in between. */
  predicate Episode(s: State, events: seq<Event>, i: nat, j: nat) {
    && i < j < |events|
    && !V4(s, events, i) && !V4(s, events, j + 1)
    && forall k :: i < k <= j ==> V4(s, events, k)
  }

  lemma Step(s: State, events: seq<Event>, k: nat)
    requires k < |events|
    ensures After(s, events[..k + 1])
         == match events[k]
            case Probed(sample, now) => Apply(After(s, events[..k]), sample, now)
            case Reset => After(s, events[..k]).(successes := 0)
  {
    assert events[..k + 1][..k] == events[..k];
  }

  /** Throughout an episode the verdict remembers when it began. */
  lemma {:induction false} EntryRemembered(s: State, events: seq<Event>, i: nat, k: nat)
    requires Sound(s) && i < k <= |events|
    requires !V4(s, events, i) && forall m :: i < m <= k ==> V4(s, events, m)
    ensures events[i].Probed? && After(s, events[..k]).changedAt == events[i].now
  {
    Step(s, events, k - 1);
    assert V4(s, events, k);
    if k - 1 > i {
      assert V4(s, events, k - 1);
      EntryRemembered(s, events, i, k - 1);
      Counted(s, events[..k - 1]);
    }
  }

  /** Anti-flapping: every IPv4-only episode lasts at least the cooldown, and ends with three
      IPv6 successes in a row since the last reset. */
  lemma EpisodeLasts(s: State, events: seq<Event>, i: nat, j: nat)
    requires Sound(s) && Episode(s, events, i, j)
    ensures events[i].Probed? && events[j].Probed?
    ensures events[j].now - events[i].now >= COOLDOWN
    ensures Streak(events[..j + 1]) >= 3
  {
    EntryRemembered(s, events, i, j);
    Counted(s, events[..j]);
    Counted(s, events[..j + 1]);
    Step(s, events, j);
    assert V4(s, events, j);
  }

  /** Also for an episode that was already going on: it is left only after the cooldown. */
  lemma ExitNeeds(s: State, events: seq<Event>, j: nat)
    requires Sound(s) && j < |events| && V4(s, events, j) && !V4(s, events, j + 1)
    ensures events[j].Probed? && events[j].now - After(s, events[..j]).changedAt >= COOLDOWN
    ensures Streak(events[..j + 1]) >= 3
  {
    Counted(s, events[..j]);
    Counted(s, events[..j + 1]);
    Step(s, events, j);
  }

  /** Two exits from IPv4-only are at least the cooldown apart. */
  lemma ExitsApart(s: State, events: seq<Event>, j: nat, k: nat)
    requires Sound(s) && Ordered(events) && j < k < |events|
    requires V4(s, events, j) && !V4(s, events, j + 1) && V4(s, events, k) && !V4(s, events, k + 1)
    ensures events[j].Probed? && events[k].Probed? && events[k].now - events[j].now >= COOLDOWN
  {
    ExitNeeds(s, events, j);
    var i := LastEntry(s, events, j + 1, k);
    EpisodeLasts(s, events, i, k);
  }

  lemma {:induction false} LastEntry(s: State, events: seq<Event>, from: nat, k: nat) returns (i: nat)
    requires from <= k < |events| && !V4(s, events, from) && V4(s, events, k) && !V4(s, events, k + 1)
    ensures from <= i && Episode(s, events, i, k)
  {
    i := k - 1;
    while V4(s, events, i)
      invariant from <= i < k
      invariant forall m :: i < m <= k ==> V4(s, events, m)
      decreases i
    {
      i := i - 1;
    }
  }
}
