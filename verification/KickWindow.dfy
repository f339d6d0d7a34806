/** When a KICK_USERS command may be reported complete (NodeControlCycle.run_once of
    node_agent.py): its users must have stayed offline for a quiet window. */
module KickWindow {

  const QUIET_SECONDS: int := 10
  const MAX_MARKS: nat := 4096

  type CommandId = nat

  /** What executing the command showed: it failed, a target was online, or none was. */
  datatype Sight = Failed | Online | Offline

  /** `observed` is an execution and the clock read after it; a restart loses all marks. */
  datatype Event = Observed(command: CommandId, sight: Sight, now: int) | Restarted

  /** The dictionary of first quiet observations, in insertion order. */
  datatype Mark = Mark(command: CommandId, since: int)

  function Find(marks: seq<Mark>, command: CommandId): (since: seq<int>)
    ensures |since| <= 1
  {
    if marks == [] then []
    else if marks[0].command == command then [marks[0].since]
    else Find(marks[1..], command)
  }

  function Remove(marks: seq<Mark>, command: CommandId): seq<Mark> {
    if marks == [] then []
    else if marks[0].command == command then Remove(marks[1..], command)
    else [marks[0]] + Remove(marks[1..], command)
  }

  /** setdefault with the bound on the table: the oldest mark makes room. */
  function Note(marks: seq<Mark>, command: CommandId, now: int): seq<Mark> {
    if Find(marks, command) != [] then marks
    else (if |marks| >= MAX_MARKS then marks[1..] else marks) + [Mark(command, now)]
  }

  function Since(marks: seq<Mark>, command: CommandId, now: int): int {
    if Find(marks, command) != [] then Find(marks, command)[0] else now
  }

  /** The command is recorded completed by this event. */
  predicate Completes(marks: seq<Mark>, e: Event) {
    e.Observed? && e.sight.Offline? && e.now - Since(marks, e.command, e.now) >= QUIET_SECONDS
  }

  function Next(marks: seq<Mark>, e: Event): seq<Mark> {
    match e
    case Restarted => []
    case Observed(command, sight, now) =>
      if !sight.Offline? then Remove(marks, command)
      else if Completes(marks, e) then Remove(marks, command)
      else Note(marks, command, now)
  }

  function After(events: seq<Event>): seq<Mark> {
    if events == [] then [] else Next(After(events[..|events| - 1]), events[|events| - 1])
  }

  /** Event i found the command's users offline, and since then the process lives and no
      observation of the command failed or found one online. */
  predicate QuietFrom(events: seq<Event>, command: CommandId, i: nat) {
    && i < |events|
    && events[i].Observed? && events[i].command == command && events[i].sight.Offline?
    && forall j :: i < j < |events| ==>
         events[j].Observed? && (events[j].command == command ==> events[j].sight.Offline?)
  }

  lemma {:induction false} RemoveKeeps(marks: seq<Mark>, command: CommandId, m: Mark)
    requires m in Remove(marks, command)
    ensures m in marks && m.command != command
  {
    if marks[0].command == command || m != marks[0] { RemoveKeeps(marks[1..], command, m); }
  }

  lemma {:induction false} FindIn(marks: seq<Mark>, command: CommandId)
    requires Find(marks, command) != []
    ensures Mark(command, Find(marks, command)[0]) in marks
  {
    if marks[0].command != command { FindIn(marks[1..], command); }
  }

  /** Every mark is the time of an offline observation that still stands. */
  lemma {:induction false} MarksStand(events: seq<Event>, m: Mark) returns (i: nat)
    requires m in After(events)
    ensures QuietFrom(events, m.command, i) && events[i].now == m.since
  {
    var n := |events| - 1;
    var before, e := After(events[..n]), events[n];
    if m in before && (e.command == m.command ==> e.sight.Offline?) {
      i := MarksStand(events[..n], m);
      assert events[..n][i] == events[i];
      assert forall j :: i < j < n ==> events[..n][j] == events[j];
    } else {
      if !e.sight.Offline? || Completes(before, e) { RemoveKeeps(before, e.command, m); }
      assert m == Mark(e.command, e.now);
      i := n;
    }
  }

  /** The quiet window: whatever restarts, evictions and reconnects there were, a command is
      completed only when two observations at least ten seconds apart in one process lifetime
      found all its users offline, with no other finding about it in between. */
  lemma QuietWindow(events: seq<Event>, e: Event) returns (i: nat)
    requires Completes(After(events), e)
    ensures QuietFrom(events + [e], e.command, i)
    ensures i < |events| && (events + [e])[i].now + QUIET_SECONDS <= e.now
  {
    var marks := After(events);
    FindIn(marks, e.command);
    i := MarksStand(events, Mark(e.command, Find(marks, e.command)[0]));
    assert forall j :: 0 <= j < |events| ==> (events + [e])[j] == events[j];
  }

  lemma {:induction false} Bounded(events: seq<Event>)
    ensures |After(events)| <= MAX_MARKS
  {
    if events != [] {
      var before := After(events[..|events| - 1]);
      Bounded(events[..|events| - 1]);
      if events[|events| - 1].Observed? { RemoveShrinks(before, events[|events| - 1].command); }
    }
  }

  lemma {:induction false} RemoveShrinks(marks: seq<Mark>, command: CommandId)
    ensures |Remove(marks, command)| <= |marks|
  {
    if marks != [] { RemoveShrinks(marks[1..], command); }
  }

  /** The table as the control cycle keeps it. */
  class Table {
    var marks: seq<Mark>
    ghost var events: seq<Event>

    ghost predicate Valid()
      reads this
    {
      marks == After(events)
    }

    /** A process starts with an empty table; the events of earlier processes are behind it. */
    constructor (ghost earlier: seq<Event>)
      ensures Valid() && events == earlier + [Restarted] && marks == []
    {
      marks := [];
      events := earlier + [Restarted];
    }

    /** One execution of the command, and whether it is recorded completed. */
    method Observe(command: CommandId, sight: Sight, now: int) returns (completed: bool)
      requires Valid()
      modifies this
      ensures Valid() && events == old(events) + [Observed(command, sight, now)]
      ensures completed == Completes(old(marks), Observed(command, sight, now))
      ensures completed ==> exists i: nat :: QuietFrom(events, command, i) && events[i].now + QUIET_SECONDS <= now
    {
      ghost var e := Observed(command, sight, now);
      if Completes(marks, e) {
        ghost var i := QuietWindow(events, e);
        assert (events + [e])[i].now + QUIET_SECONDS <= now;
      }
      assert (events + [e])[..|events|] == events;
      events := events + [e];
      if sight != Offline {
        marks := Remove(marks, command);
        return false;
      }
      var known := Find(marks, command);
      if known == [] {
        Bounded(events[..|events| - 1]);
        if |marks| >= MAX_MARKS {
          marks := marks[1..];
        }
        marks := marks + [Mark(command, now)];
        return false;
      }
      if now - known[0] < QUIET_SECONDS {
        return false;
      }
      marks := Remove(marks, command);
      completed := true;
    }
  }
}
