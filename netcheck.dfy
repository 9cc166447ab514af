/**
  A model of the connectivity state machine of the netcheck daemon.

  The daemon probes a URL at a fixed interval. Each probe outcome is fed into
  an `InternetChecker`, which counts consecutive failures, decides whether the
  connection is up, and, when its view of the connection changes, announces
  the change and (when the connection went down) runs a configured command.

  The module has two layers:
  - value-level definitions (`Status`, `SuccessSpec`, `FailureSpec`,
    `ProcessChangeSpec`, `StepSpec`, `Run`) that say what one operation or a run of steps does to
    the checker's three fields, together with lemmas about them;
  - the class `InternetChecker`, whose fields the methods update in place and
    whose every method is proved against the value-level definition.

  The HTTP probe, the external command, logging and sleeping are not part of
  the model: a probe is a boolean input and a command run is an event.
 */
module NetCheck {

  /** What one step makes visible to the outside world. */
  datatype Event =
    | Connected                     // the "Connected to the Internet" log line
    | Disconnected                  // the "Disconnected from the Internet" log line
    | RunCommand(command: string)   // one invocation of the on-disconnect command

  /** The checker's mutable fields, as a value. */
  datatype Status = Status(online: bool, failedChecks: nat, statusChanged: bool)

  /** The state after an operation, with the events it emitted. */
  datatype Outcome = Outcome(state: Status, events: seq<Event>)

  /** A freshly built checker: offline, no failures, and a change pending. */
  function Initial(): (r: Status)
    ensures forall downAfter :: Inv(r, downAfter)
    ensures !Settled(r)
  {
    Status(false, 0, true)
  }

  /** The invariant: while online, fewer than `downAfter` consecutive failures. */
  predicate Inv(s: Status, downAfter: int)
  {
    s.online ==> s.failedChecks < downAfter
  }

  /** A settled checker has no change pending. */
  predicate Settled(s: Status)
  {
    !s.statusChanged
  }

  /** The command events of a disconnect; none when no command is configured. */
  function CommandEvents(command: string): (r: seq<Event>)
    ensures command == "" <==> r == []
    ensures |r| <= 1
    ensures forall e :: e in r ==> e == RunCommand(command)
  {
    if command == "" then [] else [RunCommand(command)]
  }

  // ---------------------------------------------------------------------
  // The record operations and the processing of a pending change
  // ---------------------------------------------------------------------

  /** A probe succeeded. */
  function SuccessSpec(s: Status): (r: Status)
    ensures r.online && r.failedChecks == 0
    ensures !s.online ==> r.statusChanged
    ensures s.online ==> r.statusChanged == s.statusChanged
    ensures forall downAfter :: downAfter >= 1 ==> Inv(r, downAfter)
  {
    var s' := if !s.online then s.(online := true, statusChanged := true) else s;
    s'.(failedChecks := 0)
  }

  /** A probe failed; the checker goes offline exactly when the count reaches `downAfter`. */
  function FailureSpec(s: Status, downAfter: int): (r: Status)
    ensures r.failedChecks == s.failedChecks + 1
    ensures r.online ==> s.online
    ensures s.online && !r.online <==> s.online && s.failedChecks + 1 == downAfter
    ensures r.statusChanged <==> s.statusChanged || (s.online && !r.online)
    ensures !s.online ==> r.online == s.online && r.statusChanged == s.statusChanged
    ensures downAfter >= 1 && Inv(s, downAfter) ==> Inv(r, downAfter)
  {
    var count := s.failedChecks + 1;
    if s.online && count == downAfter then
      Status(false, count, true)
    else
      s.(failedChecks := count)
  }

  /** Announces the current state and, when offline, runs the command; then clears the flag. */
  function ProcessChangeSpec(s: Status, command: string): (r: Outcome)
    ensures r.state == s.(statusChanged := false)
    ensures |r.events| >= 1
    ensures r.events[0] == (if s.online then Connected else Disconnected)
    ensures RunCommand(command) in r.events <==> !s.online && command != ""
    ensures forall i :: 1 <= i < |r.events| ==> r.events[i] == RunCommand(command)
    ensures |r.events| == if !s.online && command != "" then 2 else 1
  {
    var announce := if s.online then Connected else Disconnected;
    var run := if !s.online then CommandEvents(command) else [];
    Outcome(s.(statusChanged := false), [announce] + run)
  }

  /**
    One iteration of the daemon's loop: record the probe outcome, then
    process the change if one is pending.
   */
  function StepSpec(s: Status, downAfter: int, command: string, success: bool): (r: Outcome)
    ensures Settled(r.state)
    ensures r.state.failedChecks == if success then 0 else s.failedChecks + 1
    ensures r.state.online <==> success || (s.online && s.failedChecks + 1 != downAfter)
    ensures r.events == [] <==> Settled(s) && r.state.online == s.online
    ensures downAfter >= 1 && Inv(s, downAfter) ==> Inv(r.state, downAfter)
  {
    var recorded := if success then SuccessSpec(s) else FailureSpec(s, downAfter);
    if recorded.statusChanged then ProcessChangeSpec(recorded, command) else Outcome(recorded, [])
  }

  /**
    The events of a boundary crossing, defined independently of the checker:
    nothing when the connection state holds, one announcement when it flips,
    followed by the command when it flips to offline.
   */
  function Crossing(before: bool, after: bool, command: string): seq<Event>
  {
    if before == after then []
    else if after then [Connected]
    else [Disconnected] + CommandEvents(command)
  }

  /** From a settled state, a step emits exactly the events of its crossing. */
  lemma StepIsCrossing(s: Status, downAfter: int, command: string, success: bool)
    requires Settled(s)
    ensures StepSpec(s, downAfter, command, success).events
         == Crossing(s.online, StepSpec(s, downAfter, command, success).state.online, command)
  {
  }

  /**
    The start-up quirk: the pending flag of a fresh checker makes the first
    step announce the state whatever it is, so a first failing probe reports
    a disconnect and runs the command whatever `downAfter` is.
   */
  lemma FirstStep(downAfter: int, command: string, success: bool)
    ensures StepSpec(Initial(), downAfter, command, success).events
         == if success then [Connected] else [Disconnected] + CommandEvents(command)
    ensures StepSpec(Initial(), downAfter, command, success).state
         == Status(success, if success then 0 else 1, false)
  {
  }

  /** With a threshold below one, the equality test never fires: failures never take the checker offline. */
  lemma NonPositiveThresholdNeverDisconnects(s: Status, downAfter: int)
    requires downAfter < 1
    ensures FailureSpec(s, downAfter).online == s.online
  {
  }

  // ---------------------------------------------------------------------
  // Runs: a finite sequence of loop iterations
  // ---------------------------------------------------------------------

  /** The state and all events after feeding `probes` to the checker, in order. */
  function Run(s: Status, downAfter: int, command: string, probes: seq<bool>): (r: Outcome)
    ensures probes == [] ==> r == Outcome(s, [])
    ensures probes != [] ==> Settled(r.state)
    ensures |r.events| <= 2 * |probes|
    decreases |probes|
  {
    if probes == [] then Outcome(s, [])
    else
      var before := Run(s, downAfter, command, probes[..|probes| - 1]);
      var last := StepSpec(before.state, downAfter, command, probes[|probes| - 1]);
      Outcome(last.state, before.events + last.events)
  }

  /** The number of failures at the end of `probes`, after its last success. */
  function TrailingFailures(probes: seq<bool>): nat
  {
    if probes == [] || probes[|probes| - 1] then 0
    else 1 + TrailingFailures(probes[..|probes| - 1])
  }

  /** `n` failed probes in a row. */
  function Failures(n: nat): (r: seq<bool>)
    ensures |r| == n && forall i :: 0 <= i < n ==> !r[i]
  {
    seq(n, _ => false)
  }

  /** The invariant holds after any run. */
  lemma {:induction false} RunPreservesInv(s: Status, downAfter: int, command: string, probes: seq<bool>)
    requires downAfter >= 1 && Inv(s, downAfter)
    ensures Inv(Run(s, downAfter, command, probes).state, downAfter)
    decreases |probes|
  {
    if probes != [] {
      RunPreservesInv(s, downAfter, command, probes[..|probes| - 1]);
    }
  }

  /**
    The state after a run, stated without reference to the steps: the count is
    the number of trailing failures (added to the old count when there was no
    success), and the checker is online exactly when that count is below the
    threshold and, if no probe succeeded, it was online to begin with.
   */
  lemma {:induction false} RunState(s: Status, downAfter: int, command: string, probes: seq<bool>)
    requires downAfter >= 1 && Inv(s, downAfter)
    ensures var t := Run(s, downAfter, command, probes).state;
            var k := TrailingFailures(probes);
            if k == |probes| then
              t.online == (s.online && s.failedChecks + k < downAfter) && t.failedChecks == s.failedChecks + k
            else
              t.online == (k < downAfter) && t.failedChecks == k
    decreases |probes|
  {
    if probes != [] {
      RunState(s, downAfter, command, probes[..|probes| - 1]);
    }
  }

  /** From a fresh checker: online exactly when some probe succeeded and fewer than `downAfter` failures followed the last success. */
  lemma InitialRunOnline(downAfter: int, command: string, probes: seq<bool>)
    requires downAfter >= 1
    ensures Run(Initial(), downAfter, command, probes).state.online
        <==> TrailingFailures(probes) < |probes| && TrailingFailures(probes) < downAfter
  {
    RunState(Initial(), downAfter, command, probes);
  }

  /** Fewer failures than it takes to reach the threshold: the checker stays online and silent. */
  lemma {:induction false} ShortOutageIsSilent(s: Status, downAfter: int, command: string, n: nat)
    requires Settled(s) && s.online && s.failedChecks + n < downAfter
    ensures Run(s, downAfter, command, Failures(n)) == Outcome(s.(failedChecks := s.failedChecks + n), [])
  {
    if n > 0 {
      assert Failures(n)[..n - 1] == Failures(n - 1);
      ShortOutageIsSilent(s, downAfter, command, n - 1);
    }
  }

  /**
    An outage that reaches the threshold is announced once and runs the
    command once, however long it lasts.
   */
  lemma {:induction false} OutageFiresOnce(s: Status, downAfter: int, command: string, n: nat)
    requires Settled(s) && s.online && Inv(s, downAfter) && s.failedChecks + n >= downAfter
    ensures Run(s, downAfter, command, Failures(n))
         == Outcome(Status(false, s.failedChecks + n, false), [Disconnected] + CommandEvents(command))
  {
    assert n > 0;
    assert Failures(n)[..n - 1] == Failures(n - 1);
    var before := Run(s, downAfter, command, Failures(n - 1));
    assert Run(s, downAfter, command, Failures(n))
        == Outcome(StepSpec(before.state, downAfter, command, false).state,
                   before.events + StepSpec(before.state, downAfter, command, false).events);
    if s.failedChecks + n == downAfter {
      ShortOutageIsSilent(s, downAfter, command, n - 1);
      assert before == Outcome(s.(failedChecks := s.failedChecks + n - 1), []);
    } else {
      OutageFiresOnce(s, downAfter, command, n - 1);
      assert !before.state.online && Settled(before.state);
    }
  }

  /** Successes while online are silent and keep the count at zero. */
  lemma {:induction false} SteadyConnectionIsSilent(s: Status, downAfter: int, command: string, n: nat)
    requires Settled(s) && s.online
    ensures Run(s, downAfter, command, seq(n, _ => true))
         == Outcome(s.(failedChecks := if n == 0 then s.failedChecks else 0), [])
  {
    if n > 0 {
      assert seq(n, _ => true)[..n - 1] == seq(n - 1, _ => true);
      SteadyConnectionIsSilent(s, downAfter, command, n - 1);
    }
  }

  /** The concrete scenario: threshold 3, starting online and settled. */
  lemma ThresholdThreeScenario(command: string)
    requires command != ""
    ensures var online := Status(true, 0, false);
            var down := Run(online, 3, command, [false, false, false]);
            var stillDown := StepSpec(down.state, 3, command, false);
            var up := StepSpec(stillDown.state, 3, command, true);
            var downAgain := Run(up.state, 3, command, [false, false, false]);
            && down.events == [Disconnected, RunCommand(command)]
            && stillDown.events == []
            && up.events == [Connected]
            && downAgain.events == [Disconnected, RunCommand(command)]
  {
    var online := Status(true, 0, false);
    assert [false, false, false] == Failures(3);
    OutageFiresOnce(online, 3, command, 3);
  }

  /** The connection announcements among `events`, as the state they announce. */
  function Announcements(events: seq<Event>): (a: seq<bool>)
    ensures |a| <= |events|
  {
    if events == [] then []
    else
      var rest := Announcements(events[..|events| - 1]);
      match events[|events| - 1]
      case Connected => rest + [true]
      case Disconnected => rest + [false]
      case RunCommand(_) => rest
  }

  lemma {:induction false} AnnouncementsAppend(a: seq<Event>, b: seq<Event>)
    ensures Announcements(a + b) == Announcements(a) + Announcements(b)
    decreases |b|
  {
    if b == [] {
      assert a + b == a;
    } else {
      assert (a + b)[..|a + b| - 1] == a + b[..|b| - 1];
      AnnouncementsAppend(a, b[..|b| - 1]);
    }
  }

  /** The state announced before position `i` of `a`; `start` when nothing was announced yet. */
  function Before(a: seq<bool>, start: bool, i: nat): bool
    requires i <= |a|
  {
    if i == 0 then start else a[i - 1]
  }

  /** Each announcement reports the opposite of the state before it. */
  predicate Alternates(a: seq<bool>, start: bool)
  {
    forall i :: 0 <= i < |a| ==> a[i] != Before(a, start, i)
  }

  /** The announcements of a crossing: the new state, if it differs from the old one. */
  lemma AnnouncementsOfCrossing(before: bool, after: bool, command: string)
    ensures Announcements(Crossing(before, after, command)) == if before == after then [] else [after]
  {
  }

  lemma AlternatesExtend(a: seq<bool>, start: bool, x: bool)
    requires Alternates(a, start)
    requires x != Before(a, start, |a|)
    ensures Alternates(a + [x], start)
  {
  }

  /**
    One announcement per boundary crossing: from a settled checker, the
    announcements of a run alternate, starting with the opposite of the
    initial state, and the last one (if any) is the final state.
   */
  lemma {:induction false} RunAnnouncesCrossings(s: Status, downAfter: int, command: string, probes: seq<bool>)
    requires Settled(s)
    ensures var r := Run(s, downAfter, command, probes);
            var a := Announcements(r.events);
            Alternates(a, s.online) && r.state.online == Before(a, s.online, |a|)
    decreases |probes|
  {
    if probes != [] {
      var init := probes[..|probes| - 1];
      var before := Run(s, downAfter, command, init);
      RunAnnouncesCrossings(s, downAfter, command, init);
      if init == [] {
        assert before.state == s;
      }
      var last := StepSpec(before.state, downAfter, command, probes[|probes| - 1]);
      assert Run(s, downAfter, command, probes) == Outcome(last.state, before.events + last.events);
      StepIsCrossing(before.state, downAfter, command, probes[|probes| - 1]);
      AnnouncementsAppend(before.events, last.events);
      AnnouncementsOfCrossing(before.state.online, last.state.online, command);
      var a0 := Announcements(before.events);
      if before.state.online != last.state.online {
        AlternatesExtend(a0, s.online, last.state.online);
      } else {
        assert a0 + [] == a0;
      }
    }
  }

  /** A run over `p + q` is the run over `p` followed by the run over `q` from where it ended. */
  lemma {:induction false} RunAppend(s: Status, downAfter: int, command: string, p: seq<bool>, q: seq<bool>)
    ensures var first := Run(s, downAfter, command, p);
            var second := Run(first.state, downAfter, command, q);
            Run(s, downAfter, command, p + q) == Outcome(second.state, first.events + second.events)
    decreases |q|
  {
    if q == [] {
      assert p + q == p;
    } else {
      var q' := q[..|q| - 1];
      assert (p + q)[..|p + q| - 1] == p + q';
      assert (p + q)[|p + q| - 1] == q[|q| - 1];
      RunAppend(s, downAfter, command, p, q');
    }
  }

  /**
    A run from a freshly built checker: the first announcement reports the
    first probe's outcome (the start-up quirk), the later announcements
    alternate from there, and the last one is the final state.
   */
  lemma InitialRunAnnounces(downAfter: int, command: string, probes: seq<bool>)
    requires probes != []
    ensures var r := Run(Initial(), downAfter, command, probes);
            var a := Announcements(r.events);
            && a != [] && a[0] == probes[0]
            && Alternates(a[1..], probes[0])
            && r.state.online == a[|a| - 1]
  {
    var first := Run(Initial(), downAfter, command, probes[..1]);
    assert probes[..1][..0] == [] && probes[..1][0] == probes[0];
    assert Run(Initial(), downAfter, command, probes[..1][..0]) == Outcome(Initial(), []);
    FirstStep(downAfter, command, probes[0]);
    assert first.state.online == probes[0] && Settled(first.state);
    var e := first.events;
    assert e == [] + StepSpec(Initial(), downAfter, command, probes[0]).events;
    assert Announcements(e) == [probes[0]] by {
      AnnouncementsOfCrossing(!probes[0], probes[0], command);
    }
    var rest := Run(first.state, downAfter, command, probes[1..]);
    assert probes[..1] + probes[1..] == probes;
    RunAppend(Initial(), downAfter, command, probes[..1], probes[1..]);
    RunAnnouncesCrossings(first.state, downAfter, command, probes[1..]);
    AnnouncementsAppend(e, rest.events);
    var a := Announcements(e + rest.events);
    assert a == [probes[0]] + Announcements(rest.events);
    assert a[1..] == Announcements(rest.events);
  }

  /**
    Position `i` of `events` is well placed: a command run there directly
    follows a disconnect announcement, and when a command is configured a
    disconnect announcement there is directly followed by one run.
   */
  predicate WellPlaced(events: seq<Event>, i: nat, command: string)
    requires i < |events|
  {
    && (events[i].RunCommand? ==> command != "" && events[i].command == command && i > 0 && events[i - 1] == Disconnected)
    && (events[i] == Disconnected && command != "" ==> i + 1 < |events| && events[i + 1] == RunCommand(command))
  }

  /** Every command run directly follows a disconnect, and every disconnect runs the configured command. */
  predicate CommandsFollowDisconnects(events: seq<Event>, command: string)
  {
    forall i :: 0 <= i < |events| ==> WellPlaced(events, i, command)
  }

  lemma CommandsFollowDisconnectsAppend(a: seq<Event>, b: seq<Event>, command: string)
    requires CommandsFollowDisconnects(a, command) && CommandsFollowDisconnects(b, command)
    requires b != [] ==> !b[0].RunCommand?
    ensures CommandsFollowDisconnects(a + b, command)
  {
    var ab := a + b;
    forall i | 0 <= i < |ab|
      ensures WellPlaced(ab, i, command)
    {
      if i < |a| {
        assert WellPlaced(a, i, command);
        assert ab[i] == a[i];
        if i > 0 { assert ab[i - 1] == a[i - 1]; }
        if i + 1 < |a| { assert ab[i + 1] == a[i + 1]; }
      } else {
        var j := i - |a|;
        assert WellPlaced(b, j, command);
        assert ab[i] == b[j];
        if j > 0 { assert ab[i - 1] == b[j - 1]; }
        if j + 1 < |b| { assert ab[i + 1] == b[j + 1]; }
      }
    }
  }

  /** The events of one step are well placed, and a step never starts with a command run. */
  lemma StepCommandsFollowDisconnects(s: Status, downAfter: int, command: string, success: bool)
    ensures var e := StepSpec(s, downAfter, command, success).events;
            CommandsFollowDisconnects(e, command) && (e != [] ==> !e[0].RunCommand?)
  {
  }

  /** In any run, from any state, each disconnect runs the configured command exactly once, right after it. */
  lemma {:induction false} RunCommandsFollowDisconnects(s: Status, downAfter: int, command: string, probes: seq<bool>)
    ensures CommandsFollowDisconnects(Run(s, downAfter, command, probes).events, command)
    decreases |probes|
  {
    if probes != [] {
      var init := probes[..|probes| - 1];
      var before := Run(s, downAfter, command, init);
      var last := StepSpec(before.state, downAfter, command, probes[|probes| - 1]);
      RunCommandsFollowDisconnects(s, downAfter, command, init);
      StepCommandsFollowDisconnects(before.state, downAfter, command, probes[|probes| - 1]);
      CommandsFollowDisconnectsAppend(before.events, last.events, command);
    }
  }

  // ---------------------------------------------------------------------
  // The checker object
  // ---------------------------------------------------------------------

  /** The checker; its three state fields are updated in place by its methods. */
  class InternetChecker {
    var online: bool
    var failedChecks: nat
    var statusChanged: bool
    const url: string
    const every: int
    const downAfter: int
    const onDisconnect: string   // "" when no command is configured

    /** The three state fields as a value. */
    function Current(): Status
      reads this
    {
      Status(online, failedChecks, statusChanged)
    }

    /** The object invariant; it can only hold for a threshold of at least one. */
    ghost predicate Valid()
      reads this
    {
      downAfter >= 1 ==> Inv(Current(), downAfter)
    }

    constructor (url: string, every: int, downAfter: int, onDisconnect: string)
      ensures Valid()
      ensures !online && failedChecks == 0 && statusChanged
      ensures Current() == Initial()
      ensures this.url == url && this.every == every
      ensures this.downAfter == downAfter && this.onDisconnect == onDisconnect
    {
      this.online := false;
      this.failedChecks := 0;
      this.url := url;
      this.every := every;
      this.downAfter := downAfter;
      this.onDisconnect := onDisconnect;
      this.statusChanged := true;
    }

    method RecordSuccess()
      requires Valid()
      modifies this
      ensures Valid()
      ensures online && failedChecks == 0
      ensures statusChanged == (old(statusChanged) || !old(online))
      ensures Current() == SuccessSpec(old(Current()))
    {
      if !online {
        online := true;
        statusChanged := true;
      }
      failedChecks := 0;
    }

    method RecordFailure()
      requires Valid()
      modifies this
      ensures Valid()
      ensures failedChecks == old(failedChecks) + 1
      ensures online == (old(online) && failedChecks != downAfter)
      ensures statusChanged == (old(statusChanged) || (old(online) && failedChecks == downAfter))
      ensures Current() == FailureSpec(old(Current()), downAfter)
    {
      failedChecks := failedChecks + 1;
      if online && failedChecks == downAfter {
        online := false;
        statusChanged := true;
      }
    }

    method ProcessChange() returns (events: seq<Event>)
      requires Valid()
      modifies this
      ensures Valid()
      ensures !statusChanged && online == old(online) && failedChecks == old(failedChecks)
      ensures Outcome(Current(), events) == ProcessChangeSpec(old(Current()), onDisconnect)
    {
      var msg := if online then Connected else Disconnected;
      events := [msg];
      if !online && onDisconnect != "" {
        // The command is modelled as an event; the errors it may raise are not modelled.
        events := events + [RunCommand(onDisconnect)];
      }
      statusChanged := false;
    }

    /** One iteration of the daemon's loop, with the probe outcome as input. */
    method Step(success: bool) returns (events: seq<Event>)
      requires Valid()
      modifies this
      ensures Valid()
      ensures !statusChanged
      ensures Outcome(Current(), events) == StepSpec(old(Current()), downAfter, onDisconnect, success)
    {
      if success {
        RecordSuccess();
      } else {
        RecordFailure();
      }
      events := [];
      if statusChanged {
        events := ProcessChange();
      }
    }

    /** The daemon's loop over a finite sequence of probe outcomes. */
    method RunProbes(probes: seq<bool>) returns (events: seq<Event>)
      requires Valid()
      modifies this
      ensures Valid()
      ensures Outcome(Current(), events) == Run(old(Current()), downAfter, onDisconnect, probes)
    {
      events := [];
      var i := 0;
      while i < |probes|
        invariant 0 <= i <= |probes|
        invariant Valid()
        invariant Outcome(Current(), events) == Run(old(Current()), downAfter, onDisconnect, probes[..i])
      {
        assert probes[..i + 1][..i] == probes[..i];
        var stepEvents := Step(probes[i]);
        events := events + stepEvents;
        i := i + 1;
      }
      assert probes[..|probes|] == probes;
    }
  }
}
