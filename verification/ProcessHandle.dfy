/** The end-to-end suite's handle on a child process: its exit arrives on a channel that carries one
    value, and several helpers ask for it. */
module ProcessHandle {
  import opened Wrappers

  /** How a process exited: cleanly, or with an error. */
  type Exit = Option<string>

  /** What the handle's mutex protects, the channel, and how often it was received from. */
  datatype Handle = Handle(channel: Option<Exit>, gone: bool, reaped: bool, exitErr: Exit, receives: nat)

  const STARTED := Handle(None, false, false, None, 0)

  /** The atomic events: the process exits; the mutex is held for a poll; it is held for a wait, whose
      timer may fire even though the exit has arrived. */
  datatype Event = Exits(err: Exit) | Poll | Wait(timerWins: bool)

  datatype Answer = Answer(exited: bool, err: Exit)

  function Take(h: Handle): Handle
    requires h.channel.Some?
  {
    Handle(None, h.gone, true, h.channel.value, h.receives + 1)
  }

  function Step(h: Handle, e: Event): Handle {
    match e
    case Exits(err) => if h.gone then h else h.(channel := Some(err), gone := true)
    case Poll => if !h.reaped && h.channel.Some? then Take(h) else h
    case Wait(timerWins) => if !h.reaped && h.channel.Some? && !timerWins then Take(h) else h
  }

  /** The answer an ask gives, from the handle it leaves behind. */
  function Answered(h: Handle): Answer {
    if h.reaped then Answer(true, h.exitErr) else Answer(false, None)
  }

  function After(events: seq<Event>): Handle {
    if events == [] then STARTED else Step(After(events[..|events| - 1]), events[|events| - 1])
  }

  /** The answer given by the event at position `i`. */
  function AnswerAt(events: seq<Event>, i: nat): Answer
    requires i < |events|
  {
    Answered(After(events[..i + 1]))
  }

  predicate Asks(e: Event) { e.Poll? || e.Wait? }

  /** How the process exited, if it has. */
  function ExitOf(events: seq<Event>): Option<Exit> {
    if events == [] then None
    else
      var before := ExitOf(events[..|events| - 1]);
      if before.None? && events[|events| - 1].Exits? then Some(events[|events| - 1].err) else before
  }

  /** At every point the exit is either still in the channel or has been taken exactly once. */
  lemma {:induction false} Accounted(events: seq<Event>)
    ensures var h := After(events);
            && (h.gone <==> ExitOf(events).Some?)
            && (h.channel.Some? ==> h.channel == ExitOf(events) && !h.reaped)
            && (h.reaped ==> ExitOf(events) == Some(h.exitErr))
            && (h.gone ==> h.channel.Some? || h.reaped)
            && h.receives == if h.reaped then 1 else 0
  {
    if events != [] { Accounted(events[..|events| - 1]); }
  }

  lemma {:induction false} ReapedStays(events: seq<Event>, more: seq<Event>)
    requires After(events).reaped
    ensures After(events + more).reaped && After(events + more).exitErr == After(events).exitErr
  {
    if more == [] {
      assert events + more == events;
    } else {
      ReapedStays(events, more[..|more| - 1]);
      assert (events + more)[..|events + more| - 1] == events + more[..|more| - 1];
    }
  }

  /** Whatever the interleaving of asks, the channel is received from at most once, every positive
      answer carries the one exit, and no answer after a positive one is negative. */
  lemma OneShotReaping(events: seq<Event>, i: nat, j: nat)
    requires i <= j < |events|
    ensures After(events).receives <= 1
    ensures AnswerAt(events, i).exited ==>
              && AnswerAt(events, j) == AnswerAt(events, i)
              && ExitOf(events[..i + 1]) == Some(AnswerAt(events, i).err)
  {
    Accounted(events);
    Accounted(events[..i + 1]);
    if AnswerAt(events, i).exited {
      ReapedStays(events[..i + 1], events[i + 1..j + 1]);
      assert events[..i + 1] + events[i + 1..j + 1] == events[..j + 1];
    }
  }

  /** A poll is positive exactly when the process has exited; a wait can only miss an exit by its
      timer firing. */
  lemma PollIsExact(events: seq<Event>, i: nat)
    requires i < |events| && (events[i] == Poll || events[i] == Wait(false))
    ensures AnswerAt(events, i).exited <==> ExitOf(events[..i + 1]).Some?
  {
    Accounted(events[..i]);
    Accounted(events[..i + 1]);
    assert events[..i + 1][..i] == events[..i];
  }

  /** What happens while a call waits: an exit may arrive, and the timer may fire first all the same. */
  datatype Meanwhile = Meanwhile(arrives: Option<Exit>, fires: bool)

  /** A call with a timeout of zero or less only polls. */
  function Ask(timeout: int, m: Meanwhile): Event { if timeout <= 0 then Poll else Wait(m.fires) }

  function Waits(timeout: int, m: Meanwhile): seq<Event> {
    (if m.arrives.Some? then [Exits(m.arrives.value)] else []) + [Ask(timeout, m)]
  }

  /** How long Stop waits at each step, in nanoseconds. */
  const STOP_GRACE := 5_000_000_000

  datatype Termination = SignalFailed | StillRunning | Ended(err: Exit)

  class Process {
    /** Whether the command was ever started. */
    const started: bool
    var channel: Option<Exit>
    var reaped: bool
    var exitErr: Exit
    var killed: bool
    ghost var events: seq<Event>

    ghost predicate Valid()
      reads this
    {
      var h := After(events);
      channel == h.channel && reaped == h.reaped && exitErr == h.exitErr
    }

    /** What asking the process to stop does to the handle. */
    ghost function Asked(): seq<Event>
      reads this
    {
      events + if started then [Poll] else []
    }

    constructor (started: bool)
      ensures Valid() && this.started == started && events == [] && !killed
    {
      this.started := started;
      channel, reaped, exitErr, killed, events := None, false, None, false, [];
    }

    /** The process exits by itself or by a signal, once. */
    method Exited(err: Exit)
      requires Valid() && started && ExitOf(events).None?
      modifies this`channel, this`events
      ensures Valid() && events == old(events) + [Exits(err)]
    {
      Accounted(events);
      channel := Some(err);
      events := events + [Exits(err)];
      assert events[..|events| - 1] == old(events);
    }

    /** Asks once under the mutex, without waiting when the timeout is not positive. */
    method Reap(timeout: int, m: Meanwhile) returns (exited: bool, err: Exit)
      requires Valid() && (m.arrives.Some? ==> started && ExitOf(events).None?)
      modifies this`channel, this`reaped, this`exitErr, this`events
      ensures Valid() && events == old(events) + Waits(timeout, m)
      ensures Answer(exited, err) == Answered(After(events))
    {
      if m.arrives.Some? {
        Exited(m.arrives.value);
      }
      WaitsSplit(old(events), timeout, m);
      ghost var before := events;
      events := events + [Ask(timeout, m)];
      assert events[..|events| - 1] == before;
      if reaped {
        return true, exitErr;
      }
      if channel.Some? && (timeout <= 0 || !m.fires) {
        err := channel.value;
        channel, reaped, exitErr := None, true, err;
        return true, err;
      }
      return false, None;
    }

    method WaitExit(timeout: int, m: Meanwhile) returns (exited: bool, err: Exit)
      requires Valid() && (m.arrives.Some? ==> started && ExitOf(events).None?)
      modifies this`channel, this`reaped, this`exitErr, this`events
      ensures Valid() && events == old(events) + Waits(timeout, m)
      ensures Answer(exited, err) == Answered(After(events))
    {
      exited, err := Reap(timeout, m);
    }

    /** Signals a process that has not been reaped; signalling one that is already gone is no error. */
    method Signal(fails: bool) returns (failed: bool)
      requires Valid()
      modifies this`channel, this`reaped, this`exitErr, this`events
      ensures Valid() && events == old(Asked())
      ensures ExitOf(events) == ExitOf(old(events))
      ensures failed <==> started && fails && !After(events).reaped
    {
      if !started {
        return false;
      }
      ExitUnchanged(events);
      var exited, _ := Reap(0, Meanwhile(None, false));
      failed := !exited && fails;
    }

    /** SIGTERM and a wait; a process that does not exit in time is killed. */
    method Terminate(timeout: int, fails: bool, m: Meanwhile) returns (r: Termination)
      requires Valid() && (m.arrives.Some? ==> started && ExitOf(events).None?)
      modifies this
      ensures Valid()
      ensures r.SignalFailed? <==> started && fails && !After(old(Asked())).reaped
      ensures events == old(Asked()) + if r.SignalFailed? then [] else Waits(timeout, m)
      ensures r.Ended? <==> !r.SignalFailed? && After(events).reaped
      ensures r.Ended? ==> ExitOf(events) == Some(r.err)
      ensures killed == if r.StillRunning? && started then true else old(killed)
    {
      var failed := Signal(fails);
      if failed {
        return SignalFailed;
      }
      var exited, err := Reap(timeout, m);
      Accounted(events);
      if !exited {
        if started {
          killed := true;
        }
        return StillRunning;
      }
      r := Ended(err);
    }

    /** Leaves no process behind: unless the signal could not be sent, the process has been reaped or
        is killed, and a killed one is given the grace period once more. */
    method Stop(fails: bool, first: Meanwhile, second: Meanwhile)
      requires Valid() && (first.arrives.Some? || second.arrives.Some? ==> started && ExitOf(events).None?)
      requires first.arrives.None? || second.arrives.None?
      modifies this
      ensures Valid()
      ensures var asked := old(Asked());
              var waited := asked + Waits(STOP_GRACE, first);
              if started && fails && !After(asked).reaped then events == asked && killed == old(killed)
              else if After(waited).reaped || !started then events == waited && killed == old(killed)
              else events == waited + Waits(STOP_GRACE, second) && killed
    {
      var failed := Signal(fails);
      if failed {
        return;
      }
      ghost var before := events;
      var exited, _ := Reap(STOP_GRACE, first);
      if exited || !started {
        return;
      }
      killed := true;
      if second.arrives.Some? { WaitsUnchanged(before, first); }
      var _, _ := Reap(STOP_GRACE, second);
    }
  }

  /** Stop waits at each step, it does not merely poll. */
  lemma StopWaits(m: Meanwhile)
    ensures Waits(STOP_GRACE, m) == (if m.arrives.Some? then [Exits(m.arrives.value)] else []) + [Wait(m.fires)]
  {}

  lemma WaitsSplit(events: seq<Event>, timeout: int, m: Meanwhile)
    ensures events + Waits(timeout, m)
         == (if m.arrives.Some? then events + [Exits(m.arrives.value)] else events) + [Ask(timeout, m)]
  {}

  lemma ExitUnchanged(events: seq<Event>)
    ensures ExitOf(events + [Poll]) == ExitOf(events)
  {
    assert (events + [Poll])[..|events + [Poll]| - 1] == events;
  }

  lemma WaitsUnchanged(events: seq<Event>, m: Meanwhile)
    requires m.arrives.None?
    ensures ExitOf(events + Waits(STOP_GRACE, m)) == ExitOf(events)
  {
    var whole := events + Waits(STOP_GRACE, m);
    assert whole[..|whole| - 1] == events;
  }
}
