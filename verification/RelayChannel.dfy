/** relayChannel as the object it is: the fields its lock protects, and the methods
    that change them, each tied to the step function TerminalInput reasons about. */
module RelayChannel {
  import T = TerminalInput

  class Channel {
    var attached: bool
    const inputFn: bool
    var pending: seq<T.Item>
    var ready: bool
    var closed: bool
    var closeRuns: nat
    var stdinCloses: nat
    var log: seq<T.Event>

    function View(): T.Channel
      reads this
    {
      T.Channel(attached, inputFn, pending, ready, closed, closeRuns, stdinCloses, log)
    }

    /** Nothing is left in the queue once the shell is live, only a channel that got
        its shell or was closed is live, and closeFn has run at most once: exactly when a
        channel that has one is closed. */
    ghost predicate Valid()
      reads this
    {
      && (ready ==> pending == [] && (attached || closed))
      && (inputFn ==> !attached && pending == [])
      && closeRuns == (if closed && (attached || inputFn) then 1 else 0)
      && stdinCloses <= closeRuns
    }

    constructor (direct: bool)
      ensures Valid()
      ensures View() == T.NewTerminal().(inputFn := direct)
    {
      attached, inputFn, pending, ready, closed := false, direct, [], false, false;
      closeRuns, stdinCloses, log := 0, 0, [];
    }

    method Attach()
      requires Valid() && !inputFn
      modifies this`attached
      ensures Valid()
      ensures View() == T.Attach(old(View()))
    {
      if closed {
        return;
      }
      attached := true;
    }

    method MarkReady() returns (pend: seq<T.Item>)
      requires Valid() && (attached || closed)   // the pump starts after attach
      modifies this`ready, this`pending
      ensures Valid() && ready
      ensures (View(), pend) == T.MarkReady(old(View()))
    {
      if ready {
        return [];
      }
      ready := true;
      pend := pending;
      pending := [];
    }

    method TimerTake() returns (pend: seq<T.Item>)
      requires Valid() && (attached || closed)   // so does the timer
      modifies this`ready, this`pending
      ensures Valid() && ready
      ensures (View(), pend) == T.TimerTake(old(View()))
    {
      ready := true;
      pend := pending;
      pending := [];
    }

    method Deliver(x: T.Item, works: bool)
      requires Valid()
      modifies this`pending, this`log, this`closed, this`closeRuns
      ensures Valid()
      ensures View() == T.Deliver(old(View()), x, works)
    {
      if closed {
        log := log + [T.Refused(x)];
        return;
      }
      if (!attached && !inputFn) || (attached && !ready) {
        pending := pending + [x];
        return;
      }
      if inputFn {
        log := log + [T.Handled(x)];
        return;
      }
      if T.IsResize(x.raw) {
        log := log + [T.Swallowed(x)];
        return;
      }
      if works {
        log := log + [T.Wrote(x)];
      } else {
        log := log + [T.Failed(x)];
        closed := true;
        closeRuns := closeRuns + 1;
      }
    }

    /** The flush loop of the pump and of the timer goroutine, left alone. */
    method Flush(pend: seq<T.Item>, works: nat -> bool)
      requires Valid()
      modifies this`pending, this`log, this`closed, this`closeRuns
      ensures Valid()
      ensures View() == T.FlushAll(old(View()), pend, works)
    {
      for k := 0 to |pend|
        invariant Valid()
        invariant View() == T.FlushAll(old(View()), pend[..k], works)
      {
        assert pend[..k + 1][..k] == pend[..k];
        Deliver(pend[k], works(k));
      }
      assert pend[..|pend|] == pend;
    }

    method Close()
      requires Valid()
      modifies this`closed, this`closeRuns, this`stdinCloses
      ensures Valid() && closed
      ensures View() == T.CloseChannel(old(View()))
    {
      if closed {
        return;
      }
      closed := true;
      if attached || inputFn {
        closeRuns := closeRuns + 1;
      }
      if attached {
        stdinCloses := stdinCloses + 1;
      }
    }
  }

  /** An uninterrupted flush on an open, ready terminal whose writes work puts the
      batch into the log whole and in order. */
  lemma {:induction false} FlushWrites(ch: T.Channel, pend: seq<T.Item>, works: nat -> bool)
    requires ch.attached && !ch.inputFn && ch.ready && !ch.closed
    requires forall k: nat :: works(k)
    ensures var ch' := T.FlushAll(ch, pend, works);
            && ch' == ch.(log := ch'.log) && |ch'.log| == |ch.log| + |pend|
            && ch'.log[..|ch.log|] == ch.log
            && forall k :: 0 <= k < |pend| ==>
                 ch'.log[|ch.log| + k] == if T.IsResize(pend[k].raw) then T.Swallowed(pend[k]) else T.Wrote(pend[k])
  {
    if pend != [] {
      FlushWrites(ch, pend[..|pend| - 1], works);
    }
  }

  // ---------- a desktop or files channel ----------

  /** What happens to a channel that was made with an inputFn; no shell is attached. */
  datatype Step = Message(x: T.Item, works: bool) | HubCloses

  function After(steps: seq<Step>): T.Channel {
    if steps == [] then T.NewTerminal().(inputFn := true)
    else
      var ch := After(steps[..|steps| - 1]);
      match steps[|steps| - 1]
      case Message(x, works) => T.Deliver(ch, x, works)
      case HubCloses => T.CloseChannel(ch)
  }

  function Messages(steps: seq<Step>): seq<T.Item> {
    if steps == [] then []
    else
      var last := steps[|steps| - 1];
      Messages(steps[..|steps| - 1]) + (if last.Message? then [last.x] else [])
  }

  /** The messages that come before the first close. */
  function InTime(steps: seq<Step>): (n: nat)
    ensures n <= |Messages(steps)|
    ensures HubCloses !in steps ==> n == |Messages(steps)|
  {
    if steps == [] then 0
    else
      var pre := steps[..|steps| - 1];
      if HubCloses in pre then InTime(pre) else |Messages(steps)|
  }

  /** A desktop or files channel hands every message to its session, at once, in order
      and once each, up to its close; from then on it hands over none. It never queues
      anything, and its session is shut down once, by the first close. */
  lemma {:induction false} DirectInOrder(steps: seq<Step>)
    ensures var ch, items := After(steps), Messages(steps);
            && |ch.log| == |items|
            && (forall k :: 0 <= k < InTime(steps) ==> ch.log[k] == T.Handled(items[k]))
            && (forall k :: InTime(steps) <= k < |items| ==> ch.log[k] == T.Refused(items[k]))
            && ch.pending == [] && !ch.attached && ch.stdinCloses == 0
            && (ch.closed <==> HubCloses in steps)
            && ch.closeRuns == if HubCloses in steps then 1 else 0
  {
    if steps != [] {
      var pre, last := steps[..|steps| - 1], steps[|steps| - 1];
      DirectInOrder(pre);
      assert HubCloses in steps <==> HubCloses in pre || last == HubCloses;
    }
  }
}
