/** Terminal input on the agent: input is buffered until the shell is attached and
    has spoken, then handed over by whichever of two goroutines flips the ready
    flag, while the socket reader keeps delivering. Each region under the
    channel's lock is one step. */
module TerminalInput {
  import opened Bytes

  /** A payload with its arrival number. */
  datatype Item = Item(no: nat, raw: seq<byte>)

  /** What became of an item that went through deliver. */
  datatype Event =
    | Wrote(item: Item)
    | Swallowed(item: Item)  // a resize frame
    | Handled(item: Item)    // passed to inputFn (desktop and files channels)
    | Failed(item: Item)     // the shell refused the write
    | Refused(item: Item)    // the channel was already closed

  /** relayChannel; attached stands for stdin and resizeFn being set. closeFn is set with
      them, or with inputFn. */
  datatype Channel = Channel(
    attached: bool,
    inputFn: bool,
    pending: seq<Item>,
    ready: bool,
    closed: bool,
    closeRuns: nat,    // calls of closeFn
    stdinCloses: nat,
    log: seq<Event>)

  function NewTerminal(): Channel {
    Channel(false, false, [], false, false, 0, 0, [])
  }

  /** [0x00][0x01][cols:2][rows:2] */
  predicate IsResize(raw: seq<byte>) {
    |raw| >= 6 && raw[0] == 0 && raw[1] == 1
  }

  function Attach(ch: Channel): Channel {
    if ch.closed then ch else ch.(attached := true)
  }

  function MarkReady(ch: Channel): (Channel, seq<Item>) {
    if ch.ready then (ch, []) else (ch.(ready := true, pending := []), ch.pending)
  }

  /** The deferred flush takes the queue without looking at the flag. */
  function TimerTake(ch: Channel): (Channel, seq<Item>) {
    (ch.(ready := true, pending := []), ch.pending)
  }

  /** works tells whether the shell accepts the write. */
  function Deliver(ch: Channel, x: Item, works: bool): Channel {
    if ch.closed then ch.(log := ch.log + [Refused(x)])
    else if !ch.attached && !ch.inputFn then ch.(pending := ch.pending + [x])
    else if ch.attached && !ch.ready then ch.(pending := ch.pending + [x])
    else if ch.inputFn then ch.(log := ch.log + [Handled(x)])
    else if IsResize(x.raw) then ch.(log := ch.log + [Swallowed(x)])
    else if works then ch.(log := ch.log + [Wrote(x)])
    else ch.(log := ch.log + [Failed(x)], closed := true, closeRuns := ch.closeRuns + 1)
  }

  function CloseChannel(ch: Channel): Channel {
    if ch.closed then ch
    else
      ch.(closed := true,
          closeRuns := if ch.attached || ch.inputFn then ch.closeRuns + 1 else ch.closeRuns,
          stdinCloses := if ch.attached then ch.stdinCloses + 1 else ch.stdinCloses)
  }

  function FlushAll(ch: Channel, pend: seq<Item>, works: nat -> bool): Channel {
    if pend == [] then ch
    else Deliver(FlushAll(ch, pend[..|pend| - 1], works), pend[|pend| - 1], works(|pend| - 1))
  }

  // ---------- the goroutines ----------

  /** pump and timer hold the part of a batch they have not delivered yet. cut is
      the number of arrivals before the channel was first ready or closed;
      batches and firstOut count non-empty batches and closes of ch.firstOut. */
  datatype Sys = Sys(
    ch: Channel,
    started: bool,       // attach has been called, so the pump runs
    timerWaits: bool,
    pump: seq<Item>,
    timer: seq<Item>,
    arrivals: nat,
    cut: nat,
    batches: nat,
    firstOut: nat)

  datatype Step =
    | Arrive(raw: seq<byte>, works: bool)
    | AttachShell
    | ShellSpeaks
    | TimerWakes
    | PumpDelivers(works: bool)
    | TimerDelivers(works: bool)
    | HubCloses

  function Init(): Sys {
    Sys(NewTerminal(), false, false, [], [], 0, 0, 0, 0)
  }

  predicate Enabled(s: Sys, st: Step) {
    match st
    case Arrive(_, _) => true
    case AttachShell => !s.started
    case ShellSpeaks => s.started && s.pump == []
    case TimerWakes => s.timerWaits
    case PumpDelivers(_) => s.pump != []
    case TimerDelivers(_) => s.timer != []
    case HubCloses => true
  }

  /** cut follows the arrivals until the channel is ready or closed. */
  function Cut(s: Sys, arrivals: nat): nat {
    if s.ch.ready || s.ch.closed then s.cut else arrivals
  }

  function One(batch: seq<Item>): nat { if batch == [] then 0 else 1 }

  function Next(s: Sys, st: Step): Sys
    requires Enabled(s, st)
  {
    match st
    case Arrive(raw, works) =>
      s.(ch := Deliver(s.ch, Item(s.arrivals, raw), works), arrivals := s.arrivals + 1, cut := Cut(s, s.arrivals + 1))
    case AttachShell => s.(ch := Attach(s.ch), started := true, timerWaits := !s.ch.closed)
    case ShellSpeaks =>
      var (ch', batch) := MarkReady(s.ch);
      s.(ch := ch', pump := batch, batches := s.batches + One(batch), firstOut := s.firstOut + One(batch))
    case TimerWakes =>
      var (ch', batch) := TimerTake(s.ch);
      s.(ch := ch', timerWaits := false, timer := batch, batches := s.batches + One(batch))
    case PumpDelivers(works) => s.(ch := Deliver(s.ch, s.pump[0], works), pump := s.pump[1..])
    case TimerDelivers(works) => s.(ch := Deliver(s.ch, s.timer[0], works), timer := s.timer[1..])
    case HubCloses => s.(ch := CloseChannel(s.ch))
  }

  predicate IsRun(s: Sys, steps: seq<Step>)
    decreases |steps|
  {
    steps == [] || (Enabled(s, steps[0]) && IsRun(Next(s, steps[0]), steps[1..]))
  }

  function Exec(s: Sys, steps: seq<Step>): Sys
    requires IsRun(s, steps)
    decreases |steps|
  {
    if steps == [] then s else Exec(Next(s, steps[0]), steps[1..])
  }

  // ---------- where every item is ----------

  function Range(lo: nat, hi: nat): seq<nat> {
    if hi <= lo then [] else Range(lo, hi - 1) + [hi - 1]
  }

  function Numbers(items: seq<Item>): seq<nat> {
    seq(|items|, k requires 0 <= k < |items| => items[k].no)
  }

  /** Arrival numbers in the log below and from the cut, in log order. */
  function Low(log: seq<Event>, cut: nat): seq<nat> {
    if log == [] then []
    else
      var no := log[|log| - 1].item.no;
      Low(log[..|log| - 1], cut) + (if no < cut then [no] else [])
  }

  function High(log: seq<Event>, cut: nat): seq<nat> {
    if log == [] then []
    else
      var no := log[|log| - 1].item.no;
      High(log[..|log| - 1], cut) + (if no < cut then [] else [no])
  }

  function Held(s: Sys): seq<Item> { s.pump + s.timer }

  /** The numbers of the items the shell accepted, in the order it got them. */
  function Written(log: seq<Event>): seq<nat> {
    if log == [] then []
    else Written(log[..|log| - 1]) + (if log[|log| - 1].Wrote? then [log[|log| - 1].item.no] else [])
  }

  ghost predicate Placed(s: Sys) {
    && Low(s.ch.log, s.cut) + Numbers(Held(s)) + Numbers(s.ch.pending) == Range(0, s.cut)
    && High(s.ch.log, s.cut) == Range(s.cut, s.arrivals)
    && s.cut <= s.arrivals
    && (!s.ch.ready && !s.ch.closed ==> s.cut == s.arrivals)
  }

  /** Who holds what, and what was closed. */
  predicate Fields(s: Sys) {
    var ch := s.ch;
    && !ch.inputFn
    && (s.pump == [] || s.timer == [])
    && (ch.ready ==> ch.pending == [])
    && (!ch.ready ==> s.pump == [] && s.timer == [] && s.batches == 0 && s.firstOut == 0)
    && s.firstOut <= s.batches <= 1
    && (ch.attached ==> s.started)
    && (ch.ready ==> ch.attached || ch.closed)
    && (s.started ==> ch.attached || ch.closed)
    && (s.timerWaits ==> s.started && s.timer == [])
    && ch.closeRuns == (if ch.closed && ch.attached then 1 else 0)
    && ch.stdinCloses <= ch.closeRuns
  }

  /** What may be logged about an item on this channel. */
  predicate Loggable(ch: Channel, e: Event) {
    && !e.Handled?
    && (!ch.ready ==> e.Refused?)
    && (!ch.closed ==> e.Wrote? || e.Swallowed?)
    && (e.Swallowed? ==> IsResize(e.item.raw))
    && (e.Wrote? ==> !IsResize(e.item.raw))
  }

  predicate LogOk(ch: Channel) {
    forall k :: 0 <= k < |ch.log| ==> Loggable(ch, ch.log[k])
  }

  ghost predicate Guarded(s: Sys) {
    Fields(s) && LogOk(s.ch)
  }

  ghost predicate Inv(s: Sys) {
    Placed(s) && Guarded(s)
  }

  lemma LogAppend(log: seq<Event>, e: Event, cut: nat)
    ensures Low(log + [e], cut) == Low(log, cut) + (if e.item.no < cut then [e.item.no] else [])
    ensures High(log + [e], cut) == High(log, cut) + (if e.item.no < cut then [] else [e.item.no])
    ensures Written(log + [e]) == Written(log) + (if e.Wrote? then [e.item.no] else [])
  {
  }

  lemma RangeAt(lo: nat, hi: nat, k: nat)
    requires lo + k < hi
    ensures |Range(lo, hi)| == hi - lo && Range(lo, hi)[k] == lo + k
  {
    if lo + k < hi - 1 {
      RangeAt(lo, hi - 1, k);
    } else if lo < hi - 1 {
      RangeAt(lo, hi - 1, 0);
    }
  }

  /** Widening the cut over an empty upper part. */
  lemma LowOnly(log: seq<Event>, cut: nat)
    requires High(log, cut) == []
    ensures High(log, cut + 1) == [] && Low(log, cut + 1) == Low(log, cut)
  {
    if log != [] {
      LowOnly(log[..|log| - 1], cut);
    }
  }

  lemma FieldsStep(s: Sys, st: Step)
    requires Fields(s) && Enabled(s, st)
    ensures Fields(Next(s, st))
  {
  }

  lemma DeliverLogOk(ch: Channel, x: Item, works: bool)
    requires LogOk(ch) && !ch.inputFn && (ch.ready ==> ch.attached || ch.closed)
    ensures LogOk(Deliver(ch, x, works))
  {
    var t := Deliver(ch, x, works);
    forall k | 0 <= k < |t.log|
      ensures Loggable(t, t.log[k])
    {
      if k < |ch.log| {
        assert t.log[k] == ch.log[k] && Loggable(ch, ch.log[k]);
      }
    }
  }

  /** Becoming ready or closed allows more, not less. */
  lemma LogOkLater(ch: Channel, t: Channel)
    requires LogOk(ch) && t.log == ch.log && (ch.ready ==> t.ready) && (ch.closed ==> t.closed)
    ensures LogOk(t)
  {
    forall k | 0 <= k < |t.log|
      ensures Loggable(t, t.log[k])
    {
      assert Loggable(ch, ch.log[k]);
    }
  }

  lemma GuardedStep(s: Sys, st: Step)
    requires Guarded(s) && Enabled(s, st)
    ensures Guarded(Next(s, st))
  {
    FieldsStep(s, st);
    match st
    case Arrive(raw, works) => DeliverLogOk(s.ch, Item(s.arrivals, raw), works);
    case PumpDelivers(works) => DeliverLogOk(s.ch, s.pump[0], works);
    case TimerDelivers(works) => DeliverLogOk(s.ch, s.timer[0], works);
    case _ => LogOkLater(s.ch, Next(s, st).ch);
  }

  /** What deliver logged for an item it did not buffer. */
  function Logged(ch: Channel, x: Item, works: bool): Event {
    if ch.closed then Refused(x)
    else if ch.inputFn then Handled(x)
    else if IsResize(x.raw) then Swallowed(x)
    else if works then Wrote(x)
    else Failed(x)
  }

  lemma DeliverLogs(ch: Channel, x: Item, works: bool)
    requires ch.closed || (ch.ready && ch.attached)
    ensures var ch' := Deliver(ch, x, works);
            && ch'.log == ch.log + [Logged(ch, x, works)]
            && ch' == ch.(log := ch'.log, closed := ch'.closed, closeRuns := ch'.closeRuns)
            && (ch'.closed <==> ch.closed || Logged(ch, x, works).Failed?)
  {
  }

  lemma ArriveDirect(s: Sys, raw: seq<byte>, works: bool)
    requires Placed(s) && (s.ch.closed || (s.ch.ready && s.ch.attached))
    ensures Placed(Next(s, Arrive(raw, works)))
  {
    var x := Item(s.arrivals, raw);
    DeliverLogs(s.ch, x, works);
    LogAppend(s.ch.log, Logged(s.ch, x, works), s.cut);
    DirectPlaced(s, Next(s, Arrive(raw, works)), Logged(s.ch, x, works));
  }

  /** An item logged at once comes after all that arrived before. */
  lemma DirectPlaced(s: Sys, t: Sys, e: Event)
    requires Placed(s) && (s.ch.ready || s.ch.closed) && (t.ch.ready || t.ch.closed)
    requires e.item.no == s.arrivals && t.cut == s.cut && t.arrivals == s.arrivals + 1
    requires Held(t) == Held(s) && t.ch.pending == s.ch.pending
    requires Low(t.ch.log, s.cut) == Low(s.ch.log, s.cut)
    requires High(t.ch.log, s.cut) == High(s.ch.log, s.cut) + [s.arrivals]
    ensures Placed(t)
  {
  }

  lemma ArriveBuffered(s: Sys, raw: seq<byte>, works: bool)
    requires Placed(s) && !s.ch.ready && !s.ch.closed && !s.ch.inputFn
    ensures Placed(Next(s, Arrive(raw, works)))
  {
    var t := Next(s, Arrive(raw, works));
    assert Range(s.cut, s.arrivals) == [];
    LowOnly(s.ch.log, s.cut);
    assert Numbers(t.ch.pending) == Numbers(s.ch.pending) + [s.arrivals];
    assert Held(t) == Held(s);
    assert Range(0, t.cut) == Range(0, s.cut) + [s.cut];
  }

  lemma ArrivePlaced(s: Sys, raw: seq<byte>, works: bool)
    requires Inv(s)
    ensures Placed(Next(s, Arrive(raw, works)))
  {
    if s.ch.ready || s.ch.closed {
      ArriveDirect(s, raw, works);
    } else {
      ArriveBuffered(s, raw, works);
    }
  }

  /** The head of a held batch goes through deliver after the flag was set. */
  lemma FlushPlaced(s: Sys, t: Sys, e: Event)
    requires Placed(s) && Held(s) != [] && e.item == Held(s)[0]
    requires s.ch.ready || s.ch.closed
    requires Held(t) == Held(s)[1..] && t.ch.log == s.ch.log + [e] && t.ch.pending == s.ch.pending
    requires t.cut == s.cut && t.arrivals == s.arrivals && (t.ch.ready || t.ch.closed)
    ensures Placed(t)
  {
    var no := e.item.no;
    var low := Low(s.ch.log, s.cut);
    LogAppend(s.ch.log, e, s.cut);
    assert Numbers(Held(s)) == [no] + Numbers(Held(t));
    var k := |low|;
    assert (low + Numbers(Held(s)) + Numbers(s.ch.pending))[k] == no;
    assert Range(0, s.cut)[k] == no;
    assert |Range(0, s.cut)| > k;
    RangeLen(0, s.cut);
    RangeAt(0, s.cut, k);
    assert no < s.cut;
  }

  lemma RangeLen(lo: nat, hi: nat)
    requires lo <= hi
    ensures |Range(lo, hi)| == hi - lo
  {
  }

  lemma PumpPlaced(s: Sys, works: bool)
    requires Placed(s) && Fields(s) && s.pump != []
    ensures Placed(Next(s, PumpDelivers(works)))
  {
    var t := Next(s, PumpDelivers(works));
    DeliverLogs(s.ch, s.pump[0], works);
    assert Held(s) == s.pump && Held(t) == t.pump;
    FlushPlaced(s, t, Logged(s.ch, s.pump[0], works));
  }

  lemma TimerPlaced(s: Sys, works: bool)
    requires Placed(s) && Fields(s) && s.timer != []
    ensures Placed(Next(s, TimerDelivers(works)))
  {
    var t := Next(s, TimerDelivers(works));
    DeliverLogs(s.ch, s.timer[0], works);
    assert Held(s) == s.timer && Held(t) == t.timer;
    FlushPlaced(s, t, Logged(s.ch, s.timer[0], works));
  }

  lemma SamePlaces(s: Sys, t: Sys)
    requires Placed(s) && t.ch.log == s.ch.log && t.ch.pending == s.ch.pending && Held(t) == Held(s)
    requires t.cut == s.cut && t.arrivals == s.arrivals
    requires s.ch.ready || s.ch.closed ==> t.ch.ready || t.ch.closed
    ensures Placed(t)
  {
  }

  lemma StepInv(s: Sys, st: Step)
    requires Inv(s) && Enabled(s, st)
    ensures Inv(Next(s, st))
  {
    GuardedStep(s, st);
    match st
    case Arrive(raw, works) => ArrivePlaced(s, raw, works);
    case PumpDelivers(works) => PumpPlaced(s, works);
    case TimerDelivers(works) => TimerPlaced(s, works);
    case ShellSpeaks => SpeakPlaced(s);
    case TimerWakes => WakePlaced(s);
    case AttachShell => SamePlaces(s, Next(s, st));
    case HubCloses => SamePlaces(s, Next(s, st));
  }

  lemma SpeakPlaced(s: Sys)
    requires Placed(s) && Fields(s) && Enabled(s, ShellSpeaks)
    ensures Placed(Next(s, ShellSpeaks))
  {
    var t := Next(s, ShellSpeaks);
    if s.ch.ready {
      SamePlaces(s, t);
    } else {
      assert Held(t) == s.ch.pending && Held(s) == [];
      TakePlaced(s, t);
    }
  }

  lemma WakePlaced(s: Sys)
    requires Placed(s) && Fields(s) && Enabled(s, TimerWakes)
    ensures Placed(Next(s, TimerWakes))
  {
    var t := Next(s, TimerWakes);
    assert s.timer == [] && (s.pump == [] || s.ch.pending == []);
    assert Held(t) == Held(s) + s.ch.pending;
    TakePlaced(s, t);
  }

  lemma TakePlaced(s: Sys, t: Sys)
    requires Placed(s) && Held(t) == Held(s) + s.ch.pending && t.ch.pending == []
    requires t.ch.log == s.ch.log && t.cut == s.cut && t.arrivals == s.arrivals && t.ch.ready
    ensures Placed(t)
  {
    assert Numbers(Held(t)) == Numbers(Held(s)) + Numbers(s.ch.pending);
    var low := Low(s.ch.log, s.cut);
    assert low + Numbers(Held(t)) + [] == low + Numbers(Held(s)) + Numbers(s.ch.pending);
  }

  lemma {:induction false} RunInv(s: Sys, steps: seq<Step>)
    requires Inv(s) && IsRun(s, steps)
    ensures Inv(Exec(s, steps))
    decreases |steps|
  {
    if steps != [] {
      StepInv(s, steps[0]);
      RunInv(Next(s, steps[0]), steps[1..]);
    }
  }

  // ---------- what holds over every run ----------

  /** Every item that arrived is in exactly one place (written, swallowed, refused
      or lost on a failed write; pending; or held by the one flusher), and both the
      buffered prefix and the direct suffix go through deliver in arrival order. */
  lemma NothingLostOrDoubled(steps: seq<Step>)
    requires IsRun(Init(), steps)
    ensures var s := Exec(Init(), steps);
            && Low(s.ch.log, s.cut) + Numbers(Held(s)) + Numbers(s.ch.pending) == Range(0, s.cut)
            && High(s.ch.log, s.cut) == Range(s.cut, s.arrivals)
            && s.cut <= s.arrivals
  {
    RunInv(Init(), steps);
  }

  /** At most one goroutine is ever handed a non-empty batch; firstOut and closeFn
      run at most once; and the shell is closed exactly when an attached channel is. */
  lemma OneFlusherOneClose(steps: seq<Step>)
    requires IsRun(Init(), steps)
    ensures var s := Exec(Init(), steps);
            && s.batches <= 1 && s.firstOut <= 1
            && (s.pump == [] || s.timer == [])
            && s.ch.closeRuns == (if s.ch.closed && s.ch.attached then 1 else 0)
            && s.ch.stdinCloses <= 1
  {
    RunInv(Init(), steps);
  }

  /** Some write was refused by the shell. */
  predicate WriteFailed(log: seq<Event>) {
    exists k :: 0 <= k < |log| && log[k].Failed?
  }

  /** A shell whose channel is closed had its input closed, unless it died of a write. */
  predicate ShellEnd(ch: Channel) {
    && (!ch.closed || !ch.attached ==> ch.stdinCloses == 0 && !WriteFailed(ch.log))
    && (ch.closed && ch.attached ==> ch.stdinCloses == if WriteFailed(ch.log) then 0 else 1)
  }

  lemma ShellEndDeliver(ch: Channel, x: Item, works: bool)
    requires ShellEnd(ch) && !ch.inputFn
    ensures ShellEnd(Deliver(ch, x, works))
  {
    var t := Deliver(ch, x, works);
    assert |t.log| > |ch.log| ==> t.log[..|ch.log|] == ch.log;
    assert WriteFailed(ch.log) ==> WriteFailed(t.log);
    if |t.log| > |ch.log| && t.log[|ch.log|].Failed? {
      assert WriteFailed(t.log);
    }
  }

  lemma ShellEndStep(s: Sys, st: Step)
    requires Fields(s) && ShellEnd(s.ch) && Enabled(s, st)
    ensures ShellEnd(Next(s, st).ch)
  {
    match st
    case Arrive(raw, works) => ShellEndDeliver(s.ch, Item(s.arrivals, raw), works);
    case PumpDelivers(works) => ShellEndDeliver(s.ch, s.pump[0], works);
    case TimerDelivers(works) => ShellEndDeliver(s.ch, s.timer[0], works);
    case _ =>
  }

  lemma {:induction false} ShellEndRun(s: Sys, steps: seq<Step>)
    requires Fields(s) && ShellEnd(s.ch) && IsRun(s, steps)
    ensures ShellEnd(Exec(s, steps).ch)
    decreases |steps|
  {
    if steps != [] {
      FieldsStep(s, steps[0]);
      ShellEndStep(s, steps[0]);
      ShellEndRun(Next(s, steps[0]), steps[1..]);
    }
  }

  /** However the end comes, by a failed write, by the hub or by both, the shell's closeFn
      runs once, and its input is closed once unless it was the write that failed. */
  lemma ShellEndsOnce(steps: seq<Step>)
    requires IsRun(Init(), steps)
    requires var ch := Exec(Init(), steps).ch; ch.closed && ch.attached
    ensures var ch := Exec(Init(), steps).ch;
            ch.closeRuns == 1 && ch.stdinCloses == if WriteFailed(ch.log) then 0 else 1
  {
    RunInv(Init(), steps);
    ShellEndRun(Init(), steps);
  }

  lemma {:induction false} AttachedStays(s: Sys, steps: seq<Step>)
    requires s.started && (s.ch.attached || s.ch.closed) && IsRun(s, steps)
    ensures Exec(s, steps).ch.attached == s.ch.attached
    decreases |steps|
  {
    if steps != [] {
      AttachedStays(Next(s, steps[0]), steps[1..]);
    }
  }

  /** A shell is closed with its channel if and only if the channel was still open when the
      shell had started: one that took longer is never attached, and its closeFn and its
      input are left alone for good. */
  lemma LateShellIsNeverClosed(before: seq<Step>, after: seq<Step>)
    requires IsRun(Init(), before) && Enabled(Exec(Init(), before), AttachShell)
    requires IsRun(Next(Exec(Init(), before), AttachShell), after)
    requires Exec(Next(Exec(Init(), before), AttachShell), after).ch.closed
    ensures var s := Exec(Init(), before);
            var ch := Exec(Next(s, AttachShell), after).ch;
            && (s.ch.closed ==> ch.closeRuns == 0 && ch.stdinCloses == 0)
            && (!s.ch.closed ==> ch.closeRuns == 1 && ch.stdinCloses == if WriteFailed(ch.log) then 0 else 1)
  {
    var s := Exec(Init(), before);
    RunInv(Init(), before);
    ShellEndRun(Init(), before);
    StepInv(s, AttachShell);
    ShellEndStep(s, AttachShell);
    AttachedStays(Next(s, AttachShell), after);
    RunInv(Next(s, AttachShell), after);
    ShellEndRun(Next(s, AttachShell), after);
  }

  lemma ClosedStep(s: Sys, st: Step)
    requires s.ch.closed && Enabled(s, st)
    ensures Next(s, st).ch.closed && Written(Next(s, st).ch.log) == Written(s.ch.log)
  {
    if |Next(s, st).ch.log| > |s.ch.log| {
      LogAppend(s.ch.log, Next(s, st).ch.log[|s.ch.log|], 0);
    }
  }

  /** Once closed, the shell never gets another byte, whatever still runs. */
  lemma {:induction false} NothingWrittenAfterClose(s: Sys, steps: seq<Step>)
    requires s.ch.closed && IsRun(s, steps)
    ensures Exec(s, steps).ch.closed && Written(Exec(s, steps).ch.log) == Written(s.ch.log)
    decreases |steps|
  {
    if steps != [] {
      ClosedStep(s, steps[0]);
      NothingWrittenAfterClose(Next(s, steps[0]), steps[1..]);
    }
  }

  /** A finished, still open channel: exactly the resize frames were swallowed, all
      else was written, and the order is a merge of the two ordered sequences. */
  lemma FinishedIsMerge(steps: seq<Step>)
    requires IsRun(Init(), steps)
    requires var s := Exec(Init(), steps); s.ch.ready && !s.ch.closed && Held(s) == []
    ensures var s := Exec(Init(), steps);
            && Low(s.ch.log, s.cut) == Range(0, s.cut)
            && High(s.ch.log, s.cut) == Range(s.cut, s.arrivals)
            && forall k :: 0 <= k < |s.ch.log| ==>
                 var raw := s.ch.log[k].item.raw;
                 if |raw| >= 6 && raw[0] == 0 && raw[1] == 1 then s.ch.log[k].Swallowed? else s.ch.log[k].Wrote?
  {
    RunInv(Init(), steps);
  }

  // ---------- buffered input gets through ----------

  /** A shell that has not spoken has its timer. */
  predicate Armed(s: Sys) {
    s.ch.attached && !s.ch.ready ==> s.timerWaits
  }

  lemma {:induction false} ArmedRun(s: Sys, steps: seq<Step>)
    requires Fields(s) && Armed(s) && IsRun(s, steps)
    ensures Armed(Exec(s, steps))
    decreases |steps|
  {
    if steps != [] {
      FieldsStep(s, steps[0]);
      assert Armed(Next(s, steps[0]));
      ArmedRun(Next(s, steps[0]), steps[1..]);
    }
  }

  predicate Waits(s: Sys) {
    s.ch.pending != [] || s.pump != [] || s.timer != []
  }

  /** The next step of whoever holds input, or of the timer. */
  function Push(s: Sys): Step {
    if s.pump != [] then PumpDelivers(true) else if s.timer != [] then TimerDelivers(true) else TimerWakes
  }

  /** Queued input counts for two steps, and held input for one. */
  function Distance(s: Sys): nat {
    2 * |s.ch.pending| + |s.pump| + |s.timer|
  }

  lemma PushBringsNearer(s: Sys)
    requires Inv(s) && Armed(s) && s.ch.attached && !s.ch.closed && Waits(s)
    ensures Enabled(s, Push(s))
    ensures var t := Next(s, Push(s));
            && Distance(t) < Distance(s) && t.ch.attached && !t.ch.closed
            && Inv(t) && Armed(t)
  {
    StepInv(s, Push(s));
    if s.pump != [] {
      DeliverLogs(s.ch, s.pump[0], true);
    } else if s.timer != [] {
      DeliverLogs(s.ch, s.timer[0], true);
    }
  }

  lemma {:induction false} Drains(s: Sys) returns (steps: seq<Step>)
    requires Inv(s) && Armed(s) && s.ch.attached && !s.ch.closed
    ensures IsRun(s, steps) && !Waits(Exec(s, steps)) && !Exec(s, steps).ch.closed
    ensures forall k :: 0 <= k < |steps| ==> steps[k].PumpDelivers? || steps[k].TimerDelivers? || steps[k].TimerWakes?
    decreases Distance(s)
  {
    if Waits(s) {
      PushBringsNearer(s);
      var rest := Drains(Next(s, Push(s)));
      RunCons(s, Push(s), rest);
      steps := [Push(s)] + rest;
    } else {
      steps := [];
    }
  }

  /** Input never gets stuck: in any reachable state of an attached, open channel the
      flushers and the timer alone can bring everything that waits to the shell. */
  lemma BufferedInputGetsThrough(before: seq<Step>) returns (steps: seq<Step>)
    requires IsRun(Init(), before)
    requires var s := Exec(Init(), before); s.ch.attached && !s.ch.closed
    ensures var s := Exec(Init(), before);
            && IsRun(s, steps) && !Waits(Exec(s, steps)) && !Exec(s, steps).ch.closed
            && forall k :: 0 <= k < |steps| ==>
                 steps[k].PumpDelivers? || steps[k].TimerDelivers? || steps[k].TimerWakes?
  {
    RunInv(Init(), before);
    ArmedRun(Init(), before);
    steps := Drains(Exec(Init(), before));
  }

  // ---------- what the items carry ----------

  /** What the reader was given, in order. */
  function Inputs(steps: seq<Step>): seq<seq<byte>> {
    if steps == [] then [] else (if steps[0].Arrive? then [steps[0].raw] else []) + Inputs(steps[1..])
  }

  predicate Carries(x: Item, inputs: seq<seq<byte>>) {
    x.no < |inputs| && x.raw == inputs[x.no]
  }

  predicate Carried(items: seq<Item>, inputs: seq<seq<byte>>) {
    forall k :: 0 <= k < |items| ==> Carries(items[k], inputs)
  }

  predicate LogCarries(log: seq<Event>, inputs: seq<seq<byte>>) {
    forall k :: 0 <= k < |log| ==> Carries(log[k].item, inputs)
  }

  predicate AllCarry(s: Sys, inputs: seq<seq<byte>>) {
    && |inputs| == s.arrivals
    && LogCarries(s.ch.log, inputs) && Carried(s.ch.pending, inputs)
    && Carried(s.pump, inputs) && Carried(s.timer, inputs)
  }

  lemma CarryDeliver(ch: Channel, x: Item, works: bool, inputs: seq<seq<byte>>)
    requires LogCarries(ch.log, inputs) && Carried(ch.pending, inputs) && Carries(x, inputs)
    ensures var t := Deliver(ch, x, works); LogCarries(t.log, inputs) && Carried(t.pending, inputs)
  {
  }

  lemma CarryMore(s: Sys, inputs: seq<seq<byte>>, raw: seq<byte>)
    requires AllCarry(s, inputs)
    ensures AllCarry(s.(arrivals := s.arrivals + 1), inputs + [raw])
  {
  }

  lemma CarryStep(s: Sys, st: Step, inputs: seq<seq<byte>>)
    requires AllCarry(s, inputs) && Enabled(s, st)
    ensures AllCarry(Next(s, st), if st.Arrive? then inputs + [st.raw] else inputs)
  {
    match st
    case Arrive(raw, works) =>
      CarryMore(s, inputs, raw);
      CarryDeliver(s.ch, Item(s.arrivals, raw), works, inputs + [raw]);
    case PumpDelivers(works) => CarryDeliver(s.ch, s.pump[0], works, inputs);
    case TimerDelivers(works) => CarryDeliver(s.ch, s.timer[0], works, inputs);
    case _ =>
  }

  lemma {:induction false} CarryRun(s: Sys, steps: seq<Step>, inputs: seq<seq<byte>>)
    requires AllCarry(s, inputs) && IsRun(s, steps)
    ensures AllCarry(Exec(s, steps), inputs + Inputs(steps))
    decreases |steps|
  {
    if steps == [] {
      assert inputs + Inputs(steps) == inputs;
    } else {
      var one := if steps[0].Arrive? then [steps[0].raw] else [];
      CarryStep(s, steps[0], inputs);
      assert inputs + [] == inputs;
      CarryRun(Next(s, steps[0]), steps[1..], inputs + one);
      assert (inputs + one) + Inputs(steps[1..]) == inputs + (one + Inputs(steps[1..]));
    }
  }

  /** What the shell was given. */
  function Typed(log: seq<Event>): seq<byte> {
    if log == [] then []
    else Typed(log[..|log| - 1]) + (if log[|log| - 1].Wrote? then log[|log| - 1].item.raw else [])
  }

  /** All the input but the resize frames. */
  function Text(inputs: seq<seq<byte>>): seq<byte> {
    if inputs == [] then []
    else
      var raw := inputs[|inputs| - 1];
      Text(inputs[..|inputs| - 1]) + (if |raw| >= 6 && raw[0] == 0 && raw[1] == 1 then [] else raw)
  }

  // ---------- when the order of arrival is kept ----------

  ghost predicate HoldsData(s: Sys) {
    exists k :: 0 <= k < |Held(s)| && !IsResize(Held(s)[k].raw)
  }

  /** The reader writes to the shell while a flusher still holds earlier input. */
  ghost predicate Overtakes(s: Sys, st: Step) {
    st.Arrive? && st.works && !IsResize(st.raw) && s.ch.ready && !s.ch.closed && HoldsData(s)
  }

  ghost predicate SomeOvertakes(s: Sys, steps: seq<Step>)
    requires IsRun(s, steps)
    decreases |steps|
  {
    steps != [] && (Overtakes(s, steps[0]) || SomeOvertakes(Next(s, steps[0]), steps[1..]))
  }

  predicate Increasing(nos: seq<nat>) {
    forall i, j :: 0 <= i < j < |nos| ==> nos[i] < nos[j]
  }

  /** So far in order, and nothing from behind the cut is ahead of held input. */
  ghost predicate InOrder(s: Sys) {
    Increasing(Written(s.ch.log)) && (HoldsData(s) ==> forall w :: w in Written(s.ch.log) ==> w < s.cut)
  }

  /** Already out of order, or bound to be once the held input is written. */
  ghost predicate OutOfOrder(s: Sys) {
    !Increasing(Written(s.ch.log)) || (HoldsData(s) && exists w :: w in Written(s.ch.log) && w >= s.cut)
  }

  lemma WrittenPlaced(log: seq<Event>, cut: nat, w: nat)
    requires w in Written(log)
    ensures if w < cut then w in Low(log, cut) else w in High(log, cut)
  {
    var n := |log| - 1;
    if w in Written(log[..n]) {
      WrittenPlaced(log[..n], cut, w);
    }
  }

  lemma RangeMember(lo: nat, hi: nat, x: nat)
    requires x in Range(lo, hi)
    ensures lo <= x < hi
  {
    if x != hi - 1 {
      RangeMember(lo, hi - 1, x);
    }
  }

  lemma AllRefused(log: seq<Event>)
    requires forall k :: 0 <= k < |log| ==> log[k].Refused?
    ensures Written(log) == []
  {
    if log != [] {
      AllRefused(log[..|log| - 1]);
    }
  }

  /** Everything written so far arrived before now. */
  lemma WrittenBelow(s: Sys)
    requires Placed(s)
    ensures forall w :: w in Written(s.ch.log) ==> w < s.arrivals
  {
    forall w | w in Written(s.ch.log) ensures w < s.arrivals {
      WrittenPlaced(s.ch.log, s.cut, w);
      if w >= s.cut {
        RangeMember(s.cut, s.arrivals, w);
      }
    }
  }

  /** Everything written from the buffered prefix precedes the held head. */
  lemma WrittenBeforeHead(s: Sys, w: nat)
    requires Placed(s) && Held(s) != [] && w in Written(s.ch.log) && w < s.cut
    ensures w < Held(s)[0].no < s.cut
  {
    WrittenPlaced(s.ch.log, s.cut, w);
    var low := Low(s.ch.log, s.cut);
    var all := low + Numbers(Held(s)) + Numbers(s.ch.pending);
    var k :| 0 <= k < |low| && low[k] == w;
    assert all[k] == w && all[|low|] == Held(s)[0].no;
    RangeLen(0, s.cut);
    RangeAt(0, s.cut, k);
    RangeAt(0, s.cut, |low|);
  }

  lemma HeadBelowCut(s: Sys)
    requires Placed(s) && Held(s) != []
    ensures Held(s)[0].no < s.cut
  {
    var low := Low(s.ch.log, s.cut);
    var all := low + Numbers(Held(s)) + Numbers(s.ch.pending);
    assert all[|low|] == Held(s)[0].no;
    RangeLen(0, s.cut);
    RangeAt(0, s.cut, |low|);
  }

  lemma IncreasingAppend(a: seq<nat>, x: nat)
    requires Increasing(a) && forall w :: w in a ==> w < x
    ensures Increasing(a + [x])
  {
    forall i, j | 0 <= i < j < |a| + 1 ensures (a + [x])[i] < (a + [x])[j] {
      if j == |a| {
        assert a[i] in a;
      }
    }
  }

  predicate Delivers(st: Step) {
    st.PumpDelivers? || st.TimerDelivers?
  }

  /** A flusher's step moves the head of the held input into the log. */
  lemma DeliversShape(s: Sys, st: Step)
    requires Guarded(s) && Enabled(s, st) && Delivers(st)
    ensures var t := Next(s, st);
            && Held(s) != [] && Held(t) == Held(s)[1..] && t.cut == s.cut && s.ch.ready
            && |t.ch.log| == |s.ch.log| + 1 && t.ch.log == s.ch.log + [t.ch.log[|s.ch.log|]]
            && t.ch.log[|s.ch.log|].item == Held(s)[0]
            && (t.ch.log[|s.ch.log|].Wrote? ==> !IsResize(Held(s)[0].raw))
            && (!t.ch.closed && !IsResize(Held(s)[0].raw) ==> t.ch.log[|s.ch.log|].Wrote?)
  {
  }

  lemma DeliverKeepsOrder(s: Sys, st: Step)
    requires Inv(s) && InOrder(s) && Enabled(s, st) && Delivers(st)
    ensures InOrder(Next(s, st))
  {
    var t := Next(s, st);
    DeliversShape(s, st);
    var e := t.ch.log[|s.ch.log|];
    LogAppend(s.ch.log, e, s.cut);
    assert HoldsData(t) ==> HoldsData(s) by {
      if HoldsData(t) {
        var k :| 0 <= k < |Held(t)| && !IsResize(Held(t)[k].raw);
        assert Held(s)[k + 1] == Held(t)[k];
      }
    }
    if e.Wrote? {
      assert !IsResize(Held(s)[0].raw) && HoldsData(s);
      HeadBelowCut(s);
      forall w | w in Written(s.ch.log) ensures w < Held(s)[0].no {
        WrittenBeforeHead(s, w);
      }
      IncreasingAppend(Written(s.ch.log), Held(s)[0].no);
    }
  }

  lemma ArriveKeepsOrder(s: Sys, raw: seq<byte>, works: bool)
    requires Inv(s) && InOrder(s) && !Overtakes(s, Arrive(raw, works))
    ensures InOrder(Next(s, Arrive(raw, works)))
  {
    var t := Next(s, Arrive(raw, works));
    assert Held(t) == Held(s);
    if s.ch.closed || (s.ch.ready && s.ch.attached) {
      DirectKeepsOrder(s, raw, works);
    }
  }

  lemma DirectKeepsOrder(s: Sys, raw: seq<byte>, works: bool)
    requires Placed(s) && InOrder(s) && !Overtakes(s, Arrive(raw, works))
    requires s.ch.closed || (s.ch.ready && s.ch.attached)
    ensures InOrder(Next(s, Arrive(raw, works)))
  {
    var x := Item(s.arrivals, raw);
    var t := Next(s, Arrive(raw, works));
    DeliverLogs(s.ch, x, works);
    LogAppend(s.ch.log, Logged(s.ch, x, works), s.cut);
    SameHeld(s, t);
    if Logged(s.ch, x, works).Wrote? {
      WrittenBelow(s);
      IncreasingAppend(Written(s.ch.log), s.arrivals);
    } else {
      assert Written(t.ch.log) == Written(s.ch.log);
    }
  }

  lemma SameHeld(s: Sys, t: Sys)
    requires t.pump == s.pump && t.timer == s.timer
    ensures Held(t) == Held(s) && (HoldsData(t) <==> HoldsData(s))
  {
  }

  lemma OrderStep(s: Sys, st: Step)
    requires Inv(s) && InOrder(s) && Enabled(s, st) && !Overtakes(s, st)
    ensures InOrder(Next(s, st))
  {
    match st
    case Arrive(raw, works) => ArriveKeepsOrder(s, raw, works);
    case PumpDelivers(_) => DeliverKeepsOrder(s, st);
    case TimerDelivers(_) => DeliverKeepsOrder(s, st);
    case ShellSpeaks => if !s.ch.ready { AllRefused(s.ch.log); }
    case TimerWakes => if !s.ch.ready { AllRefused(s.ch.log); }
    case AttachShell => assert Held(Next(s, st)) == Held(s);
    case HubCloses => assert Held(Next(s, st)) == Held(s);
  }

  lemma Overtaken(s: Sys, st: Step)
    requires Inv(s) && Overtakes(s, st)
    ensures OutOfOrder(Next(s, st))
  {
    var t := Next(s, st);
    assert t.ch.log == s.ch.log + [Wrote(Item(s.arrivals, st.raw))];
    LogAppend(s.ch.log, Wrote(Item(s.arrivals, st.raw)), s.cut);
    assert Held(t) == Held(s);
    assert s.arrivals in Written(t.ch.log);
  }

  lemma UnorderedPrefix(a: seq<nat>, b: seq<nat>)
    requires !Increasing(a)
    ensures !Increasing(a + b)
  {
    var i, j :| 0 <= i < j < |a| && a[i] >= a[j];
    assert (a + b)[i] >= (a + b)[j];
  }

  /** What was written stays written, and what is held stays held. */
  lemma DisorderKept(s: Sys, t: Sys)
    requires OutOfOrder(s) && Written(s.ch.log) <= Written(t.ch.log)
    requires HoldsData(s) && Increasing(Written(s.ch.log)) ==> t.cut == s.cut && Held(t) == Held(s)
    ensures OutOfOrder(t)
  {
    if !Increasing(Written(s.ch.log)) {
      UnorderedPrefix(Written(s.ch.log), Written(t.ch.log)[|Written(s.ch.log)|..]);
      assert Written(s.ch.log) + Written(t.ch.log)[|Written(s.ch.log)|..] == Written(t.ch.log);
    } else {
      assert forall w :: w in Written(s.ch.log) ==> w in Written(t.ch.log);
    }
  }

  lemma WrittenGrows(s: Sys, st: Step)
    requires Enabled(s, st)
    ensures Written(s.ch.log) <= Written(Next(s, st).ch.log)
  {
    var t := Next(s, st);
    if |t.ch.log| > |s.ch.log| {
      assert t.ch.log == s.ch.log + [t.ch.log[|s.ch.log|]];
      LogAppend(s.ch.log, t.ch.log[|s.ch.log|], s.cut);
    }
  }

  lemma DisorderStep(s: Sys, st: Step)
    requires Inv(s) && OutOfOrder(s) && Enabled(s, st) && !Next(s, st).ch.closed
    ensures OutOfOrder(Next(s, st))
  {
    WrittenGrows(s, st);
    if Increasing(Written(s.ch.log)) && Delivers(st) {
      DisorderDelivered(s, st);
    } else {
      if HoldsData(s) && Increasing(Written(s.ch.log)) {
        assert s.ch.ready && Held(Next(s, st)) == Held(s);
      }
      DisorderKept(s, Next(s, st));
    }
  }

  lemma DisorderDelivered(s: Sys, st: Step)
    requires Inv(s) && Enabled(s, st) && Delivers(st) && !Next(s, st).ch.closed
    requires HoldsData(s) && exists w :: w in Written(s.ch.log) && w >= s.cut
    ensures OutOfOrder(Next(s, st))
  {
    var t := Next(s, st);
    DeliversShape(s, st);
    var e := t.ch.log[|s.ch.log|];
    LogAppend(s.ch.log, e, s.cut);
    var w :| w in Written(s.ch.log) && w >= s.cut;
    if e.Wrote? {
      HeadBelowCut(s);
      var i :| 0 <= i < |Written(s.ch.log)| && Written(s.ch.log)[i] == w;
      var out := Written(t.ch.log);
      assert out[i] == w && out[|out| - 1] == e.item.no;
    } else {
      var k :| 0 <= k < |Held(s)| && !IsResize(Held(s)[k].raw);
      assert Held(t)[k - 1] == Held(s)[k];
      assert w in Written(t.ch.log);
    }
  }

  lemma {:induction false} OrderRun(s: Sys, steps: seq<Step>)
    requires Inv(s) && IsRun(s, steps) && !Exec(s, steps).ch.closed
    requires InOrder(s) || OutOfOrder(s)
    ensures if OutOfOrder(s) || SomeOvertakes(s, steps) then OutOfOrder(Exec(s, steps)) else InOrder(Exec(s, steps))
    decreases |steps|
  {
    if steps != [] {
      var t := Next(s, steps[0]);
      StepInv(s, steps[0]);
      if t.ch.closed {
        NothingWrittenAfterClose(t, steps[1..]);
      } else if OutOfOrder(s) {
        DisorderStep(s, steps[0]);
        OrderRun(t, steps[1..]);
      } else if Overtakes(s, steps[0]) {
        Overtaken(s, steps[0]);
        OrderRun(t, steps[1..]);
      } else {
        OrderStep(s, steps[0]);
        OrderRun(t, steps[1..]);
      }
    }
  }

  /** On a channel still open with nothing held back, the shell got its input in
      arrival order exactly when the reader never wrote ahead of a flusher. */
  lemma OrderKeptIffNoOvertaking(steps: seq<Step>)
    requires IsRun(Init(), steps)
    requires var s := Exec(Init(), steps); !s.ch.closed && Held(s) == []
    ensures Increasing(Written(Exec(Init(), steps).ch.log)) <==> !SomeOvertakes(Init(), steps)
  {
    OrderRun(Init(), steps);
  }

  // ---------- the bytes the shell gets ----------

  /** The inputs with these numbers, one after another. */
  function Chosen(inputs: seq<seq<byte>>, nos: seq<nat>): seq<byte>
    requires forall k :: 0 <= k < |nos| ==> nos[k] < |inputs|
  {
    if nos == [] then [] else Chosen(inputs, nos[..|nos| - 1]) + inputs[nos[|nos| - 1]]
  }

  lemma {:induction false} TypedIsChosen(log: seq<Event>, inputs: seq<seq<byte>>)
    requires LogCarries(log, inputs)
    ensures forall k :: 0 <= k < |Written(log)| ==> Written(log)[k] < |inputs|
    ensures Typed(log) == Chosen(inputs, Written(log))
  {
    if log != [] {
      var n := |log| - 1;
      TypedIsChosen(log[..n], inputs);
      var before := Written(log[..n]);
      if log[n].Wrote? {
        assert Carries(log[n].item, inputs);
        assert (before + [log[n].item.no])[..|before|] == before;
      } else {
        assert Written(log) == before;
      }
    }
  }

  /** In increasing order, exactly the numbers below n that are not of resize frames. */
  ghost predicate Texts(inputs: seq<seq<byte>>, n: nat, nos: seq<nat>) {
    && n <= |inputs| && Increasing(nos) && (forall k :: 0 <= k < |nos| ==> nos[k] < n)
    && forall w: nat :: w in nos <==> w < n && !IsResize(inputs[w])
  }

  lemma {:induction false} ChosenIsText(inputs: seq<seq<byte>>, n: nat, nos: seq<nat>)
    requires Texts(inputs, n, nos)
    ensures Chosen(inputs, nos) == Text(inputs[..n])
    decreases n
  {
    if nos != [] {
      assert nos[|nos| - 1] in nos;
    }
    if n > 0 {
      TextSnoc(inputs, n);
      if IsResize(inputs[n - 1]) {
        SameTexts(inputs, n, nos);
        ChosenIsText(inputs, n - 1, nos);
      } else {
        LastText(inputs, n, nos);
        ChosenIsText(inputs, n - 1, nos[..|nos| - 1]);
      }
    }
  }

  lemma TextSnoc(inputs: seq<seq<byte>>, n: nat)
    requires 0 < n <= |inputs|
    ensures Text(inputs[..n]) == Text(inputs[..n - 1]) + (if IsResize(inputs[n - 1]) then [] else inputs[n - 1])
  {
    assert inputs[..n][..n - 1] == inputs[..n - 1] && inputs[..n][n - 1] == inputs[n - 1];
  }

  lemma SameTexts(inputs: seq<seq<byte>>, n: nat, nos: seq<nat>)
    requires 0 < n && Texts(inputs, n, nos) && IsResize(inputs[n - 1])
    ensures Texts(inputs, n - 1, nos)
  {
    assert forall k :: 0 <= k < |nos| ==> nos[k] in nos;
  }

  lemma LastText(inputs: seq<seq<byte>>, n: nat, nos: seq<nat>)
    requires 0 < n && Texts(inputs, n, nos) && !IsResize(inputs[n - 1])
    ensures nos != [] && nos[|nos| - 1] == n - 1 && Texts(inputs, n - 1, nos[..|nos| - 1])
  {
    assert n - 1 in nos;
    var k :| 0 <= k < |nos| && nos[k] == n - 1;
    assert nos[|nos| - 1] in nos;
    var pre := nos[..|nos| - 1];
    forall w: nat
      ensures w in pre <==> w < n - 1 && !IsResize(inputs[w])
    {
      if w in pre {
        var j :| 0 <= j < |pre| && pre[j] == w;
        assert nos[j] in nos && nos[j] < nos[|nos| - 1];
      }
      if w < n - 1 && !IsResize(inputs[w]) {
        var j :| 0 <= j < |nos| && nos[j] == w;
        assert pre[j] == w;
      }
    }
  }

  /** On a channel with nothing held back and no close, everything but the resize frames
      was written. */
  lemma WrittenAreTexts(steps: seq<Step>)
    requires IsRun(Init(), steps)
    requires var s := Exec(Init(), steps); s.ch.ready && !s.ch.closed && Held(s) == []
    ensures var s := Exec(Init(), steps);
            && AllCarry(s, Inputs(steps))
            && (forall k :: 0 <= k < |Written(s.ch.log)| ==> Written(s.ch.log)[k] < |Inputs(steps)|)
            && Typed(s.ch.log) == Chosen(Inputs(steps), Written(s.ch.log))
            && (Increasing(Written(s.ch.log)) ==> Texts(Inputs(steps), |Inputs(steps)|, Written(s.ch.log)))
  {
    var s, inputs := Exec(Init(), steps), Inputs(steps);
    RunInv(Init(), steps);
    CarryRun(Init(), steps, []);
    assert [] + inputs == inputs;
    TypedIsChosen(s.ch.log, inputs);
    forall w: nat
      ensures w in Written(s.ch.log) <==> w < |inputs| && !IsResize(inputs[w])
    {
      if w in Written(s.ch.log) {
        WrittenText(s, inputs, w);
      } else if w < |inputs| && !IsResize(inputs[w]) {
        LoggedText(s, inputs, w);
      }
    }
  }

  lemma WrittenItem(log: seq<Event>, w: nat)
    requires w in Written(log)
    ensures exists k :: 0 <= k < |log| && log[k].Wrote? && log[k].item.no == w
  {
    var n := |log| - 1;
    if w in Written(log[..n]) {
      WrittenItem(log[..n], w);
    }
  }

  lemma WrittenText(s: Sys, inputs: seq<seq<byte>>, w: nat)
    requires Inv(s) && LogCarries(s.ch.log, inputs) && w in Written(s.ch.log)
    ensures w < |inputs| && !IsResize(inputs[w])
  {
    WrittenItem(s.ch.log, w);
    var k :| 0 <= k < |s.ch.log| && s.ch.log[k].Wrote? && s.ch.log[k].item.no == w;
    assert Carries(s.ch.log[k].item, inputs) && Loggable(s.ch, s.ch.log[k]);
  }

  lemma WrittenHas(log: seq<Event>, k: nat)
    requires k < |log| && log[k].Wrote?
    ensures log[k].item.no in Written(log)
  {
    if k < |log| - 1 {
      WrittenHas(log[..|log| - 1], k);
    }
  }

  lemma LowItem(log: seq<Event>, cut: nat, w: nat)
    requires w in Low(log, cut) || w in High(log, cut)
    ensures exists k :: 0 <= k < |log| && log[k].item.no == w
  {
    var n := |log| - 1;
    if log[n].item.no != w {
      LowItem(log[..n], cut, w);
    }
  }

  /** Every arrival is in the log once nothing is held or queued. */
  lemma LoggedItem(s: Sys, w: nat) returns (k: nat)
    requires Placed(s) && s.ch.pending == [] && Held(s) == [] && w < s.arrivals
    ensures k < |s.ch.log| && s.ch.log[k].item.no == w
  {
    if w < s.cut {
      assert Low(s.ch.log, s.cut) + [] + [] == Low(s.ch.log, s.cut);
      RangeHas(0, s.cut, w, Low(s.ch.log, s.cut));
    } else {
      RangeHas(s.cut, s.arrivals, w, High(s.ch.log, s.cut));
    }
    LowItem(s.ch.log, s.cut, w);
    k :| 0 <= k < |s.ch.log| && s.ch.log[k].item.no == w;
  }

  lemma RangeHas(lo: nat, hi: nat, w: nat, nos: seq<nat>)
    requires lo <= w < hi && nos == Range(lo, hi)
    ensures w in nos
  {
    RangeAt(lo, hi, w - lo);
  }

  /** And written, if it is no resize frame. */
  lemma LoggedText(s: Sys, inputs: seq<seq<byte>>, w: nat)
    requires Inv(s) && s.ch.ready && !s.ch.closed && Held(s) == [] && w < s.arrivals
    requires LogCarries(s.ch.log, inputs) && w < |inputs| && !IsResize(inputs[w])
    ensures w in Written(s.ch.log)
  {
    var k := LoggedItem(s, w);
    assert Carries(s.ch.log[k].item, inputs) && Loggable(s.ch, s.ch.log[k]);
    WrittenHas(s.ch.log, k);
  }

  /** The shell gets exactly the bytes that were typed, in order and once, on a channel
      still open with nothing held back, if the reader never wrote ahead of a flusher. */
  lemma ShellGetsWhatWasTyped(steps: seq<Step>)
    requires IsRun(Init(), steps) && !SomeOvertakes(Init(), steps)
    requires var s := Exec(Init(), steps); s.ch.ready && !s.ch.closed && Held(s) == []
    ensures Typed(Exec(Init(), steps).ch.log) == Text(Inputs(steps))
  {
    OrderKeptIffNoOvertaking(steps);
    WrittenAreTexts(steps);
    TextsInOrder(Inputs(steps), Exec(Init(), steps).ch.log);
  }

  lemma TextsInOrder(inputs: seq<seq<byte>>, log: seq<Event>)
    requires Texts(inputs, |inputs|, Written(log)) && Typed(log) == Chosen(inputs, Written(log))
    ensures Typed(log) == Text(inputs)
  {
    ChosenIsText(inputs, |inputs|, Written(log));
    assert inputs[..|inputs|] == inputs;
  }

  /** Two keystrokes can reach the shell in the wrong order: the second arrives
      between the flip of the flag and the flush of the first. */
  lemma OrderCanBreak()
    ensures exists steps :: IsRun(Init(), steps) && Written(Exec(Init(), steps).ch.log) == [1, 0]
  {
    var a, b: seq<byte> := [97], [98];
    var x, y := Item(0, a), Item(1, b);
    var open := NewTerminal().(attached := true);
    var s3 := Sys(open.(ready := true), true, true, [x], [], 1, 1, 1, 1);
    var s4 := s3.(ch := s3.ch.(log := [Wrote(y)]), arrivals := 2);
    var s5 := s4.(ch := s4.ch.(log := [Wrote(y), Wrote(x)]), pump := []);
    assert Next(s4, PumpDelivers(true)) == s5;
    assert Next(s3, Arrive(b, true)) == s4;
    RunCons(s4, PumpDelivers(true), []);
    RunCons(s3, Arrive(b, true), [PumpDelivers(true)]);
    OrderCanBreakStart(s3, [Arrive(b, true)] + [PumpDelivers(true)]);
    LogAppend([], Wrote(y), 1);
    LogAppend([Wrote(y)], Wrote(x), 1);
    assert [] + [Wrote(y)] == [Wrote(y)] && [Wrote(y)] + [Wrote(x)] == [Wrote(y), Wrote(x)];
  }

  lemma OrderCanBreakStart(s3: Sys, rest: seq<Step>)
    requires s3 == Sys(NewTerminal().(attached := true, ready := true), true, true, [Item(0, [97])], [], 1, 1, 1, 1)
    requires IsRun(s3, rest)
    ensures exists steps :: IsRun(Init(), steps) && Exec(Init(), steps) == Exec(s3, rest)
  {
    var s1 := Init().(ch := NewTerminal().(attached := true), started := true, timerWaits := true);
    var s2 := s1.(ch := s1.ch.(pending := [Item(0, [97])]), arrivals := 1, cut := 1);
    var typed := Arrive([97], true);
    assert Next(Init(), AttachShell) == s1 && Next(s1, typed) == s2 && Next(s2, ShellSpeaks) == s3;
    RunCons(s2, ShellSpeaks, rest);
    RunCons(s1, typed, [ShellSpeaks] + rest);
    RunCons(Init(), AttachShell, [typed] + ([ShellSpeaks] + rest));
  }

  /** As when the server closes the channel while the shell is starting. */
  lemma ShellCanBeLate()
    ensures IsRun(Init(), [HubCloses]) && Exec(Init(), [HubCloses]).ch.closed
    ensures Enabled(Exec(Init(), [HubCloses]), AttachShell)
  {
    RunCons(Init(), HubCloses, []);
    assert [HubCloses] + [] == [HubCloses];
  }

  lemma RunCons(s: Sys, st: Step, rest: seq<Step>)
    requires Enabled(s, st) && IsRun(Next(s, st), rest)
    ensures IsRun(s, [st] + rest) && Exec(s, [st] + rest) == Exec(Next(s, st), rest)
  {
  }
}
