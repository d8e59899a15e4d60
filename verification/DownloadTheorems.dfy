/** Channel 5 downloads over whole runs: what the user gets, what the window
    holds, and why every download that nobody cancels ends. */
module DownloadTheorems {
  import opened Wrappers
  import opened Bytes
  import opened Download
  import opened DownloadProofs

  /** steps can be taken one after the other from s. */
  ghost predicate IsRun(s: Net, steps: seq<Step>)
    decreases |steps|
  {
    steps == [] || (Known(s.agent) && Enabled(s, steps[0]) && IsRun(Next(s, steps[0]), steps[1..]))
  }

  ghost function Exec(s: Net, steps: seq<Step>): Net
    requires IsRun(s, steps)
    decreases |steps|
  {
    if steps == [] then s else Exec(Next(s, steps[0]), steps[1..])
  }

  lemma {:induction false} RunInv(s: Net, steps: seq<Step>)
    requires Inv(s) && IsRun(s, steps)
    ensures Inv(Exec(s, steps)) && Known(Exec(s, steps).agent)
    decreases |steps|
  {
    if steps != [] {
      StepInv(s, steps[0]);
      RunInv(Next(s, steps[0]), steps[1..]);
    }
  }

  ghost predicate Reachable(s: Net) {
    exists steps :: IsRun(Init(), steps) && Exec(Init(), steps) == s
  }

  lemma ReachableInv(s: Net)
    requires Reachable(s)
    ensures Inv(s) && Known(s.agent)
  {
    var steps :| IsRun(Init(), steps) && Exec(Init(), steps) == s;
    InitInv();
    RunInv(Init(), steps);
  }

  // ---------- byte exactness ----------

  /** The parts on the page followed by the chunks in flight are the first off
      bytes of the file, in every reachable state. */
  lemma ByteExact(s: Net, i: nat)
    requires Reachable(s) && i < |s.agent.runs| && Wants(s.browser, s.agent.runs[i].sn)
    ensures var r, d, bar := s.agent.runs[i], s.browser.dl.value, s.browser.bar;
            && r.off <= |r.content|
            && Flatten(d.parts) + InFlight(s.down, r.sn) == r.content[..r.off]
            && (bar.DownBar? ==> bar.bytes == |Flatten(d.parts)| && bar.total == |r.content|)
  {
    ReachableInv(s);
  }

  /** Whatever was handed to the user is a file some run opened, whole; the run
      is the only one with that number. */
  lemma SavedWhole(s: Net, v: Saved)
    requires Reachable(s) && v in s.browser.saved
    ensures exists i :: 0 <= i < |s.agent.runs| && s.agent.runs[i].sn == v.sn && s.agent.runs[i].content == v.content
                     && forall j :: 0 <= j < |s.agent.runs| && j != i ==> s.agent.runs[j].sn != v.sn
  {
    ReachableInv(s);
    SavedRun(s, v);
  }

  lemma SavedRun(s: Net, v: Saved)
    requires AgentWf(s.agent) && DoneWf(s) && v in s.browser.saved
    ensures exists i :: 0 <= i < |s.agent.runs| && s.agent.runs[i].sn == v.sn && s.agent.runs[i].content == v.content
                     && forall j :: 0 <= j < |s.agent.runs| && j != i ==> s.agent.runs[j].sn != v.sn
  {
  }

  /** Handling the end of the page's download saves exactly the opened file, and a
      bar that still shows this download stands at the announced size. */
  lemma EndSavesFile(s: Net, sn: nat)
    requires Reachable(s) && s.down != [] && s.down[0] == End(sn) && Wants(s.browser, sn)
    ensures Known(s.agent) && Next(s, BrowserRecv).browser.dl.None?
    ensures exists i :: 0 <= i < |s.agent.runs| && s.agent.runs[i].sn == sn
              && Next(s, BrowserRecv).browser.saved == s.browser.saved + [Saved(sn, s.agent.runs[i].content)]
              && (s.browser.bar.DownBar? ==> s.browser.bar.bytes == s.browser.bar.total == |s.agent.runs[i].content|)
  {
    ReachableInv(s);
    EndSaves(s, sn);
  }

  lemma EndSaves(s: Net, sn: nat)
    requires Known(s.agent) && QueuesWf(s) && DlWf(s)
    requires s.down != [] && s.down[0] == End(sn) && Wants(s.browser, sn)
    ensures Next(s, BrowserRecv).browser.dl.None?
    ensures exists i :: 0 <= i < |s.agent.runs| && s.agent.runs[i].sn == sn
              && Next(s, BrowserRecv).browser.saved == s.browser.saved + [Saved(sn, s.agent.runs[i].content)]
              && (s.browser.bar.DownBar? ==> s.browser.bar.bytes == s.browser.bar.total == |s.agent.runs[i].content|)
  {
    SavedExact(s);
    assert HasRun(s.agent, sn);
    var i :| 0 <= i < |s.agent.runs| && s.agent.runs[i].sn == sn;
    assert Flatten(s.browser.dl.value.parts) == s.agent.runs[i].content;
  }

  // ---------- window tokens ----------

  /** No window ever overfills; the slots of the addressed run are those held by
      the sender, the chunks in flight and the acks in flight, exactly so while
      the page wants that download. */
  lemma WindowConserved(s: Net, i: nat)
    requires Reachable(s) && i < |s.agent.runs|
    ensures var r := s.agent.runs[i];
            var out := Held(r) + Chunks(s.down, r.sn) + Acks(s.up, r.sn);
            && r.tokens <= 8
            && (s.agent.dlWindow == Some(i) ==> out <= r.tokens && (Wants(s.browser, r.sn) ==> out == r.tokens))
  {
    ReachableInv(s);
    WindowFacts(s, i);
  }

  lemma WindowFacts(s: Net, i: nat)
    requires AgentWf(s.agent) && WindowWf(s) && i < |s.agent.runs|
    ensures var r := s.agent.runs[i];
            var out := Held(r) + Chunks(s.down, r.sn) + Acks(s.up, r.sn);
            && r.tokens <= DL_WINDOW_DEPTH
            && (s.agent.dlWindow == Some(i) ==> out <= r.tokens && (Wants(s.browser, r.sn) ==> out == r.tokens))
  {
  }

  lemma AcksMember(up: seq<Ctrl>, sn: nat)
    requires Ack(sn) in up
    ensures Acks(up, sn) > 0
  {
    if up[0] != Ack(sn) {
      assert Ack(sn) in up[1..];
      AcksMember(up[1..], sn);
    }
  }

  /** An ack for the addressed run always finds a slot to free, and an ack never
      changes a run with another number. */
  lemma AckFreesOwnSlot(s: Net, sn: nat, i: nat)
    requires Reachable(s) && Ack(sn) in s.up && i < |s.agent.runs|
    ensures Known(s.agent) && |DlAck(s.agent, sn).runs| == |s.agent.runs|
    ensures s.agent.runs[i].sn != sn ==> DlAck(s.agent, sn).runs[i] == s.agent.runs[i]
    ensures DlAck(s.agent, sn).runs[i].tokens
         == s.agent.runs[i].tokens - (if s.agent.dlWindow == Some(i) && s.agent.runs[i].sn == sn then 1 else 0)
  {
    ReachableInv(s);
    AckFrees(s, sn, i);
  }

  lemma AckFrees(s: Net, sn: nat, i: nat)
    requires AgentWf(s.agent) && WindowWf(s) && Known(s.agent) && Ack(sn) in s.up && i < |s.agent.runs|
    ensures |DlAck(s.agent, sn).runs| == |s.agent.runs|
    ensures s.agent.runs[i].sn != sn ==> DlAck(s.agent, sn).runs[i] == s.agent.runs[i]
    ensures DlAck(s.agent, sn).runs[i].tokens
         == s.agent.runs[i].tokens - (if s.agent.dlWindow == Some(i) && s.agent.runs[i].sn == sn then 1 else 0)
  {
    AcksMember(s.up, sn);
    WindowFacts(s, i);
  }

  /** Every cancel channel is closed at most once, and exactly the addressed run
      (never another than the last) is still uncancelled. */
  lemma CancelClosedOnce(s: Net, i: nat)
    requires Reachable(s) && i < |s.agent.runs|
    ensures s.agent.runs[i].closes == (if s.agent.dlCancel == Some(i) then 0 else 1)
    ensures s.agent.dlCancel == Some(i) ==> i == |s.agent.runs| - 1
  {
    ReachableInv(s);
  }

  // ---------- every download ends ----------

  function PcRank(pc: Pc): nat {
    match pc
    case Reading => 6
    case Waiting(_, _) => 5
    case Holding(_, _) => 4
    case Closing(_) => 3
    case Gone(_) => 0
  }

  function RunWeight(r: Run): nat {
    5 * (if r.off <= |r.content| then |r.content| - r.off else 0) + PcRank(r.pc)
  }

  function RunsWeight(runs: seq<Run>): nat {
    if runs == [] then 0 else RunsWeight(runs[..|runs| - 1]) + RunWeight(runs[|runs| - 1])
  }

  function CtrlWeight(c: Ctrl): nat {
    if c.Download? then 0 else if c.Other? then 3 else 1
  }

  function UpWeight(up: seq<Ctrl>): nat {
    if up == [] then 0 else UpWeight(up[..|up| - 1]) + CtrlWeight(up[|up| - 1])
  }

  function Pending(up: seq<Ctrl>): nat {
    if up == [] then 0 else Pending(up[..|up| - 1]) + (if up[|up| - 1].Download? then 1 else 0)
  }

  /** Bytes left, messages and acks in flight, weighed so that every internal step
      makes the total smaller once no request is waiting. */
  function Weight(s: Net): nat {
    RunsWeight(s.agent.runs) + 2 * |s.down| + UpWeight(s.up)
  }

  lemma SetWeight(runs: seq<Run>, i: nat, r: Run)
    requires i < |runs|
    ensures RunsWeight(runs[i := r]) + RunWeight(runs[i]) == RunsWeight(runs) + RunWeight(r)
  {
    var n := |runs| - 1;
    if i == n {
      assert runs[i := r][..n] == runs[..n];
    } else {
      assert runs[i := r][..n] == runs[..n][i := r];
      SetWeight(runs[..n], i, r);
    }
  }

  lemma HeadWeight(up: seq<Ctrl>)
    requires up != []
    ensures UpWeight(up) == CtrlWeight(up[0]) + UpWeight(up[1..])
    ensures Pending(up) == (if up[0].Download? then 1 else 0) + Pending(up[1..])
  {
    var n := |up| - 1;
    if n > 0 {
      HeadWeight(up[..n]);
      assert up[..n][1..] == up[1..][..n - 1];
    }
  }

  lemma CloseWeight(a: Agent)
    requires Known(a)
    ensures RunsWeight(CancelActive(a).runs) == RunsWeight(a.runs)
  {
    if a.dlCancel.Some? {
      var i := a.dlCancel.value;
      SetWeight(a.runs, i, a.runs[i].(closes := a.runs[i].closes + 1));
    }
  }

  ghost predicate Lighter(s: Net, t: Net) {
    Pending(t.up) < Pending(s.up) || (Pending(t.up) == Pending(s.up) && Weight(t) < Weight(s))
  }

  lemma AgentRecvLighter(s: Net, file: Option<seq<byte>>, fails: bool)
    requires Known(s.agent) && s.up != []
    ensures Lighter(s, Next(s, AgentRecv(file, fails)))
  {
    HeadWeight(s.up);
    if !s.agent.closed && s.up[0].sn < SEQ_LIMIT {
      match s.up[0]
      case Download(_) =>
      case Ack(sn) =>
        var a := s.agent;
        if a.dlWindow.Some? {
          SetWeight(a.runs, a.dlWindow.value, DlAck(a, sn).runs[a.dlWindow.value]);
          assert a.runs[a.dlWindow.value := a.runs[a.dlWindow.value]] == a.runs;
        }
      case Cancel(_) => CloseWeight(s.agent);
      case Other(_) =>
    }
  }

  lemma BrowserRecvLighter(s: Net)
    requires Known(s.agent) && s.down != []
    ensures Lighter(s, Next(s, BrowserRecv))
  {
    var t := Next(s, BrowserRecv);
    assert s.up + [] == s.up;
    if s.down[0].Chunk? && Wants(s.browser, s.down[0].sn) {
      assert t.up[..|t.up| - 1] == s.up;
    } else {
      assert t.up == s.up;
    }
  }

  lemma SenderLighter(s: Net, i: nat, st: Step)
    requires Known(s.agent) && Enabled(s, st) && i < |s.agent.runs| && RunWf(s.agent.runs[i])
    requires st == SendChunk(i) || st == Finish(i) || st == TakeSlot(i) || st == Abort(i) || (st.Read? && st.i == i)
    ensures Lighter(s, Next(s, st))
  {
    SetWeight(s.agent.runs, i, Next(s, st).agent.runs[i]);
  }

  /** Every delivery and every move of a sender makes the system lighter. */
  lemma InternalLighter(s: Net, st: Step)
    requires Inv(s) && Enabled(s, st) && Internal(st)
    ensures Lighter(s, Next(s, st))
  {
    match st
    case BrowserRecv => BrowserRecvLighter(s);
    case AgentRecv(file, fails) => AgentRecvLighter(s, file, fails);
    case Read(i, _, _) => SenderLighter(s, i, st);
    case TakeSlot(i) => SenderLighter(s, i, st);
    case Abort(i) => SenderLighter(s, i, st);
    case SendChunk(i) => SenderLighter(s, i, st);
    case Finish(i) => SenderLighter(s, i, st);
    case _ => assert false;
  }

  ghost predicate AllInternal(steps: seq<Step>) {
    forall k :: 0 <= k < |steps| ==> Internal(steps[k])
  }

  /** With no request waiting, the weight bounds the number of internal steps. */
  lemma {:induction false} InternalRunBounded(s: Net, steps: seq<Step>)
    requires Inv(s) && Pending(s.up) == 0 && IsRun(s, steps) && AllInternal(steps)
    ensures |steps| <= Weight(s)
    decreases |steps|
  {
    if steps != [] {
      assert Internal(steps[0]);
      InternalLighter(s, steps[0]);
      StepInv(s, steps[0]);
      assert AllInternal(steps[1..]);
      InternalRunBounded(Next(s, steps[0]), steps[1..]);
    }
  }

  /** No schedule of deliveries and sender moves goes on for ever: at some point it
      names a step that cannot be taken. */
  lemma EveryScheduleEnds(states: nat -> Net, steps: nat -> Step)
    requires Inv(states(0))
    requires forall n: nat :: Internal(steps(n))
    requires forall n: nat :: Known(states(n).agent) && Enabled(states(n), steps(n)) ==>
          states(n + 1) == Next(states(n), steps(n))
    ensures exists n: nat :: !Enabled(states(n), steps(n))
  {
    ScheduleEndsFrom(states, steps, 0);
  }

  lemma {:induction false} ScheduleEndsFrom(states: nat -> Net, steps: nat -> Step, n: nat)
    requires Inv(states(n))
    requires forall k: nat :: Internal(steps(k))
    requires forall k: nat :: Known(states(k).agent) && Enabled(states(k), steps(k)) ==>
          states(k + 1) == Next(states(k), steps(k))
    ensures exists k: nat :: !Enabled(states(k), steps(k))
    decreases Pending(states(n).up), Weight(states(n))
  {
    if Enabled(states(n), steps(n)) {
      assert Internal(steps(n));
      InternalLighter(states(n), steps(n));
      StepInv(states(n), steps(n));
      ScheduleEndsFrom(states, steps, n + 1);
    }
  }

  /** Nothing is left to deliver and no sender can move. */
  ghost predicate Quiescent(s: Net) {
    forall st :: Internal(st) ==> !Enabled(s, st)
  }

  /** No deadlock: a message in flight can be delivered, and a sender goroutine
      that has not ended can move or waits for a message in flight. */
  lemma NeverStuck(s: Net) returns (st: Step)
    requires Inv(s)
    requires s.up != [] || s.down != [] || exists i :: 0 <= i < |s.agent.runs| && !s.agent.runs[i].pc.Gone?
    ensures Internal(st) && Enabled(s, st) && (st.Read? ==> st.end != Failed)
  {
    if s.up != [] { return AgentRecv(None, false); }
    if s.down != [] { return BrowserRecv; }
    var i :| 0 <= i < |s.agent.runs| && !s.agent.runs[i].pc.Gone?;
    st := SenderMove(s, i);
  }

  lemma SenderMove(s: Net, i: nat) returns (st: Step)
    requires AgentWf(s.agent) && WindowWf(s) && DoneWf(s) && s.up == [] && s.down == []
    requires i < |s.agent.runs| && !s.agent.runs[i].pc.Gone?
    ensures Internal(st) && Enabled(s, st) && (st.Read? ==> st.end != Failed)
  {
    var r := s.agent.runs[i];
    assert RunWf(r);
    match r.pc
    case Reading => st := if r.off == |r.content| then Read(i, 0, Eof) else Read(i, 1, More);
    case Waiting(_, _) => st := if r.tokens < DL_WINDOW_DEPTH then TakeSlot(i) else Abort(i);
    case Holding(_, _) => st := SendChunk(i);
    case Closing(_) => st := Finish(i);
  }

  /** Run i was not cancelled and did not fail. */
  predicate UncutRun(a: Agent, i: nat)
    requires i < |a.runs|
  {
    a.dlCancel == Some(i) && a.runs[i].pc != Gone(Some(Failed))
  }

  /** When nothing can move any more, every message was delivered and every sender
      goroutine has ended; unless the session was shut down or the number does not
      fit, no download is pending; and an uncancelled run that read to the end of
      its file has had it saved. No window is ever the reason for standing still. */
  lemma QuietMeansDone(s: Net)
    requires Reachable(s) && Quiescent(s)
    ensures s.up == [] && s.down == []
    ensures forall i :: 0 <= i < |s.agent.runs| ==> s.agent.runs[i].pc.Gone?
    ensures s.browser.dl.Some? ==> s.agent.closed || s.browser.dl.value.sn >= SEQ_LIMIT
    ensures forall i :: 0 <= i < |s.agent.runs| && UncutRun(s.agent, i) ==>
              Saved(s.agent.runs[i].sn, s.agent.runs[i].content) in s.browser.saved
  {
    ReachableInv(s);
    if s.up != [] || s.down != [] || exists i :: 0 <= i < |s.agent.runs| && !s.agent.runs[i].pc.Gone? {
      var st := NeverStuck(s);
    }
    QuietPage(s);
  }

  lemma QuietPage(s: Net)
    requires AgentWf(s.agent) && DlWf(s) && DoneWf(s) && s.up == [] && s.down == []
    requires forall i :: 0 <= i < |s.agent.runs| ==> s.agent.runs[i].pc.Gone?
    ensures s.browser.dl.Some? ==> s.agent.closed || s.browser.dl.value.sn >= SEQ_LIMIT
    ensures forall i :: 0 <= i < |s.agent.runs| && UncutRun(s.agent, i) ==>
              Saved(s.agent.runs[i].sn, s.agent.runs[i].content) in s.browser.saved
  {
    if s.agent.dlCancel.Some? {
      var r := s.agent.runs[|s.agent.runs| - 1];
      assert RunWf(r) && r.pc.Gone?;
      match r.pc.how
      case None =>
      case Some(end) =>
        assert r.pc == Gone(Some(end));
        assert !end.More?;
        assert end.Eof? || end.Failed?;
        assert !Wants(s.browser, r.sn);
    }
  }
}
