/** From the request to the saved file: a download whose file can be opened and read is
    delivered whole, whatever else goes on, unless the user cancels it or the session is
    shut down. */
module DownloadDelivery {
  import opened Wrappers
  import opened Bytes
  import opened Download
  import opened DownloadProofs
  import opened DownloadTheorems

  /** Run i is the page's download sn of this file, uncancelled and without a failed read. */
  ghost predicate UnderWay(s: Net, i: nat, sn: nat, content: seq<byte>) {
    && i + 1 == |s.agent.runs| && s.agent.runs[i].sn == sn && s.agent.runs[i].content == content
    && s.agent.dlCancel == Some(i) && !s.agent.closed
    && Wants(s.browser, sn)
    && (forall c :: c in s.up ==> !c.Download? && c != Cancel(sn))
    && match s.agent.runs[i].pc
       case Reading => true
       case Waiting(_, end) => end != Failed
       case Holding(_, end) => end != Failed
       case Closing(end) => end != Failed
       case Gone(how) => how == Some(Eof)
  }

  ghost predicate Delivered(s: Net, sn: nat, content: seq<byte>) {
    Saved(sn, content) in s.browser.saved
  }

  /** Neither a cancel nor a shutdown nor a failed read of run i. */
  predicate Harmless(st: Step, i: nat) {
    st != ClickCancel && st != Shutdown && !(st.Read? && st.i == i && st.end == Failed)
  }

  ghost predicate AllHarmless(steps: seq<Step>, i: nat) {
    forall k :: 0 <= k < |steps| ==> Harmless(steps[k], i)
  }

  /** The request is answered by opening the file. */
  lemma Opened(s: Net, sn: nat, content: seq<byte>, fails: bool)
    requires Inv(s) && Known(s.agent) && s.up != [] && s.up[0] == Download(sn) && Wants(s.browser, sn)
    requires !s.agent.closed && sn < SEQ_LIMIT
    ensures UnderWay(Next(s, AgentRecv(Some(content), fails)), |s.agent.runs|, sn, content)
  {
    var t := Next(s, AgentRecv(Some(content), fails));
    assert s.up[0] in s.up;
    forall c | c in t.up
      ensures !c.Download? && c != Cancel(sn)
    {
      var k :| 0 <= k < |t.up| && t.up[k] == c;
      assert s.up[k + 1] == c && c in s.up;
    }
  }

  /** A message for this download, or for another, reaches the page. */
  lemma PageKeeps(s: Net, i: nat, sn: nat, content: seq<byte>)
    requires Inv(s) && Known(s.agent) && UnderWay(s, i, sn, content) && s.down != []
    ensures UnderWay(Next(s, BrowserRecv), i, sn, content) || Delivered(Next(s, BrowserRecv), sn, content)
  {
    var m := s.down[0];
    assert m in s.down;
    if m == End(sn) {
      EndSaves(s, sn);
      OnlyRun(s.agent, i, sn);
    } else if m == Error(sn) {
      assert false;
    }
  }

  lemma OnlyRun(a: Agent, i: nat, sn: nat)
    requires AgentWf(a) && i < |a.runs| && a.runs[i].sn == sn
    ensures forall j :: 0 <= j < |a.runs| && a.runs[j].sn == sn ==> j == i
  {
  }

  /** A message reaches the agent: it is neither a request nor this download's cancel. */
  lemma AgentKeeps(s: Net, i: nat, sn: nat, content: seq<byte>, file: Option<seq<byte>>, fails: bool)
    requires AgentWf(s.agent) && Known(s.agent) && UnderWay(s, i, sn, content) && s.up != []
    ensures UnderWay(Next(s, AgentRecv(file, fails)), i, sn, content)
  {
    assert s.up[0] in s.up;
    assert forall c :: c in s.up[1..] ==> c in s.up;
  }

  lemma SenderKeeps(s: Net, i: nat, sn: nat, content: seq<byte>, st: Step)
    requires AgentWf(s.agent) && Known(s.agent) && UnderWay(s, i, sn, content) && Enabled(s, st) && Harmless(st, i)
    requires st.Read? || st.TakeSlot? || st.Abort? || st.SendChunk? || st.Finish?
    ensures UnderWay(Next(s, st), i, sn, content)
  {
    assert RunWf(s.agent.runs[i]);
  }

  lemma StepDelivers(s: Net, i: nat, sn: nat, content: seq<byte>, st: Step)
    requires Inv(s) && Known(s.agent) && UnderWay(s, i, sn, content) && Enabled(s, st) && Harmless(st, i)
    ensures UnderWay(Next(s, st), i, sn, content) || Delivered(Next(s, st), sn, content)
  {
    match st
    case BrowserRecv => PageKeeps(s, i, sn, content);
    case AgentRecv(file, fails) => AgentKeeps(s, i, sn, content, file, fails);
    case OtherRequest(no) =>
    case OtherBar(_) =>
    case ClickDownload => assert false;
    case _ => SenderKeeps(s, i, sn, content, st);
  }

  lemma SavedStays(s: Net, st: Step, v: Saved)
    requires Known(s.agent) && Enabled(s, st) && v in s.browser.saved
    ensures v in Next(s, st).browser.saved
  {
  }

  lemma {:induction false} RunDelivers(s: Net, i: nat, sn: nat, content: seq<byte>, steps: seq<Step>)
    requires Inv(s) && IsRun(s, steps) && AllHarmless(steps, i)
    requires UnderWay(s, i, sn, content) || Delivered(s, sn, content)
    ensures UnderWay(Exec(s, steps), i, sn, content) || Delivered(Exec(s, steps), sn, content)
    decreases |steps|
  {
    if steps != [] {
      assert Harmless(steps[0], i);
      StepInv(s, steps[0]);
      if Delivered(s, sn, content) {
        SavedStays(s, steps[0], Saved(sn, content));
      } else {
        StepDelivers(s, i, sn, content, steps[0]);
      }
      assert AllHarmless(steps[1..], i);
      RunDelivers(Next(s, steps[0]), i, sn, content, steps[1..]);
    }
  }

  lemma {:induction false} Joined(s: Net, a: seq<Step>, b: seq<Step>)
    requires IsRun(s, a) && IsRun(Exec(s, a), b)
    ensures IsRun(s, a + b) && Exec(s, a + b) == Exec(Exec(s, a), b)
    decreases |a|
  {
    if a == [] {
      assert a + b == b;
    } else {
      assert (a + b)[1..] == a[1..] + b;
      Joined(Next(s, a[0]), a[1..], b);
    }
  }

  lemma ReachableOn(s: Net, steps: seq<Step>)
    requires Reachable(s) && IsRun(s, steps)
    ensures Reachable(Exec(s, steps))
  {
    var before :| IsRun(Init(), before) && Exec(Init(), before) == s;
    Joined(Init(), before, steps);
  }

  lemma QuietIsDelivered(s: Net, i: nat, sn: nat, content: seq<byte>)
    requires Reachable(s) && Quiescent(s)
    requires UnderWay(s, i, sn, content) || Delivered(s, sn, content)
    ensures Delivered(s, sn, content)
  {
    QuietMeansDone(s);
    assert UnderWay(s, i, sn, content) ==> UncutRun(s.agent, i);
  }

  /** The agent opens the file of the page's download. From then on, whatever requests,
      downloads, deliveries and reads follow in whatever order, if it is not cancelled,
      the session not shut down and no read of it fails, then once nothing can move any
      more the user has exactly that file. */
  lemma OpenedIsSaved(s: Net, sn: nat, content: seq<byte>, fails: bool, steps: seq<Step>)
    requires Reachable(s) && s.up != [] && s.up[0] == Download(sn) && Wants(s.browser, sn)
    requires !s.agent.closed && sn < SEQ_LIMIT
    requires IsRun(s, [AgentRecv(Some(content), fails)] + steps) && AllHarmless(steps, |s.agent.runs|)
    requires Quiescent(Exec(s, [AgentRecv(Some(content), fails)] + steps))
    ensures Saved(sn, content) in Exec(s, [AgentRecv(Some(content), fails)] + steps).browser.saved
  {
    ReachableInv(s);
    var i, recv := |s.agent.runs|, AgentRecv(Some(content), fails);
    var s1 := Next(s, recv);
    assert ([recv] + steps)[1..] == steps;
    Opened(s, sn, content, fails);
    StepInv(s, recv);
    RunDelivers(s1, i, sn, content, steps);
    ReachableOn(s, [recv] + steps);
    QuietIsDelivered(Exec(s1, steps), i, sn, content);
  }

  lemma Then(s: Net, st: Step, rest: seq<Step>)
    requires Known(s.agent) && Enabled(s, st) && IsRun(Next(s, st), rest)
    ensures IsRun(s, [st] + rest) && Exec(s, [st] + rest) == Exec(Next(s, st), rest)
  {
    assert ([st] + rest)[1..] == rest;
  }

  predicate Resting(s: Net) {
    s.up == [] && s.down == [] && forall k :: 0 <= k < |s.agent.runs| ==> s.agent.runs[k].pc.Gone?
  }

  lemma AtRest(s: Net)
    requires Resting(s)
    ensures Quiescent(s)
  {
  }

  /** Something can move, without a failed read. */
  lemma MovesOn(s: Net, i: nat) returns (st: Step)
    requires Inv(s) && Known(s.agent) && !Resting(s)
    ensures Enabled(s, st) && Harmless(st, i) && Lighter(s, Next(s, st))
    ensures Inv(Next(s, st)) && Known(Next(s, st).agent)
  {
    st := NeverStuck(s);
    InternalLighter(s, st);
    StepInv(s, st);
  }

  lemma HarmlessCons(st: Step, rest: seq<Step>, i: nat)
    requires Harmless(st, i) && AllHarmless(rest, i)
    ensures AllHarmless([st] + rest, i)
  {
  }

  /** From any state things can come to rest without a failed read. */
  lemma {:induction false} ComesToRest(s: Net, i: nat) returns (steps: seq<Step>)
    requires Inv(s) && Known(s.agent)
    ensures IsRun(s, steps) && AllHarmless(steps, i) && Quiescent(Exec(s, steps))
    decreases Pending(s.up), Weight(s)
  {
    if Resting(s) {
      AtRest(s);
      return [];
    }
    var st := MovesOn(s, i);
    var rest := ComesToRest(Next(s, st), i);
    Then(s, st, rest);
    HarmlessCons(st, rest, i);
    return [st] + rest;
  }

  /** A request whose file can be opened can be brought to its end. */
  lemma CanBeSaved(s: Net, sn: nat, content: seq<byte>) returns (steps: seq<Step>)
    requires Reachable(s) && s.up != [] && s.up[0] == Download(sn) && Wants(s.browser, sn)
    requires !s.agent.closed && sn < SEQ_LIMIT
    ensures IsRun(s, steps) && Saved(sn, content) in Exec(s, steps).browser.saved
  {
    var recv := AgentRecv(Some(content), false);
    ReachableInv(s);
    StepInv(s, recv);
    var rest := ComesToRest(Next(s, recv), |s.agent.runs|);
    Then(s, recv, rest);
    OpenedIsSaved(s, sn, content, false, rest);
    steps := [recv] + rest;
  }

  /** The first request of a page that has none open. */
  lemma Request(s: Net) returns (t: Net)
    requires Reachable(s) && s.browser.dl.None? && s.up == [] && !s.agent.closed && s.browser.lastSn + 1 < SEQ_LIMIT
    ensures Known(s.agent) && Enabled(s, ClickDownload) && t == Next(s, ClickDownload) && Reachable(t)
    ensures t.up != [] && t.up[0] == Download(s.browser.lastSn + 1) && Wants(t.browser, s.browser.lastSn + 1)
    ensures !t.agent.closed
  {
    ReachableInv(s);
    t := Next(s, ClickDownload);
    assert IsRun(t, []) && Exec(t, []) == t;
    Then(s, ClickDownload, []);
    ReachableOn(s, [ClickDownload] + []);
  }

  /** Every file can be downloaded: from any idle page of a session that is up there is a
      run that saves it. */
  lemma EveryFileCanBeSaved(s: Net, content: seq<byte>)
    requires Reachable(s) && s.browser.dl.None? && s.up == [] && !s.agent.closed && s.browser.lastSn + 1 < SEQ_LIMIT
    ensures exists steps ::
              IsRun(s, steps) && Saved(s.browser.lastSn + 1, content) in Exec(s, steps).browser.saved
  {
    var t := Request(s);
    var rest := CanBeSaved(t, s.browser.lastSn + 1, content);
    Then(s, ClickDownload, rest);
  }

  /** No run has this number and none ever will. */
  ghost predicate Turned(s: Net, sn: nat) {
    sn <= s.browser.lastSn && !HasRun(s.agent, sn) && Download(sn) !in s.up
  }

  lemma TurnedAgent(s: Net, sn: nat, file: Option<seq<byte>>, fails: bool)
    requires Known(s.agent) && Turned(s, sn) && s.up != []
    ensures Turned(Next(s, AgentRecv(file, fails)), sn)
  {
    assert s.up[0] in s.up && s.up[0] != Download(sn);
    assert forall c :: c in s.up[1..] ==> c in s.up;
    var runs, after := s.agent.runs, Next(s, AgentRecv(file, fails)).agent.runs;
    assert forall i :: 0 <= i < |runs| ==> after[i].sn == runs[i].sn;
    assert |after| == |runs| || (s.up[0].Download? && |after| == |runs| + 1 && after[|runs|].sn == s.up[0].sn);
  }

  lemma TurnedStep(s: Net, sn: nat, st: Step)
    requires Known(s.agent) && Enabled(s, st) && Turned(s, sn)
    ensures Turned(Next(s, st), sn)
  {
    if st.AgentRecv? {
      TurnedAgent(s, sn, st.file, st.fails);
    } else {
      var runs, after := s.agent.runs, Next(s, st).agent.runs;
      assert |after| == |runs| && forall i :: 0 <= i < |runs| ==> after[i].sn == runs[i].sn;
    }
  }

  lemma {:induction false} TurnedRun(s: Net, sn: nat, steps: seq<Step>)
    requires IsRun(s, steps) && Turned(s, sn)
    ensures Turned(Exec(s, steps), sn)
    decreases |steps|
  {
    if steps != [] {
      TurnedStep(s, sn, steps[0]);
      TurnedRun(Next(s, steps[0]), sn, steps[1..]);
    }
  }

  lemma TurnedAway(s: Net, sn: nat, fails: bool)
    requires Inv(s) && Known(s.agent) && s.up != [] && s.up[0] == Download(sn)
    ensures Turned(Next(s, AgentRecv(None, fails)), sn)
  {
    var t := Next(s, AgentRecv(None, fails));
    assert s.up[0] in s.up;
    assert forall k :: 0 <= k < |t.up| ==> t.up[k] == s.up[k + 1];
  }

  /** The agent cannot open the file of a request. Nothing is ever saved under that
      number, whatever follows; and the page does not wait for it: once nothing can move
      any more no download is pending, unless the session was shut down. */
  lemma NotOpenedIsNeverSaved(s: Net, sn: nat, fails: bool, steps: seq<Step>)
    requires Reachable(s) && s.up != [] && s.up[0] == Download(sn)
    requires IsRun(s, [AgentRecv(None, fails)] + steps)
    ensures var t := Exec(s, [AgentRecv(None, fails)] + steps);
            && (forall v :: v in t.browser.saved ==> v.sn != sn)
            && (Quiescent(t) && !t.agent.closed && sn < SEQ_LIMIT ==> !Wants(t.browser, sn))
  {
    var recv := AgentRecv(None, fails);
    ReachableInv(s);
    assert ([recv] + steps)[1..] == steps;
    TurnedAway(s, sn, fails);
    TurnedRun(Next(s, recv), sn, steps);
    ReachableOn(s, [recv] + steps);
    var t := Exec(s, [recv] + steps);
    ReachableInv(t);
    if Quiescent(t) {
      QuietMeansDone(t);
    }
  }

  // ---------- the cancel ----------

  /** What the page still wants it has not been given yet. */
  ghost predicate Unserved(s: Net) {
    s.browser.dl.Some? ==> forall v :: v in s.browser.saved ==> v.sn != s.browser.dl.value.sn
  }

  lemma UnservedStep(s: Net, st: Step)
    requires Known(s.agent) && DoneWf(s) && Unserved(s) && Enabled(s, st)
    ensures Unserved(Next(s, st))
  {
  }

  lemma {:induction false} UnservedRun(s: Net, steps: seq<Step>)
    requires Inv(s) && Unserved(s) && IsRun(s, steps)
    ensures Unserved(Exec(s, steps))
    decreases |steps|
  {
    if steps != [] {
      UnservedStep(s, steps[0]);
      StepInv(s, steps[0]);
      UnservedRun(Next(s, steps[0]), steps[1..]);
    }
  }

  /** Nothing is or will be saved under this number. */
  ghost predicate Forgotten(s: Net, sn: nat) {
    sn <= s.browser.lastSn && !Wants(s.browser, sn) && forall v :: v in s.browser.saved ==> v.sn != sn
  }

  lemma {:induction false} ForgottenRun(s: Net, sn: nat, steps: seq<Step>)
    requires IsRun(s, steps) && Forgotten(s, sn)
    ensures Forgotten(Exec(s, steps), sn)
    decreases |steps|
  {
    if steps != [] {
      ForgottenStep(s, sn, steps[0]);
      ForgottenRun(Next(s, steps[0]), sn, steps[1..]);
    }
  }

  lemma ForgottenStep(s: Net, sn: nat, st: Step)
    requires Known(s.agent) && Enabled(s, st) && Forgotten(s, sn)
    ensures Forgotten(Next(s, st), sn)
  {
  }

  /** A download the user cancels is never saved, whatever of it is still under way; and
      once nothing can move any more its sender has ended. */
  lemma CancelledIsNeverSaved(s: Net, sn: nat, steps: seq<Step>)
    requires Reachable(s) && Wants(s.browser, sn) && IsRun(s, [ClickCancel] + steps)
    ensures var t := Exec(s, [ClickCancel] + steps);
            && (forall v :: v in t.browser.saved ==> v.sn != sn)
            && (Quiescent(t) ==> forall i :: 0 <= i < |t.agent.runs| ==> t.agent.runs[i].pc.Gone?)
  {
    ReachableInv(s);
    var before :| IsRun(Init(), before) && Exec(Init(), before) == s;
    InitInv();
    UnservedRun(Init(), before);
    assert ([ClickCancel] + steps)[1..] == steps;
    ForgottenRun(Next(s, ClickCancel), sn, steps);
    ReachableOn(s, [ClickCancel] + steps);
    if Quiescent(Exec(s, [ClickCancel] + steps)) {
      QuietMeansDone(Exec(s, [ClickCancel] + steps));
    }
  }

  // ---------- the shutdown ----------

  lemma ClosedStep(s: Net, st: Step)
    requires Known(s.agent) && Enabled(s, st) && s.agent.closed
    ensures Next(s, st).agent.closed && |Next(s, st).agent.runs| == |s.agent.runs|
  {
  }

  lemma {:induction false} ClosedRun(s: Net, steps: seq<Step>)
    requires IsRun(s, steps) && s.agent.closed
    ensures Exec(s, steps).agent.closed && |Exec(s, steps).agent.runs| == |s.agent.runs|
    decreases |steps|
  {
    if steps != [] {
      ClosedStep(s, steps[0]);
      ClosedRun(Next(s, steps[0]), steps[1..]);
    }
  }

  /** After a shutdown no download is ever started or addressed again, every sender has
      been told once to stop, and at rest every one has. */
  lemma ShutdownIsFinal(s: Net, steps: seq<Step>, i: nat)
    requires Reachable(s) && IsRun(s, [Shutdown] + steps) && i < |Exec(s, [Shutdown] + steps).agent.runs|
    ensures var t := Exec(s, [Shutdown] + steps);
            && t.agent.closed && t.agent.dlCancel.None? && t.agent.dlWindow.None?
            && |t.agent.runs| == |s.agent.runs| && t.agent.runs[i].closes == 1
            && (Quiescent(t) ==> t.agent.runs[i].pc.Gone?)
  {
    var t := Exec(s, [Shutdown] + steps);
    assert ([Shutdown] + steps)[1..] == steps;
    ClosedRun(Next(s, Shutdown), steps);
    ReachableOn(s, [Shutdown] + steps);
    CancelClosedOnce(t, i);
    ReachableInv(t);
    if Quiescent(t) {
      QuietMeansDone(t);
    }
  }

  // ---------- the progress bar ----------

  /** A step that neither starts, ends nor cancels download sn, shows no other bar and
      delivers no error: an error takes the bar away, whatever it is about. */
  predicate Steady(s: Net, sn: nat, st: Step) {
    && st != ClickCancel && !st.OtherBar?
    && (st.BrowserRecv? && s.down != [] ==>
          !s.down[0].Error? && s.down[0] != End(sn) && !(s.down[0].Start? && s.down[0].sn == sn))
  }

  ghost predicate AllSteady(s: Net, sn: nat, steps: seq<Step>)
    requires IsRun(s, steps)
    decreases |steps|
  {
    steps == [] || (Steady(s, sn, steps[0]) && AllSteady(Next(s, steps[0]), sn, steps[1..]))
  }

  function Got(s: Net): nat {
    if s.browser.dl.Some? then |Flatten(s.browser.dl.value.parts)| else 0
  }

  /** The bar has gone as far as the bytes that came, and is otherwise the same. */
  ghost predicate Moved(s: Net, t: Net) {
    Got(t) >= Got(s) &&
    match s.browser.bar
    case NoBar => t.browser.bar == NoBar
    case DownBar(bytes, total) => t.browser.bar == DownBar(bytes + (Got(t) - Got(s)), total)
    case UpBar(bytes, total) => t.browser.bar == UpBar(bytes + (Got(t) - Got(s)), total)
  }

  lemma SteadyStep(s: Net, sn: nat, st: Step)
    requires Known(s.agent) && Enabled(s, st) && Wants(s.browser, sn) && Steady(s, sn, st)
    ensures Wants(Next(s, st).browser, sn) && Moved(s, Next(s, st))
  {
    if st.BrowserRecv? && s.down[0].Chunk? && s.down[0].sn == sn {
      var parts, body := s.browser.dl.value.parts, s.down[0].body;
      assert (parts + [body])[..|parts|] == parts;
      assert Next(s, st).browser.dl.value.parts == parts + [body];
    }
  }

  /** While download sn is under way, whatever bar the page shows moves by exactly the
      bytes that come for it, be it its own or that of an upload. */
  lemma {:induction false} BarMoves(s: Net, sn: nat, steps: seq<Step>)
    requires IsRun(s, steps) && Wants(s.browser, sn) && AllSteady(s, sn, steps)
    ensures Wants(Exec(s, steps).browser, sn) && Moved(s, Exec(s, steps))
    decreases |steps|
  {
    if steps != [] {
      SteadyStep(s, sn, steps[0]);
      BarMoves(Next(s, steps[0]), sn, steps[1..]);
    }
  }

  /** From its download-start on the page's bar shows the bytes it has of the size
      announced, as long as nothing else is shown in its place. */
  lemma BarCounts(s: Net, steps: seq<Step>)
    requires Reachable(s) && s.down != [] && s.down[0].Start? && Wants(s.browser, s.down[0].sn)
    requires IsRun(s, [BrowserRecv] + steps) && AllSteady(Next(s, BrowserRecv), s.down[0].sn, steps)
    ensures var t := Exec(s, [BrowserRecv] + steps);
            t.browser.bar == DownBar(Got(t), s.down[0].size)
  {
    ReachableInv(s);
    assert ([BrowserRecv] + steps)[1..] == steps;
    assert s.down[0] in s.down;
    assert s.browser.dl.value.parts == [];
    BarMoves(Next(s, BrowserRecv), s.down[0].sn, steps);
  }
}
