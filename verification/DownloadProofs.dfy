/** What every reachable state of the download machine keeps: byte exactness,
    conservation of window tokens, and the termination of every download. */
module DownloadProofs {
  import opened Wrappers
  import opened Bytes
  import opened Download

  // ---------- counting what is in flight ----------

  function InFlight(down: seq<Msg>, sn: nat): seq<byte> {
    if down == [] then []
    else (if down[0].Chunk? && down[0].sn == sn then down[0].body else []) + InFlight(down[1..], sn)
  }

  function Chunks(down: seq<Msg>, sn: nat): nat {
    if down == [] then 0
    else (if down[0].Chunk? && down[0].sn == sn then 1 else 0) + Chunks(down[1..], sn)
  }

  function Acks(up: seq<Ctrl>, sn: nat): nat {
    if up == [] then 0 else (if up[0] == Ack(sn) then 1 else 0) + Acks(up[1..], sn)
  }

  lemma {:induction false} InFlightAppend(down: seq<Msg>, m: Msg, sn: nat)
    ensures InFlight(down + [m], sn)
         == InFlight(down, sn) + (if m.Chunk? && m.sn == sn then m.body else [])
  {
    if down == [] {
      assert [] + [m] == [m] && [m][1..] == [];
    } else {
      var head := if down[0].Chunk? && down[0].sn == sn then down[0].body else [];
      var last := if m.Chunk? && m.sn == sn then m.body else [];
      assert (down + [m])[1..] == down[1..] + [m];
      InFlightAppend(down[1..], m, sn);
      assert head + (InFlight(down[1..], sn) + last) == (head + InFlight(down[1..], sn)) + last;
    }
  }

  lemma {:induction false} ChunksAppend(down: seq<Msg>, m: Msg, sn: nat)
    ensures Chunks(down + [m], sn) == Chunks(down, sn) + (if m.Chunk? && m.sn == sn then 1 else 0)
  {
    if down == [] {
      assert [m][1..] == [];
    } else {
      assert (down + [m])[1..] == down[1..] + [m];
      ChunksAppend(down[1..], m, sn);
    }
  }

  lemma AcksAppend(up: seq<Ctrl>, c: Ctrl, sn: nat)
    ensures Acks(up + [c], sn) == Acks(up, sn) + (if c == Ack(sn) then 1 else 0)
  {
    if up == [] {
      assert [c][1..] == [];
    } else {
      assert (up + [c])[1..] == up[1..] + [c];
      AcksAppend(up[1..], c, sn);
    }
  }

  lemma NoChunks(down: seq<Msg>, sn: nat)
    requires forall m :: m in down && m.Chunk? ==> m.sn != sn
    ensures Chunks(down, sn) == 0 && InFlight(down, sn) == []
  {
    if down != [] {
      assert forall m :: m in down[1..] ==> m in down;
      assert down[0] in down;
      NoChunks(down[1..], sn);
    }
  }

  lemma NoAcks(up: seq<Ctrl>, sn: nat)
    requires Ack(sn) !in up
    ensures Acks(up, sn) == 0
  {
    if up != [] {
      NoAcks(up[1..], sn);
    }
  }

  // ---------- the invariant ----------

  ghost predicate RunWf(r: Run) {
    && r.off <= |r.content|
    && r.tokens <= DL_WINDOW_DEPTH
    && (r.pc.Waiting? || r.pc.Holding? ==> 0 < r.pc.n && ReadResult(r, r.pc.n, r.pc.end))
    && (r.pc.Closing? ==> r.pc.end != More && (r.pc.end == Eof ==> r.off == |r.content|))
    && (r.pc == Gone(Some(Eof)) ==> r.off == |r.content|)
    && r.pc != Gone(Some(More))
  }

  /** Only the last run can still be uncancelled, and only it is addressed; every
      other has had its cancel channel closed once. */
  ghost predicate OneActive(a: Agent) {
    && a.dlCancel == a.dlWindow
    && (a.dlCancel.Some? ==> a.dlCancel.value == |a.runs| - 1 && a.dlSeq == a.runs[|a.runs| - 1].sn)
    && (a.closed ==> a.dlCancel.None?)
    && (forall i :: 0 <= i < |a.runs| ==> RunWf(a.runs[i]))
    && (forall i :: 0 <= i < |a.runs| ==> a.runs[i].closes == (if a.dlCancel == Some(i) then 0 else 1))
  }

  /** And the page numbers its downloads upwards. */
  ghost predicate AgentWf(a: Agent) {
    && OneActive(a)
    && (forall i :: 0 <= i < |a.runs| ==> a.runs[i].sn < SEQ_LIMIT)
    && (forall i, j :: 0 <= i < j < |a.runs| ==> a.runs[i].sn < a.runs[j].sn)
  }

  ghost predicate HasRun(a: Agent, sn: nat) {
    exists i :: 0 <= i < |a.runs| && a.runs[i].sn == sn
  }

  /** Every number in sight was issued by the page, and for one purpose. */
  ghost predicate Numbered(s: Net) {
    var b := s.browser;
    && (b.dl.Some? ==> b.dl.value.sn <= b.lastSn && b.dl.value.sn !in b.others)
    && (forall x :: x in b.others ==> x <= b.lastSn)
    && (forall c :: c in s.up ==> c.sn <= b.lastSn && (c.sn in b.others <==> c.Other?))
    && (forall m :: m in s.down ==> m.sn <= b.lastSn && (m.sn in b.others ==> m.Error?))
    && (forall i :: 0 <= i < |s.agent.runs| ==> s.agent.runs[i].sn <= b.lastSn && s.agent.runs[i].sn !in b.others)
  }

  /** Requests reach the agent in the order they were numbered, and a cancel
      never overtakes the request it cancels. */
  ghost predicate UpOrder(up: seq<Ctrl>, runs: seq<Run>) {
    && (forall p, q :: 0 <= p < q < |up| && up[p].Download? && up[q].Download? ==> up[p].sn < up[q].sn)
    && (forall p, q :: 0 <= p < q < |up| && up[p].Cancel? && up[q].Download? ==> up[p].sn != up[q].sn)
    && (forall p, i :: 0 <= p < |up| && up[p].Download? && 0 <= i < |runs| ==> runs[i].sn < up[p].sn)
  }

  /** A waiting download request is the first anyone hears of its number. */
  ghost predicate UpFresh(s: Net) {
    var b, up := s.browser, s.up;
    && (forall sn :: Download(sn) in up ==> Ack(sn) !in up)
    && (forall sn, m :: Download(sn) in up && m in s.down ==> m.sn != sn)
    && (forall sn :: Download(sn) in up ==> Wants(b, sn) || Cancel(sn) in up)
    && (forall sn: nat :: Download(sn) in up && b.dl.Some? ==> sn <= b.dl.value.sn)
    && (forall sn :: Ack(sn) in up ==> HasRun(s.agent, sn))
    && (b.dl.Some? ==> Cancel(b.dl.value.sn) !in up)
  }

  ghost predicate UpWf(s: Net) {
    UpOrder(s.up, s.agent.runs) && UpFresh(s)
  }

  predicate Terminal(m: Msg) { m.End? || m.Error? }

  /** What a message says is true of the run it is about. */
  ghost predicate MsgOf(m: Msg, r: Run) {
    match m
    case Start(_, size) => size == |r.content|
    case Chunk(_, o, body) => 0 < |body| <= MAX_FILE_CHUNK && o + |body| <= r.off <= |r.content|
        && body == r.content[o..o + |body|]
    case End(_) => r.pc == Gone(Some(Eof)) && r.off == |r.content|
    case Error(_) => r.pc == Gone(Some(Failed))
  }

  ghost predicate DownWf(s: Net) {
    var down, runs := s.down, s.agent.runs;
    && (forall m :: m in down && !m.Error? ==> HasRun(s.agent, m.sn))
    && (forall m, i :: m in down && 0 <= i < |runs| && runs[i].sn == m.sn ==> MsgOf(m, runs[i]))
    && (forall p, q :: 0 <= p < q < |down| && down[p].sn == down[q].sn && down[q].sn !in s.browser.others
          ==> !Terminal(down[p]) && !down[q].Start?)
  }

  /** Byte exactness of the transfer on the page, wherever it stands. */
  ghost predicate DlWf(s: Net) {
    var b := s.browser;
    b.dl.Some? ==>
      var d := b.dl.value;
      var got := Flatten(d.parts);
      && (forall i :: 0 <= i < |s.agent.runs| && s.agent.runs[i].sn == d.sn ==>
            var r := s.agent.runs[i];
            && r.off <= |r.content|
            && got + InFlight(s.down, d.sn) == r.content[..r.off]
            && (s.agent.closed || s.agent.dlCancel == Some(i))
            && (b.bar.DownBar? ==> b.bar.total == |r.content|)
            && (r.pc == Gone(Some(Eof)) ==> End(d.sn) in s.down)
            && (r.pc == Gone(Some(Failed)) ==> Error(d.sn) in s.down))
      && (b.bar.DownBar? ==> HasRun(s.agent, d.sn) && b.bar.bytes == |got|)
      && (!HasRun(s.agent, d.sn) ==> d.parts == [])
      && (forall m :: m in s.down && m.Start? && m.sn == d.sn ==> d.parts == [])
      && (HasRun(s.agent, d.sn) || Download(d.sn) in s.up || Error(d.sn) in s.down
          || s.agent.closed || d.sn >= SEQ_LIMIT)
  }

  function Held(r: Run): nat { if r.pc.Holding? then 1 else 0 }

  /** Window tokens of the addressed run: none is lost while the page wants it. */
  ghost predicate WindowWf(s: Net) {
    s.agent.dlWindow.Some? ==>
      0 <= |s.agent.runs| - 1 == s.agent.dlWindow.value &&
      var r := s.agent.runs[|s.agent.runs| - 1];
      var out := Held(r) + Chunks(s.down, r.sn) + Acks(s.up, r.sn);
      && out <= r.tokens
      && (Wants(s.browser, r.sn) ==> out == r.tokens)
  }

  /** How an uncancelled run that the page no longer wants came to its end. */
  ghost predicate DoneWf(s: Net) {
    && (s.agent.dlCancel.Some? ==>
          0 <= |s.agent.runs| - 1 == s.agent.dlCancel.value &&
          var r := s.agent.runs[|s.agent.runs| - 1];
          && r.pc != Gone(None)
          && (|| Wants(s.browser, r.sn)
              || Cancel(r.sn) in s.up
              || (r.pc == Gone(Some(Eof)) && Saved(r.sn, r.content) in s.browser.saved)
              || r.pc == Gone(Some(Failed))))
    && (s.browser.bar.DownBar? ==> s.browser.dl.Some?)
    && (forall v :: v in s.browser.saved ==>
          && v.sn <= s.browser.lastSn
          && HasRun(s.agent, v.sn)
          && (forall i :: 0 <= i < |s.agent.runs| && s.agent.runs[i].sn == v.sn ==>
                s.agent.runs[i].content == v.content))
  }

  ghost predicate Inv(s: Net) {
    AgentWf(s.agent) && Numbered(s) && UpWf(s) && DownWf(s) && DlWf(s) && WindowWf(s) && DoneWf(s)
  }

  // ---------- every step keeps it ----------

  lemma InitInv()
    ensures Inv(Init())
  {
  }

  /** A run only moves forward, and stays ended once ended. */
  ghost predicate Advances(r: Run, r': Run) {
    && r'.sn == r.sn
    && r'.content == r.content
    && r.off <= r'.off <= |r.content|
    && (r.pc.Gone? ==> r'.pc == r.pc)
  }

  ghost predicate AllAdvance(runs: seq<Run>, runs': seq<Run>) {
    |runs'| == |runs| && forall i :: 0 <= i < |runs| ==> Advances(runs[i], runs'[i])
  }

  /** The part of the invariant about numbers, requests and messages. */
  ghost predicate QueuesWf(s: Net) {
    Numbered(s) && UpWf(s) && DownWf(s)
  }

  lemma SameRunSet(a: Agent, a': Agent)
    requires AllAdvance(a.runs, a'.runs)
    ensures forall sn :: HasRun(a, sn) <==> HasRun(a', sn)
  {
  }

  lemma AdvanceNumbered(s: Net, t: Net)
    requires Numbered(s) && t == s.(agent := t.agent) && AllAdvance(s.agent.runs, t.agent.runs)
    ensures Numbered(t)
  {
  }

  lemma AdvanceUpWf(s: Net, t: Net)
    requires UpWf(s) && t == s.(agent := t.agent) && AllAdvance(s.agent.runs, t.agent.runs)
    ensures UpWf(t)
  {
  }

  lemma AdvanceDownWf(s: Net, t: Net)
    requires DownWf(s) && t == s.(agent := t.agent) && AllAdvance(s.agent.runs, t.agent.runs)
    ensures DownWf(t)
  {
  }

  lemma AdvanceQueues(s: Net, t: Net)
    requires QueuesWf(s) && t == s.(agent := t.agent) && AllAdvance(s.agent.runs, t.agent.runs)
    ensures QueuesWf(t)
  {
    AdvanceNumbered(s, t);
    AdvanceUpWf(s, t);
    AdvanceDownWf(s, t);
  }

  lemma PushDown(s: Net, m: Msg)
    requires QueuesWf(s)
    requires m.sn <= s.browser.lastSn && (m.sn in s.browser.others ==> m.Error?)
    requires Download(m.sn) !in s.up
    requires !m.Error? ==> HasRun(s.agent, m.sn)
    requires forall i :: 0 <= i < |s.agent.runs| && s.agent.runs[i].sn == m.sn ==> MsgOf(m, s.agent.runs[i])
    requires m.sn !in s.browser.others ==> forall x :: x in s.down && x.sn == m.sn ==> !Terminal(x) && !m.Start?
    ensures QueuesWf(s.(down := s.down + [m]))
  {
    var t := s.(down := s.down + [m]);
    assert forall x :: x in t.down <==> x in s.down || x == m;
    assert Numbered(t);
    assert UpWf(t);
    assert DownWf(t);
  }

  lemma PopDown(s: Net)
    requires QueuesWf(s) && s.down != []
    ensures QueuesWf(s.(down := s.down[1..]))
  {
  }

  /** What the page may queue besides a download request. */
  ghost predicate Pushable(s: Net, c: Ctrl) {
    && c.sn <= s.browser.lastSn && (c.sn in s.browser.others <==> c.Other?)
    && (c.Ack? ==> HasRun(s.agent, c.sn) && Download(c.sn) !in s.up)
    && (c.Cancel? ==> !Wants(s.browser, c.sn))
    && !c.Download?
  }

  lemma PushUpNumbered(s: Net, c: Ctrl)
    requires Numbered(s) && Pushable(s, c)
    ensures Numbered(s.(up := s.up + [c]))
  {
    assert forall x :: x in s.up + [c] <==> x in s.up || x == c;
  }

  lemma PushUpOrder(up: seq<Ctrl>, runs: seq<Run>, c: Ctrl)
    requires UpOrder(up, runs) && !c.Download?
    ensures UpOrder(up + [c], runs)
  {
  }

  lemma PushUpFresh(s: Net, c: Ctrl)
    requires UpFresh(s) && Pushable(s, c)
    ensures UpFresh(s.(up := s.up + [c]))
  {
    assert forall x :: x in s.up + [c] <==> x in s.up || x == c;
  }

  lemma DownIgnoresUp(s: Net, up: seq<Ctrl>)
    requires DownWf(s)
    ensures DownWf(s.(up := up))
  {
  }

  lemma PushUp(s: Net, c: Ctrl)
    requires QueuesWf(s) && Pushable(s, c)
    ensures QueuesWf(s.(up := s.up + [c]))
  {
    PushUpNumbered(s, c);
    PushUpOrder(s.up, s.agent.runs, c);
    PushUpFresh(s, c);
    DownIgnoresUp(s, s.up + [c]);
  }

  lemma PopUpOrder(up: seq<Ctrl>, runs: seq<Run>)
    requires UpOrder(up, runs) && up != []
    ensures UpOrder(up[1..], runs)
  {
    assert forall p :: 0 <= p < |up[1..]| ==> up[1..][p] == up[p + 1];
  }

  /** A cancel in front is not waited for by any request behind it. */
  lemma PopUpFresh(s: Net)
    requires UpOrder(s.up, s.agent.runs) && UpFresh(s) && s.up != []
    ensures UpFresh(s.(up := s.up[1..]))
  {
    var rest := s.up[1..];
    assert forall x :: x in rest ==> x in s.up;
    assert forall x :: x in s.up ==> x == s.up[0] || x in rest;
    forall sn | Download(sn) in rest ensures s.up[0] != Cancel(sn) {
      var p :| 0 <= p < |rest| && rest[p] == Download(sn);
      assert s.up[p + 1].Download?;
    }
  }

  lemma PopUp(s: Net)
    requires QueuesWf(s) && s.up != []
    ensures QueuesWf(s.(up := s.up[1..]))
  {
    assert forall x :: x in s.up[1..] ==> x in s.up;
    PopUpOrder(s.up, s.agent.runs);
    PopUpFresh(s);
    DownIgnoresUp(s, s.up[1..]);
  }

  // ---------- steps of the page's user ----------

  lemma ClickDownloadNumbered(s: Net)
    requires Known(s.agent) && Numbered(s) && Enabled(s, ClickDownload)
    ensures Numbered(Next(s, ClickDownload))
  {
  }

  lemma ClickDownloadOrder(s: Net)
    requires Known(s.agent) && Numbered(s) && UpOrder(s.up, s.agent.runs) && Enabled(s, ClickDownload)
    ensures UpOrder(Next(s, ClickDownload).up, s.agent.runs)
  {
  }

  lemma ClickDownloadFresh(s: Net)
    requires Known(s.agent) && Numbered(s) && UpFresh(s) && Enabled(s, ClickDownload)
    ensures UpFresh(Next(s, ClickDownload))
  {
  }

  lemma ClickDownloadQueues(s: Net)
    requires Known(s.agent) && QueuesWf(s) && Enabled(s, ClickDownload)
    ensures QueuesWf(Next(s, ClickDownload))
  {
    ClickDownloadNumbered(s);
    ClickDownloadOrder(s);
    ClickDownloadFresh(s);
    assert DownWf(Next(s, ClickDownload));
  }

  lemma ClickDownloadRest(s: Net)
    requires Known(s.agent) && Numbered(s) && WindowWf(s) && DoneWf(s) && Enabled(s, ClickDownload)
    ensures DlWf(Next(s, ClickDownload)) && WindowWf(Next(s, ClickDownload)) && DoneWf(Next(s, ClickDownload))
  {
    var t := Next(s, ClickDownload);
    assert Download(t.browser.dl.value.sn) in t.up;
    assert DlWf(t);
    if s.agent.dlWindow.Some? {
      AcksAppend(s.up, Download(s.browser.lastSn + 1), s.agent.runs[|s.agent.runs| - 1].sn);
    }
    assert forall x :: x in s.up ==> x in t.up;
  }

  /** The page after it gave up on its download. */
  function CancelledNet(s: Net): Net
    requires s.browser.dl.Some?
  {
    s.(browser := s.browser.(dl := None, bar := NoBar), up := s.up + [Cancel(s.browser.dl.value.sn)])
  }

  lemma CancelNumbered(s: Net)
    requires Numbered(s) && s.browser.dl.Some?
    ensures Numbered(CancelledNet(s))
  {
    assert forall x :: x in CancelledNet(s).up <==> x in s.up || x == Cancel(s.browser.dl.value.sn);
  }

  lemma CancelFresh(s: Net)
    requires UpFresh(s) && s.browser.dl.Some?
    ensures UpFresh(CancelledNet(s))
  {
    assert forall x :: x in CancelledNet(s).up <==> x in s.up || x == Cancel(s.browser.dl.value.sn);
  }

  lemma CancelDown(s: Net)
    requires DownWf(s) && s.browser.dl.Some?
    ensures DownWf(CancelledNet(s))
  {
  }

  lemma NoBarQueues(s: Net)
    requires QueuesWf(s)
    ensures QueuesWf(s.(browser := s.browser.(bar := NoBar)))
  {
  }

  lemma ClickCancelQueues(s: Net)
    requires Known(s.agent) && QueuesWf(s)
    ensures QueuesWf(Next(s, ClickCancel))
  {
    if s.browser.dl.Some? {
      CancelNumbered(s);
      PushUpOrder(s.up, s.agent.runs, Cancel(s.browser.dl.value.sn));
      CancelFresh(s);
      CancelDown(s);
    } else {
      assert Next(s, ClickCancel) == s.(browser := s.browser.(bar := NoBar));
      NoBarQueues(s);
    }
  }

  lemma ClickCancelRest(s: Net)
    requires Known(s.agent) && WindowWf(s) && DoneWf(s)
    ensures DlWf(Next(s, ClickCancel)) && WindowWf(Next(s, ClickCancel)) && DoneWf(Next(s, ClickCancel))
  {
    var t := Next(s, ClickCancel);
    if s.browser.dl.Some? && s.agent.dlWindow.Some? {
      AcksAppend(s.up, Cancel(s.browser.dl.value.sn), s.agent.runs[|s.agent.runs| - 1].sn);
    }
    assert forall x :: x in s.up ==> x in t.up;
    assert s.browser.dl.Some? ==> Cancel(s.browser.dl.value.sn) in t.up;
  }

  lemma OtherRequestNumbered(s: Net, sn: nat)
    requires Known(s.agent) && Numbered(s) && Enabled(s, OtherRequest(sn))
    ensures Numbered(Next(s, OtherRequest(sn)))
  {
  }

  lemma OtherRequestFresh(s: Net, sn: nat)
    requires Known(s.agent) && UpFresh(s) && Enabled(s, OtherRequest(sn))
    ensures UpFresh(Next(s, OtherRequest(sn)))
  {
    assert forall x :: x in s.up + [Other(sn)] <==> x in s.up || x == Other(sn);
  }

  lemma OtherRequestUp(s: Net, sn: nat)
    requires Known(s.agent) && UpWf(s) && Enabled(s, OtherRequest(sn))
    ensures UpWf(Next(s, OtherRequest(sn)))
  {
    PushUpOrder(s.up, s.agent.runs, Other(sn));
    OtherRequestFresh(s, sn);
  }

  lemma OtherRequestQueues(s: Net, sn: nat)
    requires Known(s.agent) && QueuesWf(s) && Enabled(s, OtherRequest(sn))
    ensures QueuesWf(Next(s, OtherRequest(sn)))
  {
    OtherRequestNumbered(s, sn);
    OtherRequestUp(s, sn);
    assert DownWf(Next(s, OtherRequest(sn)));
  }

  lemma OtherRequestRest(s: Net, sn: nat)
    requires Known(s.agent) && DlWf(s) && WindowWf(s) && DoneWf(s) && Enabled(s, OtherRequest(sn))
    ensures DlWf(Next(s, OtherRequest(sn))) && WindowWf(Next(s, OtherRequest(sn))) && DoneWf(Next(s, OtherRequest(sn)))
  {
    var t := Next(s, OtherRequest(sn));
    assert forall x :: x in s.up ==> x in t.up;
    if s.agent.dlWindow.Some? {
      AcksAppend(s.up, Other(sn), s.agent.runs[|s.agent.runs| - 1].sn);
    }
  }

  lemma OtherBarQueues(s: Net, bar: Bar)
    requires Known(s.agent) && QueuesWf(s) && Enabled(s, OtherBar(bar))
    ensures QueuesWf(Next(s, OtherBar(bar)))
  {
  }

  lemma OtherBarRest(s: Net, bar: Bar)
    requires Known(s.agent) && DlWf(s) && WindowWf(s) && DoneWf(s) && Enabled(s, OtherBar(bar))
    ensures DlWf(Next(s, OtherBar(bar))) && WindowWf(Next(s, OtherBar(bar))) && DoneWf(Next(s, OtherBar(bar)))
  {
  }

  lemma UserStepInv(s: Net, st: Step)
    requires Inv(s) && Enabled(s, st) && !Internal(st) && !st.Shutdown?
    ensures Inv(Next(s, st))
  {
    match st
    case ClickDownload => ClickDownloadQueues(s); ClickDownloadRest(s);
    case ClickCancel => ClickCancelQueues(s); ClickCancelRest(s);
    case OtherRequest(sn) => OtherRequestQueues(s, sn); OtherRequestRest(s, sn);
    case OtherBar(bar) => OtherBarQueues(s, bar); OtherBarRest(s, bar);
  }

  // ---------- steps of the agent's handlers ----------

  ghost predicate CancelReady(s: Net, a: Agent) {
    && AgentWf(s.agent)
    && (a == CancelActive(s.agent) || a == ShutdownDownloads(s.agent))
    && (!a.closed ==> s.agent.dlCancel.Some? ==> !Wants(s.browser, s.agent.dlSeq))
  }

  lemma CancelActiveAgent(s: Net, a: Agent)
    requires CancelReady(s, a)
    ensures AgentWf(a) && AllAdvance(s.agent.runs, a.runs)
    ensures forall x :: HasRun(s.agent, x) <==> HasRun(a, x)
    ensures forall i :: 0 <= i < |a.runs| ==> a.runs[i] == s.agent.runs[i].(closes := a.runs[i].closes)
  {
    assert AllAdvance(s.agent.runs, a.runs);
    SameRunSet(s.agent, a);
  }

  lemma CancelActiveDl(s: Net, a: Agent)
    requires CancelReady(s, a) && DlWf(s)
    ensures DlWf(s.(agent := a))
  {
    CancelActiveAgent(s, a);
  }

  lemma CancelActiveDone(s: Net, a: Agent)
    requires CancelReady(s, a) && DoneWf(s)
    ensures DoneWf(s.(agent := a))
  {
    CancelActiveAgent(s, a);
  }

  /** Closing the addressed run's cancel channel and dropping its window. */
  lemma CancelActiveInv(s: Net, a: Agent)
    requires Inv(s)
    requires a == CancelActive(s.agent) || a == ShutdownDownloads(s.agent)
    requires !a.closed ==> s.agent.dlCancel.Some? ==> !Wants(s.browser, s.agent.dlSeq)
    ensures Inv(s.(agent := a))
  {
    CancelActiveAgent(s, a);
    CancelActiveDl(s, a);
    CancelActiveDone(s, a);
    AdvanceQueues(s, s.(agent := a));
    assert WindowWf(s.(agent := a));
  }

  lemma ShutdownInv(s: Net)
    requires Inv(s)
    ensures Inv(Next(s, Shutdown))
  {
    CancelActiveInv(s, ShutdownDownloads(s.agent));
  }

  /** Taking a message off the agent's queue when it changes no download. */
  lemma PopRest(s: Net)
    requires s.up != [] && DlWf(s) && WindowWf(s) && DoneWf(s)
    requires s.up[0].Download? ==> s.agent.closed || s.up[0].sn >= SEQ_LIMIT
    requires s.up[0].Ack? && s.agent.dlWindow.Some? ==>
      0 < |s.agent.runs| && s.up[0].sn != s.agent.runs[|s.agent.runs| - 1].sn
    requires s.up[0].Cancel? && s.agent.dlCancel.Some? ==>
      0 < |s.agent.runs| && s.up[0].sn != s.agent.runs[|s.agent.runs| - 1].sn
    ensures DlWf(s.(up := s.up[1..])) && WindowWf(s.(up := s.up[1..])) && DoneWf(s.(up := s.up[1..]))
  {
  }

  /** A message dropped because the session is closed or its number does not fit. */
  lemma DroppedInv(s: Net)
    requires Inv(s) && s.up != [] && (s.agent.closed || s.up[0].sn >= SEQ_LIMIT)
    ensures Inv(s.(up := s.up[1..]))
  {
    PopUp(s);
    PopRest(s);
  }

  lemma CancelRecvInv(s: Net, sn: nat)
    requires Inv(s) && s.up != [] && s.up[0] == Cancel(sn)
    ensures Inv(s.(agent := CancelDownload(s.agent, sn), up := s.up[1..]))
  {
    var a := CancelDownload(s.agent, sn);
    var m := s.(agent := a);
    assert !Wants(s.browser, sn);
    if a == s.agent {
      assert m == s;
    } else {
      CancelActiveInv(s, a);
    }
    PopUp(m);
    PopRest(m);
    assert m.(up := m.up[1..]) == s.(agent := a, up := s.up[1..]);
  }

  lemma OtherRecvInv(s: Net, sn: nat, fails: bool)
    requires Inv(s) && s.up != [] && s.up[0] == Other(sn)
    ensures Inv(s.(up := s.up[1..], down := s.down + if fails then [Error(sn)] else []))
  {
    var m := s.(up := s.up[1..]);
    assert Other(sn) in s.up;
    PopUp(s);
    PopRest(s);
    if fails {
      PushDown(m, Error(sn));
      ErrorRest(m, sn);
    } else {
      assert m.down + [] == m.down;
    }
  }

  /** Queueing an error reply touches neither the bytes nor the window. */
  lemma ErrorRest(s: Net, sn: nat)
    requires DlWf(s) && WindowWf(s) && DoneWf(s)
    ensures DlWf(s.(down := s.down + [Error(sn)])) && WindowWf(s.(down := s.down + [Error(sn)]))
    ensures DoneWf(s.(down := s.down + [Error(sn)]))
  {
    var t := s.(down := s.down + [Error(sn)]);
    assert forall x :: x in t.down <==> x in s.down || x == Error(sn);
    if s.browser.dl.Some? {
      InFlightAppend(s.down, Error(sn), s.browser.dl.value.sn);
    }
    if s.agent.dlWindow.Some? {
      ChunksAppend(s.down, Error(sn), s.agent.runs[|s.agent.runs| - 1].sn);
    }
  }

  // ---------- an ack frees one slot ----------

  lemma AckAgent(s: Net, sn: nat)
    requires AgentWf(s.agent)
    ensures AgentWf(DlAck(s.agent, sn)) && AllAdvance(s.agent.runs, DlAck(s.agent, sn).runs)
  {
  }

  function AckRecv(s: Net, sn: nat): Net
    requires s.up != [] && Known(s.agent)
  {
    s.(agent := DlAck(s.agent, sn), up := s.up[1..])
  }

  lemma AckDl(s: Net, sn: nat)
    requires AgentWf(s.agent) && DlWf(s) && s.up != [] && s.up[0] == Ack(sn)
    ensures DlWf(AckRecv(s, sn))
  {
  }

  lemma AckWindow(s: Net, sn: nat)
    requires AgentWf(s.agent) && WindowWf(s) && s.up != [] && s.up[0] == Ack(sn)
    ensures WindowWf(AckRecv(s, sn))
  {
  }

  lemma AckDone(s: Net, sn: nat)
    requires AgentWf(s.agent) && DoneWf(s) && s.up != [] && s.up[0] == Ack(sn)
    ensures DoneWf(AckRecv(s, sn))
  {
    var t := AckRecv(s, sn);
    AckAgent(s, sn);
    assert forall x :: x in s.up ==> x == s.up[0] || x in t.up;
    assert forall i :: 0 <= i < |s.agent.runs| ==>
        t.agent.runs[i] == s.agent.runs[i].(tokens := t.agent.runs[i].tokens);
    SavedStays(s, t);
  }

  /** What was saved stays right while runs only move forward. */
  lemma SavedStays(s: Net, t: Net)
    requires AllAdvance(s.agent.runs, t.agent.runs) && t.browser == s.browser
    requires forall v :: v in s.browser.saved ==>
               && v.sn <= s.browser.lastSn && HasRun(s.agent, v.sn)
               && (forall i :: 0 <= i < |s.agent.runs| && s.agent.runs[i].sn == v.sn ==>
                     s.agent.runs[i].content == v.content)
    ensures forall v :: v in t.browser.saved ==>
               && v.sn <= t.browser.lastSn && HasRun(t.agent, v.sn)
               && (forall i :: 0 <= i < |t.agent.runs| && t.agent.runs[i].sn == v.sn ==>
                     t.agent.runs[i].content == v.content)
  {
  }

  lemma AckRecvInv(s: Net, sn: nat)
    requires Inv(s) && s.up != [] && s.up[0] == Ack(sn)
    ensures Inv(AckRecv(s, sn))
  {
    var t := AckRecv(s, sn);
    AckAgent(s, sn);
    AckDl(s, sn);
    AckWindow(s, sn);
    AckDone(s, sn);
    PopUp(s);
    AdvanceQueues(s.(up := s.up[1..]), t);
  }

  // ---------- a download starts ----------

  /** The agent after a download request was opened, its predecessor cancelled. */
  function Started(a: Agent, sn: nat, content: seq<byte>): Agent {
    a.(dlCancel := Some(|a.runs|), dlWindow := Some(|a.runs|), dlSeq := sn, runs := a.runs + [NewRun(sn, content)])
  }

  function StartRecv(s: Net, content: seq<byte>): Net
    requires s.up != []
  {
    s.(agent := Started(s.agent, s.up[0].sn, content), up := s.up[1..],
       down := s.down + [Start(s.up[0].sn, |content|)])
  }

  ghost predicate StartReady(s: Net) {
    s.up != [] && s.up[0].Download? && s.up[0].sn < SEQ_LIMIT && !s.agent.closed && s.agent.dlCancel.None?
  }

  lemma StartedHasRun(a: Agent, sn: nat, content: seq<byte>)
    ensures forall x :: HasRun(Started(a, sn, content), x) <==> HasRun(a, x) || x == sn
  {
    var a' := Started(a, sn, content);
    assert a'.runs[|a.runs|].sn == sn;
    forall x ensures HasRun(a', x) <==> HasRun(a, x) || x == sn {
      if HasRun(a, x) {
        var i :| 0 <= i < |a.runs| && a.runs[i].sn == x;
        assert a'.runs[i].sn == x;
      }
    }
  }

  lemma StartAgent(s: Net, content: seq<byte>)
    requires AgentWf(s.agent) && UpWf(s) && StartReady(s)
    ensures AgentWf(StartRecv(s, content).agent)
  {
  }

  lemma StartNumbered(s: Net, content: seq<byte>)
    requires Numbered(s) && UpFresh(s) && StartReady(s)
    ensures Numbered(StartRecv(s, content))
  {
  }

  lemma StartUpOrder(s: Net, content: seq<byte>)
    requires UpOrder(s.up, s.agent.runs) && StartReady(s)
    ensures UpOrder(StartRecv(s, content).up, StartRecv(s, content).agent.runs)
  {
  }

  lemma StartUpMembers(s: Net, content: seq<byte>)
    requires UpOrder(s.up, s.agent.runs) && StartReady(s)
    ensures var t := StartRecv(s, content);
            && (forall x :: x in t.up ==> x in s.up)
            && (forall x :: x in s.up ==> x == s.up[0] || x in t.up)
            && Download(s.up[0].sn) !in t.up
  {
    var t := StartRecv(s, content);
    forall p | 0 <= p < |t.up|
      ensures t.up[p] != Download(s.up[0].sn)
    {
      assert t.up[p] == s.up[p + 1] && s.up[0].Download?;
    }
  }

  lemma StartUpFresh(s: Net, content: seq<byte>)
    requires UpOrder(s.up, s.agent.runs) && UpFresh(s) && StartReady(s)
    ensures UpFresh(StartRecv(s, content))
  {
    var t := StartRecv(s, content);
    StartUpMembers(s, content);
    StartedHasRun(s.agent, s.up[0].sn, content);
    StartUpFreshFrom(s, t);
  }

  lemma StartUpFreshFrom(s: Net, t: Net)
    requires UpFresh(s) && StartReady(s) && t.browser == s.browser
    requires forall x :: x in t.up ==> x in s.up
    requires forall x :: x in s.up ==> x == s.up[0] || x in t.up
    requires Download(s.up[0].sn) !in t.up
    requires forall x :: x in t.down ==> x in s.down || x.sn == s.up[0].sn
    requires forall x :: HasRun(s.agent, x) ==> HasRun(t.agent, x)
    ensures UpFresh(t)
  {
  }

  lemma StartDown(s: Net, content: seq<byte>)
    requires UpOrder(s.up, s.agent.runs) && UpFresh(s) && DownWf(s) && StartReady(s)
    ensures DownWf(StartRecv(s, content))
  {
    var t := StartRecv(s, content);
    var sn := s.up[0].sn;
    StartedHasRun(s.agent, sn, content);
    assert s.up[0] == Download(sn) && s.up[0] in s.up;
    assert forall m :: m in s.down ==> m.sn != sn;
    assert forall x :: x in t.down ==> x in s.down || x == Start(sn, |content|);
    assert forall p :: 0 <= p < |s.down| ==> t.down[p] == s.down[p] && s.down[p] in s.down;
  }

  /** A download the page wants when a request reaches the agent has not started. */
  lemma StartWanted(s: Net, content: seq<byte>)
    requires UpWf(s) && DlWf(s) && StartReady(s) && s.browser.dl.Some?
    ensures var d := s.browser.dl.value;
            !HasRun(s.agent, d.sn) && d.parts == [] && !s.browser.bar.DownBar?
  {
  }

  lemma StartDl(s: Net, content: seq<byte>)
    requires UpWf(s) && DlWf(s) && StartReady(s)
    requires forall m :: m in s.down && m.sn == s.up[0].sn ==> !m.Chunk?
    ensures DlWf(StartRecv(s, content))
  {
    if s.browser.dl.Some? {
      StartWanted(s, content);
      StartedHasRun(s.agent, s.up[0].sn, content);
      if Wants(s.browser, s.up[0].sn) {
        StartDlMine(s, content);
      } else {
        StartDlOther(s, content);
      }
    }
  }

  lemma StartDlMine(s: Net, content: seq<byte>)
    requires StartReady(s) && Wants(s.browser, s.up[0].sn)
    requires s.browser.dl.value.parts == [] && !s.browser.bar.DownBar? && !HasRun(s.agent, s.up[0].sn)
    requires HasRun(StartRecv(s, content).agent, s.up[0].sn)
    requires forall m :: m in s.down && m.sn == s.up[0].sn ==> !m.Chunk?
    ensures DlWf(StartRecv(s, content))
  {
    var sn := s.up[0].sn;
    InFlightAppend(s.down, Start(sn, |content|), sn);
    NoChunks(s.down, sn);
    assert Flatten([]) == [];
    assert forall i :: 0 <= i < |s.agent.runs| ==> s.agent.runs[i].sn != sn;
  }

  lemma StartDlOther(s: Net, content: seq<byte>)
    requires DlWf(s) && StartReady(s) && s.browser.dl.Some? && !Wants(s.browser, s.up[0].sn)
    requires s.browser.dl.value.parts == [] && !s.browser.bar.DownBar?
    requires !HasRun(s.agent, s.browser.dl.value.sn) && !HasRun(StartRecv(s, content).agent, s.browser.dl.value.sn)
    ensures DlWf(StartRecv(s, content))
  {
  }

  lemma StartWindow(s: Net, content: seq<byte>)
    requires UpFresh(s) && StartReady(s)
    ensures WindowWf(StartRecv(s, content))
  {
    var t := StartRecv(s, content);
    var sn := s.up[0].sn;
    assert s.up[0] == Download(sn) && s.up[0] in s.up;
    assert forall x :: x in t.up ==> x in s.up;
    ChunksAppend(s.down, Start(sn, |content|), sn);
    NoChunks(s.down, sn);
    NoAcks(t.up, sn);
  }

  lemma StartDone(s: Net, content: seq<byte>)
    requires AgentWf(s.agent) && UpWf(s) && DoneWf(s) && StartReady(s)
    ensures DoneWf(StartRecv(s, content))
  {
    var t := StartRecv(s, content);
    var sn := s.up[0].sn;
    StartedHasRun(s.agent, sn, content);
    assert s.up[0] == Download(sn) && s.up[0] in s.up;
    assert forall x :: x in s.up ==> x == s.up[0] || x in t.up;
    assert forall i :: 0 <= i < |s.agent.runs| ==> s.agent.runs[i].sn < sn;
  }

  lemma StartRecvInv(s: Net, content: seq<byte>)
    requires Inv(s) && StartReady(s)
    ensures Inv(StartRecv(s, content))
  {
    assert s.up[0] == Download(s.up[0].sn) && s.up[0] in s.up;
    StartAgent(s, content);
    StartNumbered(s, content);
    StartUpOrder(s, content);
    StartUpFresh(s, content);
    StartDown(s, content);
    StartDl(s, content);
    StartWindow(s, content);
    StartDone(s, content);
  }

  /** A request whose file cannot be opened is answered with an error. */
  lemma RefusedInv(s: Net)
    requires Inv(s) && StartReady(s)
    ensures Inv(s.(up := s.up[1..], down := s.down + [Error(s.up[0].sn)]))
  {
    var sn := s.up[0].sn;
    var m := s.(up := s.up[1..]);
    assert s.up[0] == Download(sn) && s.up[0] in s.up;
    PopUp(s);
    forall x | x in m.up ensures x != Download(sn) {
      var p :| 0 <= p < |m.up| && m.up[p] == x;
      assert s.up[p + 1] == x && s.up[0].Download?;
    }
    PushDown(m, Error(sn));
    RefusedRest(s);
  }

  lemma RefusedRest(s: Net)
    requires DlWf(s) && WindowWf(s) && DoneWf(s) && StartReady(s) && AgentWf(s.agent)
    ensures var t := s.(up := s.up[1..], down := s.down + [Error(s.up[0].sn)]); DlWf(t) && WindowWf(t) && DoneWf(t)
  {
  }

  /** The page asks for a new download only after giving up on the running one. */
  lemma NewerNotWanted(s: Net)
    requires AgentWf(s.agent) && UpWf(s) && s.up != [] && s.up[0].Download?
    ensures s.agent.dlCancel.Some? ==> !Wants(s.browser, s.agent.dlSeq)
  {
  }

  lemma DownloadRecvIs(s: Net, file: Option<seq<byte>>, fails: bool)
    requires Known(s.agent) && s.up != [] && s.up[0].Download? && s.up[0].sn < SEQ_LIMIT && !s.agent.closed
    ensures var m := s.(agent := CancelActive(s.agent));
            Next(s, AgentRecv(file, fails)) ==
              if file.Some? then StartRecv(m, file.value)
              else m.(up := m.up[1..], down := m.down + [Error(m.up[0].sn)])
  {
  }

  lemma DownloadRecvInv(s: Net, file: Option<seq<byte>>, fails: bool)
    requires Inv(s) && s.up != [] && s.up[0].Download? && s.up[0].sn < SEQ_LIMIT && !s.agent.closed
    ensures Inv(Next(s, AgentRecv(file, fails)))
  {
    var m := s.(agent := CancelActive(s.agent));
    NewerNotWanted(s);
    CancelActiveInv(s, m.agent);
    DownloadRecvIs(s, file, fails);
    match file
    case None => RefusedInv(m);
    case Some(content) => StartRecvInv(m, content);
  }

  lemma AgentRecvInv(s: Net, file: Option<seq<byte>>, fails: bool)
    requires Inv(s) && s.up != []
    ensures Inv(Next(s, AgentRecv(file, fails)))
  {
    var t := Next(s, AgentRecv(file, fails));
    assert s.down + [] == s.down;
    if s.agent.closed || s.up[0].sn >= SEQ_LIMIT {
      DroppedInv(s);
    } else {
      match s.up[0]
      case Download(sn) => DownloadRecvInv(s, file, fails);
      case Ack(sn) => AckRecvInv(s, sn);
      case Cancel(sn) => CancelRecvInv(s, sn);
      case Other(sn) => OtherRecvInv(s, sn, fails);
    }
  }

  // ---------- a sender goroutine moves ----------

  lemma SetRunAgent(s: Net, i: nat, r: Run)
    requires AgentWf(s.agent) && i < |s.agent.runs|
    requires Advances(s.agent.runs[i], r) && RunWf(r) && r.closes == s.agent.runs[i].closes
    ensures AgentWf(SetRun(s, i, r).agent) && AllAdvance(s.agent.runs, SetRun(s, i, r).agent.runs)
    ensures forall x :: HasRun(s.agent, x) <==> HasRun(SetRun(s, i, r).agent, x)
  {
  }

  /** A step that neither sends bytes nor ends the run. */
  lemma QuietDl(s: Net, i: nat, r: Run)
    requires AgentWf(s.agent) && DlWf(s) && i < |s.agent.runs|
    requires Advances(s.agent.runs[i], r) && RunWf(r) && r.closes == s.agent.runs[i].closes
    requires r.off == s.agent.runs[i].off && (r.pc.Gone? ==> r.pc == Gone(None))
    ensures DlWf(SetRun(s, i, r))
  {
  }

  lemma QuietDone(s: Net, i: nat, r: Run)
    requires AgentWf(s.agent) && DoneWf(s) && i < |s.agent.runs|
    requires Advances(s.agent.runs[i], r) && RunWf(r) && r.closes == s.agent.runs[i].closes
    requires r.pc == Gone(None) ==> s.agent.dlCancel != Some(i)
    ensures DoneWf(SetRun(s, i, r))
  {
    SetRunAgent(s, i, r);
  }

  lemma QuietInv(s: Net, i: nat, r: Run)
    requires Inv(s) && i < |s.agent.runs| && !s.agent.runs[i].pc.Gone?
    requires Advances(s.agent.runs[i], r) && RunWf(r) && r.closes == s.agent.runs[i].closes
    requires r.off == s.agent.runs[i].off && (r.pc.Gone? ==> r.pc == Gone(None) && s.agent.dlCancel != Some(i))
    requires r.tokens - Held(r) == s.agent.runs[i].tokens - Held(s.agent.runs[i])
    ensures Inv(SetRun(s, i, r))
  {
    SetRunAgent(s, i, r);
    AdvanceQueues(s, SetRun(s, i, r));
    QuietDl(s, i, r);
    QuietDone(s, i, r);
    QuietWindow(s, i, r);
  }

  lemma QuietWindow(s: Net, i: nat, r: Run)
    requires WindowWf(s) && i < |s.agent.runs| && r.sn == s.agent.runs[i].sn
    requires r.tokens - Held(r) == s.agent.runs[i].tokens - Held(s.agent.runs[i])
    ensures WindowWf(SetRun(s, i, r))
  {
  }

  lemma ReadInv(s: Net, i: nat, n: nat, end: ReadEnd)
    requires Inv(s) && Enabled(s, Read(i, n, end))
    ensures Inv(Next(s, Read(i, n, end)))
  {
    var r := s.agent.runs[i];
    QuietInv(s, i, if n > 0 then r.(pc := Waiting(n, end)) else After(r, end));
  }

  function Slotted(r: Run): Run
    requires r.pc.Waiting?
  {
    r.(tokens := r.tokens + 1, pc := Holding(r.pc.n, r.pc.end))
  }

  lemma SlottedWf(r: Run)
    requires RunWf(r) && r.pc.Waiting? && r.tokens < DL_WINDOW_DEPTH
    ensures Advances(r, Slotted(r)) && RunWf(Slotted(r))
    ensures Slotted(r).tokens - Held(Slotted(r)) == r.tokens - Held(r)
  {
  }

  lemma TakeSlotInv(s: Net, i: nat)
    requires Inv(s) && Enabled(s, TakeSlot(i))
    ensures Inv(Next(s, TakeSlot(i)))
  {
    SlottedWf(s.agent.runs[i]);
    QuietInv(s, i, Slotted(s.agent.runs[i]));
    TakesSlot(s, i);
  }

  lemma TakesSlot(s: Net, i: nat)
    requires Known(s.agent) && Enabled(s, TakeSlot(i))
    ensures Next(s, TakeSlot(i)) == SetRun(s, i, Slotted(s.agent.runs[i]))
  {
  }

  lemma AbortInv(s: Net, i: nat)
    requires Inv(s) && Enabled(s, Abort(i))
    ensures Inv(Next(s, Abort(i)))
  {
    QuietInv(s, i, s.agent.runs[i].(pc := Gone(None)));
  }

  // ---------- a chunk is sent ----------

  function Sent(r: Run): Run
    requires r.pc.Holding?
  {
    After(r.(off := r.off + r.pc.n), r.pc.end)
  }

  function ChunkOf(r: Run): Msg
    requires r.pc.Holding?
  {
    Chunk(r.sn, r.off, Slice(r, r.pc.n))
  }

  function SentNet(s: Net, i: nat): Net
    requires Enabled(s, SendChunk(i))
  {
    var r := s.agent.runs[i];
    SetRun(s, i, Sent(r)).(down := s.down + [ChunkOf(r)])
  }

  lemma SentWf(r: Run)
    requires RunWf(r) && r.pc.Holding?
    ensures Advances(r, Sent(r)) && RunWf(Sent(r)) && MsgOf(ChunkOf(r), Sent(r))
    ensures Sent(r).closes == r.closes && Sent(r).tokens == r.tokens
    ensures r.content[..r.off] + ChunkOf(r).body == Sent(r).content[..Sent(r).off]
  {
  }

  /** The state between advancing the send offset and queueing the chunk. */
  lemma SendMid(s: Net, i: nat)
    requires AgentWf(s.agent) && QueuesWf(s) && Enabled(s, SendChunk(i))
    ensures var m := SetRun(s, i, Sent(s.agent.runs[i])); AgentWf(m.agent) && QueuesWf(m)
  {
    SentWf(s.agent.runs[i]);
    SetRunAgent(s, i, Sent(s.agent.runs[i]));
    AdvanceQueues(s, SetRun(s, i, Sent(s.agent.runs[i])));
  }

  lemma SendQueues(s: Net, i: nat)
    requires AgentWf(s.agent) && QueuesWf(s) && Enabled(s, SendChunk(i))
    ensures QueuesWf(SentNet(s, i))
  {
    var r := s.agent.runs[i];
    SendMid(s, i);
    SendReady(s, i);
    SentWf(r);
    SendPush(SetRun(s, i, Sent(r)), s, i);
  }

  lemma SendPush(m: Net, s: Net, i: nat)
    requires Enabled(s, SendChunk(i)) && m == SetRun(s, i, Sent(s.agent.runs[i]))
    requires AgentWf(m.agent) && QueuesWf(m) && MsgOf(ChunkOf(s.agent.runs[i]), m.agent.runs[i])
    requires var sn := s.agent.runs[i].sn;
             && Download(sn) !in s.up && sn !in s.browser.others && sn <= s.browser.lastSn
             && forall x :: x in s.down && x.sn == sn ==> !Terminal(x)
    ensures QueuesWf(SentNet(s, i))
  {
    PushOwn(m, i, ChunkOf(s.agent.runs[i]));
  }

  /** Queueing a message of the run at i. */
  lemma PushOwn(s: Net, i: nat, m: Msg)
    requires AgentWf(s.agent) && QueuesWf(s) && i < |s.agent.runs| && m.sn == s.agent.runs[i].sn
    requires MsgOf(m, s.agent.runs[i]) && !m.Start? && Download(m.sn) !in s.up
    requires m.sn !in s.browser.others && m.sn <= s.browser.lastSn
    requires forall x :: x in s.down && x.sn == m.sn ==> !Terminal(x)
    ensures QueuesWf(s.(down := s.down + [m]))
  {
    forall k | 0 <= k < |s.agent.runs| && s.agent.runs[k].sn == m.sn ensures MsgOf(m, s.agent.runs[k]) {
      assert k == i;
    }
    assert HasRun(s.agent, m.sn);
    PushDown(s, m);
  }

  /** A live run's number is in no waiting request and on no final message. */
  lemma SendReady(s: Net, i: nat)
    requires QueuesWf(s) && i < |s.agent.runs| && !s.agent.runs[i].pc.Gone?
    ensures Download(s.agent.runs[i].sn) !in s.up
    ensures s.agent.runs[i].sn !in s.browser.others && s.agent.runs[i].sn <= s.browser.lastSn
    ensures forall x :: x in s.down && x.sn == s.agent.runs[i].sn ==> !Terminal(x)
  {
  }

  /** No other run has the number of run i. */
  lemma Alone(a: Agent, i: nat)
    requires AgentWf(a) && i < |a.runs|
    ensures forall k :: 0 <= k < |a.runs| && k != i ==> a.runs[k].sn != a.runs[i].sn
  {
  }

  /** Run i moves to r and says m, and the page wants another download. */
  lemma MovedOther(s: Net, i: nat, r: Run, m: Msg)
    requires DlWf(s) && s.browser.dl.Some? && i < |s.agent.runs|
    requires r.sn == s.agent.runs[i].sn == m.sn && r.sn != s.browser.dl.value.sn && !m.Start?
    ensures DlWf(SetRun(s, i, r).(down := s.down + [m]))
  {
    var t := SetRun(s, i, r).(down := s.down + [m]);
    var sn := s.browser.dl.value.sn;
    InFlightAppend(s.down, m, sn);
    assert forall x :: x in t.down <==> x in s.down || x == m;
    assert forall k :: 0 <= k < |t.agent.runs| && t.agent.runs[k].sn == sn ==> t.agent.runs[k] == s.agent.runs[k];
    SameNumbers(s, i, r, sn);
  }

  lemma SameNumbers(s: Net, i: nat, r: Run, sn: nat)
    requires i < |s.agent.runs| && r.sn == s.agent.runs[i].sn
    ensures HasRun(s.agent, sn) <==> HasRun(SetRun(s, i, r).agent, sn)
  {
    var runs := SetRun(s, i, r).agent.runs;
    assert forall k :: 0 <= k < |runs| ==> runs[k].sn == s.agent.runs[k].sn;
  }

  /** Run i moves to r and says m, and it is the one the page wants. */
  lemma MovedMine(s: Net, i: nat, r: Run, m: Msg)
    requires DlWf(s) && s.browser.dl.Some? && i < |s.agent.runs|
    requires r.sn == s.agent.runs[i].sn == m.sn == s.browser.dl.value.sn && !m.Start?
    requires forall k :: 0 <= k < |s.agent.runs| && k != i ==> s.agent.runs[k].sn != r.sn
    requires r.content == s.agent.runs[i].content && r.off <= |r.content|
    requires Flatten(s.browser.dl.value.parts) + InFlight(s.down + [m], m.sn) == r.content[..r.off]
    requires (r.pc == Gone(Some(Eof)) ==> m.End?) && (r.pc == Gone(Some(Failed)) ==> m.Error?)
    ensures DlWf(SetRun(s, i, r).(down := s.down + [m]))
  {
    var t := SetRun(s, i, r).(down := s.down + [m]);
    assert forall x :: x in t.down <==> x in s.down || x == m;
    SameNumbers(s, i, r, m.sn);
    assert s.agent.runs[i].sn == m.sn;
  }

  lemma SendDl(s: Net, i: nat)
    requires AgentWf(s.agent) && DlWf(s) && Enabled(s, SendChunk(i))
    ensures DlWf(SentNet(s, i))
  {
    var r := s.agent.runs[i];
    if s.browser.dl.Some? {
      Alone(s.agent, i);
      SentWf(r);
      if Wants(s.browser, r.sn) {
        SendDlBytes(s, i);
        MovedMine(s, i, Sent(r), ChunkOf(r));
      } else {
        MovedOther(s, i, Sent(r), ChunkOf(r));
      }
    }
  }

  lemma SendDlBytes(s: Net, i: nat)
    requires DlWf(s) && Enabled(s, SendChunk(i)) && RunWf(s.agent.runs[i]) && Wants(s.browser, s.agent.runs[i].sn)
    ensures var r := s.agent.runs[i];
            Flatten(s.browser.dl.value.parts) + InFlight(s.down + [ChunkOf(r)], r.sn) == Sent(r).content[..Sent(r).off]
  {
    var r := s.agent.runs[i];
    var got, flight := Flatten(s.browser.dl.value.parts), InFlight(s.down, r.sn);
    SentWf(r);
    InFlightAppend(s.down, ChunkOf(r), r.sn);
    assert got + flight == r.content[..r.off];
    assert got + (flight + ChunkOf(r).body) == (got + flight) + ChunkOf(r).body;
  }

  lemma SendWindow(s: Net, i: nat)
    requires AgentWf(s.agent) && WindowWf(s) && Enabled(s, SendChunk(i))
    ensures WindowWf(SentNet(s, i))
  {
    if s.agent.dlWindow.Some? {
      ChunksAppend(s.down, ChunkOf(s.agent.runs[i]), s.agent.runs[|s.agent.runs| - 1].sn);
    }
  }

  lemma DoneIgnoresDown(s: Net, down: seq<Msg>)
    requires DoneWf(s)
    ensures DoneWf(s.(down := down))
  {
  }

  lemma SendAgent(s: Net, i: nat)
    requires AgentWf(s.agent) && Enabled(s, SendChunk(i))
    ensures AgentWf(SentNet(s, i).agent)
  {
  }

  lemma SendDone(s: Net, i: nat)
    requires AgentWf(s.agent) && DoneWf(s) && Enabled(s, SendChunk(i))
    ensures DoneWf(SentNet(s, i))
  {
    var m := SetRun(s, i, Sent(s.agent.runs[i]));
    SentWf(s.agent.runs[i]);
    QuietDone(s, i, Sent(s.agent.runs[i]));
    DoneIgnoresDown(m, s.down + [ChunkOf(s.agent.runs[i])]);
  }

  lemma SendChunkInv(s: Net, i: nat)
    requires Inv(s) && Enabled(s, SendChunk(i))
    ensures Inv(SentNet(s, i))
  {
    SendQueues(s, i);
    SendDl(s, i);
    SendWindow(s, i);
    SendDone(s, i);
    SendAgent(s, i);
  }

  // ---------- a run ends ----------

  function Ended(r: Run): Run
    requires r.pc.Closing?
  {
    r.(pc := Gone(Some(r.pc.end)))
  }

  function Farewell(r: Run): Msg
    requires r.pc.Closing?
  {
    if r.pc.end == Eof then End(r.sn) else Error(r.sn)
  }

  function FinishedNet(s: Net, i: nat): Net
    requires Enabled(s, Finish(i))
  {
    var r := s.agent.runs[i];
    SetRun(s, i, Ended(r)).(down := s.down + [Farewell(r)])
  }

  lemma FinishQueues(s: Net, i: nat)
    requires AgentWf(s.agent) && QueuesWf(s) && Enabled(s, Finish(i))
    ensures QueuesWf(FinishedNet(s, i))
  {
    var r := s.agent.runs[i];
    var m := SetRun(s, i, Ended(r));
    SetRunAgent(s, i, Ended(r));
    AdvanceQueues(s, m);
    SendReady(s, i);
    forall k | 0 <= k < |m.agent.runs| && m.agent.runs[k].sn == r.sn ensures MsgOf(Farewell(r), m.agent.runs[k]) {
      assert k == i;
    }
    assert m.agent.runs[i].sn == r.sn;
    PushDown(m, Farewell(r));
  }

  lemma FinishDl(s: Net, i: nat)
    requires AgentWf(s.agent) && DlWf(s) && Enabled(s, Finish(i))
    ensures DlWf(FinishedNet(s, i))
  {
    var r := s.agent.runs[i];
    if s.browser.dl.Some? {
      Alone(s.agent, i);
      assert RunWf(r);
      if Wants(s.browser, r.sn) {
        InFlightAppend(s.down, Farewell(r), r.sn);
        MovedMine(s, i, Ended(r), Farewell(r));
      } else {
        MovedOther(s, i, Ended(r), Farewell(r));
      }
    }
  }

  lemma FinishWindow(s: Net, i: nat)
    requires AgentWf(s.agent) && WindowWf(s) && Enabled(s, Finish(i))
    ensures WindowWf(FinishedNet(s, i))
  {
    if s.agent.dlWindow.Some? {
      ChunksAppend(s.down, Farewell(s.agent.runs[i]), s.agent.runs[|s.agent.runs| - 1].sn);
    }
  }

  lemma FinishDone(s: Net, i: nat)
    requires AgentWf(s.agent) && DoneWf(s) && Enabled(s, Finish(i))
    ensures AgentWf(FinishedNet(s, i).agent) && DoneWf(FinishedNet(s, i))
  {
    SetRunAgent(s, i, Ended(s.agent.runs[i]));
    QuietDone(s, i, Ended(s.agent.runs[i]));
    DoneIgnoresDown(SetRun(s, i, Ended(s.agent.runs[i])), FinishedNet(s, i).down);
  }

  lemma FinishInv(s: Net, i: nat)
    requires Inv(s) && Enabled(s, Finish(i))
    ensures Inv(FinishedNet(s, i))
  {
    FinishQueues(s, i);
    FinishDl(s, i);
    FinishWindow(s, i);
    FinishDone(s, i);
  }

  // ---------- a message reaches the page ----------

  function Received(s: Net): Net
    requires s.down != []
  {
    var (b', out) := BrowserOn(s.browser, s.down[0]);
    s.(browser := b', down := s.down[1..], up := s.up + out)
  }

  /** The page's record changes in ways the queues do not notice. */
  lemma BrowserQueues(s: Net, b: Browser)
    requires QueuesWf(s)
    requires b.lastSn == s.browser.lastSn && b.others == s.browser.others
    requires forall sn :: Wants(b, sn) <==> Wants(s.browser, sn)
    ensures QueuesWf(s.(browser := b))
  {
    BrowserUp(s, b);
    BrowserNumbered(s, b);
    assert DownWf(s.(browser := b));
  }

  lemma BrowserUp(s: Net, b: Browser)
    requires UpWf(s)
    requires forall sn :: Wants(b, sn) <==> Wants(s.browser, sn)
    ensures UpWf(s.(browser := b))
  {
    assert b.dl.Some? ==> Wants(b, b.dl.value.sn);
  }

  lemma BrowserNumbered(s: Net, b: Browser)
    requires Numbered(s)
    requires b.lastSn == s.browser.lastSn && b.others == s.browser.others
    requires b.dl.Some? ==> Wants(s.browser, b.dl.value.sn)
    ensures Numbered(s.(browser := b))
  {
  }

  /** The page lets go of a download that has already started or been refused. */
  lemma DropDlQueues(s: Net, b: Browser)
    requires QueuesWf(s) && b.dl.None?
    requires b.lastSn == s.browser.lastSn && b.others == s.browser.others
    requires s.browser.dl.Some? ==> Download(s.browser.dl.value.sn) !in s.up
    ensures QueuesWf(s.(browser := b))
  {
  }

  lemma ReceivedQueues(s: Net)
    requires QueuesWf(s) && s.down != []
    ensures QueuesWf(Received(s))
  {
    var m := s.down[0];
    var (b', out) := BrowserOn(s.browser, m);
    var p := s.(down := s.down[1..]);
    assert m in s.down;
    PopDown(s);
    assert s.up + [] == s.up;
    if Wants(s.browser, m.sn) && Terminal(m) {
      DropDlQueues(p, b');
    } else {
      BrowserQueues(p, b');
      if m.Chunk? && Wants(s.browser, m.sn) {
        PushUp(p.(browser := b'), Ack(m.sn));
      }
    }
  }

  lemma ReceivedDl(s: Net)
    requires QueuesWf(s) && DlWf(s) && s.down != []
    ensures DlWf(Received(s))
  {
    var m := s.down[0];
    assert m in s.down;
    if !Wants(s.browser, m.sn) {
      SkippedDl(s);
    } else if m.Chunk? {
      ChunkDl(s);
    } else if m.Start? {
      StartedDl(s);
    }
  }

  lemma SkippedDl(s: Net)
    requires DlWf(s) && s.down != [] && !Wants(s.browser, s.down[0].sn)
    ensures DlWf(Received(s))
  {
  }

  lemma ChunkDl(s: Net)
    requires Numbered(s) && DownWf(s) && DlWf(s) && s.down != [] && s.down[0].Chunk? && Wants(s.browser, s.down[0].sn)
    ensures DlWf(Received(s))
  {
    assert s.down[0] in s.down && HasRun(s.agent, s.browser.dl.value.sn);
    ChunkBytes(s);
    ChunkMembers(s);
    ChunkDlFrom(s, Received(s), s.down[0].body);
  }

  lemma ChunkMembers(s: Net)
    requires DownWf(s) && s.down != [] && s.down[0].Chunk? && s.down[0].sn !in s.browser.others
    ensures forall x :: x in s.down[1..] ==> x in s.down
    ensures forall x :: x in s.down ==> x == s.down[0] || x in s.down[1..]
    ensures forall x :: x in s.down[1..] && x.Start? ==> x.sn != s.down[0].sn
  {
    var rest := s.down[1..];
    forall x | x in rest && x.Start?
      ensures x.sn != s.down[0].sn
    {
      var p :| 0 <= p < |rest| && rest[p] == x;
      assert s.down[p + 1] == x;
    }
  }

  /** The bytes moved from the pipe to the page. */
  lemma ChunkDlFrom(s: Net, t: Net, body: seq<byte>)
    requires DlWf(s) && s.browser.dl.Some? && HasRun(s.agent, s.browser.dl.value.sn) && t.agent == s.agent
    requires var d := s.browser.dl.value;
             && t.browser.dl == Some(d.(parts := d.parts + [body]))
             && t.browser.bar == Advance(s.browser.bar, |body|)
             && Flatten(d.parts + [body]) == Flatten(d.parts) + body
             && Flatten(d.parts + [body]) + InFlight(t.down, d.sn) == Flatten(d.parts) + InFlight(s.down, d.sn)
             && (forall x :: x in t.down && x.Start? ==> x.sn != d.sn)
             && forall x :: x in s.down ==> x.Chunk? || x in t.down
    ensures DlWf(t)
  {
  }

  /** The page's bytes and the bytes in flight trade places. */
  lemma ChunkBytes(s: Net)
    requires s.down != [] && s.down[0].Chunk? && Wants(s.browser, s.down[0].sn)
    ensures var t := Received(s); var d := s.browser.dl.value;
            && Flatten(t.browser.dl.value.parts) == Flatten(d.parts) + s.down[0].body
            && Flatten(t.browser.dl.value.parts) + InFlight(t.down, d.sn) == Flatten(d.parts) + InFlight(s.down, d.sn)
  {
  }

  lemma StartedDl(s: Net)
    requires DownWf(s) && DlWf(s) && s.down != [] && s.down[0].Start? && Wants(s.browser, s.down[0].sn)
    ensures DlWf(Received(s))
  {
    var t := Received(s);
    var m := s.down[0];
    assert m in s.down && HasRun(s.agent, m.sn);
    assert t.browser.dl.value.parts == [];
    assert Flatten([]) == [];
    assert InFlight(t.down, m.sn) == InFlight(s.down, m.sn);
    assert forall x :: x in s.down ==> x == m || x in t.down;
  }

  lemma ReceivedWindow(s: Net)
    requires WindowWf(s) && s.down != []
    ensures WindowWf(Received(s))
  {
    var m := s.down[0];
    assert s.up + [] == s.up;
    if s.agent.dlWindow.Some? {
      AcksAppend(s.up, Ack(m.sn), s.agent.runs[|s.agent.runs| - 1].sn);
    }
  }

  lemma ReceivedDone(s: Net)
    requires AgentWf(s.agent) && QueuesWf(s) && DlWf(s) && DoneWf(s) && s.down != []
    ensures DoneWf(Received(s))
  {
    var m := s.down[0];
    assert m in s.down;
    assert forall x :: x in s.up ==> x in Received(s).up;
    if Wants(s.browser, m.sn) && m.End? {
      SavedExact(s);
      SavedDone(s);
    } else if Wants(s.browser, m.sn) && m.Error? {
      FailedDone(s);
    }
  }

  /** When the end is handled, the parts on the page are the whole file and a
      progress bar still on this download shows the announced size. */
  lemma SavedExact(s: Net)
    requires QueuesWf(s) && DlWf(s) && s.down != [] && s.down[0].End? && Wants(s.browser, s.down[0].sn)
    ensures HasRun(s.agent, s.down[0].sn)
    ensures forall i :: 0 <= i < |s.agent.runs| && s.agent.runs[i].sn == s.down[0].sn ==>
              && s.agent.runs[i].pc == Gone(Some(Eof))
              && Flatten(s.browser.dl.value.parts) == s.agent.runs[i].content
              && (s.browser.bar.DownBar? ==>
                    s.browser.bar.bytes == s.browser.bar.total == |s.agent.runs[i].content|)
  {
    var sn := s.down[0].sn;
    assert s.down[0] in s.down;
    assert InFlight(s.down, sn) == [] by {
      forall m | m in s.down && m.Chunk? ensures m.sn != sn {
        var p :| 0 <= p < |s.down| && s.down[p] == m;
        assert p > 0 && sn !in s.browser.others;
      }
      NoChunks(s.down, sn);
    }
    forall i | 0 <= i < |s.agent.runs| && s.agent.runs[i].sn == sn
      ensures s.agent.runs[i].pc == Gone(Some(Eof)) && Flatten(s.browser.dl.value.parts) == s.agent.runs[i].content
    {
      assert MsgOf(s.down[0], s.agent.runs[i]);
      assert s.agent.runs[i].content[..|s.agent.runs[i].content|] == s.agent.runs[i].content;
    }
  }

  lemma SavedDone(s: Net)
    requires AgentWf(s.agent) && DlWf(s) && QueuesWf(s) && DoneWf(s)
    requires s.down != [] && s.down[0].End? && Wants(s.browser, s.down[0].sn)
    ensures DoneWf(Received(s))
  {
    var t := Received(s);
    var sn := s.down[0].sn;
    SavedExact(s);
    var v := Saved(sn, Flatten(s.browser.dl.value.parts));
    assert t.browser.saved == s.browser.saved + [v];
    assert forall x :: x in s.up ==> x in t.up;
    assert forall x :: x in t.browser.saved <==> x in s.browser.saved || x == v;
  }

  lemma FailedDone(s: Net)
    requires AgentWf(s.agent) && DownWf(s) && DoneWf(s)
    requires s.down != [] && s.down[0].Error? && Wants(s.browser, s.down[0].sn)
    ensures DoneWf(Received(s))
  {
  }

  lemma BrowserRecvInv(s: Net)
    requires Inv(s) && s.down != []
    ensures Inv(Next(s, BrowserRecv))
  {
    ReceivedQueues(s);
    ReceivedDl(s);
    ReceivedWindow(s);
    ReceivedDone(s);
    assert Next(s, BrowserRecv) == Received(s);
  }

  // ---------- every reachable state ----------

  lemma SenderSteps(s: Net, i: nat)
    requires Known(s.agent)
    ensures Enabled(s, SendChunk(i)) ==> Next(s, SendChunk(i)) == SentNet(s, i)
    ensures Enabled(s, Finish(i)) ==> Next(s, Finish(i)) == FinishedNet(s, i)
  {
  }

  lemma StepInv(s: Net, st: Step)
    requires Inv(s) && Enabled(s, st)
    ensures Inv(Next(s, st))
  {
    match st
    case BrowserRecv => BrowserRecvInv(s);
    case AgentRecv(file, fails) => AgentRecvInv(s, file, fails);
    case Read(i, n, end) => ReadInv(s, i, n, end);
    case TakeSlot(i) => TakeSlotInv(s, i);
    case Abort(i) => AbortInv(s, i);
    case SendChunk(i) => SenderSteps(s, i); SendChunkInv(s, i);
    case Finish(i) => SenderSteps(s, i); FinishInv(s, i);
    case Shutdown => ShutdownInv(s);
    case _ => UserStepInv(s, st);
  }
}
