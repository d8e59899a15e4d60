/** Channel 5 downloads: the agent's sender goroutines, the browser page and the
    two ordered pipes between them, as a machine of atomic steps.

    The agent handles one browser message at a time (relayChannel.deliver and
    relayHub.close both hold the channel's lock), so a handler is one step. A
    sender goroutine shares only its window, its cancel channel and the session's
    closed channel with the handlers, and its loop is cut at each of those. */
module Download {
  import opened Wrappers
  import opened Bytes

  const MAX_FILE_CHUNK: nat := 48 * 1024
  const DL_WINDOW_DEPTH: nat := 8
  /** Sequence numbers are uint32 on the agent: a larger one fails to unmarshal. */
  const SEQ_LIMIT: nat := 0x1_0000_0000

  // ---------- agent ----------

  /** What a read reported besides its bytes. */
  datatype ReadEnd = More | Eof | Failed

  /** Where a sender goroutine stands. Holding is the gap between taking a window
      slot and sending the chunk; Gone(None) is a goroutine that saw a cancel. */
  datatype Pc =
    | Reading
    | Waiting(n: nat, end: ReadEnd)
    | Holding(n: nat, end: ReadEnd)
    | Closing(end: ReadEnd)
    | Gone(how: Option<ReadEnd>)

  /** A sender goroutine with the window and cancel channel made for it. */
  datatype Run = Run(
    sn: nat,             // the browser's sequence number
    content: seq<byte>,  // the opened file
    off: nat,            // bytes sent
    tokens: nat,         // occupancy of its window channel
    closes: nat,         // how often its cancel channel was closed
    pc: Pc)

  /** The download fields of filesSession. dlCancel and dlWindow name the run
      whose channels they hold. */
  datatype Agent = Agent(
    dlCancel: Option<nat>,
    dlWindow: Option<nat>,
    dlSeq: nat,
    runs: seq<Run>,
    closed: bool)

  datatype Msg =
    | Start(sn: nat, size: nat)
    | Chunk(sn: nat, offset: nat, body: seq<byte>)
    | End(sn: nat)
    | Error(sn: nat)

  datatype Ctrl =
    | Download(sn: nat)
    | Ack(sn: nat)
    | Cancel(sn: nat)
    | Other(sn: nat)   // list, mkdir, delete, rename and upload messages

  ghost predicate Known(a: Agent) {
    && (a.dlCancel.Some? ==> a.dlCancel.value < |a.runs|)
    && (a.dlWindow.Some? ==> a.dlWindow.value < |a.runs|)
  }

  function CloseCancel(a: Agent): Agent
    requires a.dlCancel.Some? ==> a.dlCancel.value < |a.runs|
  {
    if a.dlCancel.None? then a else
      var i := a.dlCancel.value;
      a.(runs := a.runs[i := a.runs[i].(closes := a.runs[i].closes + 1)], dlCancel := None)
  }

  function CancelActive(a: Agent): Agent
    requires a.dlCancel.Some? ==> a.dlCancel.value < |a.runs|
  {
    CloseCancel(a).(dlWindow := None)
  }

  function ShutdownDownloads(a: Agent): Agent
    requires a.dlCancel.Some? ==> a.dlCancel.value < |a.runs|
  {
    CancelActive(a).(closed := true)
  }

  function NewRun(sn: nat, content: seq<byte>): Run {
    Run(sn, content, 0, 0, 0, Reading)
  }

  /** file is the file's content, or None when it cannot be opened or is a directory. */
  function StartDownload(a: Agent, sn: nat, file: Option<seq<byte>>): (Agent, seq<Msg>)
    requires a.dlCancel.Some? ==> a.dlCancel.value < |a.runs|
  {
    var a1 := CancelActive(a);
    match file
    case None => (a1, [Error(sn)])
    case Some(content) =>
      var i := |a1.runs|;
      (a1.(dlCancel := Some(i), dlWindow := Some(i), dlSeq := sn, runs := a1.runs + [NewRun(sn, content)]),
       [Start(sn, |content|)])
  }

  /** Frees one slot of the current window, or does nothing when it is empty. */
  function DlAck(a: Agent, sn: nat): Agent
    requires a.dlWindow.Some? ==> a.dlWindow.value < |a.runs|
  {
    if a.dlWindow.None? || sn != a.dlSeq then a else
      var i := a.dlWindow.value;
      var r := a.runs[i];
      if r.tokens == 0 then a else a.(runs := a.runs[i := r.(tokens := r.tokens - 1)])
  }

  function CancelDownload(a: Agent, sn: nat): Agent
    requires a.dlCancel.Some? ==> a.dlCancel.value < |a.runs|
  {
    if a.dlCancel.Some? && a.dlSeq == sn then CancelActive(a) else a
  }

  function AgentOn(a: Agent, c: Ctrl, file: Option<seq<byte>>, fails: bool): (Agent, seq<Msg>)
    requires Known(a)
  {
    if a.closed || c.sn >= SEQ_LIMIT then (a, []) else
      match c
      case Download(sn) => StartDownload(a, sn, file)
      case Ack(sn) => (DlAck(a, sn), [])
      case Cancel(sn) => (CancelDownload(a, sn), [])
      case Other(sn) => (a, if fails then [Error(sn)] else [])
  }

  // ---------- browser ----------

  datatype Transfer = Transfer(sn: nat, size: nat, parts: seq<seq<byte>>)

  datatype Bar = NoBar | DownBar(bytes: nat, total: nat) | UpBar(bytes: nat, total: nat)

  datatype Saved = Saved(sn: nat, content: seq<byte>)

  datatype Browser = Browser(
    lastSn: nat,          // seqRef
    dl: Option<Transfer>, // downloadRef
    bar: Bar,             // transfer
    others: set<nat>,     // numbers used by requests that are not downloads
    saved: seq<Saved>)    // blobs handed to the user

  function Flatten(parts: seq<seq<byte>>): seq<byte> {
    if parts == [] then [] else Flatten(parts[..|parts| - 1]) + parts[|parts| - 1]
  }

  function Advance(bar: Bar, n: nat): Bar {
    match bar
    case NoBar => NoBar
    case DownBar(b, t) => DownBar(b + n, t)
    case UpBar(b, t) => UpBar(b + n, t)
  }

  predicate Wants(b: Browser, sn: nat) {
    b.dl.Some? && b.dl.value.sn == sn
  }

  function BrowserOn(b: Browser, m: Msg): (Browser, seq<Ctrl>) {
    match m
    case Start(sn, size) =>
      if Wants(b, sn) then
        (b.(dl := Some(b.dl.value.(size := size)), bar := DownBar(0, size)), [])
      else (b, [])
    case Chunk(sn, _, body) =>
      if Wants(b, sn) then
        (b.(dl := Some(b.dl.value.(parts := b.dl.value.parts + [body])), bar := Advance(b.bar, |body|)), [Ack(sn)])
      else (b, [])
    case End(sn) =>
      if Wants(b, sn) then
        (b.(saved := b.saved + [Saved(sn, Flatten(b.dl.value.parts))], dl := None, bar := NoBar), [])
      else (b, [])
    case Error(sn) =>
      (b.(dl := if Wants(b, sn) then None else b.dl, bar := NoBar), [])
  }

  // ---------- the whole system ----------

  /** down carries agent to browser, up carries browser to agent; both keep order. */
  datatype Net = Net(agent: Agent, browser: Browser, down: seq<Msg>, up: seq<Ctrl>)

  datatype Step =
    // the user, and code on the page outside the download path
    | ClickDownload
    | ClickCancel
    | OtherRequest(sn: nat)
    | OtherBar(bar: Bar)
    // relayHub.close
    | Shutdown
    // message delivery and the sender goroutines
    | BrowserRecv
    | AgentRecv(file: Option<seq<byte>>, fails: bool)
    | Read(i: nat, n: nat, end: ReadEnd)
    | TakeSlot(i: nat)
    | Abort(i: nat)
    | SendChunk(i: nat)
    | Finish(i: nat)

  predicate Internal(st: Step) {
    !st.ClickDownload? && !st.ClickCancel? && !st.OtherRequest? && !st.OtherBar? && !st.Shutdown?
  }

  function Init(): Net {
    Net(Agent(None, None, 0, [], false), Browser(1, None, NoBar, {}, []), [], [])
  }

  /** A read of an open file: at most one buffer, at most what is left, end of
      file exactly at the end, and never empty-handed without an end. */
  predicate ReadResult(r: Run, n: nat, end: ReadEnd) {
    && n <= MAX_FILE_CHUNK
    && r.off + n <= |r.content|
    && (end == More ==> n > 0)
    && (end == Eof ==> r.off + n == |r.content|)
  }

  predicate Enabled(s: Net, st: Step) {
    var runs := s.agent.runs;
    match st
    case ClickDownload => s.browser.dl.None?
    case ClickCancel => true
    case OtherRequest(sn) => sn == s.browser.lastSn + 1 || sn in s.browser.others
    case OtherBar(bar) => !bar.DownBar?
    case Shutdown => true
    case BrowserRecv => s.down != []
    case AgentRecv(_, _) => s.up != []
    case Read(i, n, end) => i < |runs| && runs[i].pc.Reading? && ReadResult(runs[i], n, end)
    case TakeSlot(i) => i < |runs| && runs[i].pc.Waiting? && runs[i].tokens < DL_WINDOW_DEPTH
    case Abort(i) => i < |runs| && runs[i].pc.Waiting? && (runs[i].closes > 0 || s.agent.closed)
    case SendChunk(i) => i < |runs| && runs[i].pc.Holding?
    case Finish(i) => i < |runs| && runs[i].pc.Closing?
  }

  function SetRun(s: Net, i: nat, r: Run): Net
    requires i < |s.agent.runs|
  {
    s.(agent := s.agent.(runs := s.agent.runs[i := r]))
  }

  function After(r: Run, end: ReadEnd): Run {
    r.(pc := if end == More then Reading else Closing(end))
  }

  /** Bytes n of the file from the send offset; empty when the run is past them. */
  function Slice(r: Run, n: nat): seq<byte> {
    if r.off + n <= |r.content| then r.content[r.off..r.off + n] else []
  }

  function Next(s: Net, st: Step): Net
    requires Known(s.agent) && Enabled(s, st)
  {
    var b := s.browser;
    var runs := s.agent.runs;
    match st
    case ClickDownload =>
      var sn := b.lastSn + 1;
      s.(browser := b.(lastSn := sn, dl := Some(Transfer(sn, 0, []))), up := s.up + [Download(sn)])
    case ClickCancel =>
      s.(browser := b.(dl := None, bar := NoBar),
         up := if b.dl.Some? then s.up + [Cancel(b.dl.value.sn)] else s.up)
    case OtherRequest(sn) =>
      s.(browser := b.(lastSn := if sn > b.lastSn then sn else b.lastSn, others := b.others + {sn}),
         up := s.up + [Other(sn)])
    case OtherBar(bar) => s.(browser := b.(bar := bar))
    case Shutdown => s.(agent := ShutdownDownloads(s.agent))
    case BrowserRecv =>
      var (b', out) := BrowserOn(b, s.down[0]);
      s.(browser := b', down := s.down[1..], up := s.up + out)
    case AgentRecv(file, fails) =>
      var (a', out) := AgentOn(s.agent, s.up[0], file, fails);
      s.(agent := a', up := s.up[1..], down := s.down + out)
    case Read(i, n, end) =>
      SetRun(s, i, if n > 0 then runs[i].(pc := Waiting(n, end)) else After(runs[i], end))
    case TakeSlot(i) =>
      SetRun(s, i, runs[i].(tokens := runs[i].tokens + 1, pc := Holding(runs[i].pc.n, runs[i].pc.end)))
    case Abort(i) => SetRun(s, i, runs[i].(pc := Gone(None)))
    case SendChunk(i) =>
      var r := runs[i];
      var n := r.pc.n;
      SetRun(s, i, After(r.(off := r.off + n), r.pc.end)).(down := s.down + [Chunk(r.sn, r.off, Slice(r, n))])
    case Finish(i) =>
      var r := runs[i];
      SetRun(s, i, r.(pc := Gone(Some(r.pc.end)))).
        (down := s.down + [if r.pc.end == Eof then End(r.sn) else Error(r.sn)])
  }
}
