/** Channel 5 uploads: the agent's handlers over a disk, and the page's slicing. */
module Upload {
  import opened Wrappers
  import opened Bytes

  type Path = string
  type Disk = map<Path, seq<byte>>

  /** filepath.Clean as far as it matters here: it never yields an empty path, so
      startUpload's test for one never fires. */
  function Clean(path: Path): (c: Path)
    ensures c != ""
  {
    if path == "" then "." else path
  }

  /** The up* fields of filesSession; temp names the open temporary file. */
  datatype Active = Active(temp: Option<Path>, final: Path, sn: nat, got: nat)

  const IDLE: Active := Active(None, "", 0, 0)

  datatype Files = Files(disk: Disk, up: Active)

  datatype Reply =
    | UploadAck(sn: nat)
    | UploadProgress(sn: nat, received: nat)
    | UploadOk(sn: nat, size: nat)
    | UploadError(sn: nat)

  /** One message from the page with the outcome of the file operations it causes. */
  datatype Op =
    // created is the name CreateTemp made, None when it failed; dropped tells
    // whether removing a previous temporary file worked
    | Begin(sn: nat, path: Path, created: Option<Path>, dropped: bool)
    // raw is None when the base64 text is malformed; written < |raw| is a failed write
    | Data(sn: nat, raw: Option<seq<byte>>, written: nat, dropped: bool)
    | Done(sn: nat, removed: bool, renamed: bool, dropped: bool)
    | CancelUpload(sn: nat, dropped: bool)
    | Close(dropped: bool)

  function Remove(disk: Disk, path: Path, works: bool): Disk {
    if works then disk - {path} else disk
  }

  function Rename(disk: Disk, src: Path, dst: Path): Disk
    requires src in disk
  {
    (disk - {src})[dst := disk[src]]
  }

  predicate Matches(up: Active, sn: nat) {
    up.temp.Some? && up.sn == sn
  }

  /** dropUpload, and the upload half of shutdown. */
  function DropUpload(f: Files, dropped: bool): Files {
    Files(if f.up.temp.Some? then Remove(f.disk, f.up.temp.value, dropped) else f.disk, IDLE)
  }

  function StartUpload(f: Files, sn: nat, path: Path, created: Option<Path>, dropped: bool): (Files, seq<Reply>) {
    var f1 := DropUpload(f, dropped);
    if created.None? then (f1, [UploadError(sn)])
    else (Files(f1.disk[created.value := []], Active(created, Clean(path), sn, 0)), [UploadAck(sn)])
  }

  function UploadData(f: Files, sn: nat, raw: Option<seq<byte>>, written: nat, dropped: bool): (Files, seq<Reply>) {
    if !Matches(f.up, sn) then (f, [])
    else if raw.None? then (f, [UploadError(sn)])
    else
      var t := f.up.temp.value;
      var have := if t in f.disk then f.disk[t] else [];
      var n := if written < |raw.value| then written else |raw.value|;
      var disk := f.disk[t := have + raw.value[..n]];
      if n < |raw.value| then (DropUpload(Files(disk, f.up), dropped), [UploadError(sn)])
      else
        var got := f.up.got + n;
        (Files(disk, f.up.(got := got)), [UploadProgress(sn, got)])
  }

  /** The active upload is cleared before the number is compared. */
  function UploadDone(f: Files, sn: nat, removed: bool, renamed: bool, dropped: bool): (Files, seq<Reply>) {
    if !Matches(f.up, sn) then (Files(f.disk, IDLE), [])
    else
      var t, final := f.up.temp.value, f.up.final;
      var disk := if final in f.disk then Remove(f.disk, final, removed) else f.disk;
      if renamed && t in disk then (Files(Rename(disk, t, final), IDLE), [UploadOk(sn, f.up.got)])
      else (Files(Remove(disk, t, dropped), IDLE), [UploadError(sn)])
  }

  function UploadCancel(f: Files, sn: nat, dropped: bool): Files {
    if Matches(f.up, sn) then DropUpload(f, dropped) else f
  }

  function Step(f: Files, op: Op): (Files, seq<Reply>) {
    match op
    case Begin(sn, path, created, dropped) => StartUpload(f, sn, path, created, dropped)
    case Data(sn, raw, written, dropped) => UploadData(f, sn, raw, written, dropped)
    case Done(sn, removed, renamed, dropped) => UploadDone(f, sn, removed, renamed, dropped)
    case CancelUpload(sn, dropped) => (UploadCancel(f, sn, dropped), [])
    case Close(dropped) => (DropUpload(f, dropped), [])
  }

  /** The only demand on the world: CreateTemp makes a file that did not exist,
      under a name nobody asked to upload to. */
  predicate Plausible(f: Files, op: Op) {
    op.Begin? && op.created.Some? ==> op.created.value !in f.disk && op.created.value != Clean(op.path)
  }

  // ---------- what the page has sent ----------

  /** The upload a history of messages leaves open: its number, where it should
      go, its temporary file and the bytes accepted for it, in order. */
  datatype Sent = Sent(sn: nat, path: Path, temp: Path, bytes: seq<byte>)

  function OpenUpload(ops: seq<Op>): Option<Sent> {
    if ops == [] then None else OpenAfter(OpenUpload(ops[..|ops| - 1]), ops[|ops| - 1])
  }

  /** One more message. */
  function OpenAfter(before: Option<Sent>, op: Op): Option<Sent> {
    match op
    case Begin(sn, path, created, _) =>
      if created.Some? then Some(Sent(sn, Clean(path), created.value, [])) else None
    case Data(sn, raw, written, _) =>
      if before.None? || before.value.sn != sn || raw.None? then before
      else if written < |raw.value| then None
      else Some(before.value.(bytes := before.value.bytes + raw.value))
    case Done(_, _, _, _) => None
    case CancelUpload(sn, _) => if before.Some? && before.value.sn == sn then None else before
    case Close(_) => None
  }

  // ---------- runs ----------

  function Exec(f: Files, ops: seq<Op>): Files {
    if ops == [] then f else Step(Exec(f, ops[..|ops| - 1]), ops[|ops| - 1]).0
  }

  predicate IsRun(f: Files, ops: seq<Op>) {
    ops == [] || (IsRun(f, ops[..|ops| - 1]) && Plausible(Exec(f, ops[..|ops| - 1]), ops[|ops| - 1]))
  }

  function Temps(ops: seq<Op>): set<Path> {
    set k | 0 <= k < |ops| && ops[k].Begin? && ops[k].created.Some? :: ops[k].created.value
  }

  /** The agent's fields and its temporary file are what the page has sent. */
  ghost predicate Tracks(f: Files, open: Option<Sent>) {
    match open
    case None => f.up.temp.None?
    case Some(u) =>
      && f.up == Active(Some(u.temp), u.path, u.sn, |u.bytes|)
      && u.temp != u.path && u.temp in f.disk && f.disk[u.temp] == u.bytes
  }

  /** Every handler keeps it. */
  lemma StepTracks(f: Files, open: Option<Sent>, op: Op)
    requires Tracks(f, open) && Plausible(f, op)
    ensures Tracks(Step(f, op).0, OpenAfter(open, op))
  {
  }

  lemma {:induction false} UploadTracks(disk: Disk, ops: seq<Op>)
    requires IsRun(Files(disk, IDLE), ops)
    ensures Tracks(Exec(Files(disk, IDLE), ops), OpenUpload(ops))
    ensures OpenUpload(ops).Some? ==> OpenUpload(ops).value.temp in Temps(ops)
  {
    if ops != [] {
      var pre := ops[..|ops| - 1];
      UploadTracks(disk, pre);
      StepTracks(Exec(Files(disk, IDLE), pre), OpenUpload(pre), ops[|ops| - 1]);
      assert forall k :: 0 <= k < |pre| ==> pre[k] == ops[k];
      assert Temps(pre) <= Temps(ops);
    }
  }

  /** A matching upload-done whose rename works. */
  lemma DoneReplaces(f: Files, u: Sent, removed: bool, dropped: bool)
    requires Tracks(f, Some(u))
    ensures var (f', replies) := UploadDone(f, u.sn, removed, true, dropped);
            && replies == [UploadOk(u.sn, |u.bytes|)]
            && u.path in f'.disk && f'.disk[u.path] == u.bytes && u.temp !in f'.disk
            && forall p :: p != u.path && p != u.temp ==>
                 (p in f'.disk <==> p in f.disk) && (p in f.disk ==> f'.disk[p] == f.disk[p])
  {
  }

  /** upload-ok exactly when a matching upload-done could rename: then the target
      holds exactly the accepted slices in order, the reported size is their
      length, the temporary name is gone and no other path changed. */
  lemma UploadExact(disk: Disk, ops: seq<Op>, op: Op)
    requires IsRun(Files(disk, IDLE), ops) && op.Done?
    ensures var f := Exec(Files(disk, IDLE), ops);
            var (f', replies) := Step(f, op);
            var open := OpenUpload(ops);
            && (open.Some? && open.value.sn == op.sn && op.renamed ==>
                  var u := open.value;
                  && replies == [UploadOk(op.sn, |u.bytes|)]
                  && u.path in f'.disk && f'.disk[u.path] == u.bytes
                  && u.temp !in f'.disk
                  && forall p :: p != u.path && p != u.temp ==>
                       (p in f'.disk <==> p in f.disk) && (p in f.disk ==> f'.disk[p] == f.disk[p]))
            && (forall r :: r in replies && r.UploadOk? ==>
                  open.Some? && open.value.sn == op.sn && op.renamed)
  {
    UploadTracks(disk, ops);
    var open := OpenUpload(ops);
    if open.Some? && open.value.sn == op.sn && op.renamed {
      DoneReplaces(Exec(Files(disk, IDLE), ops), open.value, op.removed, op.dropped);
    }
  }

  predicate Completes(ops: seq<Op>, k: nat)
    requires k < |ops|
  {
    ops[k].Done? && OpenUpload(ops[..k]).Some? && OpenUpload(ops[..k]).value.sn == ops[k].sn
  }

  /** Whatever the page sends and whatever fails, only a matching upload-done and
      the temporary files themselves change the disk. */
  lemma {:induction false} DiskUntouched(disk: Disk, ops: seq<Op>, p: Path)
    requires IsRun(Files(disk, IDLE), ops) && p !in Temps(ops)
    requires forall k :: 0 <= k < |ops| && Completes(ops, k) ==> OpenUpload(ops[..k]).value.path != p
    ensures var f := Exec(Files(disk, IDLE), ops);
            (p in f.disk <==> p in disk) && (p in disk ==> f.disk[p] == disk[p])
  {
    if ops != [] {
      var n := |ops| - 1;
      var pre := ops[..n];
      assert forall k :: 0 <= k < |pre| ==> pre[k] == ops[k] && pre[..k] == ops[..k];
      assert Temps(pre) <= Temps(ops);
      forall k | 0 <= k < |pre| && Completes(pre, k) ensures OpenUpload(pre[..k]).value.path != p {
        assert Completes(ops, k);
      }
      DiskUntouched(disk, pre, p);
      UploadTracks(disk, pre);
      assert ops[n].Done? && OpenUpload(pre).Some? && OpenUpload(pre).value.sn == ops[n].sn ==> Completes(ops, n);
    }
  }

  // ---------- what the page is told, and what is left behind ----------

  /** Each answer says where the upload stands: a request is acknowledged exactly when
      its temporary file was made, for the path asked for; a slice of the open upload is
      answered with the number of bytes accepted so far, its own among them, exactly when
      it could be decoded and written; other slices, cancels and closes are not answered. */
  lemma RepliesTell(disk: Disk, ops: seq<Op>, op: Op)
    requires IsRun(Files(disk, IDLE), ops + [op])
    ensures var open, replies := OpenUpload(ops), Step(Exec(Files(disk, IDLE), ops), op).1;
            match op
            case Begin(sn, path, created, _) =>
              && replies == [if created.Some? then UploadAck(sn) else UploadError(sn)]
              && (created.Some? <==> OpenUpload(ops + [op]).Some?)
              && (created.Some? && path != "" ==> OpenUpload(ops + [op]).value.path == path)
            case Data(sn, raw, written, _) =>
              replies == if open.None? || open.value.sn != sn then []
                         else if raw.Some? && written >= |raw.value|
                         then [UploadProgress(sn, |open.value.bytes| + |raw.value|)] else [UploadError(sn)]
            case Done(sn, _, renamed, _) =>
              replies == if open.None? || open.value.sn != sn then []
                         else if renamed then [UploadOk(sn, |open.value.bytes|)] else [UploadError(sn)]
            case CancelUpload(_, _) => replies == []
            case Close(_) => replies == []
  {
    assert (ops + [op])[..|ops|] == ops;
    UploadTracks(disk, ops);
  }

  /** A message that would leave a temporary file behind: a removal that fails, or an
      upload-done that is not for the open upload or could neither rename nor remove. */
  predicate Litters(open: Option<Sent>, op: Op) {
    match op
    case Done(sn, _, renamed, dropped) => open.Some? && !(open.value.sn == sn && (renamed || dropped))
    case _ => !op.dropped
  }

  lemma StepNoLitter(f: Files, open: Option<Sent>, op: Op, temp: Path)
    requires Tracks(f, open) && Plausible(f, op) && !Litters(open, op)
    requires temp in f.disk <==> open.Some? && open.value.temp == temp
    requires open.Some? ==> open.value.path != temp
    requires op.Begin? ==> Clean(op.path) != temp
    ensures var open' := OpenAfter(open, op);
            && (temp in Step(f, op).0.disk <==> open'.Some? && open'.value.temp == temp)
            && (open'.Some? ==> open'.value.path != temp)
  {
  }

  /** As long as no message does, the only temporary file is that of the open upload:
      after its done, its cancel or a close there is none. */
  lemma {:induction false} NoLitter(disk: Disk, ops: seq<Op>, temp: Path)
    requires IsRun(Files(disk, IDLE), ops) && temp !in disk
    requires forall k :: 0 <= k < |ops| ==> !Litters(OpenUpload(ops[..k]), ops[k])
    requires forall k :: 0 <= k < |ops| && ops[k].Begin? ==> Clean(ops[k].path) != temp
    ensures temp in Exec(Files(disk, IDLE), ops).disk <==>
              OpenUpload(ops).Some? && OpenUpload(ops).value.temp == temp
    ensures OpenUpload(ops).Some? ==> OpenUpload(ops).value.path != temp
  {
    if ops != [] {
      var n := |ops| - 1;
      assert forall k :: 0 <= k < n ==> ops[..n][k] == ops[k] && ops[..n][..k] == ops[..k];
      NoLitter(disk, ops[..n], temp);
      UploadTracks(disk, ops[..n]);
      assert !Litters(OpenUpload(ops[..n]), ops[n]);
      StepNoLitter(Exec(Files(disk, IDLE), ops[..n]), OpenUpload(ops[..n]), ops[n], temp);
    }
  }

  // ---------- what the code does not promise ----------

  /** A matching upload-done that fails leaves the target as it was exactly when
      there was no target or removing it failed too; otherwise it is lost. */
  lemma FailedDoneKeepsTarget(disk: Disk, ops: seq<Op>, op: Op)
    requires IsRun(Files(disk, IDLE), ops) && op.Done? && !op.renamed
    requires OpenUpload(ops).Some? && OpenUpload(ops).value.sn == op.sn
    ensures var f := Exec(Files(disk, IDLE), ops);
            var f' := Step(f, op).0;
            var p := OpenUpload(ops).value.path;
            && ((p in f'.disk <==> p in f.disk) && (p in f.disk ==> f'.disk[p] == f.disk[p])
                <==> p !in f.disk || !op.removed)
            && (p in f.disk && op.removed ==> p !in f'.disk)
  {
    UploadTracks(disk, ops);
  }

  /** An upload-done for another number drops the open upload and leaves its
      temporary file behind, although no upload is active any more. */
  lemma WrongDoneStrandsUpload(disk: Disk, ops: seq<Op>, op: Op)
    requires IsRun(Files(disk, IDLE), ops) && op.Done? && OpenUpload(ops).Some?
    ensures var f := Exec(Files(disk, IDLE), ops);
            var f' := Step(f, op).0;
            var t := OpenUpload(ops).value.temp;
            && f'.up == IDLE
            && (t !in f'.disk <==> OpenUpload(ops).value.sn == op.sn && (op.renamed || op.dropped))
  {
    UploadTracks(disk, ops);
  }

  /** As after a request numbered 1 and an upload-done numbered 2. */
  lemma UploadStranded()
    ensures var ops := [Begin(1, "f", Some("t"), true), Done(2, true, true, true)];
            && IsRun(Files(map[], IDLE), ops)
            && Exec(Files(map[], IDLE), ops) == Files(map["t" := []], IDLE)
  {
    var begin, done := Begin(1, "f", Some("t"), true), Done(2, true, true, true);
    assert [begin, done][..1] == [begin] && [begin][..0] == [];
    assert Exec(Files(map[], IDLE), []) == Files(map[], IDLE);
    assert Exec(Files(map[], IDLE), [begin]) == Files(map["t" := []], Active(Some("t"), "f", 1, 0));
    assert "t"[0] != "f"[0];
    assert Plausible(Files(map[], IDLE), begin);
    assert IsRun(Files(map[], IDLE), []) && IsRun(Files(map[], IDLE), [begin]);
  }

  // ---------- the page's side ----------

  const SLICE: nat := 32 * 1024

  /** The slices uploadFile sends, in order. */
  function Slices(file: seq<byte>): (s: seq<seq<byte>>)
    ensures forall k :: 0 <= k < |s| ==> 0 < |s[k]| <= SLICE
  {
    if file == [] then []
    else if |file| <= SLICE then [file]
    else [file[..SLICE]] + Slices(file[SLICE..])
  }

  function DataOps(sn: nat, slices: seq<seq<byte>>): seq<Op> {
    seq(|slices|, k requires 0 <= k < |slices| => Data(sn, Some(slices[k]), |slices[k]|, true))
  }

  function Join(slices: seq<seq<byte>>): seq<byte> {
    if slices == [] then [] else slices[0] + Join(slices[1..])
  }

  lemma {:induction false} SlicesJoin(file: seq<byte>)
    ensures Join(Slices(file)) == file
  {
    if |file| > SLICE {
      SlicesJoin(file[SLICE..]);
      assert Slices(file)[1..] == Slices(file[SLICE..]);
    } else if file != [] {
      assert Slices(file)[1..] == [];
    }
  }

  // ---------- one uploadFile call among other messages ----------

  predicate Has(op: Op, sn: nat) {
    !op.Close? && op.sn == sn
  }

  /** The messages with this number, in order. */
  function Numbered(ops: seq<Op>, sn: nat): seq<Op> {
    if ops == [] then []
    else
      var last := ops[|ops| - 1];
      Numbered(ops[..|ops| - 1], sn) + (if Has(last, sn) then [last] else [])
  }

  /** Everything one uploadFile call sends before its upload-done, or some first part
      of it: the request, then slices. */
  predicate PageCall(msgs: seq<Op>, path: Path, slices: seq<seq<byte>>) {
    && |msgs| <= 1 + |slices|
    && (msgs != [] ==> msgs[0].Begin? && msgs[0].path == path)
    && forall k :: 1 <= k < |msgs| ==> msgs[k].Data? && msgs[k].raw == Some(slices[k - 1])
  }

  /** A message that ends an upload that was open under sn: any request, done or
      close, the cancel of sn, or a slice of sn whose write fails. */
  predicate Prevents(op: Op, sn: nat) {
    || op.Begin? || op.Done? || op.Close?
    || (op.CancelUpload? && op.sn == sn)
    || (op.Data? && op.sn == sn && op.raw.Some? && op.written < |op.raw.value|)
  }

  /** The request of sn made its temporary file, and nothing since has prevented it. */
  predicate Unprevented(ops: seq<Op>, sn: nat) {
    ops != [] &&
    var last := ops[|ops| - 1];
    if last.Begin? && last.sn == sn then last.created.Some?
    else !Prevents(last, sn) && Unprevented(ops[..|ops| - 1], sn)
  }

  /** The slices of the first n messages after the request. */
  function Received(slices: seq<seq<byte>>, n: nat): seq<byte> {
    if n == 0 || n > |slices| then [] else Received(slices, n - 1) + slices[n - 1]
  }

  lemma {:induction false} ReceivedAll(slices: seq<seq<byte>>)
    ensures Received(slices, |slices|) == Join(slices)
    decreases |slices|
  {
    if slices != [] {
      var n := |slices| - 1;
      ReceivedFront(slices, n);
      ReceivedAll(slices[..n]);
      JoinSnoc(slices[..n], slices[n]);
      assert slices[..n] + [slices[n]] == slices;
    }
  }

  lemma {:induction false} ReceivedFront(slices: seq<seq<byte>>, n: nat)
    requires n <= |slices|
    ensures Received(slices, n) == Received(slices[..n], n)
    decreases n
  {
    if n > 0 {
      ReceivedFront(slices, n - 1);
      ReceivedFront(slices[..n], n - 1);
      assert slices[..n][..n - 1] == slices[..n - 1];
    }
  }

  lemma {:induction false} JoinSnoc(slices: seq<seq<byte>>, last: seq<byte>)
    ensures Join(slices + [last]) == Join(slices) + last
  {
    if slices == [] {
      assert [last][1..] == [] && [] + [last] == [last];
    } else {
      assert (slices + [last])[1..] == slices[1..] + [last];
      JoinSnoc(slices[1..], last);
      assert slices[0] + (Join(slices[1..]) + last) == (slices[0] + Join(slices[1..])) + last;
    }
  }

  /** Whatever else the page and the hub send in between, the upload is open after
      part of an uploadFile call exactly when nothing prevented it, and then it holds
      exactly the slices sent so far. */
  lemma {:induction false} CallOpenIff(ops: seq<Op>, sn: nat, path: Path, slices: seq<seq<byte>>)
    requires PageCall(Numbered(ops, sn), path, slices)
    ensures var open := OpenUpload(ops);
            && ((open.Some? && open.value.sn == sn) <==> Unprevented(ops, sn))
            && (Unprevented(ops, sn) ==>
                  && Numbered(ops, sn) != [] && open.value.path == Clean(path)
                  && open.value.bytes == Received(slices, |Numbered(ops, sn)| - 1))
  {
    if ops != [] {
      var pre, last := ops[..|ops| - 1], ops[|ops| - 1];
      var before := Numbered(pre, sn);
      if Has(last, sn) {
        assert Numbered(ops, sn) == before + [last];
        assert forall k :: 0 <= k < |before| ==> Numbered(ops, sn)[k] == before[k];
        assert Numbered(ops, sn)[|before|] == last;
      } else {
        assert Numbered(ops, sn) == before;
      }
      CallOpenIff(pre, sn, path, slices);
    }
  }

  /** However other messages fall between those of one uploadFile call, its upload-done
      is answered with upload-ok exactly when nothing prevented the upload and the
      rename worked; and then the target is exactly the file. */
  lemma PageUploadIff(disk: Disk, ops: seq<Op>, done: Op, path: Path, file: seq<byte>)
    requires IsRun(Files(disk, IDLE), ops) && done.Done?
    requires PageCall(Numbered(ops, done.sn), path, Slices(file))
    requires |Numbered(ops, done.sn)| == 1 + |Slices(file)|
    ensures var f := Exec(Files(disk, IDLE), ops);
            var (f', replies) := Step(f, done);
            && ((exists r :: r in replies && r.UploadOk?) <==> Unprevented(ops, done.sn) && done.renamed)
            && ((exists r :: r in replies && r.UploadOk?) ==>
                  && replies == [UploadOk(done.sn, |file|)]
                  && Clean(path) in f'.disk && f'.disk[Clean(path)] == file)
  {
    CallOpenIff(ops, done.sn, path, Slices(file));
    ReceivedAll(Slices(file));
    SlicesJoin(file);
    UploadExact(disk, ops, done);
    var (f', replies) := Step(Exec(Files(disk, IDLE), ops), done);
    if Unprevented(ops, done.sn) && done.renamed {
      assert replies == [UploadOk(done.sn, |file|)];
      assert replies[0] in replies;
    }
  }

  lemma {:induction false} DataOpsOpen(ops: seq<Op>, sn: nat, slices: seq<seq<byte>>)
    requires OpenUpload(ops).Some? && OpenUpload(ops).value.sn == sn
    ensures OpenUpload(ops + DataOps(sn, slices))
         == Some(OpenUpload(ops).value.(bytes := OpenUpload(ops).value.bytes + Join(slices)))
    decreases |slices|
  {
    var all := ops + DataOps(sn, slices);
    var bytes := OpenUpload(ops).value.bytes;
    if slices == [] {
      assert all == ops;
      assert bytes + [] == bytes;
    } else {
      var one := ops + [Data(sn, Some(slices[0]), |slices[0]|, true)];
      assert one[..|one| - 1] == ops;
      assert all == one + DataOps(sn, slices[1..]);
      DataOpsOpen(one, sn, slices[1..]);
      assert (bytes + slices[0]) + Join(slices[1..]) == bytes + Join(slices);
    }
  }

  /** The messages of one uploadFile call in a row, every write working, leave the
      whole file accepted, whatever came before. */
  lemma PageUploadsWholeFile(ops: seq<Op>, sn: nat, path: Path, temp: Path, dropped: bool, file: seq<byte>)
    ensures OpenUpload(ops + [Begin(sn, path, Some(temp), dropped)] + DataOps(sn, Slices(file)))
         == Some(Sent(sn, Clean(path), temp, file))
  {
    var begun := ops + [Begin(sn, path, Some(temp), dropped)];
    assert begun[..|ops|] == ops;
    assert OpenUpload(begun) == Some(Sent(sn, Clean(path), temp, []));
    DataOpsOpen(begun, sn, Slices(file));
    SlicesJoin(file);
    assert [] + file == file;
  }
}
