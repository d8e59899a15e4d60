/** filesSession as the object it is: fields updated in place by the handlers.
    Each method is tied to the step function that Download and Upload reason about. */
module FilesSession {
  import opened Wrappers
  import opened Bytes
  import D = Download
  import P = DownloadProofs
  import T = DownloadTheorems
  import U = Upload

  // ---------- an uninterrupted sender ----------

  /** Where run r stands after k reads that worked, each returning sizes(k) bytes or
      what is left. */
  function Reach(r: D.Run, sizes: nat -> nat, k: nat): (at: nat)
    requires r.off <= |r.content|
    ensures r.off <= at <= |r.content|
  {
    if k == 0 then r.off
    else
      var at := Reach(r, sizes, k - 1);
      if sizes(k - 1) < |r.content| - at then at + sizes(k - 1) else |r.content|
  }

  /** The chunk of read k. */
  function Piece(r: D.Run, sizes: nat -> nat, k: nat): D.Msg
    requires r.off <= |r.content| && Reach(r, sizes, k) <= Reach(r, sizes, k + 1)
  {
    D.Chunk(r.sn, Reach(r, sizes, k), r.content[Reach(r, sizes, k)..Reach(r, sizes, k + 1)])
  }

  lemma ReachGrows(r: D.Run, sizes: nat -> nat, k: nat)
    requires r.off <= |r.content|
    ensures Reach(r, sizes, k) <= Reach(r, sizes, k + 1)
  {
  }

  /** Reads of at least one byte get through the file. */
  lemma {:induction false} ReachFar(r: D.Run, sizes: nat -> nat, k: nat)
    requires r.off <= |r.content| && forall j :: 0 < sizes(j)
    ensures Reach(r, sizes, k) == |r.content| || Reach(r, sizes, k) >= r.off + k
  {
    if k > 0 {
      ReachFar(r, sizes, k - 1);
    }
  }

  /** The first n reads work and do not find the end of the file. */
  ghost predicate Through(r: D.Run, sizes: nat -> nat, failAt: nat, n: nat)
    requires r.off <= |r.content|
  {
    n <= failAt && forall k :: 0 <= k < n ==> Reach(r, sizes, k) < |r.content|
  }

  /** out starts with the chunks of the first n reads. */
  ghost predicate Pieces(r: D.Run, sizes: nat -> nat, out: seq<D.Msg>, n: nat)
    requires r.off <= |r.content|
  {
    n <= |out| && forall k :: 0 <= k < n ==>
      Reach(r, sizes, k) <= Reach(r, sizes, k + 1) && out[k] == Piece(r, sizes, k)
  }

  /** A sender that started at r0 stands at r, having queued out: what the window and
      the page know of it. */
  ghost predicate Sending(r0: D.Run, r: D.Run, out: seq<D.Msg>) {
    && P.Advances(r0, r) && P.RunWf(r) && r.closes == r0.closes
    && P.InFlight(out, r.sn) == r.content[r0.off..r.off]
    && r.tokens == r0.tokens + P.Held(r) + P.Chunks(out, r.sn)
  }

  /** And how it got there: out is for its first n reads, and the next is number n. */
  ghost predicate HasRead(r0: D.Run, r: D.Run, out: seq<D.Msg>, sizes: nat -> nat, failAt: nat, n: nat)
    requires r0.off <= |r0.content|
  {
    && |out| == (if r.pc.Gone? then n + 1 else n)
    && Through(r0, sizes, failAt, n) && Pieces(r0, sizes, out, n)
    && r.off == Reach(r0, sizes, n)
    && match r.pc
       case Reading => true
       case Waiting(m, end) => Busy(r0, sizes, failAt, n) && end == D.More && r.off + m == Reach(r0, sizes, n + 1)
       case Holding(m, end) => Busy(r0, sizes, failAt, n) && end == D.More && r.off + m == Reach(r0, sizes, n + 1)
       case Closing(end) => Last(r0, sizes, failAt, n, end)
       case Gone(how) =>
         && how.Some? && Last(r0, sizes, failAt, n, how.value)
         && out[n] == if how.value == D.Eof then D.End(r.sn) else D.Error(r.sn)
  }

  ghost predicate SoFar(r0: D.Run, r: D.Run, out: seq<D.Msg>, sizes: nat -> nat, failAt: nat, n: nat) {
    Sending(r0, r, out) && HasRead(r0, r, out, sizes, failAt, n) && P.Chunks(out, r.sn) == n
  }

  /** Read n worked. */
  predicate Busy(r0: D.Run, sizes: nat -> nat, failAt: nat, n: nat)
    requires r0.off <= |r0.content|
  {
    n != failAt && Reach(r0, sizes, n) < |r0.content|
  }

  /** Read n failed, or found the end of the file. */
  predicate Last(r0: D.Run, sizes: nat -> nat, failAt: nat, n: nat, end: D.ReadEnd)
    requires r0.off <= |r0.content|
  {
    if n == failAt then end == D.Failed else Reach(r0, sizes, n) == |r0.content| && end == D.Eof
  }

  /** A read of size bytes, or of what is left. */
  function Chunked(r: D.Run, size: nat): D.Run
    requires r.off < |r.content|
  {
    r.(pc := D.Waiting(if size < |r.content| - r.off then size else |r.content| - r.off, D.More))
  }

  /** Whatever a read gives, nothing has been sent for it yet. */
  lemma SoFarRead(r0: D.Run, r: D.Run, out: seq<D.Msg>, sizes: nat -> nat, failAt: nat, n: nat)
    requires SoFar(r0, r, out, sizes, failAt, n) && r.pc.Reading? && 0 < sizes(n) <= D.MAX_FILE_CHUNK
    ensures n == failAt ==>
              && SoFar(r0, D.After(r, D.Failed), out, sizes, failAt, n)
              && T.RunWeight(D.After(r, D.Failed)) < T.RunWeight(r)
    ensures n != failAt && r.off == |r.content| ==>
              && SoFar(r0, D.After(r, D.Eof), out, sizes, failAt, n)
              && T.RunWeight(D.After(r, D.Eof)) < T.RunWeight(r)
    ensures n != failAt && r.off < |r.content| ==>
              && SoFar(r0, Chunked(r, sizes(n)), out, sizes, failAt, n)
              && T.RunWeight(Chunked(r, sizes(n))) < T.RunWeight(r)
  {
  }

  lemma SoFarSlotted(r0: D.Run, r: D.Run, out: seq<D.Msg>, sizes: nat -> nat, failAt: nat, n: nat)
    requires SoFar(r0, r, out, sizes, failAt, n) && r.pc.Waiting? && r.tokens < D.DL_WINDOW_DEPTH
    ensures SoFar(r0, P.Slotted(r), out, sizes, failAt, n) && T.RunWeight(P.Slotted(r)) < T.RunWeight(r)
  {
    P.SlottedWf(r);
  }

  lemma SendingSent(r0: D.Run, r: D.Run, out: seq<D.Msg>)
    requires Sending(r0, r, out) && r.pc.Holding?
    ensures Sending(r0, P.Sent(r), out + [P.ChunkOf(r)])
    ensures P.Chunks(out + [P.ChunkOf(r)], r.sn) == P.Chunks(out, r.sn) + 1
  {
    P.SentWf(r);
    P.InFlightAppend(out, P.ChunkOf(r), r.sn);
    P.ChunksAppend(out, P.ChunkOf(r), r.sn);
    assert r.content[r0.off..r.off] + P.ChunkOf(r).body == r.content[r0.off..r.off + r.pc.n];
  }

  lemma OneMorePiece(r: D.Run, sizes: nat -> nat, failAt: nat, out: seq<D.Msg>, n: nat)
    requires r.off <= |r.content| && Busy(r, sizes, failAt, n)
    requires Through(r, sizes, failAt, n) && Pieces(r, sizes, out, n) && |out| == n
    ensures Through(r, sizes, failAt, n + 1)
    ensures Reach(r, sizes, n) <= Reach(r, sizes, n + 1)
    ensures Pieces(r, sizes, out + [Piece(r, sizes, n)], n + 1)
  {
    ReachGrows(r, sizes, n);
  }

  lemma SoFarSent(r0: D.Run, r: D.Run, out: seq<D.Msg>, sizes: nat -> nat, failAt: nat, n: nat)
    requires SoFar(r0, r, out, sizes, failAt, n) && r.pc.Holding?
    ensures SoFar(r0, P.Sent(r), out + [P.ChunkOf(r)], sizes, failAt, n + 1)
    ensures T.RunWeight(P.Sent(r)) < T.RunWeight(r)
  {
    SendingSent(r0, r, out);
    OneMorePiece(r0, sizes, failAt, out, n);
    assert P.ChunkOf(r) == Piece(r0, sizes, n);
  }

  lemma SoFarEnded(r0: D.Run, r: D.Run, out: seq<D.Msg>, sizes: nat -> nat, failAt: nat, n: nat)
    requires SoFar(r0, r, out, sizes, failAt, n) && r.pc.Closing?
    ensures SoFar(r0, P.Ended(r), out + [P.Farewell(r)], sizes, failAt, n)
    ensures T.RunWeight(P.Ended(r)) < T.RunWeight(r)
  {
    P.InFlightAppend(out, P.Farewell(r), r.sn);
    P.ChunksAppend(out, P.Farewell(r), r.sn);
  }

  /** A sender that cannot go on. */
  lemma SoFarDone(r0: D.Run, r: D.Run, out: seq<D.Msg>, sizes: nat -> nat, failAt: nat, n: nat)
    requires SoFar(r0, r, out, sizes, failAt, n)
    requires r.pc.Gone? || (r.pc.Waiting? && r.tokens == D.DL_WINDOW_DEPTH)
    ensures r.tokens == r0.tokens + n
    ensures n == failAt ==> r.pc == D.Gone(Some(D.Failed)) && out[n..] == [D.Error(r.sn)]
    ensures n != failAt && r.off == |r.content| ==> r.pc == D.Gone(Some(D.Eof)) && out[n..] == [D.End(r.sn)]
    ensures n != failAt && r.off < |r.content| ==> r.pc.Waiting? && r.tokens == 8 && |out| == n
  {
  }

  /** The sender's loop. */
  method Drain(r0: D.Run, sizes: nat -> nat, failAt: nat) returns (r: D.Run, out: seq<D.Msg>, n: nat)
    requires P.RunWf(r0) && r0.pc.Reading? && forall k :: 0 < sizes(k) <= D.MAX_FILE_CHUNK
    ensures P.Advances(r0, r) && P.RunWf(r) && r.closes == r0.closes
    ensures r.tokens == r0.tokens + n && r.off == Reach(r0, sizes, n)
    ensures Through(r0, sizes, failAt, n) && Pieces(r0, sizes, out, n)
    ensures P.InFlight(out, r.sn) == r.content[r0.off..r.off]
    ensures n == failAt ==> r.pc == D.Gone(Some(D.Failed)) && out[n..] == [D.Error(r.sn)]
    ensures n != failAt && r.off == |r.content| ==> r.pc == D.Gone(Some(D.Eof)) && out[n..] == [D.End(r.sn)]
    ensures n != failAt && r.off < |r.content| ==> r.pc.Waiting? && r.tokens == 8 && |out| == n
    ensures failAt > |r0.content| - r0.off ==> n != failAt
  {
    r, out, n := r0, [], 0;
    while !r.pc.Gone? && !(r.pc.Waiting? && r.tokens == D.DL_WINDOW_DEPTH)
      invariant SoFar(r0, r, out, sizes, failAt, n)
      decreases T.RunWeight(r)
    {
      match r.pc {
        case Reading =>
          var left := |r.content| - r.off;
          SoFarRead(r0, r, out, sizes, failAt, n);
          if n == failAt {
            r := D.After(r, D.Failed);
          } else if left == 0 {
            r := D.After(r, D.Eof);
          } else {
            r := Chunked(r, sizes(n));
          }
        case Waiting(_, _) =>
          SoFarSlotted(r0, r, out, sizes, failAt, n);
          r := P.Slotted(r);
        case Holding(_, _) =>
          SoFarSent(r0, r, out, sizes, failAt, n);
          out, r, n := out + [P.ChunkOf(r)], P.Sent(r), n + 1;
        case Closing(_) =>
          SoFarEnded(r0, r, out, sizes, failAt, n);
          out, r := out + [P.Farewell(r)], P.Ended(r);
      }
    }
    if n > 0 {
      ReachFar(r0, sizes, n - 1);
    }
    SoFarDone(r0, r, out, sizes, failAt, n);
  }

  // ---------- one active download ----------

  lemma CancelKeeps(a: D.Agent)
    requires P.OneActive(a)
    ensures P.OneActive(D.CancelActive(a)) && D.CancelActive(a).dlCancel.None?
  {
  }

  lemma StartKeeps(a: D.Agent, sn: nat, file: Option<seq<byte>>)
    requires P.OneActive(a) && !a.closed
    ensures P.OneActive(D.StartDownload(a, sn, file).0)
  {
    CancelKeeps(a);
  }

  lemma SetKeeps(a: D.Agent, i: nat, r: D.Run)
    requires P.OneActive(a) && i < |a.runs|
    requires P.RunWf(r) && r.closes == a.runs[i].closes && r.sn == a.runs[i].sn
    ensures P.OneActive(a.(runs := a.runs[i := r]))
  {
  }

  class Session {
    // download half
    var dlCancel: Option<nat>
    var dlWindow: Option<nat>
    var dlSeq: nat
    var runs: seq<D.Run>
    var closed: bool
    var sent: seq<D.Msg>
    // upload half
    var upTemp: Option<U.Path>
    var upFinal: U.Path
    var upSeq: nat
    var upGot: nat
    var disk: U.Disk
    var replies: seq<U.Reply>
    /** The upload the page has open, and the bytes it has sent for it. */
    ghost var open: Option<U.Sent>

    function Downloads(): D.Agent
      reads this`dlCancel, this`dlWindow, this`dlSeq, this`runs, this`closed
    {
      D.Agent(dlCancel, dlWindow, dlSeq, runs, closed)
    }

    function Uploads(): U.Files
      reads this`upTemp, this`upFinal, this`upSeq, this`upGot, this`disk
    {
      U.Files(disk, U.Active(upTemp, upFinal, upSeq, upGot))
    }

    /** One active download at most, and the upload is exactly what the page sent. */
    ghost predicate Valid()
      reads this
    {
      DownloadsOk() && UploadsOk()
    }

    ghost predicate DownloadsOk()
      reads this`dlCancel, this`dlWindow, this`dlSeq, this`runs, this`closed
    {
      P.OneActive(Downloads())
    }

    ghost predicate UploadsOk()
      reads this`upTemp, this`upFinal, this`upSeq, this`upGot, this`disk, this`open
    {
      U.Tracks(Uploads(), open)
    }

    constructor (disk0: U.Disk)
      ensures Valid() && open.None?
      ensures Downloads() == D.Init().agent && sent == []
      ensures Uploads() == U.Files(disk0, U.IDLE) && replies == []
    {
      dlCancel, dlWindow, dlSeq, runs, closed, sent := None, None, 0, [], false, [];
      upTemp, upFinal, upSeq, upGot, disk, replies := None, "", 0, 0, disk0, [];
      open := None;
    }

    // ---------- downloads ----------

    method CancelActiveDownload()
      requires Valid()
      modifies this`dlCancel, this`dlWindow, this`runs
      ensures Valid() && dlCancel.None?
      ensures Downloads() == D.CancelActive(old(Downloads()))
    {
      CancelKeeps(Downloads());
      if dlCancel.Some? {
        var i := dlCancel.value;
        runs := runs[i := runs[i].(closes := runs[i].closes + 1)];
        dlCancel := None;
      }
      dlWindow := None;
    }

    method StartDownload(sn: nat, file: Option<seq<byte>>)
      requires Valid() && !closed   // deliver stops once the channel is closed
      modifies this`dlCancel, this`dlWindow, this`dlSeq, this`runs, this`sent
      ensures Valid()
      ensures Downloads() == D.StartDownload(old(Downloads()), sn, file).0
      ensures sent == old(sent) + D.StartDownload(old(Downloads()), sn, file).1
    {
      ghost var after := D.StartDownload(Downloads(), sn, file);
      StartKeeps(Downloads(), sn, file);
      CancelActiveDownload();
      if file.None? {
        sent := sent + [D.Error(sn)];
        return;
      }
      dlCancel, dlWindow, dlSeq := Some(|runs|), Some(|runs|), sn;
      runs := runs + [D.NewRun(sn, file.value)];
      sent := sent + [D.Start(sn, |file.value|)];
      assert Downloads() == after.0;
    }

    method DlAck(sn: nat)
      requires Valid()
      modifies this`runs
      ensures Valid()
      ensures Downloads() == D.DlAck(old(Downloads()), sn)
    {
      if dlWindow.None? || sn != dlSeq {
        return;
      }
      var i := dlWindow.value;
      if runs[i].tokens > 0 {
        runs := runs[i := runs[i].(tokens := runs[i].tokens - 1)];
      }
    }

    /** The sender goroutine left alone: it reads, takes slots and sends until its
        window is full, its file ends or a read fails. sizes is what each read
        returns; failAt is a read that fails. It sends one chunk per read that worked,
        the next stretch of the file, and ends with an error exactly when read failAt is
        reached, with the end of the file when a read finds it; otherwise it waits, with
        every slot taken. */
    method SendUntilBlocked(i: nat, sizes: nat -> nat, failAt: nat) returns (n: nat)
      requires Valid() && i < |runs| && runs[i].pc.Reading?
      requires forall k :: 0 < sizes(k) <= D.MAX_FILE_CHUNK
      modifies this`runs, this`sent
      ensures Valid()
      ensures |runs| == |old(runs)| && forall k :: 0 <= k < |runs| && k != i ==> runs[k] == old(runs)[k]
      ensures P.Advances(old(runs)[i], runs[i]) && P.RunWf(runs[i]) && runs[i].closes == old(runs)[i].closes
      ensures runs[i].tokens == old(runs)[i].tokens + n && runs[i].off == Reach(old(runs)[i], sizes, n)
      ensures old(sent) <= sent
      // the first n reads worked, and each was sent
      ensures Through(old(runs)[i], sizes, failAt, n) && Pieces(old(runs)[i], sizes, sent[|old(sent)|..], n)
      ensures P.InFlight(sent[|old(sent)|..], runs[i].sn) == runs[i].content[old(runs)[i].off..runs[i].off]
      // read n failed, found the end of the file, or has no slot
      ensures n == failAt ==>
                runs[i].pc == D.Gone(Some(D.Failed)) && sent[|old(sent)| + n..] == [D.Error(runs[i].sn)]
      ensures n != failAt && runs[i].off == |runs[i].content| ==>
                runs[i].pc == D.Gone(Some(D.Eof)) && sent[|old(sent)| + n..] == [D.End(runs[i].sn)]
      ensures n != failAt && runs[i].off < |runs[i].content| ==>
                runs[i].pc.Waiting? && runs[i].tokens == 8 && |sent| == |old(sent)| + n
      // and a read past the end of the file is never reached
      ensures failAt > |runs[i].content| - old(runs)[i].off ==> n != failAt
    {
      var r, out;
      r, out, n := Drain(runs[i], sizes, failAt);
      SetKeeps(Downloads(), i, r);
      runs := runs[i := r];
      sent := sent + out;
      assert sent[|old(sent)|..] == out && sent[|old(sent)| + n..] == out[n..];
    }

    // ---------- uploads ----------

    /** No upload is active; the temporary file is left to the caller. */
    method ClearUpload()
      modifies this`upTemp, this`upFinal, this`upSeq, this`upGot, this`open
      ensures Uploads() == U.Files(disk, U.IDLE) && open.None? && UploadsOk()
    {
      upTemp, upFinal, upSeq, upGot := None, "", 0, 0;
      open := None;
    }

    method DropUpload(dropped: bool)
      requires DownloadsOk()
      modifies this`upTemp, this`upFinal, this`upSeq, this`upGot, this`disk, this`open
      ensures Valid() && open.None?
      ensures Uploads() == U.DropUpload(old(Uploads()), dropped)
    {
      var t := upTemp;
      ClearUpload();
      if t.Some? {
        disk := U.Remove(disk, t.value, dropped);
      }
    }

    method StartUpload(sn: nat, path: U.Path, created: Option<U.Path>, dropped: bool)
      requires Valid() && U.Plausible(Uploads(), U.Begin(sn, path, created, dropped))
      modifies this`upTemp, this`upFinal, this`upSeq, this`upGot, this`disk, this`replies, this`open
      ensures Valid() && open == U.OpenAfter(old(open), U.Begin(sn, path, created, dropped))
      ensures Uploads() == U.StartUpload(old(Uploads()), sn, path, created, dropped).0
      ensures replies == old(replies) + U.StartUpload(old(Uploads()), sn, path, created, dropped).1
    {
      ghost var downloads := Downloads();
      U.StepTracks(Uploads(), open, U.Begin(sn, path, created, dropped));
      DropUpload(dropped);
      if created.None? {
        replies := replies + [U.UploadError(sn)];
        return;
      }
      disk := disk[created.value := []];
      upTemp, upFinal, upSeq, upGot := created, U.Clean(path), sn, 0;
      open := Some(U.Sent(sn, U.Clean(path), created.value, []));
      replies := replies + [U.UploadAck(sn)];
      assert Downloads() == downloads;
    }

    method UploadData(sn: nat, raw: Option<seq<byte>>, written: nat, dropped: bool)
      requires Valid()
      modifies this`upTemp, this`upFinal, this`upSeq, this`upGot, this`disk, this`replies, this`open
      ensures Valid() && open == U.OpenAfter(old(open), U.Data(sn, raw, written, dropped))
      ensures Uploads() == U.UploadData(old(Uploads()), sn, raw, written, dropped).0
      ensures replies == old(replies) + U.UploadData(old(Uploads()), sn, raw, written, dropped).1
    {
      U.StepTracks(Uploads(), open, U.Data(sn, raw, written, dropped));
      if upTemp.None? || upSeq != sn {
        return;
      }
      if raw.None? {
        replies := replies + [U.UploadError(sn)];
        return;
      }
      var t := upTemp.value;
      var n := if written < |raw.value| then written else |raw.value|;
      disk := disk[t := (if t in disk then disk[t] else []) + raw.value[..n]];
      if n < |raw.value| {
        replies := replies + [U.UploadError(sn)];
        DropUpload(dropped);
        return;
      }
      upGot := upGot + n;
      assert raw.value[..n] == raw.value;
      open := Some(open.value.(bytes := open.value.bytes + raw.value));
      replies := replies + [U.UploadProgress(sn, upGot)];
    }

    method UploadDone(sn: nat, removed: bool, renamed: bool, dropped: bool)
      requires Valid()
      modifies this`upTemp, this`upFinal, this`upSeq, this`upGot, this`disk, this`replies, this`open
      ensures Valid() && open.None?
      ensures old(open).Some? && old(open).value.sn == sn && renamed ==>
                var u := old(open).value;
                && replies == old(replies) + [U.UploadOk(sn, |u.bytes|)]
                && u.path in disk && disk[u.path] == u.bytes && u.temp !in disk
      ensures Uploads() == U.UploadDone(old(Uploads()), sn, removed, renamed, dropped).0
      ensures replies == old(replies) + U.UploadDone(old(Uploads()), sn, removed, renamed, dropped).1
    {
      ghost var after := U.UploadDone(Uploads(), sn, removed, renamed, dropped);
      if open.Some? && open.value.sn == sn && renamed {
        U.DoneReplaces(Uploads(), open.value, removed, dropped);
      }
      var t, final, cur, got := upTemp, upFinal, upSeq, upGot;
      ClearUpload();
      if t.None? || cur != sn {
        return;
      }
      if final in disk {
        disk := U.Remove(disk, final, removed);
      }
      if !renamed || t.value !in disk {
        disk := U.Remove(disk, t.value, dropped);
        replies := replies + [U.UploadError(sn)];
        assert Uploads() == after.0;
        return;
      }
      disk := U.Rename(disk, t.value, final);
      replies := replies + [U.UploadOk(sn, got)];
      assert Uploads() == after.0;
    }

    method UploadCancel(sn: nat, dropped: bool)
      requires Valid()
      modifies this`upTemp, this`upFinal, this`upSeq, this`upGot, this`disk, this`open
      ensures Valid() && open == U.OpenAfter(old(open), U.CancelUpload(sn, dropped))
      ensures Uploads() == U.UploadCancel(old(Uploads()), sn, dropped)
    {
      if upTemp.Some? && upSeq == sn {
        DropUpload(dropped);
      }
    }

    // ---------- both halves ----------

    /** The page's cancel message stops the download or the upload with that number. */
    method Cancel(sn: nat, dropped: bool)
      requires Valid()
      modifies this
      ensures Valid() && open == U.OpenAfter(old(open), U.CancelUpload(sn, dropped))
      ensures Downloads() == D.CancelDownload(old(Downloads()), sn) && sent == old(sent)
      ensures Uploads() == U.UploadCancel(old(Uploads()), sn, dropped) && replies == old(replies)
    {
      if dlCancel.Some? && dlSeq == sn {
        CancelActiveDownload();
      }
      UploadCancel(sn, dropped);
    }

    method Shutdown(dropped: bool)
      requires Valid()
      modifies this
      ensures Valid() && open.None? && closed
      ensures Downloads() == D.ShutdownDownloads(old(Downloads())) && sent == old(sent)
      ensures Uploads() == U.DropUpload(old(Uploads()), dropped) && replies == old(replies)
    {
      CancelActiveDownload();
      closed := true;
      DropUpload(dropped);
    }
  }
}
