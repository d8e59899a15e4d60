/** The agent's self-update (update.go): a download to exe.new, then two renames,
    over a disk whose operations may fail and which may be cut off at any step. */
module SelfUpdate {
  import opened Wrappers
  import opened Bytes

  type Path = string
  type Content = seq<byte>
  type Files = map<Path, Content>

  const MAX_BINARY: nat := 64 * 1024 * 1024
  const HEX_LENGTH: nat := 64

  datatype Spec = Spec(sha256: string)

  /** What the server answers; a broken body ends in a read error. */
  datatype Reply = NoReply | Reply(status: int, parts: seq<Content>, broken: bool)

  /** The disk operations of one update, each of which may fail. */
  datatype Op = CreateNew | WriteNew(part: nat) | CloseNew | RemoveDest | RemoveStaged
              | RemoveOld | RenameOld | RenameNew | Rollback | Discard

  datatype Reason = BadHashLength | NoDownload | BadStatus | CreateFailed | CopyFailed | CloseFailed
                  | BadSize | HashMismatch | RenameOldFailed | RenameNewFailed

  function New(exe: Path): Path {
    exe + ".new"
  }

  function Old(exe: Path): Path {
    exe + ".old"
  }

  lemma PathsDiffer(exe: Path)
    ensures exe != New(exe) && exe != Old(exe) && New(exe) != Old(exe)
  {
    assert New(exe)[|exe| + 1] == 'n' && Old(exe)[|exe| + 1] == 'o';
  }

  function Join(parts: seq<Content>): Content {
    if parts == [] then [] else Join(parts[..|parts| - 1]) + parts[|parts| - 1]
  }

  /** Why a download is refused, if it is. */
  function Refusal(spec: Spec, reply: Reply, fails: Op -> bool, hash: Content -> string): Option<Reason> {
    if reply.NoReply? then Some(NoDownload)
    else if reply.status != 200 then Some(BadStatus)
    else if fails(CreateNew) then Some(CreateFailed)
    else if reply.broken || exists i: nat :: i < |reply.parts| && fails(WriteNew(i)) then Some(CopyFailed)
    else if fails(CloseNew) then Some(CloseFailed)
    else if !(0 < |Join(reply.parts)| <= MAX_BINARY) then Some(BadSize)
    else if spec.sha256 != "" && hash(Join(reply.parts)) != spec.sha256 then Some(HashMismatch)
    else None
  }

  /** How an update ends. */
  function Verdict(before: Files, exe: Path, spec: Spec, reply: Reply, fails: Op -> bool,
      hash: Content -> string): Option<Reason> {
    if spec.sha256 != "" && |spec.sha256| != HEX_LENGTH then Some(BadHashLength)
    else if Refusal(spec, reply, fails, hash).Some? then Refusal(spec, reply, fails, hash)
    else if fails(RenameOld) || exe !in before then Some(RenameOldFailed)
    else if fails(RenameNew) then Some(RenameNewFailed)
    else None
  }

  /** Every file but the staged one after an update: the download touches only
      exe.new, the swap only exe and exe.old. */
  function After(before: Files, exe: Path, spec: Spec, reply: Reply, fails: Op -> bool,
      hash: Content -> string): Files {
    if (spec.sha256 != "" && |spec.sha256| != HEX_LENGTH) || Refusal(spec, reply, fails, hash).Some?
    then before - {New(exe)}
    else Swapped(before - {New(exe)}, exe, Old(exe), Join(reply.parts), fails)
  }

  function Swapped(before: Files, exe: Path, old': Path, binary: Content, fails: Op -> bool): Files {
    if fails(RenameOld) || exe !in before then if fails(RemoveOld) then before else before - {old'}
    else if !fails(RenameNew) then before[old' := before[exe]][exe := binary]
    else if !fails(Rollback) then before - {old'}
    else (before - {exe})[old' := before[exe]]
  }

  /** The other files at any moment of the two renames and their undoing. */
  predicate SwapState(before: Files, now: Files, exe: Path, old': Path, binary: Content, fails: Op -> bool) {
    || now == before
    || now == (if fails(RemoveOld) then before else before - {old'})
    || (exe in before && !fails(RenameOld)
        && (now == Aside(before, exe, old') || now == Swapped(before, exe, old', binary, fails)))
  }

  /** The disk at any moment of an update. */
  predicate Midway(before: Files, now: Files, exe: Path, spec: Spec, reply: Reply, fails: Op -> bool,
                   hash: Content -> string)
  {
    var rest := before - {New(exe)};
    || now - {New(exe)} == rest
    || (!(spec.sha256 != "" && |spec.sha256| != HEX_LENGTH) && Refusal(spec, reply, fails, hash).None?
        && SwapState(rest, now - {New(exe)}, exe, Old(exe), Join(reply.parts), fails))
  }

  /** The disk once exe has been set aside. */
  function Aside(swept: Files, exe: Path, old': Path): Files
    requires exe in swept
  {
    (swept - {exe})[old' := swept[exe]]
  }

  /** Files that agree but for p agree on exe. */
  lemma SameElsewhere(a: Files, b: Files, p: Path, exe: Path)
    requires a - {p} == b - {p} && exe != p
    ensures exe in a <==> exe in b
    ensures exe in b ==> a[exe] == b[exe]
  {
    assert exe in a <==> exe in a - {p};
    assert exe in b <==> exe in b - {p};
  }

  /** The previous binary is still there, under one of its two names. */
  predicate HasCopy(files: Files, exe: Path, old': Path, prev: Content) {
    (exe in files && files[exe] == prev) || (old' in files && files[old'] == prev)
  }

  lemma SwapEnds(before: Files, swept: Files, exe: Path, new': Path, old': Path)
    requires exe != new' && exe != old' && new' != old' && exe in before && new' in before
    requires swept == before || swept == before - {old'}
    ensures var s := Aside(swept, exe, old'); var rest := before - {new'};
            && s - {new'} == (rest - {exe})[old' := before[exe]] == Aside(rest, exe, old')
            && (s - {new'})[exe := s[new']] == rest[old' := before[exe]][exe := before[new']]
            && ((s - {new'}) - {old'})[exe := s[old']] == rest - {old'}
  {
  }

  /** Some of ten tries finds the file free. */
  ghost predicate Frees(busy: nat -> bool) {
    exists i: nat :: i < 10 && !busy(i)
  }

  /** The disk after a boot, told which leftovers could be removed. */
  function Cleaned(files: Files, exe: Path, dropOld: bool, dropNew: bool): Files {
    files - (if dropOld then {Old(exe)} else {}) - (if dropNew then {New(exe)} else {})
  }

  class Disk {
    var files: Files
    ghost var trail: seq<Files>     // every state the disk has been in
    const fails: Op -> bool
    const hash: Content -> string   // hex SHA-256

    constructor (files: Files, fails: Op -> bool, hash: Content -> string)
      ensures this.files == files && this.fails == fails && this.hash == hash && trail == [files]
    {
      this.files, this.fails, this.hash, trail := files, fails, hash, [files];
    }

    method Create(p: Path, op: Op) returns (ok: bool)
      modifies this
      ensures ok == !fails(op)
      ensures files == if ok then old(files)[p := []] else old(files)
      ensures trail == old(trail) + [files]
    {
      ok := !fails(op);
      if ok {
        files := files[p := []];
      }
      trail := trail + [files];
    }

    /** A failed write may leave a piece of what it was to write. */
    method Append(p: Path, bytes: Content, op: Op, torn: nat) returns (ok: bool)
      requires p in files
      modifies this
      ensures ok == !fails(op)
      ensures p in files && files == old(files)[p := files[p]]
      ensures ok ==> files[p] == old(files)[p] + bytes
      ensures trail == old(trail) + [files]
    {
      ok := !fails(op);
      var written := if ok || torn > |bytes| then bytes else bytes[..torn];
      files := files[p := files[p] + written];
      trail := trail + [files];
    }

    method Remove(p: Path, op: Op)
      modifies this
      ensures files == if fails(op) then old(files) else old(files) - {p}
      ensures trail == old(trail) + [files]
    {
      if !fails(op) {
        files := files - {p};
      }
      trail := trail + [files];
    }

    /** Replaces what is at to; fails when there is nothing at from. */
    method Rename(from: Path, to: Path, op: Op) returns (ok: bool)
      requires from != to
      modifies this
      ensures ok == (!fails(op) && from in old(files))
      ensures files == if ok then (old(files) - {from})[to := old(files)[from]] else old(files)
      ensures trail == old(trail) + [files]
    {
      ok := !fails(op) && from in files;
      if ok {
        files := (files - {from})[to := files[from]];
      }
      trail := trail + [files];
    }

    /** Every state since the first n differs from base only in p. */
    ghost predicate OnlyTouched(n: nat, base: Files, p: Path)
      reads this
    {
      n <= |trail| && files - {p} == base - {p} && forall k :: n <= k < |trail| ==> trail[k] - {p} == base - {p}
    }

    method DownloadVerified(spec: Spec, reply: Reply, dest: Path, torn: nat) returns (err: Option<Reason>)
      modifies this
      ensures err == Refusal(spec, reply, fails, hash)
      ensures old(trail) <= trail && OnlyTouched(|old(trail)|, old(files), dest)
      ensures err.None? ==> dest in files && files[dest] == Join(reply.parts)
    {
      if reply.NoReply? {
        return Some(NoDownload);
      }
      if reply.status != 200 {
        return Some(BadStatus);
      }
      var ok := Create(dest, CreateNew);
      if !ok {
        return Some(CreateFailed);
      }
      var i: nat := 0;
      while i < |reply.parts| && ok
        invariant i <= |reply.parts| && dest in files
        invariant old(trail) <= trail && OnlyTouched(|old(trail)|, old(files), dest)
        invariant ok ==> files[dest] == Join(reply.parts[..i])
        invariant ok ==> forall j: nat :: j < i ==> !fails(WriteNew(j))
        invariant !ok ==> exists j: nat :: j < |reply.parts| && fails(WriteNew(j))
      {
        ok := Append(dest, reply.parts[i], WriteNew(i), torn);
        assert reply.parts[..i + 1][..i] == reply.parts[..i];
        i := i + 1;
      }
      assert reply.parts[..|reply.parts|] == reply.parts;
      if !ok || reply.broken {
        Remove(dest, RemoveDest);
        return Some(CopyFailed);
      }
      if fails(CloseNew) {
        Remove(dest, RemoveDest);
        return Some(CloseFailed);
      }
      var n := |files[dest]|;
      if n <= 0 || n > MAX_BINARY {
        Remove(dest, RemoveDest);
        return Some(BadSize);
      }
      if spec.sha256 != "" && hash(files[dest]) != spec.sha256 {
        Remove(dest, RemoveDest);
        return Some(HashMismatch);
      }
      return None;
    }

    /** The second rename, with the previous binary set aside, and its undoing. */
    method Replace(exe: Path, new': Path, old': Path) returns (err: Option<Reason>)
      requires exe != new' && exe != old' && new' != old'
      requires exe !in files && new' in files && old' in files
      modifies this
      ensures err == if fails(RenameNew) then Some(RenameNewFailed) else None
      ensures files - {new'} ==
                if !fails(RenameNew) then (old(files) - {new'})[exe := old(files)[new']]
                else if !fails(Rollback) then ((old(files) - {new'}) - {old'})[exe := old(files)[old']]
                else old(files) - {new'}
      ensures err.None? || !fails(Discard) ==> new' !in files
      ensures old(trail) <= trail
      ensures forall k :: |old(trail)| <= k < |trail| ==> HasCopy(trail[k], exe, old', old(files)[old'])
      ensures forall k :: |old(trail)| <= k < |trail| ==>
                trail[k] - {new'} == old(files) - {new'} || trail[k] - {new'} == files - {new'}
    {
      var ok := Rename(new', exe, RenameNew);
      if !ok {
        ok := Rename(old', exe, Rollback);
        ghost var undone := files;
        Remove(new', Discard);
        assert files - {new'} == undone - {new'};
        return Some(RenameNewFailed);
      }
      return None;
    }

    /** The two renames, from a disk with a verified download on it. */
    method Swap(exe: Path, new': Path, old': Path) returns (err: Option<Reason>)
      requires exe != new' && exe != old' && new' != old' && new' in files
      modifies this
      ensures err == if fails(RenameOld) || exe !in old(files) then Some(RenameOldFailed)
                     else if fails(RenameNew) then Some(RenameNewFailed) else None
      ensures files - {new'} == Swapped(old(files) - {new'}, exe, old', old(files)[new'], fails)
      ensures err.None? || !fails(Discard) ==> new' !in files
      ensures old(trail) <= trail
      ensures exe in old(files) ==>
                forall k :: |old(trail)| <= k < |trail| ==> HasCopy(trail[k], exe, old', old(files)[exe])
      ensures exe in old(files) && fails(RenameOld) ==>
                forall k :: |old(trail)| <= k < |trail| ==> exe in trail[k]
      ensures forall k :: |old(trail)| <= k < |trail| ==>
                SwapState(old(files) - {new'}, trail[k] - {new'}, exe, old', old(files)[new'], fails)
    {
      Remove(old', RemoveOld);
      ghost var swept := files;
      assert swept - {new'} == if fails(RemoveOld) then old(files) - {new'} else (old(files) - {new'}) - {old'};
      var ok := Rename(exe, old', RenameOld);
      if !ok {
        Remove(new', Discard);
        assert files - {new'} == swept - {new'};
        return Some(RenameOldFailed);
      }
      SwapEnds(old(files), swept, exe, new', old');
      err := Replace(exe, new', old');
    }

    /** Whatever fails and wherever the run is cut off, a binary that was there is
        still there; and the end state is exactly After. */
    method ApplyUpdate(exe: Path, spec: Spec, reply: Reply, torn: nat) returns (err: Option<Reason>)
      modifies this
      ensures err == Verdict(old(files), exe, spec, reply, fails, hash)
      ensures files - {New(exe)} == After(old(files), exe, spec, reply, fails, hash)
      ensures err == Some(BadHashLength) ==> files == old(files)
      ensures err != Some(BadHashLength) && !fails(RemoveStaged) && !fails(Discard) ==> New(exe) !in files
      ensures old(trail) <= trail
      ensures exe in old(files) ==>
                forall k :: |old(trail)| <= k < |trail| ==> HasCopy(trail[k], exe, Old(exe), old(files)[exe])
      ensures exe in old(files) && (fails(RenameOld) || Refusal(spec, reply, fails, hash).Some?) ==>
                forall k :: |old(trail)| <= k < |trail| ==> exe in trail[k]
      ensures forall k :: |old(trail)| <= k < |trail| ==>
                Midway(old(files), trail[k], exe, spec, reply, fails, hash)
    {
      if spec.sha256 != "" && |spec.sha256| != HEX_LENGTH {
        return Some(BadHashLength);
      }
      PathsDiffer(exe);
      err := DownloadVerified(spec, reply, New(exe), torn);
      if err.Some? {
        Remove(New(exe), RemoveStaged);
        TrailSame(old(|trail|), old(files), exe);
        return;
      }
      TrailSame(old(|trail|), old(files), exe);
      SameElsewhere(files, old(files), New(exe), exe);
      err := Swap(exe, New(exe), Old(exe));
    }

    /** Ten tries at removing a leftover: a file still in use stays. */
    method RemoveLeftover(p: Path, busy: nat -> bool)
      modifies this
      ensures files == if Frees(busy) then old(files) - {p} else old(files)
    {
      var i: nat := 0;
      while i < 10 && p in files && busy(i)
        invariant i <= 10 && files == old(files)
        invariant forall j: nat :: j < i ==> busy(j)
      {
        i := i + 1;
      }
      if i < 10 {
        if p in files {
          files := files - {p};
        }
        trail := trail + [files];
      }
    }

    /** At boot: the leftovers go and the agent itself is not touched. */
    method CleanupStaged(exe: Path, busyOld: nat -> bool, busyNew: nat -> bool)
      modifies this
      ensures files == Cleaned(old(files), exe, Frees(busyOld), Frees(busyNew))
      ensures Old(exe) in files <==> Old(exe) in old(files) && forall i: nat :: i < 10 ==> busyOld(i)
      ensures New(exe) in files <==> New(exe) in old(files) && forall i: nat :: i < 10 ==> busyNew(i)
      ensures forall p :: p != Old(exe) && p != New(exe) ==>
                (p in files <==> p in old(files)) && (p in files ==> files[p] == old(files)[p])
    {
      PathsDiffer(exe);
      RemoveLeftover(Old(exe), busyOld);
      RemoveLeftover(New(exe), busyNew);
    }

    lemma TrailSame(n: nat, base: Files, exe: Path)
      requires OnlyTouched(n, base, New(exe))
      ensures forall k :: n <= k < |trail| ==> (exe in base <==> exe in trail[k])
      ensures exe in base ==> forall k :: n <= k < |trail| ==> HasCopy(trail[k], exe, Old(exe), base[exe])
    {
      PathsDiffer(exe);
      forall k | n <= k < |trail|
        ensures exe in base <==> exe in trail[k]
        ensures exe in base ==> HasCopy(trail[k], exe, Old(exe), base[exe])
      {
        SameElsewhere(trail[k], base, New(exe), exe);
      }
    }
  }

  // ---------- over several updates ----------

  /** One update as the disk sees it: the answer it got and what failed. */
  datatype Attempt = Attempt(spec: Spec, reply: Reply, fails: Op -> bool)

  function Tries(before: Files, exe: Path, tries: seq<Attempt>, hash: Content -> string): Files {
    if tries == [] then before
    else
      var t := tries[|tries| - 1];
      After(Tries(before, exe, tries[..|tries| - 1], hash), exe, t.spec, t.reply, t.fails, hash)
  }

  /** What a server and its hash let through: a whole answer of 1 byte to 64 MB, with
      the hash that was asked for, if one was. */
  predicate Verified(binary: Content, t: Attempt, hash: Content -> string) {
    && t.reply.Reply? && t.reply.status == 200 && !t.reply.broken
    && binary == Join(t.reply.parts) && 0 < |binary| <= 67_108_864
    && (t.spec.sha256 != "" ==> |t.spec.sha256| == 64 && hash(binary) == t.spec.sha256)
  }

  /** None of the operations an update cannot do without fails. */
  predicate Works(t: Attempt) {
    && !t.fails(CreateNew) && !t.fails(CloseNew) && !t.fails(RenameOld) && !t.fails(RenameNew)
    && (t.reply.Reply? ==> forall i: nat :: i < |t.reply.parts| ==> !t.fails(WriteNew(i)))
  }

  /** An update succeeds exactly when there is an agent to replace, the download is a
      verified binary and no create, write, close or rename fails; and then exe is that
      binary and exe.old the agent before it. */
  lemma UpdateSucceedsIff(before: Files, exe: Path, t: Attempt, hash: Content -> string)
    ensures Verdict(before, exe, t.spec, t.reply, t.fails, hash).None? <==>
              exe in before && t.reply.Reply? && Verified(Join(t.reply.parts), t, hash) && Works(t)
    ensures Verdict(before, exe, t.spec, t.reply, t.fails, hash).None? ==>
              var after := After(before, exe, t.spec, t.reply, t.fails, hash);
              && exe in after && after[exe] == Join(t.reply.parts)
              && Old(exe) in after && after[Old(exe)] == before[exe]
  {
    PathsDiffer(exe);
  }

  /** The reason given is a true one. */
  lemma ReasonIsTrue(before: Files, exe: Path, t: Attempt, hash: Content -> string)
    ensures match Verdict(before, exe, t.spec, t.reply, t.fails, hash)
            case None => true
            case Some(BadHashLength) => t.spec.sha256 != "" && |t.spec.sha256| != 64
            case Some(NoDownload) => t.reply.NoReply?
            case Some(BadStatus) => t.reply.Reply? && t.reply.status != 200
            case Some(CreateFailed) => t.fails(CreateNew)
            case Some(CopyFailed) => t.reply.Reply? && (t.reply.broken || exists i :: t.fails(WriteNew(i)))
            case Some(CloseFailed) => t.fails(CloseNew)
            case Some(BadSize) =>
              t.reply.Reply? && (Join(t.reply.parts) == [] || |Join(t.reply.parts)| > 67_108_864)
            case Some(HashMismatch) =>
              t.reply.Reply? && t.spec.sha256 != "" && hash(Join(t.reply.parts)) != t.spec.sha256
            case Some(RenameOldFailed) => exe !in before || t.fails(RenameOld)
            case Some(RenameNewFailed) => t.fails(RenameNew)
  {
  }

  /** A successful update installs what was downloaded and keeps the previous
      binary; a failed one leaves exe alone unless both the second rename and its
      rollback failed, and then exe is gone but exe.old has it. */
  lemma EndOfUpdate(before: Files, exe: Path, t: Attempt, hash: Content -> string)
    requires exe in before
    ensures var after := After(before, exe, t.spec, t.reply, t.fails, hash);
            var err := Verdict(before, exe, t.spec, t.reply, t.fails, hash);
            && (err.None? ==> && exe in after && Verified(after[exe], t, hash)
                              && Old(exe) in after && after[Old(exe)] == before[exe])
            && (err.Some? && !(err == Some(RenameNewFailed) && t.fails(Rollback)) ==>
                  exe in after && after[exe] == before[exe])
            && (err == Some(RenameNewFailed) && t.fails(Rollback) ==>
                  exe !in after && Old(exe) in after && after[Old(exe)] == before[exe])
            && (err == Some(RenameNewFailed) && !t.fails(Rollback) ==> Old(exe) !in after)
            && (err == Some(RenameOldFailed) ==> (Old(exe) in after <==> Old(exe) in before && t.fails(RemoveOld)))
            && (err.Some? && err != Some(RenameOldFailed) && err != Some(RenameNewFailed) ==>
                  (Old(exe) in after <==> Old(exe) in before))
            && forall p :: p != exe && p != Old(exe) && p != New(exe) ==>
                 (p in after <==> p in before) && (p in before ==> after[p] == before[p])
  {
    PathsDiffer(exe);
  }

  /** The binary that should be running after these updates. */
  function Installed(first: Content, before: Files, exe: Path, tries: seq<Attempt>, hash: Content -> string): Content {
    if tries == [] then first
    else
      var rest := tries[..|tries| - 1];
      var t := tries[|tries| - 1];
      if Verdict(Tries(before, exe, rest, hash), exe, t.spec, t.reply, t.fails, hash).None? && t.reply.Reply?
      then Join(t.reply.parts) else Installed(first, before, exe, rest, hash)
  }

  /** As long as no update loses both the second rename and its rollback, the agent
      is always there, and is the last binary that was installed. */
  lemma {:induction false} UpdatesKeepAgent(before: Files, exe: Path, tries: seq<Attempt>, hash: Content -> string)
    requires exe in before
    requires forall k :: 0 <= k < |tries| ==> !(tries[k].fails(RenameNew) && tries[k].fails(Rollback))
    ensures var after := Tries(before, exe, tries, hash);
            exe in after && after[exe] == Installed(before[exe], before, exe, tries, hash)
    decreases |tries|
  {
    if tries != [] {
      var rest := tries[..|tries| - 1];
      UpdatesKeepAgent(before, exe, rest, hash);
      EndOfUpdate(Tries(before, exe, rest, hash), exe, tries[|tries| - 1], hash);
    }
  }

  /** An update offered after exe was lost: it cannot succeed, and exe.old, the only
      copy, survives it exactly when the download is refused or its removal fails. */
  lemma RetryKeepsCopyIff(before: Files, exe: Path, t: Attempt, hash: Content -> string)
    requires exe !in before && Old(exe) in before
    ensures var after := After(before, exe, t.spec, t.reply, t.fails, hash);
            && Verdict(before, exe, t.spec, t.reply, t.fails, hash).Some?
            && exe !in after
            && (Old(exe) in after <==>
                  || (t.spec.sha256 != "" && |t.spec.sha256| != HEX_LENGTH)
                  || Refusal(t.spec, t.reply, t.fails, hash).Some?
                  || t.fails(RemoveOld))
  {
    PathsDiffer(exe);
  }

  /** Two updates that lose the agent: both renames' undoing fails in the first, and
      the second, with nothing failing, deletes the copy that was left. */
  lemma TwoUpdatesCanLoseAgent(exe: Path, agent: Content, hash: Content -> string)
    ensures var reply := Reply(200, [[1]], false);
            var bad := Attempt(Spec(""), reply, op => op == RenameNew || op == Rollback);
            var good := Attempt(Spec(""), reply, op => false);
            var after := Tries(map[exe := agent], exe, [bad, good], hash);
            exe !in after && Old(exe) !in after
  {
    var reply := Reply(200, [[1]], false);
    var bad := Attempt(Spec(""), reply, op => op == RenameNew || op == Rollback);
    var good := Attempt(Spec(""), reply, op => false);
    var before: Files := map[exe := agent];
    PathsDiffer(exe);
    assert Join(reply.parts) == [1] by {
      assert reply.parts[..0] == [];
    }
    assert [bad, good][..1] == [bad] && [bad][..0] == [];
    assert Tries(before, exe, [], hash) == before;
    assert Refusal(bad.spec, bad.reply, bad.fails, hash).None?;
    assert Refusal(good.spec, good.reply, good.fails, hash).None?;
    var mid := After(before, exe, bad.spec, bad.reply, bad.fails, hash);
    EndOfUpdate(before, exe, bad, hash);
    assert Tries(before, exe, [bad], hash) == mid;
    RetryKeepsCopyIff(mid, exe, good, hash);
  }

  // ---------- updates, crashes and boots ----------

  datatype Machine = Machine(files: Files, up: bool)

  /** Cut is a crash or a power loss somewhere inside an update, leaving left behind;
      Stop is any other end of the process, a restart after an update among them. */
  datatype Event = Update(t: Attempt) | Cut(t: Attempt, left: Files) | Stop | Boot(dropOld: bool, dropNew: bool)

  /** What an update leaves at exe.new is not modelled further: the next one rewrites it. */
  predicate Enabled(m: Machine, exe: Path, e: Event, hash: Content -> string) {
    match e
    case Update(_) => m.up
    case Cut(t, left) => m.up && Midway(m.files, left, exe, t.spec, t.reply, t.fails, hash)
    case Stop => m.up
    case Boot(_, _) => !m.up && exe in m.files
  }

  function Next(m: Machine, exe: Path, e: Event, hash: Content -> string): Machine {
    match e
    case Update(t) => Machine(After(m.files, exe, t.spec, t.reply, t.fails, hash), true)
    case Cut(_, left) => Machine(left, false)
    case Stop => m.(up := false)
    case Boot(dropOld, dropNew) => Machine(Cleaned(m.files, exe, dropOld, dropNew), true)
  }

  predicate IsRun(m: Machine, exe: Path, events: seq<Event>, hash: Content -> string) {
    events == [] ||
    var n := |events| - 1;
    IsRun(m, exe, events[..n], hash) && Enabled(Exec(m, exe, events[..n], hash), exe, events[n], hash)
  }

  function Exec(m: Machine, exe: Path, events: seq<Event>, hash: Content -> string): Machine {
    if events == [] then m else Next(Exec(m, exe, events[..|events| - 1], hash), exe, events[|events| - 1], hash)
  }

  predicate Tried(e: Event) {
    e.Update? || e.Cut?
  }

  /** The agent first installed, or one that some update downloaded and verified. */
  ghost predicate Genuine(binary: Content, first: Content, events: seq<Event>, hash: Content -> string) {
    binary == first || exists k :: 0 <= k < |events| && Tried(events[k]) && Verified(binary, events[k].t, hash)
  }

  /** A genuine agent is at exe, or, while the process is down, at exe.old. */
  ghost predicate Kept(m: Machine, exe: Path, first: Content, events: seq<Event>, hash: Content -> string) {
    if exe in m.files then Genuine(m.files[exe], first, events, hash)
    else !m.up && Old(exe) in m.files && Genuine(m.files[Old(exe)], first, events, hash)
  }

  predicate LosesBoth(e: Event) {
    Tried(e) && e.t.fails(RenameNew) && e.t.fails(Rollback)
  }

  /** What one update leaves behind, wherever it is cut off. */
  lemma MidwayKeeps(before: Files, left: Files, exe: Path, t: Attempt, hash: Content -> string)
    requires exe in before && Midway(before, left, exe, t.spec, t.reply, t.fails, hash)
    requires !(t.fails(RenameNew) && t.fails(Rollback))
    ensures exe in left ==> left[exe] == before[exe] || Verified(left[exe], t, hash)
    ensures exe !in left ==> Old(exe) in left && left[Old(exe)] == before[exe]
  {
    PathsDiffer(exe);
    var now := left - {New(exe)};
    assert exe in left <==> exe in now;
    assert exe in left ==> now[exe] == left[exe];
    assert Old(exe) in left <==> Old(exe) in now;
    assert Old(exe) in left ==> now[Old(exe)] == left[Old(exe)];
  }

  lemma GenuineStays(binary: Content, first: Content, events: seq<Event>, e: Event, hash: Content -> string)
    requires Genuine(binary, first, events, hash) || (Tried(e) && Verified(binary, e.t, hash))
    ensures Genuine(binary, first, events + [e], hash)
  {
    if binary != first {
      if Genuine(binary, first, events, hash) {
        var k :| 0 <= k < |events| && Tried(events[k]) && Verified(binary, events[k].t, hash);
        assert (events + [e])[k] == events[k];
      } else {
        assert (events + [e])[|events|] == e;
      }
    }
  }

  lemma EventKeeps(m: Machine, exe: Path, first: Content, events: seq<Event>, e: Event, hash: Content -> string)
    requires Kept(m, exe, first, events, hash) && Enabled(m, exe, e, hash) && !LosesBoth(e)
    ensures Kept(Next(m, exe, e, hash), exe, first, events + [e], hash)
  {
    PathsDiffer(exe);
    var n := Next(m, exe, e, hash);
    assert exe in m.files;
    GenuineStays(m.files[exe], first, events, e, hash);
    match e
    case Update(t) =>
      EndOfUpdate(m.files, exe, t, hash);
      if n.files[exe] != m.files[exe] {
        GenuineStays(n.files[exe], first, events, e, hash);
      }
    case Cut(t, left) =>
      MidwayKeeps(m.files, left, exe, t, hash);
      if exe in left && left[exe] != m.files[exe] {
        GenuineStays(left[exe], first, events, e, hash);
      }
    case Stop =>
    case Boot(_, _) =>
  }

  /** Over any sequence of updates, crashes inside them, stops and boots, as long as no
      update loses both its second rename and the rollback, a genuine agent is always
      on the disk: at exe whenever the process is up, and otherwise at exe or exe.old. */
  lemma {:induction false} AgentSurvives(exe: Path, first: Content, events: seq<Event>, hash: Content -> string)
    requires IsRun(Machine(map[exe := first], true), exe, events, hash)
    requires forall k :: 0 <= k < |events| ==> !LosesBoth(events[k])
    ensures Kept(Exec(Machine(map[exe := first], true), exe, events, hash), exe, first, events, hash)
    decreases |events|
  {
    if events != [] {
      var n := |events| - 1;
      AgentSurvives(exe, first, events[..n], hash);
      EventKeeps(Exec(Machine(map[exe := first], true), exe, events[..n], hash), exe, first, events[..n], events[n],
          hash);
      assert events[..n] + [events[n]] == events;
    }
  }

  /** The way it is meant to go: an update that succeeds, the restart, and a boot. The new
      agent is up, the old one is there exactly if it could not be removed, and nothing
      else is left or has changed. */
  lemma UpdateAndRestart(before: Files, exe: Path, t: Attempt, dropOld: bool, hash: Content -> string)
    requires exe in before && t.reply.Reply? && Verified(Join(t.reply.parts), t, hash) && Works(t)
    ensures var events := [Update(t), Stop, Boot(dropOld, true)];
            var m := Exec(Machine(before, true), exe, events, hash);
            && IsRun(Machine(before, true), exe, events, hash)
            && m.up && exe in m.files && m.files[exe] == Join(t.reply.parts)
            && (Old(exe) in m.files <==> !dropOld) && New(exe) !in m.files
            && forall p :: p != exe && p != Old(exe) && p != New(exe) ==>
                 (p in m.files <==> p in before) && (p in before ==> m.files[p] == before[p])
  {
    PathsDiffer(exe);
    UpdateSucceedsIff(before, exe, t, hash);
    EndOfUpdate(before, exe, t, hash);
    var m0 := Machine(before, true);
    var update, stop, boot := Update(t), Stop, Boot(dropOld, true);
    assert [update, stop, boot][..2] == [update, stop] && [update, stop][..1] == [update] && [update][..0] == [];
    assert Exec(m0, exe, [], hash) == m0;
    assert Exec(m0, exe, [update], hash).up;
    assert Exec(m0, exe, [update, stop], hash) == Exec(m0, exe, [update], hash).(up := false);
    assert IsRun(m0, exe, [], hash) && IsRun(m0, exe, [update], hash) && IsRun(m0, exe, [update, stop], hash);
  }

  /** A process cut off between the two renames cannot boot: the copy at exe.old stays
      where it is, since only the agent itself would remove it. */
  lemma CutBetweenRenames(before: Files, exe: Path, t: Attempt, hash: Content -> string)
    requires exe in before && !(t.spec.sha256 != "" && |t.spec.sha256| != HEX_LENGTH)
    requires Refusal(t.spec, t.reply, t.fails, hash).None? && !t.fails(RenameOld)
    ensures var left := Aside(before - {New(exe)}, exe, Old(exe));
            && Enabled(Machine(before, true), exe, Cut(t, left), hash)
            && Next(Machine(before, true), exe, Cut(t, left), hash) == Machine(left, false)
            && exe !in left && Old(exe) in left && left[Old(exe)] == before[exe]
            && forall e :: !Enabled(Machine(left, false), exe, e, hash)
  {
    PathsDiffer(exe);
    var left := Aside(before - {New(exe)}, exe, Old(exe));
    assert left - {New(exe)} == left;
  }
}
