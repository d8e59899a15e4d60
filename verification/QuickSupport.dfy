/** Quick-support codes (quickSupportService.ts): concurrent redeems, revokes and
    expiry deletions over one table, interleaved at every await. */
module QuickSupport {
  import opened Wrappers

  type Id = nat
  type Hash = string

  datatype Row = Row(code: string, device: string, hash: Option<Hash>, rights: nat, expiresAt: int, used: bool)

  /** Where one redeem is: it holds the row as it read it. */
  datatype Redeem =
    | Loaded(id: Id, row: Row, password: Option<string>, channel: nat)
    | Expired(id: Id)
    | Verifying(id: Id, row: Row, password: Option<string>, channel: nat, checkedAt: int)
    | Ready(id: Id, row: Row, password: Option<string>, channel: nat, checkedAt: int)
    | Burned(id: Id, row: Row, password: Option<string>, channel: nat, checkedAt: int)
    | Done

  /** A relay session made for a code. */
  datatype Mint = Mint(id: Id, device: string, rights: nat, channel: nat, password: Option<string>,
                       checkedAt: int, at: int)

  /** What became of a burned code: the redeem that burned it still holds it, a
      session was made for it, or its device had gone offline by then. */
  datatype Fate = Pending(p: nat) | Session(k: nat) | Lost

  /** Besides the table and the redeems under way, the history: book keeps every row
      ever inserted, revoked the ids revoked, fate what became of each burned one. */
  datatype State = State(rows: map<Id, Row>, procs: map<nat, Redeem>, online: set<string>, now: int,
                         minted: seq<Mint>, book: map<Id, Row>, revoked: set<Id>, fate: map<Id, Fate>)

  datatype Step =
    | Insert(id: Id, row: Row)
    | DeleteExpired
    | Revoke(device: string, code: string)
    | Read(p: nat, code: string, password: Option<string>, channel: nat, found: Option<Id>)
    | Check(p: nat)
    | Verify(p: nat)
    | Drop(p: nat)
    | Burn(p: nat)
    | Finish(p: nat)
    | Tick(to: int)
    | SetOnline(device: string, up: bool)

  // argon2.verify
  type Matches = (Hash, string) -> bool

  function Digits(s: string): string {
    if s == "" then ""
    else if '0' <= s[0] <= '9' then [s[0]] + Digits(s[1..]) else Digits(s[1..])
  }

  function CleanCode(code: string): string {
    var d := Digits(code);
    if |d| > 9 then d[..9] else d
  }

  predicate PasswordOk(m: Matches, row: Row, password: Option<string>) {
    row.hash.None? || (password.Some? && password.value != "" && m(row.hash.value, password.value))
  }

  function Init(now: int): State {
    State(map[], map[], {}, now, [], map[], {}, map[])
  }

  predicate Revocable(row: Row, device: string, code: string) {
    row.device == device && row.code == CleanCode(code) && !row.used
  }

  function RevokedBy(s: State, device: string, code: string): set<Id> {
    set id | id in s.rows && Revocable(s.rows[id], device, code)
  }

  /** Past the password: the device must be online before the code is burned. */
  function Admitted(s: State, id: Id, row: Row, password: Option<string>, channel: nat, checkedAt: int): Redeem {
    if row.device in s.online then Ready(id, row, password, channel, checkedAt) else Done
  }

  /** used_at, then the TTL, then the password. */
  function Checked(s: State, r: Redeem): Redeem
    requires r.Loaded?
  {
    if r.row.used then Done
    else if r.row.expiresAt < s.now then Expired(r.id)
    else if r.row.hash.Some? then Verifying(r.id, r.row, r.password, r.channel, s.now)
    else Admitted(s, r.id, r.row, r.password, r.channel, s.now)
  }

  predicate Enabled(s: State, e: Step) {
    match e
    case Insert(id, row) => id !in s.book && !row.used && forall i :: i in s.rows ==> s.rows[i].code != row.code
    case DeleteExpired => true
    case Revoke(device, code) => true
    case Read(p, code, _, _, found) =>
      && p !in s.procs
      && (found.Some? ==> found.value in s.rows && s.rows[found.value].code == CleanCode(code))
      && (found.None? ==> forall i :: i in s.rows ==> s.rows[i].code != CleanCode(code))
    case Check(p) => p in s.procs && s.procs[p].Loaded?
    case Verify(p) => p in s.procs && s.procs[p].Verifying?
    case Drop(p) => p in s.procs && s.procs[p].Expired?
    case Burn(p) => p in s.procs && s.procs[p].Ready?
    case Finish(p) => p in s.procs && s.procs[p].Burned?
    case Tick(to) => to >= s.now
    case SetOnline(_, _) => true
  }

  function Next(m: Matches, s: State, e: Step): State
    requires Enabled(s, e)
  {
    match e
    case Insert(id, row) => s.(rows := s.rows[id := row], book := s.book[id := row])
    case DeleteExpired => s.(rows := map id | id in s.rows && s.rows[id].expiresAt >= s.now :: s.rows[id])
    case Revoke(device, code) =>
      var gone := RevokedBy(s, device, code);
      s.(rows := s.rows - gone, revoked := s.revoked + gone)
    case Read(p, code, password, channel, found) =>
      s.(procs := s.procs[p := if found.None? then Done
                               else Loaded(found.value, s.rows[found.value], password, channel)])
    case Check(p) => s.(procs := s.procs[p := Checked(s, s.procs[p])])
    case Verify(p) =>
      var r := s.procs[p];
      s.(procs := s.procs[p := if PasswordOk(m, r.row, r.password)
                               then Admitted(s, r.id, r.row, r.password, r.channel, r.checkedAt) else Done])
    case Drop(p) => s.(rows := s.rows - {s.procs[p].id}, procs := s.procs[p := Done])
    case Burn(p) =>
      var r := s.procs[p];
      if r.id in s.rows && !s.rows[r.id].used
      then s.(rows := s.rows[r.id := s.rows[r.id].(used := true)],
              procs := s.procs[p := Burned(r.id, r.row, r.password, r.channel, r.checkedAt)],
              fate := s.fate[r.id := Pending(p)])
      else s.(procs := s.procs[p := Done])
    case Finish(p) =>
      var r := s.procs[p];
      if r.row.device in s.online
      then s.(procs := s.procs[p := Done],
              minted := s.minted + [Mint(r.id, r.row.device, r.row.rights, r.channel, r.password, r.checkedAt, s.now)],
              fate := s.fate[r.id := Session(|s.minted|)])
      else s.(procs := s.procs[p := Done], fate := s.fate[r.id := Lost])
    case Tick(to) => s.(now := to)
    case SetOnline(device, up) => s.(online := if up then s.online + {device} else s.online - {device})
  }

  // ---------- the invariant ----------

  /** Burned, or no longer in the table: no update can burn it any more. */
  predicate Spent(s: State, id: Id) {
    id in s.book && (id in s.rows ==> s.rows[id].used)
  }

  /** A stored row is the one inserted, but for used_at. */
  predicate RowsOk(s: State) {
    && (forall id :: id in s.book ==> !s.book[id].used)
    && forall id :: id in s.rows ==> id in s.book && s.rows[id].(used := false) == s.book[id]
  }

  predicate RedeemOk(m: Matches, s: State, r: Redeem) {
    match r
    case Loaded(id, row, _, _) => id in s.book && row.(used := false) == s.book[id]
    case Expired(id) => true
    case Verifying(id, row, _, _, checkedAt) =>
      id in s.book && row == s.book[id] && checkedAt <= row.expiresAt && checkedAt <= s.now
    case Ready(id, row, password, _, checkedAt) =>
      id in s.book && row == s.book[id] && checkedAt <= row.expiresAt && checkedAt <= s.now
          && PasswordOk(m, row, password)
    case Burned(id, row, password, _, checkedAt) =>
      && id in s.book && row == s.book[id] && checkedAt <= row.expiresAt && checkedAt <= s.now
          && PasswordOk(m, row, password)
      && Spent(s, id)
    case Done => true
  }

  predicate ProcsOk(m: Matches, s: State) {
    forall p :: p in s.procs ==> RedeemOk(m, s, s.procs[p])
  }

  predicate MintOk(m: Matches, s: State, t: Mint) {
    && Spent(s, t.id)
    && t.device == s.book[t.id].device && t.rights == s.book[t.id].rights
    && PasswordOk(m, s.book[t.id], t.password)
    && t.checkedAt <= s.book[t.id].expiresAt && t.checkedAt <= t.at <= s.now
  }

  predicate MintsOk(m: Matches, s: State) {
    forall k :: 0 <= k < |s.minted| ==> MintOk(m, s, s.minted[k])
  }

  /** The fate of a burned code is where the code is. */
  predicate FateOk(s: State, id: Id)
    requires id in s.fate
  {
    match s.fate[id]
    case Pending(p) => p in s.procs && s.procs[p].Burned? && s.procs[p].id == id
    case Session(k) => k < |s.minted| && s.minted[k].id == id
    case Lost => true
  }

  /** Every burned code has one fate, and everything done with a code is its fate. */
  predicate FatesOk(s: State) {
    && (forall id :: id in s.fate ==> Spent(s, id) && FateOk(s, id))
    && (forall id :: id in s.rows && s.rows[id].used ==> id in s.fate)
    && (forall p :: p in s.procs && s.procs[p].Burned? ==>
          s.procs[p].id in s.fate && s.fate[s.procs[p].id] == Pending(p))
    && forall k :: 0 <= k < |s.minted| ==> s.minted[k].id in s.fate && s.fate[s.minted[k].id] == Session(k)
  }

  /** Revoked codes are gone and were never burned. */
  predicate RevokedOk(s: State) {
    forall id :: id in s.revoked ==> id in s.book && id !in s.rows && id !in s.fate
  }

  predicate Inv(m: Matches, s: State) {
    RowsOk(s) && ProcsOk(m, s) && MintsOk(m, s) && FatesOk(s) && RevokedOk(s)
  }

  lemma StepRows(m: Matches, s: State, e: Step)
    requires Enabled(s, e) && RowsOk(s)
    ensures RowsOk(Next(m, s, e))
  {
  }

  /** Rows are never un-burned and ids never come back. */
  lemma StepSpent(m: Matches, s: State, e: Step, id: Id)
    requires Enabled(s, e) && RowsOk(s)
    requires Spent(s, id)
    ensures Spent(Next(m, s, e), id)
    ensures Next(m, s, e).book[id] == s.book[id]
  {
  }

  /** A redeem that does not move stays well formed. */
  lemma StepOther(m: Matches, s: State, e: Step, r: Redeem)
    requires Enabled(s, e) && RowsOk(s) && RedeemOk(m, s, r)
    ensures RedeemOk(m, Next(m, s, e), r)
  {
    if r.Burned? {
      StepSpent(m, s, e, r.id);
    }
  }

  lemma StepProcs(m: Matches, s: State, e: Step)
    requires Enabled(s, e) && RowsOk(s) && ProcsOk(m, s)
    ensures ProcsOk(m, Next(m, s, e))
  {
    var t := Next(m, s, e);
    forall p | p in t.procs
      ensures RedeemOk(m, t, t.procs[p])
    {
      if p in s.procs {
        StepOther(m, s, e, s.procs[p]);
      }
    }
  }

  lemma StepMints(m: Matches, s: State, e: Step)
    requires Enabled(s, e) && RowsOk(s) && ProcsOk(m, s) && MintsOk(m, s)
    ensures MintsOk(m, Next(m, s, e))
  {
    var t := Next(m, s, e);
    forall k | 0 <= k < |t.minted|
      ensures MintOk(m, t, t.minted[k])
    {
      if k < |s.minted| {
        assert MintOk(m, s, s.minted[k]);
        StepSpent(m, s, e, s.minted[k].id);
      } else {
        assert RedeemOk(m, s, s.procs[e.p]);
      }
    }
  }

  lemma StepFateSpent(m: Matches, s: State, e: Step)
    requires Enabled(s, e) && RowsOk(s) && FatesOk(s)
    ensures var t := Next(m, s, e); forall id :: id in t.fate ==> Spent(t, id)
  {
  }

  lemma StepFateOk(m: Matches, s: State, e: Step)
    requires Enabled(s, e) && FatesOk(s)
    ensures var t := Next(m, s, e); forall id :: id in t.fate ==> FateOk(t, id)
  {
  }

  lemma StepUsed(m: Matches, s: State, e: Step)
    requires Enabled(s, e) && FatesOk(s)
    ensures var t := Next(m, s, e); forall id :: id in t.rows && t.rows[id].used ==> id in t.fate
  {
  }

  lemma StepPending(m: Matches, s: State, e: Step)
    requires Enabled(s, e) && RowsOk(s) && FatesOk(s)
    ensures var t := Next(m, s, e);
            forall p :: p in t.procs && t.procs[p].Burned? ==>
                t.procs[p].id in t.fate && t.fate[t.procs[p].id] == Pending(p)
  {
    var t := Next(m, s, e);
    forall p | p in t.procs && t.procs[p].Burned?
      ensures t.procs[p].id in t.fate && t.fate[t.procs[p].id] == Pending(p)
    {
      if p in s.procs && s.procs[p].Burned? {
        assert s.fate[s.procs[p].id] == Pending(p);
      }
    }
  }

  lemma StepSessions(m: Matches, s: State, e: Step)
    requires Enabled(s, e) && RowsOk(s) && FatesOk(s)
    ensures var t := Next(m, s, e);
            forall k :: 0 <= k < |t.minted| ==> t.minted[k].id in t.fate && t.fate[t.minted[k].id] == Session(k)
  {
  }

  lemma StepRevoked(m: Matches, s: State, e: Step)
    requires Enabled(s, e) && RowsOk(s) && FatesOk(s) && RevokedOk(s)
    ensures RevokedOk(Next(m, s, e))
  {
  }

  lemma StepInv(m: Matches, s: State, e: Step)
    requires Enabled(s, e) && Inv(m, s)
    ensures Inv(m, Next(m, s, e))
  {
    StepRows(m, s, e);
    StepProcs(m, s, e);
    StepMints(m, s, e);
    StepFateSpent(m, s, e);
    StepFateOk(m, s, e);
    StepUsed(m, s, e);
    StepPending(m, s, e);
    StepSessions(m, s, e);
    StepRevoked(m, s, e);
  }

  // ---------- runs ----------

  predicate Runs(m: Matches, s: State, steps: seq<Step>)
    decreases |steps|
  {
    steps == [] || (Enabled(s, steps[0]) && Runs(m, Next(m, s, steps[0]), steps[1..]))
  }

  function After(m: Matches, s: State, steps: seq<Step>): State
    requires Runs(m, s, steps)
    decreases |steps|
  {
    if steps == [] then s else After(m, Next(m, s, steps[0]), steps[1..])
  }

  lemma {:induction false} RunInv(m: Matches, s: State, steps: seq<Step>)
    requires Inv(m, s) && Runs(m, s, steps)
    ensures Inv(m, After(m, s, steps))
    decreases |steps|
  {
    if steps != [] {
      StepInv(m, s, steps[0]);
      RunInv(m, Next(m, s, steps[0]), steps[1..]);
    }
  }

  /** However redeems, revokes and deletions interleave, a code makes at most one
      session, none once it was revoked; and that session is for the device, with
      the rights and past the password the code was made with, its TTL checked. */
  lemma OneSessionPerCode(m: Matches, start: int, steps: seq<Step>)
    requires Runs(m, Init(start), steps)
    ensures var s := After(m, Init(start), steps);
            && (forall j, k :: 0 <= j < k < |s.minted| ==> s.minted[j].id != s.minted[k].id)
            && (forall k :: 0 <= k < |s.minted| ==> s.minted[k].id !in s.revoked)
            && (forall k :: 0 <= k < |s.minted| ==>
                  && s.minted[k].id in s.book
                  && var row := s.book[s.minted[k].id];
                     && s.minted[k].device == row.device && s.minted[k].rights == row.rights
                     && (row.hash.Some? ==>
                           exists pw :: pw != "" && s.minted[k].password == Some(pw) && m(row.hash.value, pw))
                     && s.minted[k].checkedAt <= row.expiresAt && s.minted[k].checkedAt <= s.minted[k].at)
  {
    RunInv(m, Init(start), steps);
    var s := After(m, Init(start), steps);
    forall k | 0 <= k < |s.minted|
      ensures MintOk(m, s, s.minted[k])
    {
    }
  }

  /** A stored code that was burned either made its session, is held by a redeem
      about to make it, or was lost to a device that went offline. */
  lemma BurnedIsAccountedFor(m: Matches, start: int, steps: seq<Step>, id: Id)
    requires Runs(m, Init(start), steps)
    requires var s := After(m, Init(start), steps); id in s.rows && s.rows[id].used
    ensures var s := After(m, Init(start), steps);
            && id in s.fate
            && (s.fate[id] == Lost
                || (exists k :: 0 <= k < |s.minted| && s.minted[k].id == id)
                || exists p :: p in s.procs && s.procs[p].Burned? && s.procs[p].id == id)
  {
    RunInv(m, Init(start), steps);
    var s := After(m, Init(start), steps);
    assert FateOk(s, id);
  }

  lemma Then(m: Matches, s: State, e: Step, rest: seq<Step>)
    requires Enabled(s, e)
    ensures Runs(m, s, [e] + rest) <==> Runs(m, Next(m, s, e), rest)
    ensures Runs(m, s, [e] + rest) ==> After(m, s, [e] + rest) == After(m, Next(m, s, e), rest)
  {
    assert ([e] + rest)[1..] == rest;
  }

  // ---------- which redeem gets the code ----------

  /** The state before step k of a run. */
  function Before(m: Matches, s: State, steps: seq<Step>, k: nat): State
    requires Runs(m, s, steps) && k <= |steps|
    decreases |steps|
  {
    if k == 0 then s else Before(m, Next(m, s, steps[0]), steps[1..], k - 1)
  }

  lemma {:induction false} BeforeStep(m: Matches, s: State, steps: seq<Step>, k: nat)
    requires Runs(m, s, steps) && k < |steps|
    ensures Enabled(Before(m, s, steps, k), steps[k])
    ensures Before(m, s, steps, k + 1) == Next(m, Before(m, s, steps, k), steps[k])
    decreases |steps|
  {
    if k > 0 {
      BeforeStep(m, Next(m, s, steps[0]), steps[1..], k - 1);
    }
  }

  lemma {:induction false} BeforeInv(m: Matches, s: State, steps: seq<Step>, k: nat)
    requires Inv(m, s) && Runs(m, s, steps) && k <= |steps|
    ensures Inv(m, Before(m, s, steps, k))
    decreases k
  {
    if k > 0 {
      BeforeInv(m, s, steps, k - 1);
      BeforeStep(m, s, steps, k - 1);
      StepInv(m, Before(m, s, steps, k - 1), steps[k - 1]);
    }
  }

  /** A step that uses up code id, told by what it asks for: another redeem's burn, a
      revoke of that code, the expiry sweep once the code has expired, or the deletion
      by a redeem that found it expired. */
  predicate UsesUp(s: State, e: Step, id: Id) {
    && id in s.book
    && match e
       case Burn(p) => p in s.procs && s.procs[p].Ready? && s.procs[p].id == id
       case Revoke(device, code) => s.book[id].device == device && s.book[id].code == CleanCode(code)
       case DeleteExpired => s.book[id].expiresAt < s.now
       case Drop(p) => p in s.procs && s.procs[p].Expired? && s.procs[p].id == id
       case _ => false
  }

  /** One step leaves a code unspent exactly when it does not use it up. */
  lemma StepUnspent(m: Matches, s: State, e: Step, id: Id)
    requires Inv(m, s) && Enabled(s, e) && id in s.book
    ensures !Spent(Next(m, s, e), id) <==> !Spent(s, id) && !UsesUp(s, e, id)
  {
    if Spent(s, id) {
      StepSpent(m, s, e, id);
    } else {
      assert id in s.rows && s.rows[id].(used := false) == s.book[id];
    }
  }

  lemma StepInserts(m: Matches, s: State, e: Step, id: Id)
    requires Inv(m, s) && Enabled(s, e) && id !in s.book && id in Next(m, s, e).book
    ensures !Spent(Next(m, s, e), id)
  {
    assert e.Insert? && e.id == id;
  }

  /** A stored code is unspent exactly when nothing so far has used it up. */
  lemma {:induction false} UnspentIff(m: Matches, start: int, steps: seq<Step>, k: nat, id: Id)
    requires Runs(m, Init(start), steps) && k <= |steps|
    requires id in Before(m, Init(start), steps, k).book
    ensures !Spent(Before(m, Init(start), steps, k), id) <==> !UsedUp(m, Init(start), steps, k, id)
    decreases k
  {
    if k > 0 {
      var s, e := Before(m, Init(start), steps, k - 1), steps[k - 1];
      BeforeInv(m, Init(start), steps, k - 1);
      BeforeStep(m, Init(start), steps, k - 1);
      if id in s.book {
        UnspentIff(m, start, steps, k - 1, id);
        UnspentStep(m, Init(start), steps, k, id);
      } else {
        StepInserts(m, s, e, id);
        NotUsedUpYet(m, Init(start), steps, k - 1, id);
      }
    }
  }

  lemma UnspentStep(m: Matches, s0: State, steps: seq<Step>, k: nat, id: Id)
    requires Runs(m, s0, steps) && 0 < k <= |steps| && id in Before(m, s0, steps, k - 1).book
    requires Inv(m, Before(m, s0, steps, k - 1)) && Enabled(Before(m, s0, steps, k - 1), steps[k - 1])
    requires Before(m, s0, steps, k) == Next(m, Before(m, s0, steps, k - 1), steps[k - 1])
    requires !Spent(Before(m, s0, steps, k - 1), id) <==> !UsedUp(m, s0, steps, k - 1, id)
    ensures !Spent(Before(m, s0, steps, k), id) <==> !UsedUp(m, s0, steps, k, id)
  {
    StepUnspent(m, Before(m, s0, steps, k - 1), steps[k - 1], id);
    UsedUpStep(m, s0, steps, k, id);
  }

  /** One of the first k steps used the code up. */
  ghost predicate UsedUp(m: Matches, s: State, steps: seq<Step>, k: nat, id: Id)
    requires Runs(m, s, steps) && k <= |steps|
  {
    exists j: nat :: j < k && UsesUp(Before(m, s, steps, j), steps[j], id)
  }

  lemma UsedUpStep(m: Matches, s: State, steps: seq<Step>, k: nat, id: Id)
    requires Runs(m, s, steps) && 0 < k <= |steps|
    ensures UsedUp(m, s, steps, k, id) <==>
              UsedUp(m, s, steps, k - 1, id) || UsesUp(Before(m, s, steps, k - 1), steps[k - 1], id)
  {
  }

  lemma {:induction false} BookGrows(m: Matches, s: State, steps: seq<Step>, j: nat, k: nat, id: Id)
    requires Runs(m, s, steps) && j <= k <= |steps|
    ensures id in Before(m, s, steps, j).book ==> id in Before(m, s, steps, k).book
    decreases k
  {
    if j < k {
      BookGrows(m, s, steps, j, k - 1, id);
      BeforeStep(m, s, steps, k - 1);
    }
  }

  lemma NotUsedUpYet(m: Matches, s: State, steps: seq<Step>, k: nat, id: Id)
    requires Runs(m, s, steps) && k < |steps| && id !in Before(m, s, steps, k).book
    ensures !UsedUp(m, s, steps, k + 1, id)
  {
    forall j: nat | j <= k
      ensures !UsesUp(Before(m, s, steps, j), steps[j], id)
    {
      BookGrows(m, s, steps, j, k, id);
    }
  }

  /** Of all redeems of one code, the first to reach its burn gets it, whatever each of
      them read and when: step k burns the code for its redeem exactly when no earlier
      step was a burn of that code, a revoke of it, or a deletion after its expiry. */
  lemma FirstBurnWins(m: Matches, start: int, steps: seq<Step>, k: nat, p: nat)
    requires Runs(m, Init(start), steps) && k < |steps| && steps[k] == Burn(p)
    ensures Enabled(Before(m, Init(start), steps, k), Burn(p))
    ensures var id := Before(m, Init(start), steps, k).procs[p].id;
            && p in Before(m, Init(start), steps, k + 1).procs
            && (Before(m, Init(start), steps, k + 1).procs[p].Burned? <==> !UsedUp(m, Init(start), steps, k, id))
            && (Before(m, Init(start), steps, k + 1).procs[p].Done? <==> UsedUp(m, Init(start), steps, k, id))
  {
    var s := Before(m, Init(start), steps, k);
    BeforeStep(m, Init(start), steps, k);
    BeforeInv(m, Init(start), steps, k);
    assert RedeemOk(m, s, s.procs[p]);
    UnspentIff(m, start, steps, k, s.procs[p].id);
  }

  lemma {:induction false} RevokedGrows(m: Matches, s: State, steps: seq<Step>, j: nat, id: Id)
    requires Runs(m, s, steps) && j <= |steps| && id in Before(m, s, steps, j).revoked
    ensures id in After(m, s, steps).revoked
    decreases |steps|
  {
    if steps != [] {
      if j == 0 {
        assert id in Next(m, s, steps[0]).revoked;
        RevokedGrows(m, Next(m, s, steps[0]), steps[1..], 0, id);
      } else {
        RevokedGrows(m, Next(m, s, steps[0]), steps[1..], j - 1, id);
      }
    }
  }

  /** A code that is revoked, as it is typed and before it was used, makes no session,
      neither before nor ever after, whatever redeems were already under way. */
  lemma RevokedMakesNone(m: Matches, start: int, steps: seq<Step>, j: nat, id: Id)
    requires Runs(m, Init(start), steps) && j < |steps| && steps[j].Revoke?
    requires var s := Before(m, Init(start), steps, j);
             && id in s.rows && !s.rows[id].used
             && s.rows[id].device == steps[j].device && s.rows[id].code == CleanCode(steps[j].code)
    ensures forall k :: 0 <= k < |After(m, Init(start), steps).minted| ==>
              After(m, Init(start), steps).minted[k].id != id
  {
    BeforeStep(m, Init(start), steps, j);
    assert id in Before(m, Init(start), steps, j + 1).revoked;
    RevokedGrows(m, Init(start), steps, j + 1, id);
    RunInv(m, Init(start), steps);
  }

  // ---------- the TTL ----------

  /** The redeem at p, past its checks, is let finish at time at, and makes a session. */
  ghost predicate MakesSession(m: Matches, s: State, p: nat, at: int)
    requires p in s.procs && s.procs[p].Ready?
  {
    var steps := [Tick(at), Burn(p), Finish(p)];
    var r := s.procs[p];
    && Runs(m, s, steps)
    && After(m, s, steps).minted
    == s.minted + [Mint(r.id, r.row.device, r.row.rights, r.channel, r.password, r.checkedAt, at)]
  }

  /** The TTL is looked at once, before the password and the burn: a redeem past that
      check makes its session at any later time, expired or not, exactly when its code
      is unspent and its device online. */
  lemma TtlNotLookedAtAgain(m: Matches, s: State, p: nat, at: int)
    requires Inv(m, s) && p in s.procs && s.procs[p].Ready? && at >= s.now
    ensures MakesSession(m, s, p, at) <==> !Spent(s, s.procs[p].id) && s.procs[p].row.device in s.online
  {
    assert RedeemOk(m, s, s.procs[p]);
    var s1 := Next(m, s, Tick(at));
    var s2 := Next(m, s1, Burn(p));
    Then(m, s, Tick(at), [Burn(p), Finish(p)]);
    Then(m, s1, Burn(p), [Finish(p)]);
    assert [Tick(at)] + [Burn(p), Finish(p)] == [Tick(at), Burn(p), Finish(p)];
    assert [Burn(p)] + [Finish(p)] == [Burn(p), Finish(p)];
    LastStep(m, s2, Finish(p));
  }

  lemma LastStep(m: Matches, s: State, e: Step)
    ensures Runs(m, s, [e]) <==> Enabled(s, e)
    ensures Enabled(s, e) ==> After(m, s, [e]) == Next(m, s, e)
  {
    assert [e][1..] == [];
  }

  // ---------- one redeem left alone ----------

  lemma {:induction false} DigitsJoin(a: string, b: string)
    ensures Digits(a + b) == Digits(a) + Digits(b)
  {
    if a == "" {
      assert a + b == b;
    } else {
      assert (a + b)[1..] == a[1..] + b;
      DigitsJoin(a[1..], b);
    }
  }

  /** However a code is written, what counts is its digits, the first nine of them. */
  lemma CleanCodeIs(a: string, b: string, c: char)
    ensures !('0' <= c <= '9') ==> CleanCode(a + [c] + b) == CleanCode(a + b)
    ensures (forall i :: 0 <= i < |a| ==> '0' <= a[i] <= '9') ==> CleanCode(a) == if |a| <= 9 then a else a[..9]
  {
    if !('0' <= c <= '9') {
      NonDigit(a, b, c);
    }
    if forall i :: 0 <= i < |a| ==> '0' <= a[i] <= '9' {
      DigitsOfDigits(a);
    }
  }

  lemma NonDigit(a: string, b: string, c: char)
    requires !('0' <= c <= '9')
    ensures Digits(a + [c] + b) == Digits(a + b)
  {
    var last := [c];
    assert Digits(last) == "" by {
      assert last[1..] == "";
    }
    DigitsJoin(a + last, b);
    DigitsJoin(a, last);
    DigitsJoin(a, b);
    assert Digits(a) + "" == Digits(a);
  }

  /** The steps of a redeem that goes through, with no other in between. */
  function RedeemSteps(s: State, p: nat, code: string, password: Option<string>, channel: nat, id: Id): seq<Step> {
    [Read(p, code, password, channel, Some(id))] + ([Check(p)] +
    (if id in s.rows && s.rows[id].hash.Some? then [Verify(p)] + ([Burn(p)] + [Finish(p)])
     else [Burn(p)] + [Finish(p)]))
  }

  /** A redeem left alone gets a session of row id. */
  ghost predicate Redeems(m: Matches, s: State, p: nat, code: string, password: Option<string>, channel: nat, id: Id) {
    var steps := RedeemSteps(s, p, code, password, channel, id);
    && Runs(m, s, steps) && id in s.rows
    && After(m, s, steps).minted
       == s.minted + [Mint(id, s.rows[id].device, s.rows[id].rights, channel, password, s.now, s.now)]
  }

  /** A redeem that nothing disturbs gets its session, on the channel asked for, exactly
      when the table holds an unused row of that code that has not expired, its device is
      online, and the password matches if the row has one. */
  lemma RedeemsIff(m: Matches, s: State, p: nat, code: string, password: Option<string>, channel: nat, id: Id)
    requires Inv(m, s) && p !in s.procs
    ensures Redeems(m, s, p, code, password, channel, id) <==>
              && id in s.rows && s.rows[id].code == CleanCode(code)
              && !s.rows[id].used && s.now <= s.rows[id].expiresAt
              && (s.rows[id].hash.Some? ==>
                    exists pw :: pw != "" && password == Some(pw) && m(s.rows[id].hash.value, pw))
              && s.rows[id].device in s.online
  {
    var read := Read(p, code, password, channel, Some(id));
    var steps := RedeemSteps(s, p, code, password, channel, id);
    if Enabled(s, read) {
      var row := s.rows[id];
      var s1 := Next(m, s, read);
      Then(m, s, read, steps[1..]);
      var s2 := Next(m, s1, Check(p));
      if row.hash.Some? {
        Then(m, s1, Check(p), [Verify(p)] + ([Burn(p)] + [Finish(p)]));
        if s2.procs[p].Verifying? {
          var s3 := Next(m, s2, Verify(p));
          Then(m, s2, Verify(p), [Burn(p)] + [Finish(p)]);
          BurnAndFinish(m, s3, p);
        }
      } else {
        Then(m, s1, Check(p), [Burn(p)] + [Finish(p)]);
        BurnAndFinish(m, s2, p);
      }
    }
  }

  /** It reaches the burn, its row untouched until then, exactly under those conditions:
      a wrong password, an expired or used code or an offline device burns nothing. */
  lemma ReachesBurnIff(m: Matches, s: State, p: nat, code: string, password: Option<string>, channel: nat, id: Id)
    requires Inv(m, s) && Enabled(s, Read(p, code, password, channel, Some(id)))
    ensures var row := s.rows[id];
            var checks := [Read(p, code, password, channel, Some(id))] + [Check(p)];
            && Runs(m, s, checks) && After(m, s, checks).rows == s.rows
            && (Enabled(After(m, s, checks), Verify(p)) <==>
                  !row.used && s.now <= row.expiresAt && row.hash.Some?)
            && (Enabled(After(m, s, checks), Burn(p)) <==>
                  !row.used && s.now <= row.expiresAt && row.hash.None? && row.device in s.online)
            && (Enabled(After(m, s, checks), Verify(p)) ==>
                  var t := Next(m, After(m, s, checks), Verify(p));
                  && t.rows == s.rows
                  && (Enabled(t, Burn(p)) <==>
                        && row.device in s.online
                        && exists pw :: pw != "" && password == Some(pw) && m(row.hash.value, pw)))
  {
    var read := Read(p, code, password, channel, Some(id));
    var s1 := Next(m, s, read);
    assert s1 == s.(procs := s.procs[p := Loaded(id, s.rows[id], password, channel)]);
    Then(m, s, read, [Check(p)]);
    LastStep(m, s1, Check(p));
    CheckIs(m, s1, p);
  }

  /** What a check lets through, and what a verify does. */
  lemma CheckIs(m: Matches, s: State, p: nat)
    requires Enabled(s, Check(p))
    ensures var r := s.procs[p]; var t := Next(m, s, Check(p));
            && t.rows == s.rows && p in t.procs
            && (t.procs[p].Verifying? <==> !r.row.used && s.now <= r.row.expiresAt && r.row.hash.Some?)
            && (t.procs[p].Ready? <==>
                  !r.row.used && s.now <= r.row.expiresAt && r.row.hash.None? && r.row.device in s.online)
            && (t.procs[p].Verifying? ==>
                  && Next(m, t, Verify(p)).rows == s.rows
                  && (Next(m, t, Verify(p)).procs[p].Ready? <==>
                        && r.row.device in s.online
                        && exists pw :: pw != "" && r.password == Some(pw) && m(r.row.hash.value, pw)))
  {
  }

  lemma BurnAndFinish(m: Matches, s: State, p: nat)
    requires p in s.procs
    ensures var r := s.procs[p];
            var works := r.Ready? && r.id in s.rows && !s.rows[r.id].used;
            && (Runs(m, s, [Burn(p)] + [Finish(p)]) <==> works)
            && (works && r.row.device !in s.online ==> After(m, s, [Burn(p)] + [Finish(p)]).minted == s.minted)
            && (works && r.row.device in s.online ==>
                  After(m, s, [Burn(p)] + [Finish(p)]).minted == s.minted +
                    [Mint(r.id, r.row.device, r.row.rights, r.channel, r.password, r.checkedAt, s.now)])
  {
    if s.procs[p].Ready? {
      var t := Next(m, s, Burn(p));
      Then(m, s, Burn(p), [Finish(p)]);
      LastStep(m, t, Finish(p));
    }
  }

  /** A row that expires at 100, and a redeem that reads and checks it then. */
  function SlowRow(code: string): Row {
    Row(code, "d", None, 7, 100, false)
  }

  function SlowStart(code: string): seq<Step> {
    [Insert(0, SlowRow(code)), SetOnline("d", true), Tick(100), Read(1, code, None, 2, Some(0)), Check(1)]
  }

  /** A session is made after its code's expiry: the redeem finishes 100 ms late. */
  lemma LateSession(m: Matches, code: string)
    requires |code| == 9 && forall i :: 0 <= i < 9 ==> '0' <= code[i] <= '9'
    ensures var steps := SlowStart(code) + [Tick(200), Burn(1), Finish(1)];
            && Runs(m, Init(0), steps)
            && var s := After(m, Init(0), steps);
               && s.minted == [Mint(0, "d", 7, 2, None, 100, 200)]
               && 0 in s.book && s.minted[0].at > s.book[0].expiresAt
  {
    DigitsOfDigits(code);
    SlowStarts(m, code);
    RunInv(m, Init(0), SlowStart(code));
    var s := After(m, Init(0), SlowStart(code));
    TtlNotLookedAtAgain(m, s, 1, 200);
    assert MakesSession(m, s, 1, 200);
    Append(m, Init(0), SlowStart(code), [Tick(200), Burn(1), Finish(1)]);
    BookStays(m, s, [Tick(200), Burn(1), Finish(1)], 0);
    assert [] + [Mint(0, "d", 7, 2, None, 100, 200)] == [Mint(0, "d", 7, 2, None, 100, 200)];
  }

  /** A code can be lost: its device goes offline between the burn and the session. */
  lemma CodeCanBeLost(m: Matches, code: string)
    requires |code| == 9 && forall i :: 0 <= i < 9 ==> '0' <= code[i] <= '9'
    ensures var steps := SlowStart(code) + ([Burn(1)] + ([SetOnline("d", false)] + [Finish(1)]));
            && Runs(m, Init(0), steps)
            && var s := After(m, Init(0), steps);
               0 in s.rows && s.rows[0].used && s.minted == [] && 0 in s.fate && s.fate[0] == Lost
  {
    DigitsOfDigits(code);
    SlowStarts(m, code);
    var s := After(m, Init(0), SlowStart(code));
    var s1 := Next(m, s, Burn(1));
    var s2 := Next(m, s1, SetOnline("d", false));
    LastStep(m, s2, Finish(1));
    Then(m, s1, SetOnline("d", false), [Finish(1)]);
    Then(m, s, Burn(1), [SetOnline("d", false)] + [Finish(1)]);
    Append(m, Init(0), SlowStart(code), [Burn(1)] + ([SetOnline("d", false)] + [Finish(1)]));
  }

  lemma {:induction false} Append(m: Matches, s: State, a: seq<Step>, b: seq<Step>)
    requires Runs(m, s, a) && Runs(m, After(m, s, a), b)
    ensures Runs(m, s, a + b) && After(m, s, a + b) == After(m, After(m, s, a), b)
    decreases |a|
  {
    if a == [] {
      assert a + b == b;
    } else {
      assert (a + b)[1..] == a[1..] + b;
      Append(m, Next(m, s, a[0]), a[1..], b);
    }
  }

  lemma {:induction false} BookStays(m: Matches, s: State, steps: seq<Step>, id: Id)
    requires Runs(m, s, steps) && id in s.book
    ensures id in After(m, s, steps).book && After(m, s, steps).book[id] == s.book[id]
    decreases |steps|
  {
    if steps != [] {
      BookStays(m, Next(m, s, steps[0]), steps[1..], id);
    }
  }

  lemma SlowStarts(m: Matches, code: string)
    requires CleanCode(code) == code
    ensures Runs(m, Init(0), SlowStart(code))
    ensures After(m, Init(0), SlowStart(code))
         == State(map[0 := SlowRow(code)], map[1 := Ready(0, SlowRow(code), None, 2, 100)], {"d"}, 100,
                  [], map[0 := SlowRow(code)], {}, map[])
  {
    var e1, e2, e3, e4 := Insert(0, SlowRow(code)), SetOnline("d", true), Tick(100), Read(1, code, None, 2, Some(0));
    var s1 := State(map[0 := SlowRow(code)], map[], {}, 0, [], map[0 := SlowRow(code)], {}, map[]);
    var s2 := s1.(online := {"d"});
    var s3 := s2.(now := 100);
    var s4 := s3.(procs := map[1 := Loaded(0, SlowRow(code), None, 2)]);
    assert Next(m, Init(0), e1) == s1 && Next(m, s1, e2) == s2 && Next(m, s2, e3) == s3;
    assert Next(m, s3, e4) == s4;
    assert Next(m, s4, Check(1)) == s3.(procs := map[1 := Ready(0, SlowRow(code), None, 2, 100)]);
    LastStep(m, s4, Check(1));
    Then(m, s3, e4, [Check(1)]);
    Then(m, s2, e3, [e4] + [Check(1)]);
    Then(m, s1, e2, [e3] + ([e4] + [Check(1)]));
    Then(m, Init(0), e1, [e2] + ([e3] + ([e4] + [Check(1)])));
    assert [e1] + ([e2] + ([e3] + ([e4] + [Check(1)]))) == SlowStart(code);
  }

  lemma {:induction false} DigitsOfDigits(s: string)
    requires forall i :: 0 <= i < |s| ==> '0' <= s[i] <= '9'
    ensures Digits(s) == s
  {
    if s != "" {
      DigitsOfDigits(s[1..]);
      assert [s[0]] + s[1..] == s;
    }
  }
}
