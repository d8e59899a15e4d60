/** One rule on one device when evaluations overlap: agentSocket does not await them, so
    a call gives way while it inserts or resolves a row, and others run meanwhile. */
module AlertOverlap {
  import opened Wrappers
  import opened AlertEngine

  /** active and since are the two maps' entries for the device; resolved has the rows
      inserted so far. opening holds the calls awaiting their insert, resolving those
      awaiting their update, each with the row it read from active. */
  datatype Pair = Pair(active: Option<nat>, since: Option<int>, resolved: seq<bool>,
                       opening: set<nat>, resolving: map<nat, nat>)

  /** A call c runs up to its await, and later from there to its end. */
  datatype Step =
    | Breach(c: nat, sinceNow: int, holdNow: int)
    | Inserted(c: nat)
    | Recover(c: nat)
    | Resolved(c: nat)

  function Init(): Pair {
    Pair(None, None, [], {}, map[])
  }

  predicate Enabled(s: Pair, e: Step) {
    match e
    case Breach(c, _, _) => c !in s.opening && c !in s.resolving
    case Recover(c) => c !in s.opening && c !in s.resolving
    case Inserted(c) => c in s.opening
    case Resolved(c) => c in s.resolving
  }

  function Next(row: Rule, s: Pair, e: Step): Pair
    requires Enabled(s, e)
  {
    match e
    case Breach(c, sinceNow, holdNow) =>
      var since := if s.since.Some? then s.since.value else sinceNow;
      if s.active.Some? then s
      else if !HeldLongEnough(row, since, holdNow) then s.(since := Some(since))
      else s.(since := None, opening := s.opening + {c})
    case Inserted(c) =>
      s.(active := Some(|s.resolved|), resolved := s.resolved + [false], opening := s.opening - {c})
    case Recover(c) =>
      if s.active.None? then s.(since := None)
      else s.(since := None, resolving := s.resolving[c := s.active.value])
    case Resolved(c) =>
      var id := s.resolving[c];
      s.(active := None, resolving := s.resolving - {c},
         resolved := if id < |s.resolved| then s.resolved[id := true] else s.resolved)
  }

  predicate Awaited(s: Pair, id: nat) {
    exists c :: c in s.resolving && s.resolving[c] == id
  }

  /** An unresolved row that no entry of active and no running call still names. */
  predicate Orphan(s: Pair, id: nat) {
    id < |s.resolved| && !s.resolved[id] && s.active != Some(id) && !Awaited(s, id)
  }

  predicate SomeOrphan(s: Pair) {
    exists id: nat :: id < |s.resolved| && Orphan(s, id)
  }

  predicate NamesRows(s: Pair) {
    && (s.active.Some? ==> s.active.value < |s.resolved| && !s.resolved[s.active.value])
    && forall c :: c in s.resolving ==> s.resolving[c] < |s.resolved|
  }

  /** A step that loses track of a row: an insert finishes while active names another
      row, or a resolve finishes while active names another row than its own, and no
      other call is about to resolve the row named. */
  predicate Loses(s: Pair, e: Step) {
    && s.active.Some?
    && match e
       case Inserted(c) => !Awaited(s, s.active.value)
       case Resolved(c) =>
         && c in s.resolving && s.resolving[c] != s.active.value
         && !exists d :: d in s.resolving && d != c && s.resolving[d] == s.active.value
       case _ => false
  }

  lemma StepNames(row: Rule, s: Pair, e: Step)
    requires Enabled(s, e) && NamesRows(s)
    ensures NamesRows(Next(row, s, e))
  {
  }

  /** A step orphans a row exactly when it loses track of the one active named. */
  lemma StepOrphans(row: Rule, s: Pair, e: Step, id: nat)
    requires Enabled(s, e) && NamesRows(s)
    ensures Orphan(Next(row, s, e), id) <==> Orphan(s, id) || (Loses(s, e) && s.active == Some(id))
  {
    var t := Next(row, s, e);
    if Awaited(s, id) {
      var c :| c in s.resolving && s.resolving[c] == id;
      if !(e == Resolved(c)) {
        assert c in t.resolving && t.resolving[c] == id;
      }
    }
    if Awaited(t, id) {
      var c :| c in t.resolving && t.resolving[c] == id;
      assert (c in s.resolving && s.resolving[c] == id) || (e == Recover(c) && s.active == Some(id));
    }
  }

  // ---------- runs ----------

  predicate Runs(row: Rule, s: Pair, steps: seq<Step>)
    decreases |steps|
  {
    steps == [] || (Enabled(s, steps[0]) && Runs(row, Next(row, s, steps[0]), steps[1..]))
  }

  function After(row: Rule, s: Pair, steps: seq<Step>): Pair
    requires Runs(row, s, steps)
    decreases |steps|
  {
    if steps == [] then s else After(row, Next(row, s, steps[0]), steps[1..])
  }

  predicate SomeLoses(row: Rule, s: Pair, steps: seq<Step>)
    requires Runs(row, s, steps)
    decreases |steps|
  {
    steps != [] && (Loses(s, steps[0]) || SomeLoses(row, Next(row, s, steps[0]), steps[1..]))
  }

  lemma StepSomeOrphan(row: Rule, s: Pair, e: Step)
    requires Enabled(s, e) && NamesRows(s)
    ensures SomeOrphan(Next(row, s, e)) <==> SomeOrphan(s) || Loses(s, e)
  {
    var t := Next(row, s, e);
    if SomeOrphan(t) {
      var id: nat :| id < |t.resolved| && Orphan(t, id);
      StepOrphans(row, s, e, id);
    }
    if SomeOrphan(s) {
      var id: nat :| id < |s.resolved| && Orphan(s, id);
      StepOrphans(row, s, e, id);
    }
    if Loses(s, e) {
      StepOrphans(row, s, e, s.active.value);
    }
  }

  lemma {:induction false} OrphanRun(row: Rule, s: Pair, steps: seq<Step>)
    requires NamesRows(s) && Runs(row, s, steps)
    ensures SomeOrphan(After(row, s, steps)) <==> SomeOrphan(s) || SomeLoses(row, s, steps)
    decreases |steps|
  {
    if steps != [] {
      StepNames(row, s, steps[0]);
      StepSomeOrphan(row, s, steps[0]);
      OrphanRun(row, Next(row, s, steps[0]), steps[1..]);
    }
  }

  /** Over any run of overlapping evaluations, a row is left that nothing will ever
      resolve if and only if some insert or resolve finished while active named another
      row that no other call was about to resolve. */
  lemma OrphanIff(row: Rule, steps: seq<Step>)
    requires Runs(row, Init(), steps)
    ensures SomeOrphan(After(row, Init(), steps)) <==> SomeLoses(row, Init(), steps)
  {
    OrphanRun(row, Init(), steps);
  }

  /** Once orphaned, a row stays unresolved whatever runs after. */
  lemma {:induction false} OrphanStays(row: Rule, s: Pair, steps: seq<Step>, id: nat)
    requires NamesRows(s) && Runs(row, s, steps) && Orphan(s, id)
    ensures Orphan(After(row, s, steps), id)
    decreases |steps|
  {
    if steps != [] {
      StepNames(row, s, steps[0]);
      StepOrphans(row, s, steps[0], id);
      OrphanStays(row, Next(row, s, steps[0]), steps[1..], id);
    }
  }

  /** Every call ends before the next begins. */
  predicate OneAtATime(row: Rule, s: Pair, steps: seq<Step>)
    requires Runs(row, s, steps)
    decreases |steps|
  {
    steps == [] ||
    (&& (steps[0].Breach? || steps[0].Recover? ==> s.opening == {} && s.resolving == map[])
     && OneAtATime(row, Next(row, s, steps[0]), steps[1..]))
  }

  lemma {:induction false} OneAtATimeRun(row: Rule, s: Pair, steps: seq<Step>)
    requires Runs(row, s, steps) && OneAtATime(row, s, steps)
    requires s.opening == {} || (s.resolving == map[] && s.active.None? && exists c :: s.opening == {c})
    requires s.resolving == map[] || (exists c :: s.resolving.Keys == {c} && s.active == Some(s.resolving[c]))
    ensures !SomeLoses(row, s, steps)
    decreases |steps|
  {
    if steps != [] {
      var e, t := steps[0], Next(row, s, steps[0]);
      match e {
        case Breach(c, _, _) =>
          assert t.opening == {} || t.opening == {c};
        case Recover(c) =>
          assert t.resolving == map[] || t.resolving.Keys == {c};
        case Inserted(c) =>
          assert t.opening == {};
        case Resolved(c) =>
          assert t.resolving == map[];
      }
      OneAtATimeRun(row, t, steps[1..]);
    }
  }

  /** Evaluated one at a time, no row is ever orphaned. */
  lemma OneAtATimeKeepsTrack(row: Rule, steps: seq<Step>)
    requires Runs(row, Init(), steps) && OneAtATime(row, Init(), steps)
    ensures !SomeOrphan(After(row, Init(), steps))
  {
    OneAtATimeRun(row, Init(), steps);
    OrphanIff(row, steps);
  }

  // ---------- one call from start to end ----------

  function Lookup<T>(m: map<Device, T>, d: Device): Option<T> {
    if d in m then Some(m[d]) else None
  }

  /** With no call under way, the pair is what the engine has stored for its device. */
  predicate Mirrors(s: Pair, e: Entry, t: Store, d: Device) {
    && s.opening == {} && s.resolving == map[]
    && s.active == Lookup(e.state.active, d) && s.since == Lookup(e.state.breachSince, d)
    && |s.resolved| == |t.events|
    && forall i :: 0 <= i < |t.events| ==> s.resolved[i] == t.events[i].resolved.Some?
  }

  /** What a breaching call does from start to end, if no other runs meanwhile. */
  function WholeBreach(row: Rule, s: Pair, c: nat, sinceNow: int, holdNow: int): Pair
    requires s.opening == {} && s.resolving == map[]
  {
    var s1 := Next(row, s, Breach(c, sinceNow, holdNow));
    if c in s1.opening then Next(row, s1, Inserted(c)) else s1
  }

  function WholeRecover(row: Rule, s: Pair, c: nat): Pair
    requires s.opening == {} && s.resolving == map[]
  {
    var s1 := Next(row, s, Recover(c));
    if c in s1.resolving then Next(row, s1, Resolved(c)) else s1
  }

  /** A call that no other overlaps does here what it does in the engine. */
  lemma WholeCallMirrors(s: Pair, e: Entry, t: Store, d: Device, value: real, sinceNow: int, holdNow: int, works: bool,
                         k: nat, c: nat)
    requires Mirrors(s, e, t, d)
    ensures var (e', t') := OnBreach(e, t, d, value, sinceNow, holdNow, works, k);
            Mirrors(WholeBreach(e.row, s, c, sinceNow, holdNow), e', t', d)
    ensures var (e', t') := OnRecover(e, t, d, k);
            Mirrors(WholeRecover(e.row, s, c), e', t', d)
  {
  }

  /** Two breaching samples in quick succession open two rows, and the first is never
      resolved. */
  lemma TwoRowsForOneBreach(row: Rule)
    requires row.durationS <= 0
    ensures var steps := [Breach(1, 0, 0), Breach(2, 0, 0), Inserted(1), Inserted(2)];
            && Runs(row, Init(), steps)
            && After(row, Init(), steps) == Pair(Some(1), None, [false, false], {}, map[])
            && Orphan(After(row, Init(), steps), 0)
  {
    var s1 := Pair(None, None, [], {1}, map[]);
    var s2 := Pair(None, None, [], {1, 2}, map[]);
    var s3 := Pair(Some(0), None, [false], {2}, map[]);
    var s4 := Pair(Some(1), None, [false, false], {}, map[]);
    assert Next(row, Init(), Breach(1, 0, 0)) == s1 && Next(row, s1, Breach(2, 0, 0)) == s2;
    assert Next(row, s2, Inserted(1)) == s3 && Next(row, s3, Inserted(2)) == s4;
    var steps := [Breach(1, 0, 0), Breach(2, 0, 0), Inserted(1), Inserted(2)];
    assert steps[1..] == [Breach(2, 0, 0), Inserted(1), Inserted(2)];
    assert steps[1..][1..] == [Inserted(1), Inserted(2)] && [Inserted(1), Inserted(2)][1..] == [Inserted(2)];
    assert Runs(row, s3, [Inserted(2)]) && After(row, s3, [Inserted(2)]) == s4;
    assert Runs(row, s2, steps[1..][1..]) && After(row, s2, steps[1..][1..]) == s4;
    assert Runs(row, s1, steps[1..]) && After(row, s1, steps[1..]) == s4;
  }
}
