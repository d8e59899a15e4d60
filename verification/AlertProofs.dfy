/** The alert table is what the whole history of samples says it should be. */
module AlertProofs {
  import opened Wrappers
  import opened AlertEngine

  // ---------- the declarative list ----------

  /** A sample as one rule saw it, during evaluation k. */
  datatype Obs = Obs(value: real, sinceNow: int, holdNow: int, k: nat)

  /** What a reader of alert_events learns about one alert. */
  datatype Alert = Alert(value: real, raised: nat, resolved: Option<nat>)

  /** The sample is on the wrong side of the threshold: above it for ">", at or above
      it for ">=", and below it for any other operator. */
  predicate Bad(row: Rule, o: Obs) {
    || (row.operator == ">" && o.value > row.threshold)
    || (row.operator == ">=" && o.value >= row.threshold)
    || (row.operator != ">" && row.operator != ">=" && o.value < row.threshold)
  }

  /** The sample carries the rule's metric, and the rule is for this device or all. */
  predicate Concerns(row: Rule, device: Device, sample: map<string, real>) {
    row.enabled && row.metric in sample && row.device in {None, Some(""), Some(device)}
  }

  /** Where the run of breaching samples that ends the history starts; the length
      of the history when its last sample does not breach. */
  function TrailStart(row: Rule, obs: seq<Obs>): (s: nat)
    ensures s <= |obs|
    ensures forall i :: s <= i < |obs| ==> Bad(row, obs[i])
    ensures 0 < s ==> !Bad(row, obs[s - 1])
  {
    if obs == [] || !Bad(row, obs[|obs| - 1]) then |obs| else TrailStart(row, obs[..|obs| - 1])
  }

  /** The last sample of the history breaches, and its run has lasted at least the
      rule's seconds, by the clock readings in milliseconds. */
  predicate Ripe(row: Rule, obs: seq<Obs>) {
    && obs != []
    && Bad(row, obs[|obs| - 1])
    && (row.durationS <= 0
        || obs[|obs| - 1].holdNow - obs[TrailStart(row, obs)].sinceNow >= 1000 * row.durationS)
  }

  /** Some sample of the run that ends the history was ripe. */
  ghost predicate TrailRipe(row: Rule, obs: seq<Obs>) {
    exists n :: TrailStart(row, obs) < n <= |obs| && Ripe(row, obs[..n])
  }

  /** An alert opens at the first ripe sample of a run. */
  ghost predicate Opens(row: Rule, obs: seq<Obs>) {
    Ripe(row, obs) && !TrailRipe(row, obs[..|obs| - 1])
  }

  /** The evaluation of the first sample after position m that does not breach. */
  function CalmAfter(row: Rule, obs: seq<Obs>, m: nat): (r: Option<nat>)
    ensures r.None? <==> forall i :: m < i < |obs| ==> Bad(row, obs[i])
    ensures r.Some? ==> exists j :: m < j < |obs| && !Bad(row, obs[j]) && obs[j].k == r.value
                                 && forall i :: m < i < j ==> Bad(row, obs[i])
  {
    if |obs| <= m + 1 then None
    else
      var n := |obs| - 1;
      var before := CalmAfter(row, obs[..n], m);
      if before.Some? then before else if Bad(row, obs[n]) then None else Some(obs[n].k)
  }

  /** Every alert the history calls for, judged position by position. */
  ghost function DeclaredUpTo(row: Rule, obs: seq<Obs>, n: nat): seq<Alert>
    requires n <= |obs|
  {
    if n == 0 then []
    else
      var m := n - 1;
      DeclaredUpTo(row, obs, m) +
      (if Opens(row, obs[..n]) then [Alert(obs[m].value, obs[m].k, CalmAfter(row, obs, m))] else [])
  }

  ghost function Declared(row: Rule, obs: seq<Obs>): seq<Alert> {
    DeclaredUpTo(row, obs, |obs|)
  }

  // ---------- the table and the history ----------

  /** The alerts of one rule and device in the table, from row base on. */
  function Rows(events: seq<Event>, base: nat, rule: nat, device: Device): seq<Alert> {
    if |events| <= base then []
    else
      var n := |events| - 1;
      var e := events[n];
      Rows(events[..n], base, rule, device) +
      (if e.rule == rule && e.device == device then [Alert(e.value, e.started, e.resolved)] else [])
  }

  /** The samples of one device that the rule at position j saw, the evaluations
      being numbered from first on. */
  function Seen(row: Rule, j: nat, device: Device, calls: seq<Call>, first: nat): seq<Obs> {
    if |calls| == 0 then []
    else
      var c := calls[|calls| - 1];
      Seen(row, j, device, calls[..|calls| - 1], first) +
      (if c.device == device && Concerns(row, device, c.sample)
       then [Obs(c.sample[row.metric], c.sinceClock(j), c.holdClock(j), first + |calls| - 1)] else [])
  }

  // ---------- one more sample ----------

  function Settle(alerts: seq<Alert>, k: nat): seq<Alert> {
    seq(|alerts|, i requires 0 <= i < |alerts| =>
      if alerts[i].resolved.None? then alerts[i].(resolved := Some(k)) else alerts[i])
  }

  lemma SettleAppend(a: seq<Alert>, b: seq<Alert>, k: nat)
    ensures Settle(a + b, k) == Settle(a, k) + Settle(b, k)
  {
  }

  /** One more sample settles what was still open, if it does not breach. */
  lemma CalmAppend(row: Rule, obs: seq<Obs>, o: Obs, m: nat)
    requires m < |obs|
    ensures CalmAfter(row, obs + [o], m)
         == if CalmAfter(row, obs, m).Some? then CalmAfter(row, obs, m) else if Bad(row, o) then None else Some(o.k)
  {
    assert (obs + [o])[..|obs|] == obs;
  }

  lemma {:induction false} DeclaredPrefix(row: Rule, obs: seq<Obs>, o: Obs, n: nat)
    requires n <= |obs|
    ensures DeclaredUpTo(row, obs + [o], n)
         == if Bad(row, o) then DeclaredUpTo(row, obs, n) else Settle(DeclaredUpTo(row, obs, n), o.k)
  {
    if n > 0 {
      var m := n - 1;
      DeclaredPrefix(row, obs, o, m);
      assert (obs + [o])[..n] == obs[..n];
      CalmAppend(row, obs, o, m);
      var raised := if Opens(row, obs[..n]) then [Alert(obs[m].value, obs[m].k, CalmAfter(row, obs, m))] else [];
      assert DeclaredUpTo(row, obs, n) == DeclaredUpTo(row, obs, m) + raised;
      SettleAppend(DeclaredUpTo(row, obs, m), raised, o.k);
    }
  }

  /** How the declarative list grows with one more sample. */
  lemma DeclaredAppend(row: Rule, obs: seq<Obs>, o: Obs)
    ensures Declared(row, obs + [o])
         == (if Bad(row, o) then Declared(row, obs) else Settle(Declared(row, obs), o.k))
          + (if Opens(row, obs + [o]) then [Alert(o.value, o.k, None)] else [])
  {
    DeclaredPrefix(row, obs, o, |obs|);
    assert (obs + [o])[..|obs| + 1] == obs + [o];
  }

  lemma TrailStartAppend(row: Rule, obs: seq<Obs>, o: Obs)
    ensures TrailStart(row, obs + [o]) == if Bad(row, o) then TrailStart(row, obs) else |obs| + 1
  {
    assert (obs + [o])[..|obs|] == obs;
  }

  lemma RipePrefix(row: Rule, obs: seq<Obs>, o: Obs, n: nat)
    requires n <= |obs|
    ensures Ripe(row, (obs + [o])[..n]) == Ripe(row, obs[..n])
  {
    assert (obs + [o])[..n] == obs[..n];
  }

  /** A run that was ripe stays so while it goes on. */
  lemma TrailRipeStays(row: Rule, obs: seq<Obs>, o: Obs)
    requires Bad(row, o) && (TrailRipe(row, obs) || Ripe(row, obs + [o]))
    ensures TrailRipe(row, obs + [o])
  {
    var all := obs + [o];
    TrailStartAppend(row, obs, o);
    assert all[..|obs| + 1] == all;
    if TrailRipe(row, obs) {
      var n :| TrailStart(row, obs) < n <= |obs| && Ripe(row, obs[..n]);
      RipePrefix(row, obs, o, n);
    }
  }

  lemma TrailRipeBefore(row: Rule, obs: seq<Obs>, o: Obs)
    requires TrailRipe(row, obs + [o])
    ensures Bad(row, o) && (TrailRipe(row, obs) || Ripe(row, obs + [o]))
  {
    var all := obs + [o];
    TrailStartAppend(row, obs, o);
    var n :| TrailStart(row, all) < n <= |all| && Ripe(row, all[..n]);
    if n <= |obs| {
      RipePrefix(row, obs, o, n);
    } else {
      assert all[..n] == all;
    }
  }

  lemma TrailAppend(row: Rule, obs: seq<Obs>, o: Obs)
    ensures TrailRipe(row, obs + [o]) <==> Bad(row, o) && (TrailRipe(row, obs) || Ripe(row, obs + [o]))
    ensures Opens(row, obs + [o]) <==> Ripe(row, obs + [o]) && !TrailRipe(row, obs)
  {
    assert (obs + [o])[..|obs|] == obs;
    if TrailRipe(row, obs + [o]) {
      TrailRipeBefore(row, obs, o);
    }
    if Bad(row, o) && (TrailRipe(row, obs) || Ripe(row, obs + [o])) {
      TrailRipeStays(row, obs, o);
    }
  }

  lemma {:induction false} RowsSame(events: seq<Event>, events': seq<Event>, base: nat, rule: nat, device: Device)
    requires |events'| == |events|
    requires forall i :: base <= i < |events| ==>
      events'[i] == events[i] || (events'[i].rule == events[i].rule && events'[i].device == events[i].device
                                  && !(events[i].rule == rule && events[i].device == device))
    ensures Rows(events', base, rule, device) == Rows(events, base, rule, device)
  {
    if |events| > base {
      RowsSame(events[..|events| - 1], events'[..|events| - 1], base, rule, device);
    }
  }

  lemma RowsAppend(events: seq<Event>, base: nat, e: Event, rule: nat, device: Device)
    requires base <= |events|
    ensures Rows(events + [e], base, rule, device) == Rows(events, base, rule, device)
          + (if e.rule == rule && e.device == device then [Alert(e.value, e.started, e.resolved)] else [])
  {
  }

  /** Resolving the only open row of a pair settles its list. */
  lemma {:induction false} RowsSettle(events: seq<Event>, events': seq<Event>, base: nat, rule: nat, device: Device,
      k: nat)
    requires |events'| == |events|
    requires forall i :: base <= i < |events| ==>
      events'[i] == if events[i].rule == rule && events[i].device == device && events[i].resolved.None?
                    then events[i].(resolved := Some(k)) else events[i]
    ensures Rows(events', base, rule, device) == Settle(Rows(events, base, rule, device), k)
  {
    if |events| > base {
      RowsSettle(events[..|events| - 1], events'[..|events| - 1], base, rule, device, k);
    }
  }

  // ---------- one rule and one device ----------

  predicate For(e: Event, rule: nat, device: Device) {
    e.rule == rule && e.device == device
  }

  /** The open row of a pair, if any, is the one active names. */
  ghost predicate OpenRow(state: RuleState, events: seq<Event>, base: nat, rule: nat, d: Device) {
    && (d in state.active ==> base <= state.active[d] < |events| && For(events[state.active[d]], rule, d))
    && (forall i :: base <= i < |events| && For(events[i], rule, d) ==>
          (events[i].resolved.None? <==> d in state.active && state.active[d] == i))
  }

  /** The pair's state in memory says where its history stands. */
  ghost predicate Stands(row: Rule, state: RuleState, d: Device, obs: seq<Obs>) {
    var s := TrailStart(row, obs);
    && (d in state.active <==> TrailRipe(row, obs))
    && (d in state.breachSince <==> s < |obs| && !TrailRipe(row, obs))
    && (d in state.breachSince ==> state.breachSince[d] == obs[s].sinceNow)
  }

  ghost predicate PairOk(e: Entry, events: seq<Event>, base: nat, d: Device, obs: seq<Obs>) {
    && Rows(events, base, e.row.id, d) == Declared(e.row, obs)
    && OpenRow(e.state, events, base, e.row.id, d)
    && Stands(e.row, e.state, d, obs)
  }

  lemma RecoverStands(e: Entry, s: Store, d: Device, obs: seq<Obs>, o: Obs)
    requires Stands(e.row, e.state, d, obs) && !Bad(e.row, o)
    ensures Stands(e.row, OnRecover(e, s, d, o.k).0.state, d, obs + [o])
  {
  }

  lemma RecoverRows(e: Entry, s: Store, base: nat, d: Device, k: nat)
    requires OpenRow(e.state, s.events, base, e.row.id, d)
    ensures var (e', s') := OnRecover(e, s, d, k);
            && OpenRow(e'.state, s'.events, base, e.row.id, d)
            && Rows(s'.events, base, e.row.id, d) == Settle(Rows(s.events, base, e.row.id, d), k)
  {
    RowsSettle(s.events, OnRecover(e, s, d, k).1.events, base, e.row.id, d, k);
  }

  lemma RecoverPair(e: Entry, s: Store, base: nat, d: Device, obs: seq<Obs>, o: Obs)
    requires PairOk(e, s.events, base, d, obs) && !Bad(e.row, o)
    ensures PairOk(OnRecover(e, s, d, o.k).0, OnRecover(e, s, d, o.k).1.events, base, d, obs + [o])
  {
    RecoverStands(e, s, d, obs, o);
    RecoverRows(e, s, base, d, o.k);
    DeclaredAppend(e.row, obs, o);
    TrailAppend(e.row, obs, o);
  }

  lemma BreachStands(e: Entry, s: Store, d: Device, obs: seq<Obs>, o: Obs, works: bool)
    requires Stands(e.row, e.state, d, obs) && Bad(e.row, o)
    ensures var e' := OnBreach(e, s, d, o.value, o.sinceNow, o.holdNow, works, o.k).0;
            && Stands(e.row, e'.state, d, obs + [o])
            && (Opens(e.row, obs + [o]) <==> d !in e.state.active && d in e'.state.active)
  {
    TrailStartAppend(e.row, obs, o);
    TrailAppend(e.row, obs, o);
  }

  lemma BreachPair(e: Entry, s: Store, base: nat, d: Device, obs: seq<Obs>, o: Obs, works: bool)
    requires PairOk(e, s.events, base, d, obs) && Bad(e.row, o) && base <= |s.events|
    ensures var (e', s') := OnBreach(e, s, d, o.value, o.sinceNow, o.holdNow, works, o.k);
            PairOk(e', s'.events, base, d, obs + [o])
  {
    BreachStands(e, s, d, obs, o, works);
    DeclaredAppend(e.row, obs, o);
    RowsAppend(s.events, base, Event(e.row.id, d, o.value, o.k, None, works), e.row.id, d);
  }

  /** An engine step for one pair touches the table only in that pair's rows. */
  ghost predicate TouchesOnly(events: seq<Event>, events': seq<Event>, rule: nat, d: Device) {
    && |events| <= |events'| <= |events| + 1
    && (forall i :: 0 <= i < |events| ==>
          events'[i] == events[i] || (For(events[i], rule, d) && For(events'[i], rule, d)))
    && (|events'| > |events| ==> For(events'[|events|], rule, d))
  }

  lemma OtherPair(e: Entry, e': Entry, events: seq<Event>, events': seq<Event>, base: nat, d: Device, obs: seq<Obs>,
                  rule: nat, touched: Device)
    requires PairOk(e, events, base, d, obs) && TouchesOnly(events, events', rule, touched) && base <= |events|
    requires e.row.id != rule || d != touched
    requires e'.row == e.row
    requires d in e'.state.active <==> d in e.state.active
    requires d in e.state.active ==> e'.state.active[d] == e.state.active[d]
    requires d in e'.state.breachSince <==> d in e.state.breachSince
    requires d in e.state.breachSince ==> e'.state.breachSince[d] == e.state.breachSince[d]
    ensures PairOk(e', events', base, d, obs)
  {
    var kept := events'[..|events|];
    RowsSame(events, kept, base, e.row.id, d);
    if |events'| > |events| {
      assert events' == kept + [events'[|events|]];
      RowsAppend(kept, base, events'[|events|], e.row.id, d);
    } else {
      assert events' == kept;
    }
  }

  lemma RuleTouches(e: Entry, s: Store, base: nat, call: Call, j: nat, k: nat)
    requires OpenRow(e.state, s.events, base, e.row.id, call.device)
    ensures var (e', s') := EvalRule(e, s, call, j, k);
            && e'.row == e.row
            && TouchesOnly(s.events, s'.events, e.row.id, call.device)
            && (forall i :: 0 <= i < base && i < |s.events| ==> s'.events[i] == s.events[i])
            && forall d :: d != call.device ==>
                 && (d in e'.state.active <==> d in e.state.active)
                 && (d in e.state.active ==> e'.state.active[d] == e.state.active[d])
                 && (d in e'.state.breachSince <==> d in e.state.breachSince)
                 && (d in e.state.breachSince ==> e'.state.breachSince[d] == e.state.breachSince[d])
  {
  }

  /** The sample a call brings to the rule at position j, if it brings one. */
  function Brought(row: Rule, j: nat, call: Call, k: nat): seq<Obs> {
    if Concerns(row, call.device, call.sample)
    then [Obs(call.sample[row.metric], call.sinceClock(j), call.holdClock(j), k)] else []
  }

  lemma OwnPair(e: Entry, s: Store, base: nat, call: Call, j: nat, k: nat, obs: seq<Obs>)
    requires PairOk(e, s.events, base, call.device, obs) && base <= |s.events|
    ensures PairOk(EvalRule(e, s, call, j, k).0, EvalRule(e, s, call, j, k).1.events, base, call.device,
                   obs + Brought(e.row, j, call, k))
  {
    if Concerns(e.row, call.device, call.sample) {
      var o := Brought(e.row, j, call, k)[0];
      if Bad(e.row, o) {
        BreachPair(e, s, base, call.device, obs, o, call.notifyWorks(j));
      } else {
        RecoverPair(e, s, base, call.device, obs, o);
      }
    } else {
      assert obs + [] == obs;
    }
  }

  // ---------- the whole engine ----------

  ghost predicate DistinctIds(rules: seq<Entry>) {
    forall i, j :: 0 <= i < j < |rules| ==> rules[i].row.id != rules[j].row.id
  }

  /** What the rule at position j has seen of device d when, during the evaluation
      of call, the rules before position n are done. */
  function SeenMid(row: Rule, j: nat, d: Device, calls: seq<Call>, first: nat, call: Call, n: nat): seq<Obs> {
    Seen(row, j, d, calls, first) +
    (if j < n && d == call.device then Brought(row, j, call, first + |calls|) else [])
  }

  ghost predicate Mid(rules: seq<Entry>, events: seq<Event>, base: nat, calls: seq<Call>, first: nat, call: Call,
      n: nat) {
    && base <= |events|
    && forall j: nat, d :: j < |rules| ==>
          PairOk(rules[j], events, base, d, SeenMid(rules[j].row, j, d, calls, first, call, n))
  }

  lemma RuleMid(rules: seq<Entry>, s: Store, base: nat, calls: seq<Call>, first: nat, call: Call, n: nat)
    requires n < |rules| && DistinctIds(rules) && Mid(rules, s.events, base, calls, first, call, n)
    ensures var (e, s') := EvalRule(rules[n], s, call, n, first + |calls|);
            e.row == rules[n].row && Mid(rules[n := e], s'.events, base, calls, first, call, n + 1)
  {
    var k := first + |calls|;
    var (e, s') := EvalRule(rules[n], s, call, n, k);
    assert PairOk(rules[n], s.events, base, call.device, SeenMid(rules[n].row, n, call.device, calls, first, call, n));
    RuleTouches(rules[n], s, base, call, n, k);
    var rules', m := rules[n := e], n + 1;
    forall j: nat, d | j < |rules'|
      ensures PairOk(rules'[j], s'.events, base, d, SeenMid(rules'[j].row, j, d, calls, first, call, m))
    {
      var obs := SeenMid(rules[j].row, j, d, calls, first, call, n);
      assert PairOk(rules[j], s.events, base, d, obs);
      if j == n && d == call.device {
        OwnPair(rules[n], s, base, call, n, k, obs);
        assert obs == Seen(rules[n].row, n, d, calls, first);
      } else {
        OtherPair(rules[j], rules'[j], s.events, s'.events, base, d, obs, rules[n].row.id, call.device);
      }
    }
  }

  lemma {:induction false} RulesMid(rules: seq<Entry>, s: Store, base: nat, calls: seq<Call>, first: nat,
      call: Call, n: nat)
    requires n <= |rules| && DistinctIds(rules) && Mid(rules, s.events, base, calls, first, call, 0)
    ensures var (rules', s') := EvalRules(rules, s, call, n, first + |calls|);
            && DistinctIds(rules') && (forall j :: 0 <= j < |rules| ==> rules'[j].row == rules[j].row)
            && Mid(rules', s'.events, base, calls, first, call, n)
  {
    if n > 0 {
      RulesMid(rules, s, base, calls, first, call, n - 1);
      var (rules1, s1) := EvalRules(rules, s, call, n - 1, first + |calls|);
      RuleMid(rules1, s1, base, calls, first, call, n - 1);
    }
  }

  lemma SeenAppend(row: Rule, j: nat, d: Device, calls: seq<Call>, first: nat, call: Call)
    ensures Seen(row, j, d, calls + [call], first)
         == Seen(row, j, d, calls, first) + (if d == call.device then Brought(row, j, call, first + |calls|) else [])
  {
  }

  /** The table from row base on is the declared list of every rule and device. */
  ghost predicate Refines(g: Engine, base: nat, calls: seq<Call>, first: nat) {
    && g.loaded && DistinctIds(g.rules) && base <= |g.store.events|
    && g.evals == first + |calls|
    && forall j: nat, d :: j < |g.rules| ==>
          PairOk(g.rules[j], g.store.events, base, d, Seen(g.rules[j].row, j, d, calls, first))
  }

  lemma EvaluateRefines(g: Engine, base: nat, calls: seq<Call>, first: nat, call: Call)
    requires Refines(g, base, calls, first)
    ensures Refines(Evaluate(g, call), base, calls + [call], first)
  {
    var g' := Evaluate(g, call);
    forall j: nat, d | j < |g.rules|
      ensures PairOk(g.rules[j], g.store.events, base, d, SeenMid(g.rules[j].row, j, d, calls, first, call, 0))
    {
      assert Seen(g.rules[j].row, j, d, calls, first) + [] == Seen(g.rules[j].row, j, d, calls, first);
    }
    RulesMid(g.rules, g.store, base, calls, first, call, |g.rules|);
    forall j: nat, d | j < |g'.rules|
      ensures PairOk(g'.rules[j], g'.store.events, base, d, Seen(g'.rules[j].row, j, d, calls + [call], first))
    {
      SeenAppend(g'.rules[j].row, j, d, calls, first, call);
      assert SeenMid(g'.rules[j].row, j, d, calls, first, call, |g.rules|)
          == Seen(g'.rules[j].row, j, d, calls + [call], first);
    }
  }

  predicate DistinctRows(rows: seq<Rule>) {
    forall i, j :: 0 <= i < j < |rows| ==> rows[i].id != rows[j].id
  }

  lemma {:induction false} FreshDistinct(rows: seq<Rule>)
    requires DistinctRows(rows)
    ensures DistinctIds(Fresh(rows))
    ensures forall j :: 0 <= j < |Fresh(rows)| ==>
          Fresh(rows)[j].row in rows && Fresh(rows)[j].state == RuleState(map[], map[])
  {
    if rows != [] {
      FreshDistinct(rows[..|rows| - 1]);
    }
  }

  lemma LoadRefines(g: Engine, rows: seq<Rule>)
    requires DistinctRows(rows)
    ensures Refines(Load(g, rows), |g.store.events|, [], g.evals)
  {
    FreshDistinct(rows);
    var g' := Load(g, rows);
    var none: seq<Call> := [];
    forall j: nat, d | j < |g'.rules|
      ensures PairOk(g'.rules[j], g'.store.events, |g.store.events|, d, Seen(g'.rules[j].row, j, d, none, g.evals))
    {
      assert g'.rules[j].state == RuleState(map[], map[]);
    }
  }

  lemma {:induction false} RunRefines(g: Engine, rows: seq<Rule>, calls: seq<Call>)
    requires DistinctRows(rows)
    ensures Refines(EvalAll(Load(g, rows), calls), |g.store.events|, calls, g.evals)
  {
    if |calls| == 0 {
      LoadRefines(g, rows);
    } else {
      var pre := calls[..|calls| - 1];
      RunRefines(g, rows, pre);
      EvaluateRefines(EvalAll(Load(g, rows), pre), |g.store.events|, pre, g.evals, calls[|calls| - 1]);
      assert pre + [calls[|calls| - 1]] == calls;
    }
  }

  // ---------- the theorems ----------

  /** Between two loads, whatever the clocks read and whoever fails to be notified:
      for every loaded rule and every device, the rows added to the table are, in
      order, exactly the alerts the sample history declares. */
  lemma TableIsDeclared(g: Engine, rows: seq<Rule>, calls: seq<Call>, j: nat, d: Device)
    requires DistinctRows(rows)
    requires j < |EvalAll(Load(g, rows), calls).rules|
    ensures var h := EvalAll(Load(g, rows), calls);
            var row := h.rules[j].row;
            Rows(h.store.events, |g.store.events|, row.id, d) == Declared(row, Seen(row, j, d, calls, g.evals))
  {
    RunRefines(g, rows, calls);
    var h := EvalAll(Load(g, rows), calls);
    assert PairOk(h.rules[j], h.store.events, |g.store.events|, d, Seen(h.rules[j].row, j, d, calls, g.evals));
  }

  /** The active map names exactly the unresolved rows, so a rule has at most one
      open alert per device. */
  lemma ActiveIsUnresolved(g: Engine, rows: seq<Rule>, calls: seq<Call>, j: nat, i: nat)
    requires DistinctRows(rows)
    requires var h := EvalAll(Load(g, rows), calls);
             j < |h.rules| && |g.store.events| <= i < |h.store.events| && h.store.events[i].rule == h.rules[j].row.id
    ensures var h := EvalAll(Load(g, rows), calls);
            var e := h.store.events[i];
            e.resolved.None? <==> e.device in h.rules[j].state.active && h.rules[j].state.active[e.device] == i
  {
    RunRefines(g, rows, calls);
    var h := EvalAll(Load(g, rows), calls);
    var d := h.store.events[i].device;
    assert PairOk(h.rules[j], h.store.events, |g.store.events|, d, Seen(h.rules[j].row, j, d, calls, g.evals));
    assert For(h.store.events[i], h.rules[j].row.id, d);
  }

  lemma TakeTake(obs: seq<Obs>, a: nat, b: nat)
    requires a <= b <= |obs|
    ensures obs[..b][..a] == obs[..a]
  {
  }

  /** Two alerts never belong to the same run of breaching samples. */
  lemma OneAlertPerRun(row: Rule, obs: seq<Obs>, n1: nat, n2: nat)
    requires n1 < n2 <= |obs| && Opens(row, obs[..n1]) && Opens(row, obs[..n2])
    ensures exists i :: n1 <= i < n2 - 1 && !Bad(row, obs[i])
  {
    var pre := obs[..n2 - 1];
    TakeTake(obs, n2 - 1, n2);
    TakeTake(obs, n1, n2 - 1);
    var s := TrailStart(row, pre);
    assert obs[..n1][n1 - 1] == obs[n1 - 1];
    assert s > n1;
    assert !Bad(row, obs[s - 1]);
  }

  /** A run that holds long enough does get its alert. */
  lemma {:induction false} HeldRunAlerts(row: Rule, obs: seq<Obs>)
    requires TrailRipe(row, obs)
    ensures exists n :: TrailStart(row, obs) < n <= |obs| && Opens(row, obs[..n])
  {
    var pre := obs[..|obs| - 1];
    assert pre + [obs[|obs| - 1]] == obs && obs[..|obs|] == obs;
    TrailStartAppend(row, pre, obs[|obs| - 1]);
    TrailAppend(row, pre, obs[|obs| - 1]);
    if TrailRipe(row, pre) {
      HeldRunAlerts(row, pre);
      var n :| TrailStart(row, pre) < n <= |pre| && Opens(row, pre[..n]);
      assert obs[..n] == pre[..n];
    } else {
      assert Opens(row, obs[..|obs|]);
    }
  }

  // ---------- which rules, and which samples ----------

  predicate HasRow(rules: seq<Entry>, row: Rule) {
    exists j :: 0 <= j < |rules| && rules[j].row == row
  }

  lemma {:induction false} FreshHas(rows: seq<Rule>, row: Rule)
    ensures HasRow(Fresh(rows), row) <==> row in rows && row.enabled
  {
    if rows != [] {
      var pre, last := rows[..|rows| - 1], rows[|rows| - 1];
      FreshHas(pre, row);
      assert row in rows <==> row in pre || row == last;
      if j :| 0 <= j < |Fresh(pre)| && Fresh(pre)[j].row == row {
        assert Fresh(rows)[j] == Fresh(pre)[j];
      }
      if row == last && row.enabled {
        assert Fresh(rows)[|Fresh(pre)|].row == row;
      }
    }
  }

  lemma {:induction false} RowsStay(g: Engine, calls: seq<Call>)
    ensures |EvalAll(g, calls).rules| == |g.rules|
    ensures forall j :: 0 <= j < |g.rules| ==> EvalAll(g, calls).rules[j].row == g.rules[j].row
  {
    if |calls| > 0 {
      RowsStay(g, calls[..|calls| - 1]);
      var pre := EvalAll(g, calls[..|calls| - 1]);
      RulesStay(pre.rules, pre.store, calls[|calls| - 1], |pre.rules|, pre.evals);
    }
  }

  lemma {:induction false} RulesStay(rules: seq<Entry>, s: Store, call: Call, n: nat, k: nat)
    requires n <= |rules|
    ensures forall j :: 0 <= j < |rules| ==> EvalRules(rules, s, call, n, k).0[j].row == rules[j].row
  {
    if n > 0 {
      RulesStay(rules, s, call, n - 1, k);
    }
  }

  /** After a load, for as long as there is no other, the rules evaluated are exactly
      the enabled rows. */
  lemma LoadedIffEnabled(g: Engine, rows: seq<Rule>, calls: seq<Call>, row: Rule)
    ensures HasRow(EvalAll(Load(g, rows), calls).rules, row) <==> row in rows && row.enabled
  {
    RowsStay(Load(g, rows), calls);
    FreshHas(rows, row);
    SameRows(EvalAll(Load(g, rows), calls).rules, Fresh(rows), row);
  }

  lemma SameRows(rules: seq<Entry>, loaded: seq<Entry>, row: Rule)
    requires |rules| == |loaded| && forall j :: 0 <= j < |loaded| ==> rules[j].row == loaded[j].row
    ensures HasRow(rules, row) <==> HasRow(loaded, row)
  {
    if HasRow(rules, row) {
      var j :| 0 <= j < |rules| && rules[j].row == row;
      assert loaded[j].row == row;
    }
    if HasRow(loaded, row) {
      var j :| 0 <= j < |loaded| && loaded[j].row == row;
      assert rules[j].row == row;
    }
  }

  lemma {:induction false} AllResolved(events: seq<Event>, base: nat, rule: nat, d: Device, k: nat)
    requires forall i :: base <= i < |events| && For(events[i], rule, d) ==> events[i].resolved.Some?
    ensures Settle(Rows(events, base, rule, d), k) == Rows(events, base, rule, d)
  {
    if |events| > base {
      var n := |events| - 1;
      AllResolved(events[..n], base, rule, d, k);
      assert events[..n + 1] == events;
    }
  }

  /** The declared list after one more sample, of a pair with no alert open. */
  lemma RaisedByLast(row: Rule, obs: seq<Obs>, o: Obs)
    requires !TrailRipe(row, obs) && Settle(Declared(row, obs), o.k) == Declared(row, obs)
    ensures Declared(row, obs + [o])
         == Declared(row, obs) + (if Ripe(row, obs + [o]) then [Alert(o.value, o.k, None)] else [])
  {
    DeclaredAppend(row, obs, o);
    TrailAppend(row, obs, o);
  }

  /** In numbers: for a rule that applies to a device with no alert open, a sample of
      value v adds an alert of that value if and only if v is above the threshold (at or
      above it for ">=", below it for "<") and the rule has no duration, or this run of
      such samples began at least so many seconds ago. */
  lemma SampleRaisesIff(g: Engine, rows: seq<Rule>, calls: seq<Call>, call: Call, j: nat)
    requires DistinctRows(rows) && j < |EvalAll(Load(g, rows), calls).rules|
    requires var e := EvalAll(Load(g, rows), calls).rules[j];
             && call.device !in e.state.active && e.row.metric in call.sample
             && (e.row.device == None || e.row.device == Some("") || e.row.device == Some(call.device))
    ensures var h := EvalAll(Load(g, rows), calls);
            var row, d, base := h.rules[j].row, call.device, |g.store.events|;
            var v := call.sample[row.metric];
            var obs := Seen(row, j, d, calls, g.evals) + [Obs(v, call.sinceClock(j), call.holdClock(j), h.evals)];
            var start := TrailStart(row, obs);
            var over := if row.operator == ">" then v > row.threshold
                        else if row.operator == ">=" then v >= row.threshold else v < row.threshold;
            && (over ==> start < |obs|)
            && Rows(Evaluate(h, call).store.events, base, row.id, d) == Rows(h.store.events, base, row.id, d) +
                 (if over && (row.durationS <= 0 || call.holdClock(j) - obs[start].sinceNow >= 1000 * row.durationS)
                  then [Alert(v, h.evals, None)] else [])
  {
    var h := EvalAll(Load(g, rows), calls);
    RunRefines(g, rows, calls);
    RowsStay(Load(g, rows), calls);
    FreshHas(rows, h.rules[j].row);
    assert Fresh(rows)[j].row == h.rules[j].row && HasRow(Fresh(rows), h.rules[j].row);
    RowsAfterSample(h, |g.store.events|, calls, g.evals, call, j);
  }

  /** One more sample for a pair with no alert open, during any evaluation. */
  lemma RowsAfterSample(h: Engine, base: nat, calls: seq<Call>, first: nat, call: Call, j: nat)
    requires Refines(h, base, calls, first) && j < |h.rules|
    requires Concerns(h.rules[j].row, call.device, call.sample) && call.device !in h.rules[j].state.active
    ensures var row, d := h.rules[j].row, call.device;
            var o := Obs(call.sample[row.metric], call.sinceClock(j), call.holdClock(j), h.evals);
            Rows(Evaluate(h, call).store.events, base, row.id, d) == Rows(h.store.events, base, row.id, d) +
              (if Ripe(row, Seen(row, j, d, calls, first) + [o]) then [Alert(o.value, h.evals, None)] else [])
  {
    var row, d := h.rules[j].row, call.device;
    var o := Obs(call.sample[row.metric], call.sinceClock(j), call.holdClock(j), h.evals);
    assert PairOk(h.rules[j], h.store.events, base, d, Seen(row, j, d, calls, first));
    AllResolved(h.store.events, base, row.id, d, o.k);
    RaisedByLast(row, Seen(row, j, d, calls, first), o);
    EvaluateRefines(h, base, calls, first, call);
    var h' := Evaluate(h, call);
    RulesStay(h.rules, h.store, call, |h.rules|, h.evals);
    SeenAppend(row, j, d, calls, first, call);
    assert PairOk(h'.rules[j], h'.store.events, base, d, Seen(row, j, d, calls + [call], first));
  }

  /** Two samples above the threshold of a rule with a duration, the first of which
      does not raise the alert by itself: the second does if and only if it comes, by the
      clock, at least 1000 ms after the first for every second of the duration. */
  lemma HoldOverTwoSamples(g: Engine, row: Rule, first: Call, second: Call)
    requires row.enabled && row.durationS > 0 && row.operator == ">" && second.device == first.device
    requires row.device == None || row.device == Some("") || row.device == Some(first.device)
    requires row.metric in first.sample && first.sample[row.metric] > row.threshold
    requires row.metric in second.sample && second.sample[row.metric] > row.threshold
    requires first.holdClock(0) - first.sinceClock(0) < 1000 * row.durationS
    ensures var base, d := |g.store.events|, first.device;
            var h := Evaluate(Load(g, [row]), first);
            && Rows(h.store.events, base, row.id, d) == []
            && Rows(Evaluate(h, second).store.events, base, row.id, d) ==
                 if second.holdClock(0) - first.sinceClock(0) >= 1000 * row.durationS
                 then [Alert(second.sample[row.metric], g.evals + 1, None)] else []
  {
    var h := Evaluate(Load(g, [row]), first);
    var o := Obs(first.sample[row.metric], first.sinceClock(0), first.holdClock(0), g.evals);
    var o2 := Obs(second.sample[row.metric], second.sinceClock(0), second.holdClock(0), h.evals);
    AfterOne(g, row, first);
    FirstOfRun(row, o, o2);
    RowsAfterSample(h, |g.store.events|, [first], g.evals, second, 0);
  }

  /** Of two breaching samples, the first not yet ripe. */
  lemma FirstOfRun(row: Rule, o: Obs, o2: Obs)
    requires Bad(row, o) && Bad(row, o2) && row.durationS > 0 && o.holdNow - o.sinceNow < 1000 * row.durationS
    ensures Declared(row, [o]) == [] && !TrailRipe(row, [o])
    ensures Ripe(row, [o] + [o2]) <==> o2.holdNow - o.sinceNow >= 1000 * row.durationS
  {
    TrailStartAppend(row, [], o);
    TrailAppend(row, [], o);
    assert [] + [o] == [o];
    RaisedByLast(row, [], o);
    TrailStartAppend(row, [o], o2);
  }

  /** One rule and the one sample it has seen. */
  lemma AfterOne(g: Engine, row: Rule, first: Call)
    requires row.enabled && Concerns(row, first.device, first.sample)
    ensures var h := Evaluate(Load(g, [row]), first);
            var o := Obs(first.sample[row.metric], first.sinceClock(0), first.holdClock(0), g.evals);
            && h == EvalAll(Load(g, [row]), [first]) && h.evals == g.evals + 1
            && |h.rules| == 1 && h.rules[0].row == row
            && Seen(row, 0, first.device, [first], g.evals) == [o]
            && PairOk(h.rules[0], h.store.events, |g.store.events|, first.device, [o])
            && Refines(h, |g.store.events|, [first], g.evals)
  {
    LoadOne(g, row);
    EvalOne(Load(g, [row]), first);
    RunRefines(g, [row], [first]);
    RowsStay(Load(g, [row]), [first]);
    SeenOne(row, first, g.evals);
  }

  lemma LoadOne(g: Engine, row: Rule)
    requires row.enabled
    ensures Load(g, [row]).rules == [Entry(row, RuleState(map[], map[]))]
  {
    assert [row][..0] == [];
    assert Fresh([row]) == Fresh([]) + [Entry(row, RuleState(map[], map[]))];
  }

  lemma EvalOne(g: Engine, call: Call)
    requires g.loaded
    ensures EvalAll(g, [call]) == Evaluate(g, call) && Evaluate(g, call).evals == g.evals + 1
  {
    var none: seq<Call> := [];
    assert [call][..0] == none && EvalAll(g, none) == g;
  }

  lemma SeenOne(row: Rule, call: Call, k: nat)
    requires Concerns(row, call.device, call.sample)
    ensures Seen(row, 0, call.device, [call], k)
         == [Obs(call.sample[row.metric], call.sinceClock(0), call.holdClock(0), k)]
  {
    var none: seq<Call> := [];
    SeenAppend(row, 0, call.device, none, k, call);
    assert none + [call] == [call];
  }

  // ---------- one notification per alert ----------

  ghost predicate NotifiedOnce(s: Store, events0: nat, notifies0: nat) {
    && |s.events| >= events0 && |s.notifies| >= notifies0
    && |s.events| - events0 == |s.notifies| - notifies0
    && forall i :: notifies0 <= i < |s.notifies| ==> s.notifies[i] == events0 + (i - notifies0)
  }

  lemma {:induction false} RulesNotify(rules: seq<Entry>, s: Store, call: Call, n: nat, k: nat, events0: nat,
      notifies0: nat)
    requires n <= |rules| && NotifiedOnce(s, events0, notifies0)
    ensures NotifiedOnce(EvalRules(rules, s, call, n, k).1, events0, notifies0)
  {
    if n > 0 {
      RulesNotify(rules, s, call, n - 1, k, events0, notifies0);
    }
  }

  /** Every alert row is notified about once, in the order of the rows. */
  lemma {:induction false} OneNotifyPerAlert(g: Engine, calls: seq<Call>)
    ensures NotifiedOnce(EvalAll(g, calls).store, |g.store.events|, |g.store.notifies|)
  {
    if |calls| > 0 {
      var pre := EvalAll(g, calls[..|calls| - 1]);
      OneNotifyPerAlert(g, calls[..|calls| - 1]);
      if pre.loaded {
        RulesNotify(pre.rules, pre.store, calls[|calls| - 1], |pre.rules|, pre.evals, |g.store.events|,
            |g.store.notifies|);
      }
    }
  }

  // ---------- what a reload forgets ----------

  ghost predicate OldRowsForgotten(rules: seq<Entry>, base: nat) {
    forall j: nat, d :: j < |rules| && d in rules[j].state.active ==> rules[j].state.active[d] >= base
  }

  lemma {:induction false} RulesForget(rules: seq<Entry>, s: Store, call: Call, n: nat, k: nat, base: nat)
    requires n <= |rules| && base <= |s.events| && OldRowsForgotten(rules, base)
    ensures var (rules', s') := EvalRules(rules, s, call, n, k);
            OldRowsForgotten(rules', base) && base <= |s'.events| && s'.events[..base] == s.events[..base]
  {
    if n > 0 {
      RulesForget(rules, s, call, n - 1, k, base);
      var (rules1, s1) := EvalRules(rules, s, call, n - 1, k);
      RuleForgets(rules1, s1, call, n - 1, k, base);
    }
  }

  lemma RuleForgets(rules: seq<Entry>, s: Store, call: Call, n: nat, k: nat, base: nat)
    requires n < |rules| && base <= |s.events| && OldRowsForgotten(rules, base)
    ensures var (e, s') := EvalRule(rules[n], s, call, n, k);
            OldRowsForgotten(rules[n := e], base) && base <= |s'.events| && s'.events[..base] == s.events[..base]
  {
  }

  /** After a load no later evaluation ever touches the rows written before it: an
      alert that was open stays unresolved for good. */
  lemma {:induction false} LoadOrphansOpenAlerts(g: Engine, rows: seq<Rule>, calls: seq<Call>)
    requires DistinctRows(rows)
    ensures var h := EvalAll(Load(g, rows), calls);
            && |g.store.events| <= |h.store.events|
            && h.store.events[..|g.store.events|] == g.store.events
            && OldRowsForgotten(h.rules, |g.store.events|)
            && h.loaded
  {
    if |calls| == 0 {
      FreshDistinct(rows);
    } else {
      LoadOrphansOpenAlerts(g, rows, calls[..|calls| - 1]);
      var pre := EvalAll(Load(g, rows), calls[..|calls| - 1]);
      RulesForget(pre.rules, pre.store, calls[|calls| - 1], |pre.rules|, pre.evals, |g.store.events|);
    }
  }

  /** As when one breaching sample opens an alert, the rules are loaded again, and any
      sample follows, recovering or not. */
  lemma OpenAlertLeftBehind(row: Rule, breach: Call, later: Call)
    requires row.enabled && row.durationS <= 0
    requires Applies(row, breach.device, breach.sample) && Breached(row, breach.sample[row.metric])
    ensures var g := Evaluate(Load(Engine([], Store([], []), 0, false), [row]), breach);
            && g.store.events ==
                 [Event(row.id, breach.device, breach.sample[row.metric], 0, None, breach.notifyWorks(0))]
            && |Evaluate(Load(g, [row]), later).store.events| > 0
            && Evaluate(Load(g, [row]), later).store.events[0].resolved.None?
  {
    var g0 := Load(Engine([], Store([], []), 0, false), [row]);
    assert [row][..0] == [];
    assert Fresh([row]) == [Entry(row, RuleState(map[], map[]))];
    assert EvalRules(g0.rules, g0.store, breach, 0, 0) == (g0.rules, g0.store);
    var g := Evaluate(g0, breach);
    assert g.store.events == [Event(row.id, breach.device, breach.sample[row.metric], 0, None, breach.notifyWorks(0))];
    assert [later][..0] == [];
    assert EvalAll(Load(g, [row]), []) == Load(g, [row]);
    assert EvalAll(Load(g, [row]), [later]) == Evaluate(Load(g, [row]), later);
    LoadOrphansOpenAlerts(g, [row], [later]);
    assert g.store.events[..1] == g.store.events;
    assert Evaluate(Load(g, [row]), later).store.events[..1][0] == g.store.events[0];
  }
}
