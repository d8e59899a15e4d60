/** AlertService: threshold rules evaluated online, one sample at a time. */
module AlertEngine {
  import opened Wrappers

  type Device = string

  /** A row of alert_rules. A null and an empty device_id both mean every device. */
  datatype Rule = Rule(
    id: nat,
    device: Option<Device>,
    metric: string,
    operator: string,
    threshold: real,
    durationS: int,
    enabled: bool)

  datatype RuleState = RuleState(active: map<Device, nat>, breachSince: map<Device, int>)

  datatype Entry = Entry(row: Rule, state: RuleState)

  /** A row of alert_events; its id is its place in the table. The database stamps
      started_at and resolved_at during some evaluation, named by its number. */
  datatype Event = Event(rule: nat, device: Device, value: real, started: nat, resolved: Option<nat>, notified: bool)

  datatype Store = Store(events: seq<Event>, notifies: seq<nat>)

  datatype Engine = Engine(rules: seq<Entry>, store: Store, evals: nat, loaded: bool)

  /** One call of evaluate: the finite metrics of the sample and, for the rule at
      each position, the two clock readings onBreach makes and whether notifying works. */
  datatype Call = Call(
    device: Device,
    sample: map<string, real>,
    sinceClock: nat -> int,
    holdClock: nat -> int,
    notifyWorks: nat -> bool)

  predicate Compare(value: real, operator: string, threshold: real) {
    if operator == ">" then value > threshold
    else if operator == ">=" then value >= threshold
    else value < threshold
  }

  predicate Breached(row: Rule, value: real) {
    Compare(value, row.operator, row.threshold)
  }

  /** Whether a sample of this device reaches the comparison of this rule. */
  predicate Applies(row: Rule, device: Device, sample: map<string, real>) {
    && row.enabled
    && (row.device.None? || row.device.value == "" || row.device.value == device)
    && row.metric in sample
  }

  predicate HeldLongEnough(row: Rule, since: int, now: int) {
    !(row.durationS > 0 && now - since < row.durationS * 1000)
  }

  function OnBreach(e: Entry, s: Store, device: Device, value: real, sinceNow: int, holdNow: int, works: bool,
      k: nat): (Entry, Store) {
    if device in e.state.active then (e, s)
    else
      var since := if device in e.state.breachSince then e.state.breachSince[device] else sinceNow;
      if !HeldLongEnough(e.row, since, holdNow) then
        (e.(state := e.state.(breachSince := e.state.breachSince[device := since])), s)
      else
        var id := |s.events|;
        (e.(state := RuleState(e.state.active[device := id], e.state.breachSince - {device})),
         Store(s.events + [Event(e.row.id, device, value, k, None, works)], s.notifies + [id]))
  }

  function OnRecover(e: Entry, s: Store, device: Device, k: nat): (Entry, Store) {
    var calm := e.state.(breachSince := e.state.breachSince - {device});
    if device !in e.state.active then (e.(state := calm), s)
    else
      var id := e.state.active[device];
      (e.(state := calm.(active := calm.active - {device})),
       if id < |s.events| then s.(events := s.events[id := s.events[id].(resolved := Some(k))]) else s)
  }

  /** The body of evaluate's loop for the rule at position j during evaluation k. */
  function EvalRule(e: Entry, s: Store, call: Call, j: nat, k: nat): (Entry, Store) {
    if !Applies(e.row, call.device, call.sample) then (e, s)
    else
      var value := call.sample[e.row.metric];
      if Breached(e.row, value) then
        OnBreach(e, s, call.device, value, call.sinceClock(j), call.holdClock(j), call.notifyWorks(j), k)
      else OnRecover(e, s, call.device, k)
  }

  /** The first n rules evaluated. */
  function EvalRules(rules: seq<Entry>, s: Store, call: Call, n: nat, k: nat): (r: (seq<Entry>, Store))
    requires n <= |rules|
    ensures |r.0| == |rules| && r.0[n..] == rules[n..]
  {
    if n == 0 then (rules, s)
    else
      var (rules1, s1) := EvalRules(rules, s, call, n - 1, k);
      var (e, s2) := EvalRule(rules1[n - 1], s1, call, n - 1, k);
      (rules1[n - 1 := e], s2)
  }

  function Evaluate(g: Engine, call: Call): Engine {
    if !g.loaded then g
    else
      var (rules, store) := EvalRules(g.rules, g.store, call, |g.rules|, g.evals);
      g.(rules := rules, store := store, evals := g.evals + 1)
  }

  /** load: the enabled rows, each with a blank state; the events table stays. */
  function Load(g: Engine, rows: seq<Rule>): Engine {
    g.(rules := Fresh(rows), loaded := true)
  }

  function Fresh(rows: seq<Rule>): seq<Entry> {
    if rows == [] then []
    else Fresh(rows[..|rows| - 1]) +
         (if rows[|rows| - 1].enabled then [Entry(rows[|rows| - 1], RuleState(map[], map[]))] else [])
  }

  function EvalAll(g: Engine, calls: seq<Call>): Engine {
    if |calls| == 0 then g else Evaluate(EvalAll(g, calls[..|calls| - 1]), calls[|calls| - 1])
  }

  // ---------- the service object ----------

  class AlertService {
    var rules: seq<Entry>
    var events: seq<Event>
    var notifies: seq<nat>
    var evals: nat
    var loaded: bool

    function View(): Engine
      reads this
    {
      Engine(rules, Store(events, notifies), evals, loaded)
    }

    constructor (table: seq<Event>)
      ensures View() == Engine([], Store(table, []), 0, false)
    {
      rules, events, notifies, evals, loaded := [], table, [], 0, false;
    }

    method LoadRules(rows: seq<Rule>)
      modifies this`rules, this`loaded
      ensures View() == Load(old(View()), rows)
    {
      rules := [];
      for n := 0 to |rows|
        invariant rules == Fresh(rows[..n])
        invariant loaded == old(loaded)
      {
        assert rows[..n + 1][..n] == rows[..n];
        if rows[n].enabled {
          rules := rules + [Entry(rows[n], RuleState(map[], map[]))];
        }
      }
      assert rows[..|rows|] == rows;
      loaded := true;
    }

    method HandleBreach(j: nat, device: Device, value: real, sinceNow: int, holdNow: int, works: bool)
      requires j < |rules|
      modifies this`rules, this`events, this`notifies
      ensures (rules, Store(events, notifies)) ==
              var (e, s) := OnBreach(old(rules)[j], old(View()).store, device, value, sinceNow, holdNow, works, evals);
              (old(rules)[j := e], s)
    {
      var e := rules[j];
      if device in e.state.active {
        assert rules[j := e] == rules;
        return;
      }
      var since := if device in e.state.breachSince then e.state.breachSince[device] else sinceNow;
      rules := rules[j := e.(state := e.state.(breachSince := e.state.breachSince[device := since]))];
      if e.row.durationS > 0 && holdNow - since < e.row.durationS * 1000 {
        return;
      }
      var id := |events|;
      events := events + [Event(e.row.id, device, value, evals, None, false)];
      var state := rules[j].state;
      assert state.breachSince - {device} == e.state.breachSince - {device};
      rules := rules[j := e.(state := RuleState(state.active[device := id], state.breachSince - {device}))];
      notifies := notifies + [id];
      events := events[id := events[id].(notified := works)];
      assert events == old(events) + [Event(e.row.id, device, value, evals, None, works)];
      assert rules == old(rules)[j := rules[j]];
    }

    method HandleRecover(j: nat, device: Device)
      requires j < |rules|
      modifies this`rules, this`events
      ensures (rules, Store(events, notifies)) ==
              var (e, s) := OnRecover(old(rules)[j], old(View()).store, device, evals);
              (old(rules)[j := e], s)
    {
      var e := rules[j];
      var calm := e.state.(breachSince := e.state.breachSince - {device});
      rules := rules[j := e.(state := calm)];
      if device !in e.state.active {
        return;
      }
      var id := e.state.active[device];
      if id < |events| {
        events := events[id := events[id].(resolved := Some(evals))];
      }
      rules := rules[j := e.(state := calm.(active := calm.active - {device}))];
      assert rules == old(rules)[j := rules[j]];
    }

    method EvaluateSample(call: Call)
      modifies this
      ensures View() == Evaluate(old(View()), call)
    {
      if !loaded {
        return;
      }
      var n := |rules|;
      for j := 0 to n
        invariant |rules| == n == |old(rules)| && loaded && evals == old(evals)
        invariant (rules, Store(events, notifies)) == EvalRules(old(rules), old(View()).store, call, j, evals)
      {
        var row := rules[j].row;
        assert rules[j := rules[j]] == rules;
        if Applies(row, call.device, call.sample) {
          var value := call.sample[row.metric];
          if Breached(row, value) {
            HandleBreach(j, call.device, value, call.sinceClock(j), call.holdClock(j), call.notifyWorks(j));
          } else {
            HandleRecover(j, call.device);
          }
        }
      }
      evals := evals + 1;
    }
  }
}
