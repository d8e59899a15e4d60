/** relayHub: which channel object stands under a channel number. A shell's pump and
    reaper close by number, so a late close may meet a newer channel. */
module RelayHub {
  /** instances[i] is the number the i-th channel was opened under; closes[i] how
      often the hub closed it. */
  datatype Hub = Hub(channels: map<nat, nat>, instances: seq<nat>, closes: seq<nat>)

  datatype Step =
    | Open(number: nat)       // relay.open from the server
    | ServerClose(number: nat)
    | OwnClose(i: nat)        // the pump, the reaper or a failed start of channel i

  function OpenNumber(h: Hub, number: nat): Hub {
    if number in h.channels then h
    else Hub(h.channels[number := |h.instances|], h.instances + [number], h.closes + [0])
  }

  function OneMore(closes: seq<nat>, i: nat): seq<nat> {
    if i < |closes| then closes[i := closes[i] + 1] else closes
  }

  /** Whatever stands under the number now is forgotten and closed. */
  function CloseNumber(h: Hub, number: nat): Hub {
    if number !in h.channels then h
    else Hub(h.channels - {number}, h.instances, OneMore(h.closes, h.channels[number]))
  }

  /** A channel is registered exactly while it is open, and closed at most once. */
  ghost predicate Valid(h: Hub) {
    && |h.closes| == |h.instances|
    && (forall n :: n in h.channels ==> h.channels[n] < |h.instances| && h.instances[h.channels[n]] == n)
    && (forall i :: 0 <= i < |h.closes| ==> h.closes[i] <= 1)
    && (forall i :: 0 <= i < |h.closes| ==> (h.closes[i] == 0 <==> Registered(h, i)))
  }

  predicate Registered(h: Hub, i: nat)
    requires i < |h.instances|
  {
    h.instances[i] in h.channels && h.channels[h.instances[i]] == i
  }

  class Channels {
    var channels: map<nat, nat>
    var instances: seq<nat>
    var closes: seq<nat>

    ghost function View(): Hub
      reads this
    {
      Hub(channels, instances, closes)
    }

    constructor ()
      ensures View() == Hub(map[], [], []) && Valid(View())
    {
      channels, instances, closes := map[], [], [];
    }

    method Open(number: nat)
      requires Valid(View())
      modifies this
      ensures Valid(View()) && View() == OpenNumber(old(View()), number)
    {
      OpenKeeps(View(), number);
      if number in channels {
        return;
      }
      channels, instances, closes := channels[number := |instances|], instances + [number], closes + [0];
    }

    method Close(number: nat)
      requires Valid(View())
      modifies this
      ensures Valid(View()) && View() == CloseNumber(old(View()), number)
    {
      CloseKeeps(View(), number);
      if number !in channels {
        return;
      }
      var i := channels[number];
      channels := channels - {number};
      closes := closes[i := closes[i] + 1];
    }
  }

  lemma OpenKeeps(h: Hub, number: nat)
    requires Valid(h)
    ensures Valid(OpenNumber(h, number))
  {
    var t := OpenNumber(h, number);
    forall i | 0 <= i < |t.closes|
      ensures t.closes[i] == 0 <==> Registered(t, i)
    {
      if i < |h.closes| {
        assert h.closes[i] == 0 <==> Registered(h, i);
      }
    }
  }

  lemma CloseKeeps(h: Hub, number: nat)
    requires Valid(h)
    ensures Valid(CloseNumber(h, number))
  {
    var t := CloseNumber(h, number);
    forall i | 0 <= i < |t.closes|
      ensures t.closes[i] <= 1 && (t.closes[i] == 0 <==> Registered(t, i))
    {
      assert h.closes[i] == 0 <==> Registered(h, i);
    }
  }

  // ---------- runs ----------

  predicate Enabled(h: Hub, e: Step) {
    e.OwnClose? ==> e.i < |h.instances|
  }

  function Next(h: Hub, e: Step): Hub
    requires Enabled(h, e)
  {
    match e
    case Open(n) => OpenNumber(h, n)
    case ServerClose(n) => CloseNumber(h, n)
    case OwnClose(i) => CloseNumber(h, h.instances[i])
  }

  predicate Runs(h: Hub, steps: seq<Step>)
    decreases |steps|
  {
    steps == [] || (Enabled(h, steps[0]) && Runs(Next(h, steps[0]), steps[1..]))
  }

  function After(h: Hub, steps: seq<Step>): Hub
    requires Runs(h, steps)
    decreases |steps|
  {
    if steps == [] then h else After(Next(h, steps[0]), steps[1..])
  }

  lemma {:induction false} RunValid(h: Hub, steps: seq<Step>)
    requires Valid(h) && Runs(h, steps)
    ensures Valid(After(h, steps))
    decreases |steps|
  {
    if steps != [] {
      match steps[0] {
        case Open(n) => OpenKeeps(h, n);
        case ServerClose(n) => CloseKeeps(h, n);
        case OwnClose(i) => CloseKeeps(h, h.instances[i]);
      }
      RunValid(Next(h, steps[0]), steps[1..]);
    }
  }

  /** Over any run the hub closes each channel at most once, and at most one channel of
      a number is open at a time. */
  lemma EachClosedOnce(steps: seq<Step>, i: nat)
    requires Runs(Hub(map[], [], []), steps)
    requires i < |After(Hub(map[], [], []), steps).instances|
    ensures var h := After(Hub(map[], [], []), steps);
            && |h.closes| == |h.instances| && h.closes[i] <= 1
            && forall j :: 0 <= j < |h.instances| && j != i && h.instances[j] == h.instances[i] ==>
                 h.closes[i] == 1 || h.closes[j] == 1
  {
    RunValid(Hub(map[], [], []), steps);
    var h := After(Hub(map[], [], []), steps);
    assert h.closes[i] == 0 <==> Registered(h, i);
    forall j | 0 <= j < |h.instances| && j != i && h.instances[j] == h.instances[i]
      ensures h.closes[i] == 1 || h.closes[j] == 1
    {
      assert h.closes[j] == 0 <==> Registered(h, j);
    }
  }

  /** A close by channel i's own goroutines closes i if and only if i is still open;
      it closes another channel if and only if i was closed already and its number
      has an open channel again. Nothing else ever happens. */
  lemma OwnCloseHits(steps: seq<Step>, i: nat, j: nat)
    requires Runs(Hub(map[], [], []), steps)
    requires var h := After(Hub(map[], [], []), steps); i < |h.instances| && j < |h.instances|
    ensures var h := After(Hub(map[], [], []), steps);
            var t := Next(h, OwnClose(i));
            && |t.closes| == |h.closes| == |h.instances|
            && (t.closes[j] != h.closes[j] <==>
                  if j == i then h.closes[i] == 0
                  else h.closes[i] == 1 && h.closes[j] == 0 && h.instances[j] == h.instances[i])
  {
    RunValid(Hub(map[], [], []), steps);
    var h := After(Hub(map[], [], []), steps);
    assert h.closes[i] == 0 <==> Registered(h, i);
    assert h.closes[j] == 0 <==> Registered(h, j);
  }

  lemma Then(h: Hub, e: Step, rest: seq<Step>)
    requires Enabled(h, e) && Runs(Next(h, e), rest)
    ensures Runs(h, [e] + rest) && After(h, [e] + rest) == After(Next(h, e), rest)
  {
    assert ([e] + rest)[1..] == rest;
  }

  /** A terminal is opened, closed by the server and opened again; then the first
      shell's reaper closes the second one's channel. */
  lemma LateCloseHitsNewer()
    ensures var steps := [Open(1), ServerClose(1), Open(1), OwnClose(0)];
            && Runs(Hub(map[], [], []), steps)
            && After(Hub(map[], [], []), steps) == Hub(map[], [1, 1], [1, 1])
  {
    var h0 := Hub(map[], [], []);
    var h1 := Hub(map[1 := 0], [1], [0]);
    var h2 := Hub(map[], [1], [1]);
    var h3 := Hub(map[1 := 1], [1, 1], [1, 0]);
    var h4 := Hub(map[], [1, 1], [1, 1]);
    assert Next(h0, Open(1)) == h1 && Next(h1, ServerClose(1)) == h2;
    assert Next(h2, Open(1)) == h3 && Next(h3, OwnClose(0)) == h4;
    Then(h3, OwnClose(0), []);
    Then(h2, Open(1), [OwnClose(0)]);
    Then(h1, ServerClose(1), [Open(1), OwnClose(0)]);
    Then(h0, Open(1), [ServerClose(1), Open(1), OwnClose(0)]);
    assert [OwnClose(0)] + [] == [OwnClose(0)] && [Open(1)] + [OwnClose(0)] == [Open(1), OwnClose(0)];
    assert [ServerClose(1)] + [Open(1), OwnClose(0)] == [ServerClose(1), Open(1), OwnClose(0)];
    assert [Open(1)] + [ServerClose(1), Open(1), OwnClose(0)] == [Open(1), ServerClose(1), Open(1), OwnClose(0)];
  }
}
