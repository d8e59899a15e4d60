/** The agent's desktop stream (desktop.go): a JPEG that must fit a tunnel frame, a
    scale that comes down by itself, and a capture loop that gives up. */
module Desktop {
  import opened Wrappers
  import opened Bytes

  type Jpeg = seq<byte>

  const MAX_FRAME: nat := 60000
  const MIN_SCALE := 0.25
  const MAX_SCALE := 1.0
  const LOWEST_QUALITY := 20
  const MAX_MISSES: nat := 10

  /** A captured image, as what encoding it at a quality gives; None is an error. */
  type Image = int -> Option<Jpeg>

  // ---------- encodeJpeg ----------

  function Descent(image: Image, q: int): Option<Jpeg>
    decreases q
  {
    if q < LOWEST_QUALITY then None
    else
      match image(q)
      case None => None
      case Some(jpeg) => if |jpeg| <= MAX_FRAME then Some(jpeg) else Descent(image, q - 10)
  }

  method EncodeJpeg(image: Image, quality: int) returns (r: Option<Jpeg>)
    ensures r == Descent(image, quality)
  {
    var q := quality;
    while q >= LOWEST_QUALITY
      invariant Descent(image, q) == Descent(image, quality)
      decreases q
    {
      var jpeg := image(q);
      if jpeg.None? {
        return None;
      }
      if |jpeg.value| <= MAX_FRAME {
        return jpeg;
      }
      q := q - 10;
    }
    return None;
  }

  predicate TooBig(image: Image, q: int) {
    image(q).Some? && |image(q).value| > MAX_FRAME
  }

  predicate Fitting(image: Image, q: int) {
    image(q).Some? && |image(q).value| <= MAX_FRAME
  }

  /** The qualities tried: q, q-10, q-20, ... */
  function Rung(quality: int, i: nat): int {
    quality - 10 * i
  }

  /** Rung i is the first that is not too big, and it is not below 20. */
  predicate StopsAt(image: Image, quality: int, i: nat) {
    && Rung(quality, i) >= LOWEST_QUALITY
    && !TooBig(image, Rung(quality, i))
    && forall j: nat :: j < i ==> TooBig(image, Rung(quality, j))
  }

  lemma {:induction false} DescentTo(image: Image, quality: int, i: nat)
    requires Rung(quality, i) >= LOWEST_QUALITY
    requires forall j: nat :: j < i ==> TooBig(image, Rung(quality, j))
    ensures Descent(image, quality) == Descent(image, Rung(quality, i))
  {
    if i > 0 {
      DescentTo(image, quality, i - 1);
      assert TooBig(image, Rung(quality, i - 1));
      assert Rung(quality, i) == Rung(quality, i - 1) - 10;
    }
  }

  lemma {:induction false} FindStop(image: Image, quality: int, i: nat) returns (stop: nat)
    requires Descent(image, Rung(quality, i)).Some?
    requires forall j: nat :: j < i ==> TooBig(image, Rung(quality, j))
    ensures StopsAt(image, quality, stop) && Fitting(image, Rung(quality, stop))
    decreases Rung(quality, i)
  {
    if TooBig(image, Rung(quality, i)) {
      assert Rung(quality, i + 1) == Rung(quality, i) - 10;
      stop := FindStop(image, quality, i + 1);
    } else {
      stop := i;
    }
  }

  /** The descent yields the JPEG of the highest of q, q-10, ... >= 20 that fits,
      provided none above it fails to encode; and nothing at all otherwise. */
  lemma DescentIsFirstFit(image: Image, quality: int)
    ensures Descent(image, quality).Some? <==>
              exists i: nat :: StopsAt(image, quality, i) && Fitting(image, Rung(quality, i))
    ensures forall i: nat :: StopsAt(image, quality, i) ==> Descent(image, quality) == image(Rung(quality, i))
  {
    forall i: nat | StopsAt(image, quality, i)
      ensures Descent(image, quality) == image(Rung(quality, i))
    {
      DescentTo(image, quality, i);
    }
    if Descent(image, quality).Some? {
      assert Rung(quality, 0) == quality;
      var stop := FindStop(image, quality, 0);
    }
  }

  /** A quality is of use exactly when it is at least 20: at 10 to 19, which the
      browser may ask for, nothing is ever encoded. */
  lemma UsableIff(quality: int)
    ensures (exists image: Image :: Descent(image, quality).Some?) <==> quality >= LOWEST_QUALITY
  {
    var blank: Image := q => Some([]);
    assert quality >= LOWEST_QUALITY ==> Descent(blank, quality).Some?;
  }

  // ---------- captureOnce ----------

  datatype Shot = NoShot | Shot(image: Image)

  datatype Outcome = Missed | TooLarge | Sent(jpeg: Jpeg, scaled: Option<real>)

  function Halved(scale: real): real {
    if scale / 2.0 < MIN_SCALE then MIN_SCALE else scale / 2.0
  }

  /** One capture at these settings: second is what a capture at half the scale gives. */
  function Capture(quality: int, scale: real, first: Shot, second: Shot): Outcome {
    if first.NoShot? then Missed
    else if Descent(first.image, quality).Some? then Sent(Descent(first.image, quality).value, None)
    else if scale > MIN_SCALE && second.Shot? && Descent(second.image, quality).Some?
    then Sent(Descent(second.image, quality).value, Some(Halved(scale)))
    else TooLarge
  }

  // ---------- the session ----------

  datatype Flight = Flight(quality: int, scale: real)

  /** autos and outcomes are history: automatic reductions since the browser last set
      the scale, and every capture's outcome. */
  datatype Session = Session(quality: int, fps: int, scale: real, flight: Option<Flight>, misses: nat,
                             gaveUp: bool, running: bool, closed: bool, autos: nat, outcomes: seq<Outcome>)

  datatype Step =
    | Begin                              // settings() and the capture
    | Finish(first: Shot, second: Shot)  // its end, with whatever came in between
    | SetQuality(value: real, beyond: int)
    | SetFps(value: real, beyond: int)
    | SetScale(value: real)
    | Close
    | Leave                              // the loop sees closed

  function Init(): Session {
    Session(55, 10, 0.75, None, 0, false, true, false, 0, [])
  }

  /** Go's int(v): towards zero, and beyond 64 bits whatever the platform makes of it. */
  function Truncated(v: real, beyond: int): int {
    var t := if v >= 0.0 then v.Floor else -(-v).Floor;
    if -0x8000_0000_0000_0000 <= t < 0x8000_0000_0000_0000 then t else beyond
  }

  function ClampInt(v: int, low: int, high: int): int {
    if v < low then low else if v > high then high else v
  }

  function ClampScale(v: real): real {
    if v < MIN_SCALE then MIN_SCALE else if v > MAX_SCALE then MAX_SCALE else v
  }

  datatype Ctrl = Quality(value: Option<real>) | Fps(value: Option<real>) | Scale(value: Option<real>) | Other

  class DesktopSession {
    var quality: int
    var fps: int
    var scale: real

    constructor ()
      ensures quality == Init().quality && fps == Init().fps && scale == Init().scale
    {
      quality, fps, scale := 55, 10, 0.75;
    }

    /** A control message; one without a value changes nothing. */
    method OnInput(c: Ctrl, beyond: int)
      modifies this
      ensures quality ==
                if c.Quality? && c.value.Some? then ClampInt(Truncated(c.value.value, beyond), 10, 90) else old(quality)
      ensures fps == if c.Fps? && c.value.Some? then ClampInt(Truncated(c.value.value, beyond), 1, 30) else old(fps)
      ensures scale == if c.Scale? && c.value.Some? then ClampScale(c.value.value) else old(scale)
    {
      match c
      case Quality(Some(value)) =>
        var v := Truncated(value, beyond);
        if v < 10 {
          v := 10;
        }
        if v > 90 {
          v := 90;
        }
        quality := v;
      case Fps(Some(value)) =>
        var v := Truncated(value, beyond);
        if v < 1 {
          v := 1;
        }
        if v > 30 {
          v := 30;
        }
        fps := v;
      case Scale(Some(value)) =>
        var v := value;
        if v < MIN_SCALE {
          v := MIN_SCALE;
        }
        if v > MAX_SCALE {
          v := MAX_SCALE;
        }
        scale := v;
      case _ =>
    }

    /** A capture with no message in between. */
    method CaptureOnce(first: Shot, second: Shot) returns (r: Outcome)
      modifies this`scale
      ensures r == Capture(quality, old(scale), first, second)
      ensures scale == if r.Sent? && r.scaled.Some? then r.scaled.value else old(scale)
    {
      if first.NoShot? {
        return Missed;
      }
      var encoded := EncodeJpeg(first.image, quality);
      if encoded.Some? {
        return Sent(encoded.value, None);
      }
      if scale > MIN_SCALE {
        var newScale := scale / 2.0;
        if newScale < MIN_SCALE {
          newScale := MIN_SCALE;
        }
        if second.Shot? {
          encoded := EncodeJpeg(second.image, quality);
          if encoded.Some? {
            scale := newScale;
            return Sent(encoded.value, Some(newScale));
          }
        }
      }
      return TooLarge;
    }
  }

  predicate Enabled(s: Session, e: Step) {
    match e
    case Begin => s.running && s.flight.None?
    case Finish(_, _) => s.flight.Some?
    case Leave => s.running && s.closed && s.flight.None?
    case _ => true
  }

  function Finished(s: Session, o: Outcome): Session
    requires s.flight.Some?
  {
    var t := s.(flight := None, outcomes := s.outcomes + [o]);
    if o.Sent? then
      var u := t.(misses := 0);
      if o.scaled.Some? then u.(scale := o.scaled.value, autos := s.autos + 1) else u
    else if s.misses + 1 >= MAX_MISSES || o.TooLarge? then
      t.(misses := s.misses + 1, gaveUp := true, running := false, closed := true)
    else t.(misses := s.misses + 1)
  }

  function Next(s: Session, e: Step): Session
    requires Enabled(s, e)
  {
    match e
    case Begin => s.(flight := Some(Flight(s.quality, s.scale)))
    case Finish(first, second) =>
      Finished(s, Capture(s.flight.value.quality, s.flight.value.scale, first, second))
    case SetQuality(v, beyond) => s.(quality := ClampInt(Truncated(v, beyond), 10, 90))
    case SetFps(v, beyond) => s.(fps := ClampInt(Truncated(v, beyond), 1, 30))
    case SetScale(v) => s.(scale := ClampScale(v), autos := 0)
    case Close => s.(closed := true)
    case Leave => s.(running := false)
  }

  predicate Misses(o: Outcome) {
    !o.Sent?
  }

  /** The n-th outcome is a reason to give up: too large, or the tenth miss in a row. */
  predicate GivesUpAt(outcomes: seq<Outcome>, n: nat)
    requires 0 < n <= |outcomes|
  {
    || outcomes[n - 1].TooLarge?
    || (n >= 10 && forall k :: n - 10 <= k < n ==> Misses(outcomes[k]))
  }

  /** Outcomes at the end of the list that are all misses. */
  predicate Trailing(outcomes: seq<Outcome>, m: nat) {
    && m <= |outcomes|
    && (forall k :: |outcomes| - m <= k < |outcomes| ==> Misses(outcomes[k]))
    && (m < |outcomes| ==> !Misses(outcomes[|outcomes| - m - 1]))
  }

  predicate ScaleOk(s: Session) {
    && MIN_SCALE <= s.scale <= MAX_SCALE
    && (s.flight.Some? ==>
          && MIN_SCALE <= s.flight.value.scale <= MAX_SCALE
          && (s.flight.value.scale == s.scale || s.autos == 0))
    && s.autos <= 2
    && (s.autos == 1 ==> s.scale <= 0.5)
    && (s.autos == 2 ==> s.scale == MIN_SCALE)
  }

  predicate SettingsOk(s: Session) {
    10 <= s.quality <= 90 && 1 <= s.fps <= 30
  }

  predicate FramesOk(s: Session) {
    forall k :: 0 <= k < |s.outcomes| && s.outcomes[k].Sent? ==> |s.outcomes[k].jpeg| <= MAX_FRAME
  }

  /** The loop has ended and the channel is closed. */
  predicate Over(s: Session) {
    !s.running && s.flight.None? && s.closed
  }

  predicate LoopOk(s: Session) {
    && (s.gaveUp ==> Over(s) && |s.outcomes| > 0 && GivesUpAt(s.outcomes, |s.outcomes|))
    && (s.flight.Some? ==> s.running)
    && (!s.gaveUp ==> s.misses < MAX_MISSES && Trailing(s.outcomes, s.misses))
    && forall n :: 0 < n <= |s.outcomes| && (n < |s.outcomes| || !s.gaveUp) ==> !GivesUpAt(s.outcomes, n)
  }

  predicate Inv(s: Session) {
    ScaleOk(s) && SettingsOk(s) && FramesOk(s) && LoopOk(s)
  }

  lemma {:induction false} DescentFits(image: Image, q: int)
    ensures Descent(image, q).Some? ==> |Descent(image, q).value| <= MAX_FRAME
    decreases q
  {
    if q >= LOWEST_QUALITY && TooBig(image, q) {
      DescentFits(image, q - 10);
    }
  }

  lemma StepScale(s: Session, e: Step)
    requires Enabled(s, e) && ScaleOk(s)
    ensures ScaleOk(Next(s, e))
  {
  }

  lemma StepFrames(s: Session, e: Step)
    requires Enabled(s, e) && FramesOk(s)
    ensures FramesOk(Next(s, e))
  {
    if e.Finish? {
      if e.first.Shot? {
        DescentFits(e.first.image, s.flight.value.quality);
      }
      if e.second.Shot? {
        DescentFits(e.second.image, s.flight.value.quality);
      }
    }
  }

  lemma GivesUpStays(outcomes: seq<Outcome>, o: Outcome, n: nat)
    requires 0 < n <= |outcomes|
    ensures GivesUpAt(outcomes + [o], n) == GivesUpAt(outcomes, n)
  {
    var more := outcomes + [o];
    assert forall k :: 0 <= k < n ==> more[k] == outcomes[k];
  }

  lemma FinishedLoop(s: Session, o: Outcome)
    requires s.flight.Some? && LoopOk(s)
    ensures LoopOk(Finished(s, o))
  {
    var t := Finished(s, o);
    forall n: nat | 0 < n <= |s.outcomes|
      ensures GivesUpAt(t.outcomes, n) == GivesUpAt(s.outcomes, n)
    {
      GivesUpStays(s.outcomes, o, n);
    }
    assert t.outcomes[|s.outcomes|] == o;
    if !o.Sent? {
      assert Trailing(t.outcomes, s.misses + 1);
      LastGivesUpIff(t.outcomes, s.misses + 1);
    } else {
      assert !Misses(t.outcomes[|s.outcomes|]);
      assert !GivesUpAt(t.outcomes, |t.outcomes|);
    }
  }

  lemma LastGivesUpIff(outcomes: seq<Outcome>, m: nat)
    requires |outcomes| > 0 && 0 < m <= MAX_MISSES && Trailing(outcomes, m)
    ensures GivesUpAt(outcomes, |outcomes|) <==> outcomes[|outcomes| - 1].TooLarge? || m == MAX_MISSES
  {
  }

  lemma StepLoop(s: Session, e: Step)
    requires Enabled(s, e) && LoopOk(s)
    ensures LoopOk(Next(s, e))
  {
    if e.Finish? {
      FinishedLoop(s, Capture(s.flight.value.quality, s.flight.value.scale, e.first, e.second));
    }
  }

  // ---------- runs ----------

  predicate Runs(s: Session, steps: seq<Step>)
    decreases |steps|
  {
    steps == [] || (Enabled(s, steps[0]) && Runs(Next(s, steps[0]), steps[1..]))
  }

  function After(s: Session, steps: seq<Step>): Session
    requires Runs(s, steps)
    decreases |steps|
  {
    if steps == [] then s else After(Next(s, steps[0]), steps[1..])
  }

  lemma {:induction false} RunInv(s: Session, steps: seq<Step>)
    requires Inv(s) && Runs(s, steps)
    ensures Inv(After(s, steps))
    decreases |steps|
  {
    if steps != [] {
      StepScale(s, steps[0]);
      StepFrames(s, steps[0]);
      StepLoop(s, steps[0]);
      RunInv(Next(s, steps[0]), steps[1..]);
    }
  }

  /** Automatic reductions over a run, from the last scale the browser set on, n of them
      before it. */
  function Reductions(s: Session, steps: seq<Step>, n: nat): nat
    requires Runs(s, steps)
    decreases |steps|
  {
    if steps == [] then n
    else
      var t := Next(s, steps[0]);
      var more :=
        if steps[0].SetScale? then 0
        else if steps[0].Finish? && t.outcomes[|s.outcomes|].Sent? && t.outcomes[|s.outcomes|].scaled.Some? then n + 1
        else n;
      Reductions(t, steps[1..], more)
  }

  lemma {:induction false} AutosAreReductions(s: Session, steps: seq<Step>)
    requires Runs(s, steps)
    ensures After(s, steps).autos == Reductions(s, steps, s.autos)
    decreases |steps|
  {
    if steps != [] {
      AutosAreReductions(Next(s, steps[0]), steps[1..]);
    }
  }

  /** In every reachable state: the scale is in range, it has come down by itself at
      most twice since the browser last set it, every frame sent fits, and the
      session has given up exactly when its last capture was too large or the tenth
      miss in a row, no earlier one being either; and then it is over. */
  lemma SessionKeeps(steps: seq<Step>)
    requires Runs(Init(), steps)
    ensures var s := After(Init(), steps);
            && 0.25 <= s.scale <= 1.0 && Reductions(Init(), steps, 0) <= 2
            && (forall k :: 0 <= k < |s.outcomes| && s.outcomes[k].Sent? ==> |s.outcomes[k].jpeg| <= 60_000)
            && (s.gaveUp <==> |s.outcomes| > 0 && GivesUpAt(s.outcomes, |s.outcomes|))
            && (forall n :: 0 < n < |s.outcomes| ==> !GivesUpAt(s.outcomes, n))
            && (s.gaveUp ==> Over(s))
  {
    RunInv(Init(), steps);
    AutosAreReductions(Init(), steps);
  }

  /** Once over, a session captures nothing any more, whatever the browser still sends;
      and a closed one is over as soon as its loop looks. */
  lemma {:induction false} OverForGood(s: Session, steps: seq<Step>)
    requires Over(s) && Runs(s, steps)
    ensures Over(After(s, steps)) && After(s, steps).outcomes == s.outcomes
    decreases |steps|
  {
    if steps != [] {
      OverForGood(Next(s, steps[0]), steps[1..]);
    }
  }

  lemma CloseEnds(s: Session)
    requires s.running && s.flight.None?
    ensures Runs(s, [Close] + [Leave]) && Over(After(s, [Close] + [Leave]))
  {
    LastStep(Next(s, Close), Leave);
    Then(s, Close, [Leave]);
  }

  /** What the browser's numbers do. Of a number within Go's range a quality is the whole
      part, but at least 10 and at most 90, and a frame rate the whole part within 1 to
      30; a scale is kept as it is within 0.25 to 1. */
  lemma SettingsFollow(s: Session, v: real, beyond: int)
    requires -9.0e18 < v < 9.0e18
    ensures var q := Next(s, SetQuality(v, beyond)).quality;
            && (v < 10.0 ==> q == 10) && (v > 90.0 ==> q == 90)
            && (10.0 <= v <= 90.0 ==> q as real <= v < q as real + 1.0)
    ensures var f := Next(s, SetFps(v, beyond)).fps;
            && (v < 1.0 ==> f == 1) && (v > 30.0 ==> f == 30)
            && (1.0 <= v <= 30.0 ==> f as real <= v < f as real + 1.0)
    ensures Next(s, SetScale(v)).scale == if v < 0.25 then 0.25 else if v > 1.0 then 1.0 else v
  {
  }

  /** Some quality that the descent tries fits, with every one above it too big. */
  ghost predicate SomeRungFits(image: Image, quality: int) {
    exists i: nat :: StopsAt(image, quality, i) && Fitting(image, Rung(quality, i))
  }

  /** jpeg is the image at quality - 10 * i, not below 20, and it fits; at every quality
      from which the descent stepped down the image was too big. */
  predicate FirstFit(image: Image, quality: int, i: nat, jpeg: Jpeg) {
    && quality - 10 * i >= 20
    && image(quality - 10 * i) == Some(jpeg) && |jpeg| <= 60_000
    && forall k: nat :: k < i ==> image(quality - 10 * k).Some? && |image(quality - 10 * k).value| > 60_000
  }

  /** What a capture sends. A JPEG at the scale it began with is the first fit of the
      first image; at half the scale, and only then, it is the first fit of the second,
      the first having none. Otherwise nothing is sent: the capture is missed when its
      first image could not be taken, and too large when it could. */
  lemma SentIsFirstFit(s: Session, first: Shot, second: Shot)
    requires s.flight.Some?
    ensures var q, scale := s.flight.value.quality, s.flight.value.scale;
            var t := Next(s, Finish(first, second));
            var o := t.outcomes[|s.outcomes|];
            var whole := first.Shot? && SomeRungFits(first.image, q);
            var half := first.Shot? && !whole && scale > 0.25 && second.Shot? && SomeRungFits(second.image, q);
            && t.outcomes[..|s.outcomes|] == s.outcomes
            && (whole ==> o.Sent? && o.scaled.None? && exists i: nat :: FirstFit(first.image, q, i, o.jpeg))
            && (half ==> && o.Sent? && o.scaled == Some(if scale >= 0.5 then scale / 2.0 else 0.25)
                         && exists i: nat :: FirstFit(second.image, q, i, o.jpeg))
            && (!whole && !half ==> o == if first.NoShot? then Missed else TooLarge)
  {
    var q := s.flight.value.quality;
    if first.Shot? {
      FitIs(first.image, q);
    }
    if second.Shot? {
      FitIs(second.image, q);
    }
  }

  lemma FitIs(image: Image, quality: int)
    ensures Descent(image, quality).Some? <==> SomeRungFits(image, quality)
    ensures Descent(image, quality).Some? ==>
              exists i: nat :: FirstFit(image, quality, i, Descent(image, quality).value)
  {
    DescentIsFirstFit(image, quality);
    if i: nat :| StopsAt(image, quality, i) && Fitting(image, Rung(quality, i)) {
      assert Rung(quality, i) == quality - 10 * i;
      forall k: nat | k < i
        ensures image(quality - 10 * k).Some? && |image(quality - 10 * k).value| > 60_000
      {
        assert TooBig(image, Rung(quality, k));
      }
      assert FirstFit(image, quality, i, Descent(image, quality).value);
    }
  }

  /** Messages that leave the scale alone. */
  predicate Quiet(steps: seq<Step>) {
    forall k :: 0 <= k < |steps| ==> steps[k].SetQuality? || steps[k].SetFps? || steps[k].Close?
  }

  lemma {:induction false} QuietKeeps(s: Session, steps: seq<Step>)
    requires Quiet(steps)
    ensures Runs(s, steps)
    ensures After(s, steps).scale == s.scale && After(s, steps).flight == s.flight
    decreases |steps|
  {
    if steps != [] {
      assert Enabled(s, steps[0]);
      QuietKeeps(Next(s, steps[0]), steps[1..]);
    }
  }

  /** A scale the browser sets while a capture is under way stays, whatever else it
      sends meanwhile, unless all of this holds: the first image was captured and no
      quality tried fits it, the capture began above the lowest scale, an image at half
      that scale was captured and some quality fits it, and half that scale differs
      from what the browser asked for. */
  lemma ScaleOverwrittenIff(s: Session, v: real, more: seq<Step>, first: Shot, second: Shot)
    requires s.flight.Some? && Quiet(more)
    ensures var f := s.flight.value;
            var t := Next(s, SetScale(v));
            && Runs(t, more) && After(t, more).flight == s.flight
            && (Next(After(t, more), Finish(first, second)).scale != ClampScale(v) <==>
                  && first.Shot? && !SomeRungFits(first.image, f.quality)
                  && f.scale > MIN_SCALE
                  && second.Shot? && SomeRungFits(second.image, f.quality)
                  && Halved(f.scale) != ClampScale(v))
  {
    var t := Next(s, SetScale(v));
    QuietKeeps(t, more);
    if first.Shot? {
      DescentIsFirstFit(first.image, s.flight.value.quality);
    }
    if second.Shot? {
      DescentIsFirstFit(second.image, s.flight.value.quality);
    }
  }

  /** A scale set while a capture is in flight can be lost to it. */
  lemma StaleScaleWins(big: Jpeg)
    requires |big| == MAX_FRAME + 1
    ensures var steps := [Begin] + ([SetScale(1.0)] + [Finish(Shot(q => Some(big)), Shot(q => Some([])))]);
            Runs(Init(), steps) && After(Init(), steps).scale == 0.375
  {
    var first, second := Shot(q => Some(big)), Shot(q => Some([]));
    AllTooBig(first.image, 55);
    var s1 := Next(Init(), Begin);
    var s2 := Next(s1, SetScale(1.0));
    assert Next(s2, Finish(first, second)).scale == 0.375;
    LastStep(s2, Finish(first, second));
    Then(s1, SetScale(1.0), [Finish(first, second)]);
    Then(Init(), Begin, [SetScale(1.0)] + [Finish(first, second)]);
  }

  lemma {:induction false} AllTooBig(image: Image, q: int)
    requires forall p :: LOWEST_QUALITY <= p <= q ==> TooBig(image, p)
    ensures Descent(image, q).None?
    decreases q
  {
    if q >= LOWEST_QUALITY {
      assert TooBig(image, q);
      AllTooBig(image, q - 10);
    }
  }

  /** At a quality below 20 no capture sends a frame, and the first image captured
      ends the session. */
  lemma LowQualityEndsSession(s: Session, first: Shot, second: Shot)
    requires s.flight.Some? && s.flight.value.quality < LOWEST_QUALITY
    ensures var t := Next(s, Finish(first, second));
            && !t.outcomes[|s.outcomes|].Sent?
            && (first.Shot? ==> t.gaveUp)
  {
  }

  /** As when the browser asks for quality 10: the first capture ends the session,
      however small its image would be. */
  lemma LowQualityIsReached()
    ensures var steps := [SetQuality(10.0, 0)] + ([Begin] + [Finish(Shot(q => Some([])), NoShot)]);
            Runs(Init(), steps) && After(Init(), steps).gaveUp
  {
    var finish := Finish(Shot(q => Some([])), NoShot);
    var s1 := Next(Init(), SetQuality(10.0, 0));
    var s2 := Next(s1, Begin);
    assert s2.flight == Some(Flight(10, 0.75));
    LowQualityEndsSession(s2, finish.first, finish.second);
    LastStep(s2, finish);
    Then(s1, Begin, [finish]);
    Then(Init(), SetQuality(10.0, 0), [Begin] + [finish]);
  }

  lemma LastStep(s: Session, e: Step)
    requires Enabled(s, e)
    ensures Runs(s, [e]) && After(s, [e]) == Next(s, e)
  {
    assert [e][1..] == [];
    assert Runs(Next(s, e), []) && After(Next(s, e), []) == Next(s, e);
  }

  lemma Then(s: Session, e: Step, rest: seq<Step>)
    requires Enabled(s, e) && Runs(Next(s, e), rest)
    ensures Runs(s, [e] + rest) && After(s, [e] + rest) == After(Next(s, e), rest)
  {
    assert ([e] + rest)[1..] == rest;
  }
}
