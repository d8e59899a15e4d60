/** The browser terminal's answers to private-mode queries (Terminal.tsx): a scan over
    a stream that arrives in chunks, with a 64-unit tail carried along. */
module ModeQueries {
  import opened Wrappers

  // a UTF-16 code unit
  type Unit = x: int | 0 <= x < 0x10000
  type Text = seq<Unit>

  const KEPT: nat := 64

  // ESC [ ? and h, l
  const OPENING: Text := [27, 91, 63]
  const SET: Unit := 104
  const RESET: Unit := 108

  // "9001", "1004", "1002", "1006", "2004"
  const MODES: set<Text> :=
    {[57, 48, 48, 49], [49, 48, 48, 52], [49, 48, 48, 50], [49, 48, 48, 54], [50, 48, 48, 52]}

  /** A query: ESC [ ? mode h. */
  function Query(mode: Text): Text {
    OPENING + mode + [SET]
  }

  /** Its answer: ESC [ ? mode ; 2 $ y. */
  function Reply(mode: Text): Text {
    OPENING + mode + [59, 50, 36, 121]
  }

  // ---------- the regular expression ----------

  predicate Digit(u: Unit) {
    48 <= u <= 57
  }

  function DigitsEnd(text: Text, i: nat): (d: nat)
    requires i <= |text|
    ensures i <= d <= |text|
    ensures forall j :: i <= j < d ==> Digit(text[j])
    ensures d < |text| ==> !Digit(text[d])
    decreases |text| - i
  {
    if i < |text| && Digit(text[i]) then DigitsEnd(text, i + 1) else i
  }

  datatype Match = Match(end: nat, mode: Text, isSet: bool)

  /** ESC [ ? digits (h|l), starting at i. */
  function MatchAt(text: Text, i: nat): Option<Match> {
    if i + 3 <= |text| && text[i..i + 3] == OPENING then
      var d := DigitsEnd(text, i + 3);
      if d > i + 3 && d < |text| && (text[d] == SET || text[d] == RESET)
      then Some(Match(d + 1, text[i + 3..d], text[d] == SET)) else None
    else None
  }

  /** re.exec: the first match at or after from. */
  method Exec(text: Text, from: nat) returns (at: nat, m: Option<Match>)
    ensures m.None? ==> forall i: nat :: from <= i ==> MatchAt(text, i).None?
    ensures m.Some? ==> from <= at < |text| && MatchAt(text, at) == m
                        && forall i: nat :: from <= i < at ==> MatchAt(text, i).None?
  {
    at := from;
    while at < |text|
      invariant from <= at
      invariant forall i: nat :: from <= i < at ==> MatchAt(text, i).None?
      decreases |text| - at
    {
      m := MatchAt(text, at);
      if m.Some? {
        return;
      }
      at := at + 1;
    }
    m := None;
  }

  // ---------- what is answered ----------

  predicate Asked(text: Text, i: nat) {
    && MatchAt(text, i).Some?
    && MatchAt(text, i).value.isSet && MatchAt(text, i).value.mode in MODES
  }

  /** The answers to every query that starts at or after i, in order. */
  function Answers(text: Text, i: nat): seq<Text>
    decreases |text| - i
  {
    if i >= |text| then []
    else (if Asked(text, i) then [Reply(MatchAt(text, i).value.mode)] else []) + Answers(text, i + 1)
  }

  lemma {:induction false} NoAnswers(text: Text, i: nat, j: nat)
    requires i <= j <= |text| && forall k: nat :: i <= k < j ==> !Asked(text, k)
    ensures Answers(text, i) == Answers(text, j)
    decreases j - i
  {
    if i < j {
      NoAnswers(text, i + 1, j);
      assert !Asked(text, i);
    }
  }

  /** No match starts inside another: only its first unit is ESC. */
  lemma NoneInside(text: Text, i: nat, k: nat)
    requires MatchAt(text, i).Some? && i < k < MatchAt(text, i).value.end
    ensures !Asked(text, k)
  {
    var d := DigitsEnd(text, i + 3);
    assert text[k] != 27 by {
      if k < i + 3 {
        assert text[k] == OPENING[k - i];
      }
    }
    if k + 3 <= |text| {
      assert text[k..k + 3][0] == text[k];
    }
  }

  function Last64(text: Text): Text {
    if |text| <= KEPT then text else text[|text| - KEPT..]
  }

  class Replier {
    var unprocessed: Text
    var sent: seq<Text>

    constructor ()
      ensures unprocessed == [] && sent == []
    {
      unprocessed, sent := [], [];
    }

    method ReplyToModeQueries(chunk: Text)
      modifies this
      ensures sent == old(sent) + Answers(old(unprocessed) + chunk, 0)
      ensures unprocessed == Last64(old(unprocessed) + chunk)
    {
      unprocessed := unprocessed + chunk;
      ghost var text := unprocessed;
      var lastIndex: nat := 0;
      var at, m := Exec(unprocessed, lastIndex);
      while m.Some?
        invariant unprocessed == text && lastIndex <= |text|
        invariant sent + Answers(text, lastIndex) == old(sent) + Answers(text, 0)
        invariant m.Some? ==> lastIndex <= at < |text| && MatchAt(text, at) == m
        invariant forall i: nat :: lastIndex <= i && (m.Some? ==> i < at) ==> MatchAt(text, i).None?
        decreases |text| - lastIndex, m.Some?
      {
        AnswersAt(text, lastIndex, at, sent);
        if m.value.mode in MODES && m.value.isSet {
          sent := sent + [Reply(m.value.mode)];
        }
        lastIndex := m.value.end;
        at, m := Exec(unprocessed, lastIndex);
      }
      NoAnswers(text, lastIndex, |text|);
      assert sent + [] == sent;
      unprocessed := Last64(unprocessed);
    }
  }

  /** Skipping to the first match and past it skips no answer. */
  lemma AnswersAt(text: Text, from: nat, at: nat, sent: seq<Text>)
    requires from <= at < |text| && MatchAt(text, at).Some?
    requires forall i: nat :: from <= i < at ==> MatchAt(text, i).None?
    ensures var end := MatchAt(text, at).value.end;
            && from < end <= |text|
            && sent + Answers(text, from) ==
                 (if Asked(text, at) then sent + [Reply(MatchAt(text, at).value.mode)] else sent) + Answers(text, end)
  {
    var end := MatchAt(text, at).value.end;
    NoAnswers(text, from, at);
    forall k: nat | at + 1 <= k < end
      ensures !Asked(text, k)
    {
      NoneInside(text, at, k);
    }
    NoAnswers(text, at + 1, end);
  }

  // ---------- over a whole stream ----------

  /** A query of a known mode stands at p. */
  predicate QueryAt(text: Text, p: nat) {
    p + 8 <= |text| && exists mode :: mode in MODES && text[p..p + 8] == Query(mode)
  }

  lemma Halves(text: Text, a: nat, b: nat, c: nat)
    requires a <= b <= c <= |text|
    ensures text[a..c] == text[a..b] + text[b..c]
  {
  }

  lemma AskedIsQuery(text: Text, p: nat)
    ensures Asked(text, p) <==> QueryAt(text, p)
  {
    if Asked(text, p) {
      var m := MatchAt(text, p).value;
      assert |m.mode| == 4;
      Halves(text, p, p + 3, p + 7);
      Halves(text, p, p + 7, p + 8);
      assert text[p + 7..p + 8] == [text[p + 7]];
      assert text[p..p + 8] == Query(m.mode);
    }
    if QueryAt(text, p) {
      QueryIsAsked(text, p);
    }
  }

  lemma QueryIsAsked(text: Text, p: nat)
    requires QueryAt(text, p)
    ensures Asked(text, p)
  {
    var mode :| mode in MODES && text[p..p + 8] == Query(mode);
    var w := text[p..p + 8];
    assert |mode| == 4 && Digit(mode[0]) && Digit(mode[1]) && Digit(mode[2]) && Digit(mode[3]);
    assert w[..3] == OPENING && w[3..7] == mode && w[7] == SET;
    assert text[p..p + 3] == w[..3];
    assert text[p + 3..p + 7] == w[3..7];
    assert text[p + 3] == w[3] && text[p + 4] == w[4] && text[p + 5] == w[5] && text[p + 6] == w[6]
        && text[p + 7] == w[7];
    assert DigitsEnd(text, p + 3) == p + 7 by {
      assert !Digit(text[p + 7]);
      assert DigitsEnd(text, p + 7) == p + 7;
      assert DigitsEnd(text, p + 5) == p + 7;
    }
  }

  function Ascii(s: string): Text
    requires forall i :: 0 <= i < |s| ==> s[i] < 128 as char
  {
    seq(|s|, i requires 0 <= i < |s| => s[i] as int)
  }

  /** The queries and answers of the five modes, as text. */
  lemma FiveModes()
    ensures MODES == {Ascii("9001"), Ascii("1004"), Ascii("1002"), Ascii("1006"), Ascii("2004")}
    ensures forall mode :: mode in MODES ==>
              && Query(mode) == [27] + Ascii("[?") + mode + Ascii("h")
              && Reply(mode) == [27] + Ascii("[?") + mode + Ascii(";2$y")
  {
    assert Ascii("9001") == [57, 48, 48, 49] && Ascii("1004") == [49, 48, 48, 52];
    assert Ascii("1002") == [49, 48, 48, 50] && Ascii("1006") == [49, 48, 48, 54];
    assert Ascii("2004") == [50, 48, 48, 52] && Ascii("[?") == [91, 63];
    assert Ascii("h") == [104] && Ascii(";2$y") == [59, 50, 36, 121];
  }

  /** at are the places of the queries from i on, in order. */
  ghost predicate Places(text: Text, i: nat, at: seq<nat>) {
    && (forall p :: p in at <==> i <= p && QueryAt(text, p))
    && forall j, k :: 0 <= j < k < |at| ==> at[j] < at[k]
  }

  predicate AnsweredBy(text: Text, at: seq<nat>, answers: seq<Text>) {
    && |answers| == |at|
    && forall k :: 0 <= k < |at| ==> at[k] + 8 <= |text| && answers[k] == Reply(text[at[k] + 3..at[k] + 7])
  }

  lemma PlacesStep(text: Text, i: nat, rest: seq<nat>)
    requires i < |text| && Places(text, i + 1, rest)
    ensures Places(text, i, if QueryAt(text, i) then [i] + rest else rest)
  {
    assert forall p :: p in [i] + rest <==> p == i || p in rest;
    assert forall k :: 0 <= k < |rest| ==> rest[k] in rest;
  }

  lemma AnsweredStep(text: Text, i: nat, rest: seq<nat>)
    requires i < |text| && AnsweredBy(text, rest, Answers(text, i + 1))
    ensures AnsweredBy(text, if QueryAt(text, i) then [i] + rest else rest, Answers(text, i))
  {
    AskedIsQuery(text, i);
    if Asked(text, i) {
      ModeIs(text, i);
      AnsweredCons(text, i, rest, Answers(text, i + 1));
      assert Answers(text, i) == [Reply(text[i + 3..i + 7])] + Answers(text, i + 1);
    } else {
      assert Answers(text, i) == Answers(text, i + 1);
    }
  }

  lemma AnsweredCons(text: Text, i: nat, rest: seq<nat>, answers: seq<Text>)
    requires i + 8 <= |text| && AnsweredBy(text, rest, answers)
    ensures AnsweredBy(text, [i] + rest, [Reply(text[i + 3..i + 7])] + answers)
  {
  }

  /** What is answered to a text: one answer to each query in it, in order, naming its
      mode. */
  lemma {:induction false} AnswersAre(text: Text, i: nat) returns (at: seq<nat>)
    requires i <= |text|
    ensures Places(text, i, at) && AnsweredBy(text, at, Answers(text, i))
    decreases |text| - i
  {
    if i == |text| {
      return [];
    }
    var rest := AnswersAre(text, i + 1);
    PlacesStep(text, i, rest);
    AnsweredStep(text, i, rest);
    at := if QueryAt(text, i) then [i] + rest else rest;
  }

  lemma ModeIs(text: Text, p: nat)
    requires Asked(text, p)
    ensures p + 8 <= |text| && MatchAt(text, p).value.mode == text[p + 3..p + 7]
  {
    assert |MatchAt(text, p).value.mode| == 4;
  }

  /** A query of a part is a query of the whole that the part has room for. */
  lemma QueryInPart(whole: Text, a: nat, b: nat, p: nat)
    requires a <= p && a <= b <= |whole|
    ensures QueryAt(whole[a..b], p - a) <==> p + 8 <= b && QueryAt(whole, p)
  {
    if p + 8 <= b {
      SliceOfSlice(whole, a, b, p - a, p - a + 8);
    }
  }

  lemma SliceOfSlice(whole: Text, a: nat, b: nat, from: nat, to: nat)
    requires a <= b <= |whole| && from <= to <= b - a
    ensures whole[a..b][from..to] == whole[a + from..a + to]
  {
    var part := whole[a..b];
    assert forall j :: 0 <= j < b - a ==> part[j] == whole[a + j];
    assert forall j :: 0 <= j < to - from ==> part[from..to][j] == part[from + j];
  }

  /** The stream after n chunks. */
  function Upto(chunks: seq<Text>, n: nat): Text
    requires n <= |chunks|
  {
    if n == 0 then [] else Upto(chunks, n - 1) + chunks[n - 1]
  }

  /** What is carried over after n chunks. */
  function Tail(chunks: seq<Text>, n: nat): Text
    requires n <= |chunks|
  {
    if n == 0 then [] else Last64(Tail(chunks, n - 1) + chunks[n - 1])
  }

  /** Where the text of call k starts in the stream. */
  function Start(chunks: seq<Text>, k: nat): nat
    requires k <= |chunks|
  {
    if |Upto(chunks, k)| <= KEPT then 0 else |Upto(chunks, k)| - KEPT
  }

  lemma {:induction false} TailIs(chunks: seq<Text>, n: nat)
    requires n <= |chunks|
    ensures Tail(chunks, n) == Upto(chunks, n)[Start(chunks, n)..]
  {
    if n > 0 {
      TailIs(chunks, n - 1);
      DropAppend(Upto(chunks, n - 1), chunks[n - 1], Start(chunks, n - 1));
    }
  }

  lemma {:induction false} UptoGrows(chunks: seq<Text>, n: nat, m: nat)
    requires n <= m <= |chunks|
    ensures Upto(chunks, n) <= Upto(chunks, m)
    decreases m
  {
    if n < m {
      UptoGrows(chunks, n, m - 1);
    }
  }

  /** Call k looks at a stretch of the stream. */
  lemma TextOfCall(chunks: seq<Text>, k: nat)
    requires k < |chunks| && Upto(chunks, k + 1) <= Upto(chunks, |chunks|)
    ensures Tail(chunks, k) + chunks[k] == Upto(chunks, |chunks|)[Start(chunks, k)..|Upto(chunks, k + 1)|]
  {
    TailIs(chunks, k);
    DropAppend(Upto(chunks, k), chunks[k], Start(chunks, k));
    PrefixDrop(Upto(chunks, |chunks|), Upto(chunks, k + 1), Start(chunks, k));
  }

  lemma DropAppend(a: Text, b: Text, n: nat)
    requires n <= |a|
    ensures a[n..] + b == (a + b)[n..]
  {
  }

  lemma PrefixDrop(whole: Text, part: Text, n: nat)
    requires part <= whole && n <= |part|
    ensures part[n..] == whole[n..|part|]
  {
  }

  /** Call k answers the query at p of the stream. */
  predicate AnsweredAt(chunks: seq<Text>, k: nat, p: nat)
    requires k < |chunks|
  {
    Start(chunks, k) <= p && Asked(Tail(chunks, k) + chunks[k], p - Start(chunks, k))
  }

  /** It does exactly when the query is complete by then and starts within the 64
      units before the chunk or in it: how the stream is cut does not matter. */
  lemma AnsweredIff(chunks: seq<Text>, k: nat, p: nat)
    requires k < |chunks|
    ensures AnsweredAt(chunks, k, p) <==>
              Start(chunks, k) <= p && p + 8 <= |Upto(chunks, k + 1)| && QueryAt(Upto(chunks, |chunks|), p)
  {
    var start, end, stream := Start(chunks, k), |Upto(chunks, k + 1)|, Upto(chunks, |chunks|);
    UptoGrows(chunks, k + 1, |chunks|);
    TextOfCall(chunks, k);
    if start <= p {
      AskedIsQuery(stream[start..end], p - start);
      QueryInPart(stream, start, end, p);
    }
  }

  /** The call during which the query at p becomes complete. */
  predicate CompletedIn(chunks: seq<Text>, k: nat, p: nat)
    requires k < |chunks|
  {
    |Upto(chunks, k)| < p + 8 <= |Upto(chunks, k + 1)|
  }

  lemma {:induction false} CompletedSomewhere(chunks: seq<Text>, n: nat, p: nat) returns (k: nat)
    requires n <= |chunks| && p + 8 <= |Upto(chunks, n)|
    ensures k < n && CompletedIn(chunks, k, p)
  {
    if p + 8 <= |Upto(chunks, n - 1)| {
      k := CompletedSomewhere(chunks, n - 1, p);
    } else {
      k := n - 1;
    }
  }

  /** Every query is answered by the call that completes it, however the stream was
      cut; and no earlier one. */
  lemma EveryQueryAnswered(chunks: seq<Text>, p: nat) returns (k: nat)
    requires QueryAt(Upto(chunks, |chunks|), p)
    ensures k < |chunks| && CompletedIn(chunks, k, p) && AnsweredAt(chunks, k, p)
    ensures forall j: nat :: j < k ==> !AnsweredAt(chunks, j, p)
  {
    k := CompletedSomewhere(chunks, |chunks|, p);
    AnsweredIff(chunks, k, p);
    forall j: nat | j < k
      ensures !AnsweredAt(chunks, j, p)
    {
      AnsweredIff(chunks, j, p);
      UptoGrows(chunks, j + 1, k);
    }
  }

  /** It is answered again by a later call exactly as long as it is still among the 64
      units before that call's chunk: once only if and only if no call follows, or more
      than 64 - 8 units came after it in the chunk that completed it. */
  lemma AnsweredOnceIff(chunks: seq<Text>, k: nat, p: nat)
    requires QueryAt(Upto(chunks, |chunks|), p) && k < |chunks| && CompletedIn(chunks, k, p)
    ensures (forall j: nat :: j < |chunks| && AnsweredAt(chunks, j, p) ==> j == k)
            <==> k == |chunks| - 1 || |Upto(chunks, k + 1)| > p + KEPT
  {
    AnsweredIff(chunks, k, p);
    if k < |chunks| - 1 && |Upto(chunks, k + 1)| <= p + KEPT {
      AnsweredAgain(chunks, k, p);
    }
    forall j: nat | j < |chunks| && AnsweredAt(chunks, j, p) && (k == |chunks| - 1 || |Upto(chunks, k + 1)| > p + KEPT)
      ensures j == k
    {
      AnsweredNotElse(chunks, k, j, p);
    }
  }

  lemma AnsweredAgain(chunks: seq<Text>, k: nat, p: nat)
    requires QueryAt(Upto(chunks, |chunks|), p) && k + 1 < |chunks| && CompletedIn(chunks, k, p)
    requires |Upto(chunks, k + 1)| <= p + KEPT
    ensures AnsweredAt(chunks, k + 1, p)
  {
    AnsweredIff(chunks, k + 1, p);
    UptoGrows(chunks, k + 1, k + 2);
  }

  lemma AnsweredNotElse(chunks: seq<Text>, k: nat, j: nat, p: nat)
    requires k < |chunks| && j < |chunks| && CompletedIn(chunks, k, p)
    requires k == |chunks| - 1 || |Upto(chunks, k + 1)| > p + KEPT
    requires AnsweredAt(chunks, j, p)
    ensures j == k
  {
    AnsweredIff(chunks, j, p);
    if j < k {
      UptoGrows(chunks, j + 1, k);
    } else if j > k {
      UptoGrows(chunks, k + 1, j);
    }
  }

  /** A query alone in the first chunk is answered again with the next, whatever comes. */
  lemma AnsweredTwice(mode: Text, more: Text)
    requires mode in MODES
    ensures AnsweredAt([Query(mode), more], 0, 0) && AnsweredAt([Query(mode), more], 1, 0)
  {
    var chunks := [Query(mode), more];
    assert Upto(chunks, 1) == Query(mode) && |Query(mode)| == 8;
    assert Upto(chunks, 2) == Query(mode) + more;
    assert Upto(chunks, 2)[0..8] == Query(mode);
    assert QueryAt(Upto(chunks, 2), 0);
    AnsweredIff(chunks, 0, 0);
    AnsweredIff(chunks, 1, 0);
  }
}
