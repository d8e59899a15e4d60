/** The .vyomrec container: recordingService writes it, Recordings.tsx reads it. */
module Recording {
  import opened Wrappers
  import opened Bytes

  type Device = string

  // "VYOMREC1"
  const MAGIC: seq<byte> := [86, 89, 79, 77, 82, 69, 67, 49]
  const VERSION: byte := 1
  const HEADER_SIZE: nat := 12
  const FRAME_META: nat := 12
  const JPEG: byte := 2

  datatype Record = Record(ts: nat, payload: seq<byte>)

  datatype Frame = Frame(delay: int, jpeg: seq<byte>)

  function HeaderBytes(channel: nat): (h: seq<byte>)
    ensures |h| == HEADER_SIZE
  {
    MAGIC + [VERSION, channel % 256, 0, 0]
  }

  /** [tsMs:8 LE][len:4 BE][payload] */
  function RecordBytes(r: Record): (s: seq<byte>)
    ensures |s| == FRAME_META + |r.payload|
  {
    LittleEndian(r.ts, 8) + BigEndian(|r.payload|, 4) + r.payload
  }

  function Serialize(recs: seq<Record>): seq<byte> {
    if recs == [] then [] else RecordBytes(recs[0]) + Serialize(recs[1..])
  }

  // 2^64, 2^53 and 2^32
  const MAX_U64: nat := 0x1_0000_0000_0000_0000
  const MAX_EXACT: nat := 0x20_0000_0000_0000
  const MAX_U32: nat := 0x1_0000_0000

  /** What the writer can encode without throwing. */
  predicate Encodable(r: Record) {
    r.ts < MAX_U64 && |r.payload| < MAX_U32
  }

  /** What the reader reads back exactly: its timestamps are doubles. */
  predicate Fits(r: Record) {
    r.ts < MAX_EXACT && |r.payload| < MAX_U32
  }

  predicate AllFit(recs: seq<Record>) {
    forall k :: 0 <= k < |recs| ==> Fits(recs[k])
  }

  // ---------- the reader ----------

  function TsAt(file: seq<byte>, off: nat): nat
    requires off + FRAME_META <= |file|
  {
    ReadLE(file, off, 8)
  }

  function LenAt(file: seq<byte>, off: nat): nat
    requires off + FRAME_META <= |file|
  {
    ReadBE(file, off + 8, 4)
  }

  /** Where the next record starts, if this one is whole. */
  function NextAt(file: seq<byte>, off: nat): (next: nat)
    requires off + FRAME_META <= |file|
    ensures next >= off + FRAME_META
  {
    off + FRAME_META + LenAt(file, off)
  }

  /** The payload at off; the file may end before it does. */
  function PayloadAt(file: seq<byte>, off: nat): seq<byte>
    requires off + FRAME_META <= |file|
  {
    file[off + FRAME_META..if NextAt(file, off) < |file| then NextAt(file, off) else |file|]
  }

  /** The frames from off on. */
  function ParseFrom(file: seq<byte>, off: nat, last: int): seq<Frame>
    decreases |file| - off
  {
    if |file| < off + FRAME_META then []
    else
      var payload := PayloadAt(file, off);
      if |payload| > 1 && payload[0] == JPEG
      then [Frame(TsAt(file, off) - last, payload[1..])] + ParseFrom(file, NextAt(file, off), TsAt(file, off))
      else ParseFrom(file, NextAt(file, off), last)
  }

  function Parse(file: seq<byte>): Result<seq<Frame>, string> {
    if |file| < 8 || file[..8] != MAGIC then Failure("bad magic")
    else Success(ParseFrom(file, HEADER_SIZE, 0))
  }

  /** With fewer bytes than a record's metadata there is nothing more to show. */
  lemma ReadEnd(file: seq<byte>, off: nat, last: int)
    requires |file| < off + FRAME_META
    ensures ParseFrom(file, off, last) == []
  {
  }

  lemma Step(file: seq<byte>, off: nat, frames: seq<Frame>, last: int)
    requires off + FRAME_META <= |file|
    requires |PayloadAt(file, off)| > 1 && PayloadAt(file, off)[0] == JPEG
    ensures frames + ParseFrom(file, off, last)
         == (frames + [Frame(TsAt(file, off) - last, PayloadAt(file, off)[1..])])
            + ParseFrom(file, NextAt(file, off), TsAt(file, off))
  {
  }

  lemma Skip(file: seq<byte>, off: nat, last: int)
    requires off + FRAME_META <= |file|
    requires !(|PayloadAt(file, off)| > 1 && PayloadAt(file, off)[0] == JPEG)
    ensures ParseFrom(file, off, last) == ParseFrom(file, NextAt(file, off), last)
  {
  }

  method ParseRecording(u8: seq<byte>) returns (r: Result<seq<Frame>, string>)
    ensures r == Parse(u8)
  {
    if |u8| < 8 || u8[..8] != MAGIC {
      return Failure("bad magic");
    }
    var off := 12;
    var frames: seq<Frame> := [];
    var last: int := 0;
    while off + 12 <= |u8|
      invariant frames + ParseFrom(u8, off, last) == ParseFrom(u8, 12, 0)
      decreases |u8| - off
    {
      var ts, next, payload := TsAt(u8, off), NextAt(u8, off), PayloadAt(u8, off);
      if |payload| > 1 && payload[0] == JPEG {
        Step(u8, off, frames, last);
        frames := frames + [Frame(ts - last, payload[1..])];
        last := ts;
      } else {
        Skip(u8, off, last);
      }
      off := next;
    }
    ReadEnd(u8, off, last);
    assert frames + [] == frames;
    return Success(frames);
  }

  lemma JoinThree(a: seq<Frame>, b: seq<Frame>, c: seq<Frame>)
    ensures a + (b + c) == (a + b) + c
  {
  }

  // ---------- what playback should show ----------

  /** A JPEG message, type 2, that is not empty. */
  predicate Shown(r: Record) {
    |r.payload| > 1 && r.payload[0] == 2
  }

  /** The frame a record gives, if any, and the time later delays count from. */
  function First(r: Record, last: int): seq<Frame> {
    if Shown(r) then [Frame(r.ts - last, r.payload[1..])] else []
  }

  function Next(r: Record, last: int): int {
    if Shown(r) then r.ts else last
  }

  /** The frame of a record of which only the first cut bytes are there: it needs
      its type byte and one byte more. */
  function Part(r: Record, cut: nat, last: int): seq<Frame>
    requires cut < FRAME_META + |r.payload|
  {
    if FRAME_META + 2 <= cut && r.payload[0] == 2 then [Frame(r.ts - last, r.payload[1..cut - FRAME_META])] else []
  }

  /** The JPEG records in order, type byte stripped, each with the time since the
      previous one shown. */
  function Playback(recs: seq<Record>, last: int): seq<Frame> {
    if recs == [] then [] else First(recs[0], last) + Playback(recs[1..], Next(recs[0], last))
  }

  /** The time of the last record shown. */
  function LastShown(recs: seq<Record>, last: int): int {
    if recs == [] then last else LastShown(recs[1..], Next(recs[0], last))
  }

  /** Records wholly inside the first cut bytes, and the one that was cut. */
  function Whole(recs: seq<Record>, cut: nat): (k: nat)
    ensures k <= |recs|
  {
    if recs == [] || cut < FRAME_META + |recs[0].payload| then 0
    else 1 + Whole(recs[1..], cut - FRAME_META - |recs[0].payload|)
  }

  function Tail(recs: seq<Record>, cut: nat, last: int): seq<Frame> {
    if recs == [] then []
    else if cut < FRAME_META + |recs[0].payload| then Part(recs[0], cut, last)
    else Tail(recs[1..], cut - FRAME_META - |recs[0].payload|, Next(recs[0], last))
  }

  /** A record's fields are read back when its 12 bytes of metadata are there. */
  lemma FieldsAt(file: seq<byte>, off: nat, r: Record, rest: seq<byte>, cut: nat)
    requires Fits(r) && FRAME_META <= cut <= FRAME_META + |r.payload| + |rest|
    requires off <= |file| && file[off..] == (RecordBytes(r) + rest)[..cut]
    ensures TsAt(file, off) == r.ts && LenAt(file, off) == |r.payload|
  {
    var a, b := LittleEndian(r.ts, 8), BigEndian(|r.payload|, 4);
    Header(a, b, r.payload, rest, cut);
    Within(file, off, 0, 8);
    Within(file, off, 8, 12);
    assert Pow256(4) == MAX_U32 && Pow256(8) == MAX_U64;
    ReadLEIs(file, off, 8);
    ReadBEIs(file, off + 8, 4);
    LittleEndianRoundTrip(r.ts, 8);
    BigEndianRoundTrip(|r.payload|, 4);
  }

  /** The two fields in front of a payload. */
  lemma Header(a: seq<byte>, b: seq<byte>, payload: seq<byte>, rest: seq<byte>, cut: nat)
    requires |a| == 8 && |b| == 4 && 12 <= cut <= 12 + |payload| + |rest|
    ensures (a + b + payload + rest)[..cut][0..8] == a
    ensures (a + b + payload + rest)[..cut][8..12] == b
  {
    var tail := (payload + rest)[..cut - 12];
    var s := a + (b + tail);
    assert (a + b + payload + rest)[..cut] == s;
    assert s[0..8] == a;
    assert s[8..12] == b;
  }

  /** Its payload too, as far as the file goes, and what follows it. */
  lemma PayloadIsAt(file: seq<byte>, off: nat, r: Record, rest: seq<byte>, cut: nat)
    requires Fits(r) && FRAME_META <= cut <= FRAME_META + |r.payload| + |rest|
    requires off <= |file| && file[off..] == (RecordBytes(r) + rest)[..cut]
    ensures LenAt(file, off) == |r.payload| && TsAt(file, off) == r.ts
    ensures cut < FRAME_META + |r.payload| ==> PayloadAt(file, off) == r.payload[..cut - FRAME_META]
    ensures FRAME_META + |r.payload| <= cut ==>
              && PayloadAt(file, off) == r.payload
              && NextAt(file, off) <= |file|
              && file[NextAt(file, off)..] == rest[..cut - FRAME_META - |r.payload|]
  {
    FieldsAt(file, off, r, rest, cut);
    assert |file[off..]| == cut;
    if cut < FRAME_META + |r.payload| {
      Within(file, off, FRAME_META, cut);
      TwoParts(LittleEndian(r.ts, 8) + BigEndian(|r.payload|, 4), r.payload, rest, cut);
    } else {
      var size := FRAME_META + |r.payload|;
      Within(file, off, FRAME_META, size);
      Within(file, off, size, cut);
      ThreeParts(LittleEndian(r.ts, 8) + BigEndian(|r.payload|, 4), r.payload, rest, cut);
      assert file[off + size..] == file[off + size..off + cut];
    }
  }

  lemma TwoParts(a: seq<byte>, b: seq<byte>, c: seq<byte>, cut: nat)
    requires |a| <= cut <= |a| + |b|
    ensures (a + b + c)[..cut][|a|..cut] == b[..cut - |a|]
  {
    var s := a + b[..cut - |a|];
    assert (a + b + c)[..cut] == s;
    assert s[|a|..cut] == b[..cut - |a|];
  }

  lemma ThreeParts(a: seq<byte>, b: seq<byte>, c: seq<byte>, cut: nat)
    requires |a| + |b| <= cut <= |a| + |b| + |c|
    ensures (a + b + c)[..cut][|a|..|a| + |b|] == b
    ensures (a + b + c)[..cut][|a| + |b|..cut] == c[..cut - |a| - |b|]
  {
    var tail := c[..cut - |a| - |b|];
    var s := a + (b + tail);
    assert (a + b + c)[..cut] == s;
    assert s[|a|..|a| + |b|] == b;
    assert s[|a| + |b|..cut] == tail;
  }

  /** A slice of a suffix is a slice. */
  lemma Within(file: seq<byte>, off: nat, from: nat, to: nat)
    requires off + to <= |file| && from <= to
    ensures file[off + from..off + to] == file[off..][from..to]
  {
  }

  /** The reader over a record that is wholly there. */
  lemma ReadWhole(file: seq<byte>, off: nat, r: Record, rest: seq<byte>, cut: nat, last: int)
    requires Fits(r) && FRAME_META + |r.payload| <= cut <= FRAME_META + |r.payload| + |rest|
    requires off <= |file| && file[off..] == (RecordBytes(r) + rest)[..cut]
    ensures ParseFrom(file, off, last) == First(r, last) + ParseFrom(file, NextAt(file, off), Next(r, last))
  {
    PayloadIsAt(file, off, r, rest, cut);
  }

  /** The frames of a recording of which only the first cut bytes are there. */
  function CutPlayback(recs: seq<Record>, cut: nat, last: int): seq<Frame> {
    if recs == [] then []
    else if FRAME_META + |recs[0].payload| <= cut then
      First(recs[0], last) + CutPlayback(recs[1..], cut - FRAME_META - |recs[0].payload|, Next(recs[0], last))
    else Part(recs[0], cut, last)
  }

  /** The reader over the last record of a cut file. */
  lemma ReadPart(file: seq<byte>, off: nat, r: Record, rest: seq<byte>, cut: nat, last: int)
    requires Fits(r) && cut < FRAME_META + |r.payload|
    requires off <= |file| && file[off..] == (RecordBytes(r) + rest)[..cut]
    ensures ParseFrom(file, off, last) == Part(r, cut, last)
  {
    assert |file[off..]| == cut;
    if FRAME_META <= cut {
      PayloadIsAt(file, off, r, rest, cut);
      var part := r.payload[..cut - FRAME_META];
      ReadEnd(file, NextAt(file, off), last);
      ReadEnd(file, NextAt(file, off), r.ts);
      if |part| > 1 {
        assert part[1..] == r.payload[1..cut - FRAME_META];
      }
    } else {
      ReadEnd(file, off, last);
    }
  }

  /** Reading a recording cut anywhere, from any of its records on. */
  lemma {:induction false} CutParses(file: seq<byte>, off: nat, recs: seq<Record>, cut: nat, last: int)
    requires AllFit(recs)
    requires cut <= |Serialize(recs)| && off <= |file| && file[off..] == Serialize(recs)[..cut]
    ensures ParseFrom(file, off, last) == CutPlayback(recs, cut, last)
    decreases |recs|
  {
    if recs == [] {
      assert |file[off..]| == 0;
      ReadEnd(file, off, last);
    } else {
      var rest := Serialize(recs[1..]);
      if FRAME_META + |recs[0].payload| <= cut {
        PayloadIsAt(file, off, recs[0], rest, cut);
        ReadWhole(file, off, recs[0], rest, cut, last);
        CutParses(file, NextAt(file, off), recs[1..],
                  cut - FRAME_META - |recs[0].payload|, Next(recs[0], last));
      } else {
        ReadPart(file, off, recs[0], rest, cut, last);
      }
    }
  }

  /** What is shown of a cut recording: its whole records, and the tail. */
  lemma {:induction false} CutPlaybackIs(recs: seq<Record>, cut: nat, last: int)
    ensures CutPlayback(recs, cut, last) == Playback(recs[..Whole(recs, cut)], last) + Tail(recs, cut, last)
    decreases |recs|
  {
    if recs != [] && FRAME_META + |recs[0].payload| <= cut {
      var c, next := cut - FRAME_META - |recs[0].payload|, Next(recs[0], last);
      var k := Whole(recs[1..], c);
      CutPlaybackIs(recs[1..], c, next);
      assert recs[..k + 1][1..] == recs[1..][..k];
      assert Playback(recs[..k + 1], last) == First(recs[0], last) + Playback(recs[1..][..k], next);
      assert Tail(recs, cut, last) == Tail(recs[1..], c, next);
      JoinThree(First(recs[0], last), Playback(recs[1..][..k], next), Tail(recs[1..], c, next));
    } else {
      assert recs[..0] == [];
      assert [] + Tail(recs, cut, last) == Tail(recs, cut, last);
    }
  }

  // ---------- the theorems ----------

  /** The tail is at most one frame: the front of the first record not wholly
      there, timed from the last record shown before it. */
  lemma {:induction false} TailIs(recs: seq<Record>, cut: nat, last: int)
    ensures var k := Whole(recs, cut);
            && Size(recs[..k]) <= cut
            && (k < |recs| ==> cut - Size(recs[..k]) < FRAME_META + |recs[k].payload|)
            && Tail(recs, cut, last) ==
                 if k == |recs| then [] else Part(recs[k], cut - Size(recs[..k]), LastShown(recs[..k], last))
    decreases |recs|
  {
    var k := Whole(recs, cut);
    if k > 0 {
      TailIs(recs[1..], cut - FRAME_META - |recs[0].payload|, Next(recs[0], last));
      assert recs[..k][1..] == recs[1..][..k - 1];
    }
  }

  /** Bytes taken by some records. */
  function Size(recs: seq<Record>): nat {
    if recs == [] then 0 else FRAME_META + |recs[0].payload| + Size(recs[1..])
  }

  lemma {:induction false} WholeAll(recs: seq<Record>)
    ensures Whole(recs, |Serialize(recs)|) == |recs| && forall last :: Tail(recs, |Serialize(recs)|, last) == []
    decreases |recs|
  {
    if recs != [] {
      WholeAll(recs[1..]);
    }
  }

  /** "VYOMREC1" */
  function Magic(): seq<byte> {
    var text := "VYOMREC1";
    seq(8, i requires 0 <= i < 8 => text[i] as int)
  }

  /** Every recording begins with the eight letters, version 1 and its channel, and
      exactly the files that begin with those letters are read at all. */
  lemma OnlyRecordingsParse(channel: nat, file: seq<byte>)
    ensures HeaderBytes(channel) == Magic() + [1, channel % 256, 0, 0]
    ensures Parse(file).Success? <==> |file| >= 8 && forall i :: 0 <= i < 8 ==> file[i] == Magic()[i]
  {
    assert MAGIC == Magic();
    if |file| >= 8 && forall i :: 0 <= i < 8 ==> file[i] == Magic()[i] {
      assert file[..8] == Magic();
    }
    assert |file| >= 8 ==> forall i :: 0 <= i < 8 ==> file[i] == file[..8][i];
  }

  /** Cutting a recording anywhere after its header still reads: the records that
      are wholly there, plus at most one frame from the one that was cut. */
  lemma CutRoundTrip(channel: nat, recs: seq<Record>, cut: nat)
    requires AllFit(recs)
    requires cut <= |Serialize(recs)|
    ensures Parse((HeaderBytes(channel) + Serialize(recs))[..HEADER_SIZE + cut])
         == Success(Playback(recs[..Whole(recs, cut)], 0) + Tail(recs, cut, 0))
  {
    var h := HeaderBytes(channel);
    var file := (h + Serialize(recs))[..HEADER_SIZE + cut];
    assert file[..8] == h[..8] == MAGIC;
    assert file[HEADER_SIZE..] == Serialize(recs)[..cut];
    CutParses(file, HEADER_SIZE, recs, cut, 0);
    CutPlaybackIs(recs, cut, 0);
  }

  /** Reading back a finished recording shows exactly its JPEG records. */
  lemma RoundTrip(channel: nat, recs: seq<Record>)
    requires AllFit(recs)
    ensures Parse(HeaderBytes(channel) + Serialize(recs)) == Success(Playback(recs, 0))
  {
    var file := HeaderBytes(channel) + Serialize(recs);
    CutRoundTrip(channel, recs, |Serialize(recs)|);
    WholeAll(recs);
    assert file[..|file|] == file && recs[..|recs|] == recs;
    assert Playback(recs, 0) + [] == Playback(recs, 0);
  }

  /** How many records a reader walks over, shown or not. */
  function Walked(file: seq<byte>, off: nat): nat
    decreases |file| - off
  {
    if |file| < off + FRAME_META then 0 else 1 + Walked(file, NextAt(file, off))
  }

  lemma {:induction false} WalksEveryRecord(file: seq<byte>, off: nat, recs: seq<Record>)
    requires AllFit(recs)
    requires off <= |file| && file[off..] == Serialize(recs)
    ensures Walked(file, off) == |recs|
    decreases |recs|
  {
    if recs == [] {
      assert |file[off..]| == 0;
    } else {
      var rest := Serialize(recs[1..]);
      var cut := |Serialize(recs)|;
      assert (RecordBytes(recs[0]) + rest)[..cut] == Serialize(recs);
      PayloadIsAt(file, off, recs[0], rest, cut);
      assert rest[..cut - FRAME_META - |recs[0].payload|] == rest;
      WalksEveryRecord(file, NextAt(file, off), recs[1..]);
    }
  }

  function SumDelays(frames: seq<Frame>): int {
    if frames == [] then 0 else frames[0].delay + SumDelays(frames[1..])
  }

  /** The delays of a playback add up to the time of the last record shown. */
  lemma {:induction false} DelaysSum(recs: seq<Record>, last: int)
    ensures last + SumDelays(Playback(recs, last)) == LastShown(recs, last)
    decreases |recs|
  {
    if recs != [] {
      var rest := Playback(recs[1..], Next(recs[0], last));
      DelaysSum(recs[1..], Next(recs[0], last));
      if Shown(recs[0]) {
        assert Playback(recs, last)[1..] == rest;
      } else {
        assert Playback(recs, last) == rest;
      }
    }
  }

  /** The playback of the first k records starts the playback of all. */
  lemma {:induction false} PlaybackPrefix(recs: seq<Record>, k: nat, last: int)
    requires k <= |recs|
    ensures Playback(recs[..k], last) <= Playback(recs, last)
    decreases k
  {
    if k > 0 {
      PlaybackPrefix(recs[1..], k - 1, Next(recs[0], last));
      assert recs[..k][1..] == recs[1..][..k - 1];
      PrefixAfter(First(recs[0], last), Playback(recs[1..][..k - 1], Next(recs[0], last)),
                  Playback(recs[1..], Next(recs[0], last)));
    }
  }

  lemma PrefixAfter(a: seq<Frame>, b: seq<Frame>, c: seq<Frame>)
    requires b <= c
    ensures a + b <= a + c
  {
    assert c[..|b|] == b;
  }

  lemma {:induction false} PlaybackSnoc(recs: seq<Record>, r: Record, last: int)
    ensures Playback(recs + [r], last) == Playback(recs, last) + First(r, LastShown(recs, last))
    ensures LastShown(recs + [r], last) == Next(r, LastShown(recs, last))
    decreases |recs|
  {
    if recs == [] {
      assert [] + [r] == [r] && [r][1..] == [];
      assert First(r, last) + [] == First(r, last) && [] + First(r, last) == First(r, last);
    } else {
      assert (recs + [r])[1..] == recs[1..] + [r];
      PlaybackSnoc(recs[1..], r, Next(recs[0], last));
      JoinThree(First(recs[0], last), Playback(recs[1..], Next(recs[0], last)), First(r, LastShown(recs, last)));
    }
  }

  /** Every record shown has its frame, with its bytes, at a place where the delays so
      far, that frame's included, add up to the record's time. */
  lemma DelaysAddUp(recs: seq<Record>, k: nat, last: int)
    requires k < |recs| && Shown(recs[k])
    ensures var all := Playback(recs, last); var n := |Playback(recs[..k], last)|;
            n < |all| && all[n].jpeg == recs[k].payload[1..] && last + SumDelays(all[..n + 1]) == recs[k].ts
  {
    var soFar := Playback(recs[..k + 1], last);
    assert recs[..k + 1] == recs[..k] + [recs[k]];
    PlaybackSnoc(recs[..k], recs[k], last);
    PlaybackPrefix(recs, k + 1, last);
    DelaysSum(recs[..k + 1], last);
    assert Playback(recs, last)[..|soFar|] == soFar;
  }

  // ---------- the service ----------

  datatype ActiveRec = ActiveRec(rowId: nat, stream: seq<byte>, bytes: nat, frames: nat, startedAtMs: int)

  datatype Row = Row(device: Device, bytes: nat, frames: nat, ended: bool)

  lemma {:induction false} SerializeAppend(recs: seq<Record>, r: Record)
    ensures Serialize(recs + [r]) == Serialize(recs) + RecordBytes(r)
    decreases |recs|
  {
    if recs == [] {
      assert [r][1..] == [];
      assert [] + [r] == [r];
    } else {
      assert (recs + [r])[1..] == recs[1..] + [r];
      SerializeAppend(recs[1..], r);
    }
  }

  /** An open stream is a header and its records, and the counters agree with it. */
  ghost predicate StreamOk(rec: ActiveRec, recs: seq<Record>) {
    && IsRecording(rec.stream, recs)
    && rec.bytes == |rec.stream|
    && rec.frames == |recs|
    && forall k :: 0 <= k < |recs| ==> Encodable(recs[k])
  }

  ghost predicate IsRecording(file: seq<byte>, recs: seq<Record>) {
    exists channel: nat :: file == HeaderBytes(channel) + Serialize(recs)
  }

  /** The stream and counters after one more record. */
  function Appended(rec: ActiveRec, r: Record): ActiveRec {
    rec.(stream := rec.stream + RecordBytes(r),
         bytes := rec.bytes + FRAME_META + |r.payload|,
         frames := rec.frames + 1)
  }

  ghost predicate StreamsOk(active: map<Device, ActiveRec>, taken: map<Device, seq<Record>>, rows: nat) {
    && active.Keys == taken.Keys
    && forall d :: d in active ==> active[d].rowId < rows && StreamOk(active[d], taken[d])
  }

  lemma AppendKeepsAll(active: map<Device, ActiveRec>, taken: map<Device, seq<Record>>, rows: nat, d: Device, r: Record)
    requires StreamsOk(active, taken, rows) && d in active && Encodable(r)
    ensures StreamsOk(active[d := Appended(active[d], r)], taken[d := taken[d] + [r]], rows)
  {
    AppendKeeps(active[d], taken[d], r);
  }

  lemma AppendKeeps(rec: ActiveRec, recs: seq<Record>, r: Record)
    requires StreamOk(rec, recs) && Encodable(r)
    ensures StreamOk(Appended(rec, r), recs + [r])
  {
    var channel: nat :| rec.stream == HeaderBytes(channel) + Serialize(recs);
    SerializeAppend(recs, r);
    assert rec.stream + RecordBytes(r) == HeaderBytes(channel) + Serialize(recs + [r]);
  }

  lemma PlaysBack(file: seq<byte>, recs: seq<Record>)
    requires IsRecording(file, recs) && AllFit(recs)
    ensures Parse(file) == Success(Playback(recs, 0)) && Walked(file, HEADER_SIZE) == |recs|
  {
    var channel: nat :| file == HeaderBytes(channel) + Serialize(recs);
    RoundTrip(channel, recs);
    assert file[HEADER_SIZE..] == Serialize(recs);
    WalksEveryRecord(file, HEADER_SIZE, recs);
  }

  class RecordingService {
    var active: map<Device, ActiveRec>
    var rows: seq<Row>
    var files: map<nat, seq<byte>>     // finished containers, by row
    ghost var taken: map<Device, seq<Record>>  // the records of each active recording

    ghost predicate Valid()
      reads this
    {
      StreamsOk(active, taken, |rows|)
    }

    constructor ()
      ensures Valid() && active == map[] && rows == []
    {
      active, rows, files, taken := map[], [], map[], map[];
    }

    method Start(device: Device, channel: nat, now: int) returns (ok: bool)
      requires Valid()
      modifies this
      ensures Valid() && ok == (device !in old(active)) && files == old(files)
      ensures ok ==> && rows == old(rows) + [Row(device, HEADER_SIZE, 0, false)]
                     && active == old(active)[device := ActiveRec(|old(rows)|, HeaderBytes(channel), HEADER_SIZE, 0,
                         now)]
                     && taken == old(taken)[device := []]
      ensures !ok ==> active == old(active) && rows == old(rows) && taken == old(taken)
    {
      if device in active {
        return false;
      }
      var id := |rows|;
      rows := rows + [Row(device, HEADER_SIZE, 0, false)];
      active := active[device := ActiveRec(id, HeaderBytes(channel), HEADER_SIZE, 0, now)];
      taken := taken[device := []];
      assert HeaderBytes(channel) == HeaderBytes(channel) + Serialize([]);
      assert IsRecording(HeaderBytes(channel), []);
      return true;
    }

    /** recordFrame; threw is the RangeError of a value that fits no field. */
    method RecordFrame(device: Device, payload: seq<byte>, now: int) returns (threw: bool)
      requires Valid()
      modifies this`active, this`taken
      ensures Valid()
      ensures threw == (device in old(active)
                && !(0 <= now - old(active)[device].startedAtMs < MAX_U64 && |payload| < MAX_U32))
      ensures device !in old(active) || threw ==> active == old(active) && taken == old(taken)
      ensures device in old(active) && !threw ==>
                var rec := old(active)[device];
                var r := Record(now - rec.startedAtMs, payload);
                && taken == old(taken)[device := old(taken)[device] + [r]]
                && active == old(active)[device := Appended(rec, r)]
    {
      if device !in active {
        return false;
      }
      var rec := active[device];
      if now < rec.startedAtMs || now - rec.startedAtMs >= MAX_U64 || |payload| >= MAX_U32 {
        return true;
      }
      var r := Record(now - rec.startedAtMs, payload);
      AppendKeepsAll(active, taken, |rows|, device, r);
      rec := rec.(stream := rec.stream + RecordBytes(r), bytes := rec.bytes + FRAME_META + |payload|,
          frames := rec.frames + 1);
      assert rec == Appended(active[device], r);
      active := active[device := rec];
      taken := taken[device := taken[device] + [r]];
      return false;
    }

    /** A stopped recording plays back exactly what was taken, and its row counts
        its bytes and its records. */
    method Stop(device: Device) returns (ok: bool)
      requires Valid()
      modifies this
      ensures Valid() && ok == (device in old(active))
      ensures !ok ==> active == old(active) && rows == old(rows) && files == old(files) && taken == old(taken)
      ensures ok ==> var id := old(active)[device].rowId; var recs := old(taken)[device];
                     && active == old(active) - {device} && taken == old(taken) - {device}
                     && files == old(files)[id := old(active)[device].stream]
                     && (AllFit(recs) ==>
                           Parse(files[id]) == Success(Playback(recs, 0)) && Walked(files[id], HEADER_SIZE) == |recs|)
                     && rows == old(rows)[id := old(rows)[id].(bytes := |files[id]|, frames := |recs|, ended := true)]
    {
      if device !in active {
        return false;
      }
      var rec := active[device];
      if AllFit(taken[device]) {
        PlaysBack(rec.stream, taken[device]);
      }
      active := active - {device};
      taken := taken - {device};
      files := files[rec.rowId := rec.stream];
      rows := rows[rec.rowId := rows[rec.rowId].(bytes := rec.bytes, frames := rec.frames, ended := true)];
      return true;
    }
  }
}
