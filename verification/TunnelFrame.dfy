/** The 4-byte tunnel frame between the page and the server, and the messages that
    must fit its 16-bit length. */
module TunnelFrame {
  import opened Wrappers
  import opened Bytes
  import D = Download
  import T = TerminalInput
  import Base64

  const FRAME_HEADER_SIZE: nat := 4
  const MAX_FRAME: nat := 64 * 1024
  const FLAG_DATA: byte := 0

  datatype Header = Header(channel: byte, flags: byte, length: nat)

  datatype Packet = Packet(channel: byte, payload: seq<byte>)

  /** (hi << 8) | lo */
  function Len16(hi: byte, lo: byte): (n: nat)
    ensures n < 65536
  {
    var h: nat := hi;
    h * 256 + lo
  }

  function ParseFrameHeader(buf: seq<byte>): Result<Header, string> {
    if |buf| < FRAME_HEADER_SIZE then Failure("frame too short")
    else Success(Header(buf[0], buf[1], Len16(buf[2], buf[3])))
  }

  /** [channel][flags][length:2 BE][payload]; nothing stops a longer payload. */
  function Encode(channel: nat, flags: byte, payload: seq<byte>): seq<byte> {
    [channel % 256, flags, (|payload| / 256) % 256, |payload| % 256] + payload
  }

  function Clip(s: seq<byte>, lo: nat, hi: nat): seq<byte> {
    if |s| <= lo || hi <= lo then [] else s[lo..if hi < |s| then hi else |s|]
  }

  /** What the server forwards to the agent, or None when it drops the frame. */
  function ServerDecode(raw: seq<byte>): Option<Packet> {
    if |raw| < FRAME_HEADER_SIZE || |raw| > MAX_FRAME then None
    else Some(Packet(raw[0], Clip(raw, FRAME_HEADER_SIZE, FRAME_HEADER_SIZE + Len16(raw[2], raw[3]))))
  }

  /** The payload the page sees. */
  function PageDecode(buf: seq<byte>): seq<byte> {
    if |buf| < FRAME_HEADER_SIZE then []
    else Clip(buf, FRAME_HEADER_SIZE, FRAME_HEADER_SIZE + Len16(buf[2], buf[3]))
  }

  /** The frame as the server fills it, byte by byte. */
  method WrapAgentBytes(channel: nat, data: seq<byte>) returns (frame: array<byte>)
    ensures fresh(frame) && frame[..] == Encode(channel, FLAG_DATA, data)
  {
    frame := new byte[FRAME_HEADER_SIZE + |data|](_ => 0);
    frame[0] := channel % 256;
    frame[1] := FLAG_DATA;
    frame[2] := (|data| / 256) % 256;
    frame[3] := |data| % 256;
    for k := 0 to |data|
      invariant frame[..FRAME_HEADER_SIZE] == [channel % 256, FLAG_DATA, (|data| / 256) % 256, |data| % 256]
      invariant frame[FRAME_HEADER_SIZE..FRAME_HEADER_SIZE + k] == data[..k]
    {
      frame[FRAME_HEADER_SIZE + k] := data[k];
    }
    assert frame[FRAME_HEADER_SIZE..] == frame[FRAME_HEADER_SIZE..FRAME_HEADER_SIZE + |data|] == data[..|data|] == data;
    assert frame[..] == frame[..FRAME_HEADER_SIZE] + frame[FRAME_HEADER_SIZE..];
  }

  // ---------- round trips ----------

  lemma HeaderRoundTrip(channel: nat, flags: byte, payload: seq<byte>)
    ensures ParseFrameHeader(Encode(channel, flags, payload))
         == Success(Header(channel % 256, flags, |payload| % 65536))
  {
    assert |payload| % 65536 == (|payload| / 256) % 256 * 256 + |payload| % 256;
  }

  /** Towards the page the payload arrives whole exactly up to 65535 bytes; a longer
      one is cut to its length modulo 65536. */
  lemma PageRoundTrip(channel: nat, payload: seq<byte>)
    ensures PageDecode(Encode(channel, FLAG_DATA, payload)) == payload[..|payload| % 65536]
    ensures PageDecode(Encode(channel, FLAG_DATA, payload)) == payload <==> |payload| <= 65535
  {
    HeaderRoundTrip(channel, FLAG_DATA, payload);
    ClipPayload(Encode(channel, FLAG_DATA, payload)[..4], payload, |payload| % 65536);
    assert Encode(channel, FLAG_DATA, payload) == Encode(channel, FLAG_DATA, payload)[..4] + payload;
    assert payload[..|payload|] == payload;
  }

  lemma ClipPayload(header: seq<byte>, payload: seq<byte>, n: nat)
    requires |header| == FRAME_HEADER_SIZE && n <= |payload|
    ensures Clip(header + payload, FRAME_HEADER_SIZE, FRAME_HEADER_SIZE + n) == payload[..n]
  {
    var s := header + payload;
    assert s[FRAME_HEADER_SIZE..] == payload;
    assert s[FRAME_HEADER_SIZE..FRAME_HEADER_SIZE + n] == s[FRAME_HEADER_SIZE..][..n];
    assert payload[..0] == [];
  }

  /** Towards the agent the size limit counts the header: up to 65532 payload bytes
      arrive whole, and a longer payload is dropped altogether. */
  lemma ServerRoundTrip(channel: nat, payload: seq<byte>)
    ensures ServerDecode(Encode(channel, FLAG_DATA, payload))
         == if |payload| <= MAX_FRAME - FRAME_HEADER_SIZE then Some(Packet(channel % 256, payload)) else None
  {
    var f := Encode(channel, FLAG_DATA, payload);
    HeaderRoundTrip(channel, FLAG_DATA, payload);
    assert |payload| <= 65532 ==> |payload| % 65536 == |payload|;
    assert f[4..] == payload && f[4..4 + |payload|] == payload;
  }

  // ---------- download chunks ----------

  const MSG_CHUNK: byte := 2

  /** [2][seq:4 BE][offset:8 BE][bytes] */
  function ChunkMessage(sn: nat, offset: nat, body: seq<byte>): seq<byte> {
    [MSG_CHUNK] + BigEndian(sn, 4) + BigEndian(offset, 8) + body
  }

  /** onmessage and the head of handleChunk: the number and the bytes appended. */
  function PageChunk(payload: seq<byte>): Option<(nat, seq<byte>)> {
    if |payload| < 13 || payload[0] != MSG_CHUNK then None
    else Some((FromBigEndian(payload[1..5]), payload[13..]))
  }

  /** A chunk reaches handleChunk with its number and all its bytes exactly when it
      leaves room for the 13 bytes in front of them. */
  lemma ChunkThroughTunnel(sn: nat, offset: nat, body: seq<byte>)
    requires sn < D.SEQ_LIMIT
    ensures PageChunk(PageDecode(Encode(5, 0, ChunkMessage(sn, offset, body)))) == Some((sn, body))
       <==> |body| <= 65535 - 13
    ensures ChunkMessage(sn, offset, body)[0] == 2
  {
    var m := ChunkMessage(sn, offset, body);
    PageRoundTrip(5, m);
    if |body| <= 65535 - 13 {
      assert m[1..5] == BigEndian(sn, 4);
      assert m[13..] == body;
      assert Pow256(4) == D.SEQ_LIMIT by {
        assert Pow256(2) == 65536;
        assert Pow256(3) == 256 * Pow256(2);
      }
      BigEndianRoundTrip(sn, 4);
    } else {
      assert |PageDecode(Encode(5, FLAG_DATA, m))| < 65536;
      var got := PageChunk(PageDecode(Encode(5, FLAG_DATA, m)));
      assert got.Some? ==> |got.value.1| <= 65535 - 13;
    }
  }

  // ---------- the other producers ----------

  function Ascii(s: string): (t: seq<byte>)
    requires forall i :: 0 <= i < |s| ==> s[i] < 128 as char
    ensures |t| == |s|
  {
    seq(|s|, i requires 0 <= i < |s| => s[i] as int)
  }

  predicate Digit(c: byte) {
    48 <= c <= 57
  }

  /** A number as JSON writes it. */
  function Decimal(n: nat): (t: seq<byte>)
    ensures |t| >= 1 && forall i :: 0 <= i < |t| ==> Digit(t[i])
  {
    if n < 10 then [48 + n] else Decimal(n / 10) + [48 + n % 10]
  }

  function FromDecimal(t: seq<byte>): nat
    requires forall i :: 0 <= i < |t| ==> Digit(t[i])
  {
    if t == [] then 0
    else
      assert Digit(t[|t| - 1]);
      FromDecimal(t[..|t| - 1]) * 10 + t[|t| - 1] - 48
  }

  lemma {:induction false} DecimalRoundTrip(n: nat)
    ensures FromDecimal(Decimal(n)) == n
  {
    if n < 10 {
      assert Decimal(n)[..0] == [];
    } else {
      DecimalRoundTrip(n / 10);
      assert Decimal(n)[..|Decimal(n)| - 1] == Decimal(n / 10);
    }
  }

  lemma {:induction false} DecimalAtMost(n: nat, d: nat)
    requires d >= 1 && n < Pow10(d)
    ensures |Decimal(n)| <= d
  {
    if d > 1 && n >= 10 {
      DecimalAtMost(n / 10, d - 1);
    }
  }

  function Pow10(d: nat): nat { if d == 0 then 1 else 10 * Pow10(d - 1) }

  /** A sequence number has at most ten digits. */
  lemma NumberLength(sn: nat)
    requires sn < D.SEQ_LIMIT
    ensures |Decimal(sn)| <= 10
  {
    assert Pow10(5) == 100_000;
    assert Pow10(8) == 100_000_000;
    DecimalAtMost(sn, 10);
  }

  function Before(): seq<byte> { Ascii("{\"type\":\"upload-data\",\"seq\":") }

  function Between(): seq<byte> { Ascii(",\"data\":\"") }

  function Behind(): seq<byte> { Ascii("\"}") }

  /** What uploadFile sends for one slice. */
  function UploadMessage(sn: nat, slice: seq<byte>): (m: seq<byte>)
    ensures |m| == 28 + |Decimal(sn)| + 9 + (|slice| + 2) / 3 * 4 + 2
  {
    Before() + Decimal(sn) + Between() + Base64.Encode(slice) + Behind()
  }

  function DigitsEnd(t: seq<byte>, i: nat): (d: nat)
    requires i <= |t|
    ensures i <= d <= |t| && forall j :: i <= j < d ==> Digit(t[j])
    ensures d < |t| ==> !Digit(t[d])
    decreases |t| - i
  {
    if i < |t| && Digit(t[i]) then DigitsEnd(t, i + 1) else i
  }

  /** The number and the decoded bytes the agent takes out of such a message. */
  function ReadUpload(m: seq<byte>): Option<(nat, seq<byte>)> {
    if |m| < 28 || m[..28] != Before() then None
    else
      var d := DigitsEnd(m, 28);
      if d == 28 || |m| < d + 11 || m[d..d + 9] != Between() || m[|m| - 2..] != Behind() then None
      else
        match Base64.Decode(m[d + 9..|m| - 2])
        case None => None
        case Some(raw) => Some((FromDecimal(m[28..d]), raw))
  }

  lemma {:induction false} DigitsEndIs(t: seq<byte>, i: nat, d: nat)
    requires i <= d < |t| && (forall j :: i <= j < d ==> Digit(t[j])) && !Digit(t[d])
    ensures DigitsEnd(t, i) == d
    decreases d - i
  {
    if i < d {
      DigitsEndIs(t, i + 1, d);
    }
  }

  /** Where the parts of such a message are. */
  lemma PartsAt(a: seq<byte>, b: seq<byte>, c: seq<byte>, d: seq<byte>, e: seq<byte>)
    ensures var m := a + b + c + d + e;
            && m[..|a|] == a && m[|a|..|a| + |b|] == b && m[|a| + |b|..|a| + |b| + |c|] == c
            && m[|a| + |b| + |c|..|m| - |e|] == d && m[|m| - |e|..] == e
  {
  }

  lemma UploadReads(sn: nat, slice: seq<byte>)
    ensures ReadUpload(UploadMessage(sn, slice)) == Some((sn, slice))
  {
    var m, n, data := UploadMessage(sn, slice), Decimal(sn), Base64.Encode(slice);
    PartsAt(Before(), n, Between(), data, Behind());
    var d := 28 + |n|;
    assert forall j :: 28 <= j < d ==> m[j] == m[28..d][j - 28];
    assert m[d] == m[d..d + 9][0] == Between()[0] == 44;
    DigitsEndIs(m, 28, d);
    DecimalRoundTrip(sn);
    Base64.RoundTrip(slice);
  }

  /** What the agent's files channel gets out of a frame that holds m. */
  function AgentReads(m: seq<byte>): Option<(nat, seq<byte>)> {
    match ServerDecode(Encode(5, FLAG_DATA, m))
    case None => None
    case Some(p) => if p.channel == 5 then ReadUpload(p.payload) else None
  }

  lemma AgentReadsWhatFits(m: seq<byte>)
    ensures AgentReads(m) == if |m| <= 65_532 then ReadUpload(m) else None
  {
    ServerRoundTrip(5, m);
  }

  /** A slice reaches the agent's uploadData with its number and all its bytes exactly
      when its message fits a frame; every slice uploadFile makes does. */
  lemma SliceThroughTunnel(sn: nat, slice: seq<byte>)
    requires sn < D.SEQ_LIMIT
    ensures AgentReads(UploadMessage(sn, slice)) == Some((sn, slice))
       <==> |Decimal(sn)| + (|slice| + 2) / 3 * 4 <= 65_493
    ensures |slice| <= 32 * 1024 ==> AgentReads(UploadMessage(sn, slice)) == Some((sn, slice))
  {
    AgentReadsWhatFits(UploadMessage(sn, slice));
    UploadReads(sn, slice);
    NumberLength(sn);
  }

  const MAX_JPEG: nat := 60000
  const SHELL_READ: nat := 8192
  const UPLOAD_SLICE: nat := 32 * 1024

  /** What is sent towards the page on the terminal, desktop and files channels. */
  ghost predicate AgentPayload(payload: seq<byte>) {
    || |payload| <= SHELL_READ
    || (exists t: byte, jpeg: seq<byte> :: |jpeg| <= MAX_JPEG && payload == [t] + jpeg)
    || exists sn: nat, offset: nat, body: seq<byte> ::
         |body| <= 48 * 1024 && payload == ChunkMessage(sn, offset, body)
  }

  /** What uploadFile sends towards the agent. */
  ghost predicate UploadPayload(payload: seq<byte>) {
    exists sn: nat, slice: seq<byte> ::
      sn < D.SEQ_LIMIT && |slice| <= UPLOAD_SLICE && payload == UploadMessage(sn, slice)
  }

  /** Four producers are never cut or dropped: shell reads, JPEG frames and file chunks
      reach the page whole, and upload messages reach the agent whole. */
  lemma FourProducersArrive(channel: nat, payload: seq<byte>)
    ensures AgentPayload(payload) ==> PageDecode(Encode(channel, FLAG_DATA, payload)) == payload
    ensures UploadPayload(payload) ==>
              ServerDecode(Encode(channel, FLAG_DATA, payload)) == Some(Packet(channel % 256, payload))
  {
    if AgentPayload(payload) {
      PageRoundTrip(channel, payload);
    }
    if UploadPayload(payload) {
      var sn: nat, slice :| sn < D.SEQ_LIMIT && |slice| <= UPLOAD_SLICE && payload == UploadMessage(sn, slice);
      NumberLength(sn);
      ServerRoundTrip(channel, payload);
    }
  }

  /** Two producers send whatever length they have in one frame: what the shell wrote
      before its channel was attached goes out whole, and a paste comes in whole. The
      page sees the shell's text if and only if it has at most 65535 bytes, and loses
      whole multiples of 65536 otherwise; the agent sees the paste if and only if it
      has at most 65532, and otherwise nothing of it. */
  lemma IntroAndPasteArriveIff(channel: nat, intro: seq<byte>, paste: seq<byte>)
    ensures PageDecode(Encode(channel, FLAG_DATA, intro)) == intro <==> |intro| <= 65535
    ensures |PageDecode(Encode(channel, FLAG_DATA, intro))| == |intro| % 65536
    ensures ServerDecode(Encode(channel, FLAG_DATA, paste)) == Some(Packet(channel % 256, paste)) <==> |paste| <= 65532
    ensures ServerDecode(Encode(channel, FLAG_DATA, paste)).None? <==> |paste| > 65532
  {
    PageRoundTrip(channel, intro);
    ServerRoundTrip(channel, paste);
  }

  // ---------- the terminal's resize message ----------

  /** sendResize: a whole frame on the terminal channel. */
  function ResizeFrame(cols: nat, rows: nat): seq<byte> {
    [1, FLAG_DATA, 0, 6] + ResizePayload(cols, rows)
  }

  function ResizePayload(cols: nat, rows: nat): seq<byte> {
    [0, 1, (cols / 256) % 256, cols % 256, (rows / 256) % 256, rows % 256]
  }

  /** The columns and rows deliver hands to the shell. */
  function Asked(raw: seq<byte>): (nat, nat)
    requires T.IsResize(raw)
  {
    (Len16(raw[2], raw[3]), Len16(raw[4], raw[5]))
  }

  /** A resize reaches the agent as one, and never the shell, with the size the page
      asked for, modulo 65536. */
  lemma ResizeArrives(cols: nat, rows: nat)
    ensures var p := ServerDecode(ResizeFrame(cols, rows));
            && p.Some? && p.value.channel == 1
            && T.IsResize(p.value.payload) && Asked(p.value.payload) == (cols % 65536, rows % 65536)
  {
    var payload := ResizePayload(cols, rows);
    assert ResizeFrame(cols, rows) == Encode(1, FLAG_DATA, payload);
    ServerRoundTrip(1, payload);
    TwoBytes(cols);
    TwoBytes(rows);
  }

  /** A number in two bytes. */
  lemma TwoBytes(n: nat)
    ensures Len16((n / 256) % 256, n % 256) == n % 65536
  {
  }
}
