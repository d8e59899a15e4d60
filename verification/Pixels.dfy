/** The pixel loop of captureScreen (desktop_windows.go): a bottom-up BGRA bitmap
    becomes a top-down RGBA image. */
module Pixels {
  import opened Bytes

  /** Where row y starts: y * stride, see OffsetIs. */
  function Offset(stride: nat, y: nat): nat {
    if y == 0 then 0 else Offset(stride, y - 1) + stride
  }

  lemma {:induction false} OffsetIs(stride: nat, y: nat)
    ensures Offset(stride, y) == y * stride
  {
    if y > 0 {
      OffsetIs(stride, y - 1);
      assert y * stride == (y - 1) * stride + stride;
    }
  }

  /** Rows lie one after another. */
  lemma {:induction false} RowsApart(stride: nat, y: nat, later: nat)
    requires y < later
    ensures Offset(stride, y) + stride <= Offset(stride, later)
    decreases later
  {
    if y < later - 1 {
      RowsApart(stride, y, later - 1);
    }
  }

  /** Pixel x of the row at dst has the colours of pixel x of the row at src. */
  predicate Swizzled(raw: seq<byte>, pix: seq<byte>, src: nat, dst: nat, x: nat) {
    && src + x * 4 + 3 < |raw| && dst + x * 4 + 3 < |pix|
    && pix[dst + x * 4 + 0] == raw[src + x * 4 + 2]
    && pix[dst + x * 4 + 1] == raw[src + x * 4 + 1]
    && pix[dst + x * 4 + 2] == raw[src + x * 4 + 0]
    && pix[dst + x * 4 + 3] == 255
  }

  predicate RowSwizzled(raw: seq<byte>, pix: seq<byte>, src: nat, dst: nat, capW: nat) {
    forall x: nat :: x < capW ==> Swizzled(raw, pix, src, dst, x)
  }

  /** Row y of the image is row capH-1-y of the bitmap. */
  predicate RowDone(raw: seq<byte>, pix: seq<byte>, capW: nat, capH: nat, y: nat)
    requires y < capH
  {
    RowSwizzled(raw, pix, Offset(capW * 4, capH - 1 - y), Offset(capW * 4, y), capW)
  }

  predicate IsFlip(raw: seq<byte>, pix: seq<byte>, capW: nat, capH: nat) {
    && |raw| == |pix| == Offset(capW * 4, capH)
    && forall y: nat :: y < capH ==> RowDone(raw, pix, capW, capH, y)
  }

  /** A row stays done while only bytes after it change. */
  lemma RowStays(raw: seq<byte>, before: seq<byte>, after: seq<byte>, src: nat, dst: nat, capW: nat, from: nat)
    requires RowSwizzled(raw, before, src, dst, capW)
    requires dst + capW * 4 <= from <= |before| == |after|
    requires forall p :: 0 <= p < from ==> after[p] == before[p]
    ensures RowSwizzled(raw, after, src, dst, capW)
  {
    forall x: nat | x < capW
      ensures Swizzled(raw, after, src, dst, x)
    {
      assert Swizzled(raw, before, src, dst, x);
    }
  }

  /** The inner loop: one row. */
  method SwizzleRow(raw: array<byte>, pix: array<byte>, src: nat, dst: nat, capW: nat)
    requires raw != pix && src + capW * 4 <= raw.Length && dst + capW * 4 <= pix.Length
    modifies pix
    ensures RowSwizzled(raw[..], pix[..], src, dst, capW)
    ensures forall p :: 0 <= p < dst || dst + capW * 4 <= p < pix.Length ==> pix[p] == old(pix[p])
  {
    var x := 0;
    while x < capW
      invariant x <= capW
      invariant forall w: nat :: w < x ==> Swizzled(raw[..], pix[..], src, dst, w)
      invariant forall p :: 0 <= p < dst || dst + capW * 4 <= p < pix.Length ==> pix[p] == old(pix[p])
    {
      ghost var before := pix[..];
      pix[dst + x * 4 + 0] := raw[src + x * 4 + 2];
      pix[dst + x * 4 + 1] := raw[src + x * 4 + 1];
      pix[dst + x * 4 + 2] := raw[src + x * 4 + 0];
      pix[dst + x * 4 + 3] := 255;
      forall w: nat | w < x
        ensures Swizzled(raw[..], pix[..], src, dst, w)
      {
        assert Swizzled(raw[..], before, src, dst, w);
      }
      x := x + 1;
    }
  }

  method FlipAndSwizzle(raw: array<byte>, pix: array<byte>, capW: nat, capH: nat)
    requires raw != pix && raw.Length == pix.Length == Offset(capW * 4, capH)
    modifies pix
    ensures IsFlip(raw[..], pix[..], capW, capH)
  {
    ghost var bits := raw[..];
    var y := 0;
    while y < capH
      invariant y <= capH && raw[..] == bits
      invariant forall v: nat :: v < y ==> RowDone(bits, pix[..], capW, capH, v)
    {
      RowsApart(capW * 4, y, capH);
      RowsApart(capW * 4, capH - 1 - y, capH);
      ghost var before := pix[..];
      SwizzleRow(raw, pix, Offset(capW * 4, capH - 1 - y), Offset(capW * 4, y), capW);
      forall v: nat | v < y
        ensures RowDone(bits, pix[..], capW, capH, v)
      {
        assert RowDone(bits, before, capW, capH, v);
        RowsApart(capW * 4, v, y);
        RowStays(bits, before, pix[..], Offset(capW * 4, capH - 1 - v), Offset(capW * 4, v), capW, Offset(capW * 4, y));
      }
      y := y + 1;
    }
  }

  /** Pixel (x, y) of the image is the RGB of pixel (x, capH-1-y) of the bitmap, whose
      bytes are B, G, R, with alpha 255. */
  lemma PixelIs(raw: seq<byte>, pix: seq<byte>, capW: nat, capH: nat, x: nat, y: nat)
    requires IsFlip(raw, pix, capW, capH) && x < capW && y < capH
    ensures var i := y * (capW * 4) + x * 4; var j := (capH - 1 - y) * (capW * 4) + x * 4;
            && 0 <= i && i + 3 < |pix| && 0 <= j && j + 3 < |raw|
            && pix[i] == raw[j + 2] && pix[i + 1] == raw[j + 1] && pix[i + 2] == raw[j] && pix[i + 3] == 255
  {
    assert RowDone(raw, pix, capW, capH, y);
    assert Swizzled(raw, pix, Offset(capW * 4, capH - 1 - y), Offset(capW * 4, y), x);
    OffsetIs(capW * 4, y);
    OffsetIs(capW * 4, capH - 1 - y);
  }

  /** Every byte of the image belongs to such a pixel, so every one is written. */
  lemma {:induction false} EveryByteInPixel(capW: nat, capH: nat, p: nat) returns (x: nat, y: nat, c: nat)
    requires p < Offset(capW * 4, capH)
    ensures x < capW && y < capH && c < 4 && p == Offset(capW * 4, y) + x * 4 + c
    decreases capH
  {
    if p < Offset(capW * 4, capH - 1) {
      x, y, c := EveryByteInPixel(capW, capH - 1, p);
    } else {
      var k := p - Offset(capW * 4, capH - 1);
      x, y, c := k / 4, capH - 1, k % 4;
    }
  }

  /** Doing it twice gives back every colour byte: nothing is lost but the alpha. */
  lemma FlipTwice(raw: seq<byte>, pix: seq<byte>, again: seq<byte>, capW: nat, capH: nat, x: nat, y: nat)
    requires IsFlip(raw, pix, capW, capH) && IsFlip(pix, again, capW, capH)
    requires x < capW && y < capH
    ensures var i := Offset(capW * 4, y) + x * 4;
            && i + 3 < |raw|
            && again[i] == raw[i] && again[i + 1] == raw[i + 1] && again[i + 2] == raw[i + 2] && again[i + 3] == 255
  {
    var low := capH - 1 - y;
    assert capH - 1 - low == y;
    assert RowDone(pix, again, capW, capH, y) && RowDone(raw, pix, capW, capH, low);
    assert Swizzled(pix, again, Offset(capW * 4, low), Offset(capW * 4, y), x);
    assert Swizzled(raw, pix, Offset(capW * 4, y), Offset(capW * 4, low), x);
  }
}
