/**
 The reconstruction equations of sections 6.2 to 6.6 of RFC 2083, written out on the decoded
 bytes, independently of the predictor that writer and reader share.
 */
module PngEquations {
  import opened Common
  import opened PngUnfilter

  function Distance(a: int, b: int): int { if a < b then b - a else a - b }

  /** `p` is the nearest of left, above and upper-left to their estimate, the earliest on a tie. */
  predicate NearestToEstimate(p: int, left: int, above: int, upperLeft: int) {
    var e := left + above - upperLeft;
    && p in [left, above, upperLeft]
    && Distance(e, p) <= Distance(e, left) && Distance(e, p) <= Distance(e, above)
    && Distance(e, p) <= Distance(e, upperLeft)
    && (Distance(e, p) == Distance(e, left) ==> p == left)
    && (Distance(e, p) == Distance(e, above) && Distance(e, p) != Distance(e, left) ==> p == above)
  }

  /** Sections 6.2 to 6.6 of RFC 2083 for one byte: what each filter adds to the filtered byte. */
  predicate Reconstructs(kind: int, filtered: int, out: int, left: int, above: int, upperLeft: int) {
    match kind
    case 0 => out == filtered
    case 1 => out == (filtered + left) % 256
    case 2 => out == (filtered + above) % 256
    case 3 => out == (filtered + (left + above) / 2) % 256
    case 4 => exists p :: 0 <= p < 256 && NearestToEstimate(p, left, above, upperLeft) && out == (filtered + p) % 256
    case _ => false
  }

  /** One byte of a row, from the row's own byte four places before and the row above. */
  predicate ReconstructsAt(kind: int, f: seq<Byte>, row: seq<Byte>, prior: seq<Byte>, x: nat)
    requires x < |f| == |row| == |prior|
  {
    var left := if x >= 4 then row[x - 4] else 0;
    var upperLeft := if x >= 4 then prior[x - 4] else 0;
    Reconstructs(kind, f[x], row[x], left, prior[x], upperLeft)
  }

  predicate RowReconstructs(kind: int, f: seq<Byte>, row: seq<Byte>, prior: seq<Byte>)
    requires |f| == |prior|
  {
    |row| == |f| && forall x :: 0 <= x < |f| ==> ReconstructsAt(kind, f, row, prior, x)
  }

  /** Every row of an image, each from its filter byte, its bytes and the row before it. */
  predicate ImageReconstructs(stream: seq<Byte>, rows: seq<seq<Byte>>, prior: seq<Byte>) {
    rows == [] ||
    (&& |stream| > |prior| && |rows[0]| == |prior|
     && (|prior| > 0 ==> RowReconstructs(stream[0], stream[1..|prior| + 1], rows[0], prior))
     && ImageReconstructs(stream[|prior| + 1..], rows[1..], rows[0]))
  }

  lemma PaethNearest(left: Byte, above: Byte, upperLeft: Byte)
    ensures NearestToEstimate(Paeth(left, above, upperLeft), left, above, upperLeft)
  {
  }

  lemma ByteReconstructs(kind: Byte, filtered: Byte, left: Byte, above: Byte, upperLeft: Byte)
    requires Supported(kind)
    ensures Reconstructs(kind, filtered, (filtered + Predictor(kind, left, above, upperLeft)) % 256,
                         left, above, upperLeft)
  {
    PaethNearest(left, above, upperLeft);
    if kind == 4 {
      var p := Paeth(left, above, upperLeft);
      assert 0 <= p < 256 && NearestToEstimate(p, left, above, upperLeft);
    }
  }

  lemma {:induction false} UnfilterReconstructsAt(kind: Byte, f: seq<Byte>, prior: seq<Byte>, x: nat)
    requires x < |f| == |prior| && Supported(kind)
    ensures ReconstructsAt(kind, f, Unfilter(kind, f, prior, |f|), prior, x)
  {
    var row := Unfilter(kind, f, prior, |f|);
    UnfilterAt(kind, f, prior, |f|, x);
    ByteReconstructs(kind, f[x], At(row, x - BYTES_PER_PIXEL), prior[x], At(prior, x - BYTES_PER_PIXEL));
  }

  lemma {:induction false} UnfilterReconstructs(kind: Byte, f: seq<Byte>, prior: seq<Byte>)
    requires |f| == |prior| && Supported(kind)
    ensures RowReconstructs(kind, f, Unfilter(kind, f, prior, |f|), prior)
  {
    var row := Unfilter(kind, f, prior, |f|);
    forall x | 0 <= x < |f|
      ensures ReconstructsAt(kind, f, row, prior, x)
    {
      UnfilterReconstructsAt(kind, f, prior, x);
    }
  }

  /** Whatever decodes meets the equations in every byte. */
  lemma {:induction false} DecodeReconstructs(stream: seq<Byte>, height: nat, prior: seq<Byte>)
    requires |stream| == StreamLength(height, |prior|) && Decode(stream, height, prior).Some?
    ensures ImageReconstructs(stream, Decode(stream, height, prior).value, prior)
    decreases height
  {
    if height > 0 {
      var kind, f, rest := stream[0], stream[1..|prior| + 1], stream[|prior| + 1..];
      assert stream == [kind] + (f + rest);
      DecodeCons(kind, f, rest, height - 1, prior);
      var row := Unfilter(kind, f, prior, |prior|);
      DecodeReconstructs(rest, height - 1, row);
      if |prior| > 0 {
        UnfilterReconstructs(kind, f, prior);
      }
      assert ([row] + Decode(rest, height - 1, row).value)[1..] == Decode(rest, height - 1, row).value;
    }
  }

  /** So the equations hold of whatever pixels are returned, below a row of zeros. */
  lemma {:induction false} PixelsReconstruct(filtered: seq<Byte>, width: nat, height: nat)
    requires |filtered| == StreamLength(height, width * 4) && Decode(filtered, height, Zeros(width * 4)).Some?
    ensures ImageReconstructs(filtered, Decode(filtered, height, Zeros(width * 4)).value, seq(width * 4, _ => 0))
  {
    DecodeReconstructs(filtered, height, Zeros(width * 4));
  }

  /** Decoding fails on nothing but a filter byte above 4 before a row that has bytes. */
  lemma {:induction false} DecodesExactly(stream: seq<Byte>, height: nat, prior: seq<Byte>)
    requires |stream| == StreamLength(height, |prior|)
    ensures Decode(stream, height, prior).Some? <==>
            var kinds := Kinds(stream, height, |prior|);
            |prior| == 0 || forall i :: 0 <= i < |kinds| ==> kinds[i] <= 4
  {
    DecodeExact(stream, height, prior);
  }

  /** Pixels lie row after row: byte x of row y stands at y * stride + x. */
  lemma {:induction false} PixelAt(rows: seq<seq<Byte>>, stride: nat, y: nat, x: nat)
    requires Rectangular(rows, stride) && y < |rows| && x < stride
    ensures y * stride + x < |Concat(rows)| == |rows| * stride
    ensures Concat(rows)[y * stride + x] == rows[y][x]
    decreases |rows|
  {
    ConcatLength(rows, stride);
    assert rows[0] in rows;
    if y > 0 {
      assert forall i :: 0 <= i < |rows[1..]| ==> rows[1..][i] == rows[i + 1];
      PixelAt(rows[1..], stride, y - 1, x);
      RowBefore(y, stride);
      assert Concat(rows)[stride + ((y - 1) * stride + x)] == Concat(rows[1..])[(y - 1) * stride + x];
    }
  }

  lemma {:induction false} ConcatLength(rows: seq<seq<Byte>>, stride: nat)
    requires Rectangular(rows, stride)
    ensures |Concat(rows)| == |rows| * stride
    decreases |rows|
  {
    if rows != [] {
      assert forall i :: 0 <= i < |rows[1..]| ==> rows[1..][i] == rows[i + 1];
      ConcatLength(rows[1..], stride);
      RowBefore(|rows|, stride);
    }
  }

  lemma RowBefore(y: nat, stride: nat)
    requires y > 0
    ensures y * stride == stride + (y - 1) * stride
  {
  }
}
