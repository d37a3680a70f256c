/**
 Reconstruction of 8-bit RGBA scanlines from PNG-filtered bytes (section 6 of
 RFC 2083), against the filter that a PNG writer applies.
 */
module PngUnfilter {
  import opened Common

  const BYTES_PER_PIXEL: nat := 4

  function Abs(n: int): int { if n < 0 then -n else n }

  /** The first of left, above and upper-left with the smallest distance, as the source picks it. */
  function SourcePaeth(left: Byte, above: Byte, upperLeft: Byte): Byte {
    var estimate := left + above - upperLeft;
    var distances := [Abs(estimate - left), Abs(estimate - above), Abs(estimate - upperLeft)];
    var smallest := MinOf3(distances[0], distances[1], distances[2]);
    if distances[0] == smallest then left else if distances[1] == smallest then above else upperLeft
  }

  function MinOf3(a: int, b: int, c: int): int {
    if a <= b then (if a <= c then a else c) else if b <= c then b else c
  }

  /** The predictor of section 6.6: ties go to left, then above, then upper-left. */
  function Paeth(left: Byte, above: Byte, upperLeft: Byte): Byte {
    var p := left + above - upperLeft;
    var pa, pb, pc := Abs(p - left), Abs(p - above), Abs(p - upperLeft);
    if pa <= pb && pa <= pc then left else if pb <= pc then above else upperLeft
  }

  lemma PaethAgrees(left: Byte, above: Byte, upperLeft: Byte)
    ensures SourcePaeth(left, above, upperLeft) == Paeth(left, above, upperLeft)
  {
  }

  predicate Supported(kind: Byte) { kind <= 4 }

  function Predictor(kind: Byte, left: Byte, above: Byte, upperLeft: Byte): Byte {
    match kind
    case 1 => left
    case 2 => above
    case 3 => (left + above) / 2
    case 4 => Paeth(left, above, upperLeft)
    case _ => 0
  }

  /** A byte of a row or, left of the first pixel, zero. */
  function At(row: seq<Byte>, x: int): Byte
    requires x < |row|
  {
    if x < 0 then 0 else row[x]
  }

  // --------------------------------------------------------------- one scanline

  /** The writer's side: every byte minus its prediction from raw bytes, modulo 256. */
  function FilterRow(kind: Byte, raw: seq<Byte>, prior: seq<Byte>): (f: seq<Byte>)
    requires |prior| == |raw|
    ensures |f| == |raw|
  {
    seq(|raw|, x requires 0 <= x < |raw| =>
      (raw[x] - Predictor(kind, At(raw, x - BYTES_PER_PIXEL), prior[x], At(prior, x - BYTES_PER_PIXEL))) % 256)
  }

  /** The first `n` reconstructed bytes, each from the reconstructed bytes before it. */
  function Unfilter(kind: Byte, f: seq<Byte>, prior: seq<Byte>, n: nat): (raw: seq<Byte>)
    requires n <= |f| == |prior|
    ensures |raw| == n
  {
    if n == 0 then []
    else
      var done := Unfilter(kind, f, prior, n - 1);
      var x := n - 1;
      done + [(f[x] + Predictor(kind, At(done, x - BYTES_PER_PIXEL), prior[x], At(prior, x - BYTES_PER_PIXEL))) % 256]
  }

  lemma AddBack(raw: Byte, p: Byte)
    ensures ((raw - p) % 256 + p) % 256 == raw
  {
  }

  lemma {:induction false} UnfilterFilter(kind: Byte, raw: seq<Byte>, prior: seq<Byte>, n: nat)
    requires n <= |raw| == |prior|
    ensures Unfilter(kind, FilterRow(kind, raw, prior), prior, n) == raw[..n]
    decreases n
  {
    if n > 0 {
      var x := n - 1;
      UnfilterFilter(kind, raw, prior, x);
      assert At(raw[..x], x - BYTES_PER_PIXEL) == At(raw, x - BYTES_PER_PIXEL);
      AddBack(raw[x], Predictor(kind, At(raw, x - BYTES_PER_PIXEL), prior[x], At(prior, x - BYTES_PER_PIXEL)));
      assert raw[..n] == raw[..x] + [raw[x]];
    }
  }

  /** One reconstructed byte, in terms of its reconstructed left neighbour. */
  function Rebuilt(kind: Byte, f: seq<Byte>, prior: seq<Byte>, raw: seq<Byte>, x: nat): Byte
    requires x < |raw| <= |f| == |prior|
  {
    (f[x] + Predictor(kind, At(raw, x - BYTES_PER_PIXEL), prior[x], At(prior, x - BYTES_PER_PIXEL))) % 256
  }

  lemma {:induction false} UnfilterAt(kind: Byte, f: seq<Byte>, prior: seq<Byte>, n: nat, x: nat)
    requires x < n <= |f| == |prior|
    ensures Unfilter(kind, f, prior, n)[x] == Rebuilt(kind, f, prior, Unfilter(kind, f, prior, n), x)
    decreases n
  {
    if x < n - 1 {
      UnfilterAt(kind, f, prior, n - 1, x);
    }
  }

  lemma SubtractBack(f: Byte, p: Byte)
    ensures ((f + p) % 256 - p) % 256 == f
  {
  }

  /** Filtering the reconstruction gives the filtered bytes back: the two are mutually inverse. */
  lemma {:induction false} FilterUnfilter(kind: Byte, f: seq<Byte>, prior: seq<Byte>)
    requires |f| == |prior|
    ensures FilterRow(kind, Unfilter(kind, f, prior, |f|), prior) == f
  {
    var raw := Unfilter(kind, f, prior, |f|);
    forall x | 0 <= x < |f|
      ensures FilterRow(kind, raw, prior)[x] == f[x]
    {
      UnfilterAt(kind, f, prior, |f|, x);
      SubtractBack(f[x], Predictor(kind, At(raw, x - BYTES_PER_PIXEL), prior[x], At(prior, x - BYTES_PER_PIXEL)));
    }
  }

  // ------------------------------------------------------------------ the image

  function Zeros(stride: nat): (z: seq<Byte>)
    ensures |z| == stride
  {
    seq(stride, _ => 0)
  }

  predicate Rectangular(rows: seq<seq<Byte>>, stride: nat) { forall i :: 0 <= i < |rows| ==> |rows[i]| == stride }

  /** The filtered stream of an image: one filter byte, then the filtered row, for every row. */
  function Encode(rows: seq<seq<Byte>>, kinds: seq<Byte>, prior: seq<Byte>): seq<Byte>
    requires |kinds| == |rows| && Rectangular(rows, |prior|)
  {
    if rows == [] then []
    else [kinds[0]] + (FilterRow(kinds[0], rows[0], prior) + Encode(rows[1..], kinds[1..], rows[0]))
  }

  /** Bytes in `height` filtered rows. */
  function StreamLength(height: nat, stride: nat): nat {
    if height == 0 then 0 else (stride + 1) + StreamLength(height - 1, stride)
  }

  lemma {:induction false} StreamLengthExact(height: nat, stride: nat)
    ensures StreamLength(height, stride) == height * (stride + 1)
  {
    if height > 0 {
      StreamLengthExact(height - 1, stride);
      assert height * (stride + 1) == (stride + 1) + (height - 1) * (stride + 1);
    }
  }

  /** Rows reconstructed from a stream of `height` filtered rows; none if a filter is unsupported. */
  function Decode(stream: seq<Byte>, height: nat, prior: seq<Byte>): Option<seq<seq<Byte>>>
    requires |stream| == StreamLength(height, |prior|)
    decreases height
  {
    if height == 0 then Some([])
    else
      var stride := |prior|;
      if stride > 0 && !Supported(stream[0]) then None
      else
        var row := Unfilter(stream[0], stream[1..stride + 1], prior, stride);
        var rest := Decode(stream[stride + 1..], height - 1, row);
        if rest.None? then None else Some([row] + rest.value)
  }

  function Concat(rows: seq<seq<Byte>>): seq<Byte> {
    if rows == [] then [] else rows[0] + Concat(rows[1..])
  }

  lemma {:induction false} EncodeLength(rows: seq<seq<Byte>>, kinds: seq<Byte>, prior: seq<Byte>)
    requires |kinds| == |rows| && Rectangular(rows, |prior|)
    ensures |Encode(rows, kinds, prior)| == StreamLength(|rows|, |prior|)
  {
    if rows != [] {
      EncodeLength(rows[1..], kinds[1..], rows[0]);
    }
  }

  /** The filter byte of each row of a stream. */
  function Kinds(stream: seq<Byte>, height: nat, stride: nat): (kinds: seq<Byte>)
    requires |stream| == StreamLength(height, stride)
    ensures |kinds| == height
    decreases height
  {
    if height == 0 then []
    else
      [stream[0]] + Kinds(stream[stride + 1..], height - 1, stride)
  }

  /** How a stream of one more row decodes. */
  lemma DecodeCons(kind: Byte, f: seq<Byte>, rest: seq<Byte>, height: nat, prior: seq<Byte>)
    requires |f| == |prior| && |rest| == StreamLength(height, |prior|)
    ensures |[kind] + (f + rest)| == StreamLength(height + 1, |prior|)
    ensures Kinds([kind] + (f + rest), height + 1, |prior|) == [kind] + Kinds(rest, height, |prior|)
    ensures Decode([kind] + (f + rest), height + 1, prior) ==
            if |prior| > 0 && !Supported(kind) then None
            else
              var row := Unfilter(kind, f, prior, |prior|);
              var rows := Decode(rest, height, row);
              if rows.None? then None else Some([row] + rows.value)
  {
    var stream := [kind] + (f + rest);
    assert stream[1..|prior| + 1] == f && stream[|prior| + 1..] == rest;
  }

  /** Unfiltering undoes filtering for every image and every choice of filters 0 to 4 per row. */
  lemma {:induction false} DecodeEncode(rows: seq<seq<Byte>>, kinds: seq<Byte>, prior: seq<Byte>)
    requires |kinds| == |rows| && Rectangular(rows, |prior|)
    requires forall i :: 0 <= i < |kinds| ==> Supported(kinds[i])
    ensures |Encode(rows, kinds, prior)| == StreamLength(|rows|, |prior|)
    ensures Decode(Encode(rows, kinds, prior), |rows|, prior) == Some(rows)
  {
    EncodeLength(rows, kinds, prior);
    if rows != [] {
      DecodeEncode(rows[1..], kinds[1..], rows[0]);
      UnfilterFilter(kinds[0], rows[0], prior, |prior|);
      assert rows[0][..|prior|] == rows[0];
      DecodeCons(
        kinds[0], FilterRow(kinds[0], rows[0], prior), Encode(rows[1..], kinds[1..], rows[0]), |rows| - 1, prior);
      assert rows == [rows[0]] + rows[1..];
    }
  }

  predicate AllSupported(kinds: seq<Byte>) { forall i :: 0 <= i < |kinds| ==> Supported(kinds[i]) }

  lemma AllSupportedStep(kinds: seq<Byte>)
    requires kinds != []
    ensures AllSupported(kinds) <==> Supported(kinds[0]) && AllSupported(kinds[1..])
  {
    if AllSupported(kinds[1..]) {
      assert forall i :: 1 <= i < |kinds| ==> kinds[i] == kinds[1..][i - 1];
    }
  }

  /** A stream decodes exactly when its filters are supported, or its rows are empty. */
  lemma {:induction false} DecodeExact(stream: seq<Byte>, height: nat, prior: seq<Byte>)
    requires |stream| == StreamLength(height, |prior|)
    ensures Decode(stream, height, prior).Some? <==> |prior| == 0 || AllSupported(Kinds(stream, height, |prior|))
    decreases height
  {
    if height > 0 {
      var stride := |prior|;
      var row := Unfilter(stream[0], stream[1..stride + 1], prior, stride);
      var kinds := Kinds(stream, height, stride);
      DecodeExact(stream[stride + 1..], height - 1, row);
      assert kinds[1..] == Kinds(stream[stride + 1..], height - 1, stride);
      AllSupportedStep(kinds);
    }
  }

  lemma {:induction false} DecodeShape(stream: seq<Byte>, height: nat, prior: seq<Byte>)
    requires |stream| == StreamLength(height, |prior|) && Decode(stream, height, prior).Some?
    ensures var rows := Decode(stream, height, prior).value;
            |rows| == height && Rectangular(rows, |prior|)
    decreases height
  {
    if height > 0 {
      var row := Unfilter(stream[0], stream[1..|prior| + 1], prior, |prior|);
      DecodeShape(stream[|prior| + 1..], height - 1, row);
    }
  }

  /** What decodes also re-encodes to the very same stream. */
  lemma {:induction false} EncodeDecode(stream: seq<Byte>, height: nat, prior: seq<Byte>)
    requires |stream| == StreamLength(height, |prior|) && Decode(stream, height, prior).Some?
    ensures var rows := Decode(stream, height, prior).value;
            && |rows| == height && Rectangular(rows, |prior|)
            && Encode(rows, Kinds(stream, height, |prior|), prior) == stream
    decreases height
  {
    if height > 0 {
      var kind, f, rest := stream[0], stream[1..|prior| + 1], stream[|prior| + 1..];
      assert stream == [kind] + (f + rest);
      DecodeCons(kind, f, rest, height - 1, prior);
      EncodeDecode(rest, height - 1, Unfilter(kind, f, prior, |prior|));
      RowReencodes(kind, f, rest, height - 1, prior);
    }
  }

  lemma {:induction false} RowReencodes(kind: Byte, f: seq<Byte>, rest: seq<Byte>, height: nat, prior: seq<Byte>)
    requires |f| == |prior| && |rest| == StreamLength(height, |prior|)
    requires var rows := Decode(rest, height, Unfilter(kind, f, prior, |prior|));
             && rows.Some? && |rows.value| == height && Rectangular(rows.value, |prior|)
             && Encode(rows.value, Kinds(rest, height, |prior|), Unfilter(kind, f, prior, |prior|)) == rest
    ensures var row := Unfilter(kind, f, prior, |prior|);
            var rows := [row] + Decode(rest, height, row).value;
            && |rows| == height + 1 && Rectangular(rows, |prior|)
            && Encode(rows, [kind] + Kinds(rest, height, |prior|), prior) == [kind] + (f + rest)
  {
    var row := Unfilter(kind, f, prior, |prior|);
    FilterUnfilter(kind, f, prior);
    EncodeCons(kind, row, Decode(rest, height, row).value, Kinds(rest, height, |prior|), prior);
  }

  lemma {:induction false} EncodeCons(
      kind: Byte, row: seq<Byte>, rows: seq<seq<Byte>>, kinds: seq<Byte>, prior: seq<Byte>)
    requires |kinds| == |rows| && |row| == |prior| && Rectangular(rows, |prior|)
    ensures Rectangular([row] + rows, |prior|)
    ensures Encode([row] + rows, [kind] + kinds, prior)
            == [kind] + (FilterRow(kind, row, prior) + Encode(rows, kinds, row))
  {
    assert ([row] + rows)[1..] == rows && ([kind] + kinds)[1..] == kinds;
  }

  // --------------------------------------------------------------- in place

  method PickNearest(left: Byte, above: Byte, upperLeft: Byte) returns (p: Byte)
    ensures p == Paeth(left, above, upperLeft)
  {
    PaethAgrees(left, above, upperLeft);
    p := SourcePaeth(left, above, upperLeft);
  }

  method Predict(kind: Byte, left: Byte, above: Byte, upperLeft: Byte) returns (p: Byte)
    requires Supported(kind)
    ensures p == Predictor(kind, left, above, upperLeft)
  {
    p := 0;
    if kind == 1 {
      p := left;
    } else if kind == 2 {
      p := above;
    } else if kind == 3 {
      p := (left + above) / 2;
    } else if kind == 4 {
      p := PickNearest(left, above, upperLeft);
    }
  }

  /** The body of the inner loop: one byte, or failure for an unsupported filter. */
  method AddPrediction(kind: Byte, raw: Byte, left: Byte, above: Byte, upperLeft: Byte) returns (ok: bool, sum: Byte)
    ensures ok <==> Supported(kind)
    ensures ok ==> sum == (raw + Predictor(kind, left, above, upperLeft)) % 256
  {
    if kind > 4 {
      return false, raw;
    }
    var p := Predict(kind, left, above, upperLeft);
    return true, (raw + p) % 256;
  }

  /** The inner loop: rewrite one row in place; false if the filter is unsupported. */
  method UnfilterRow(row: array<Byte>, kind: Byte, prior: seq<Byte>) returns (ok: bool)
    requires row.Length == |prior|
    modifies row
    ensures ok <==> row.Length == 0 || Supported(kind)
    ensures ok ==> row[..] == Unfilter(kind, old(row[..]), prior, row.Length)
  {
    ghost var f := row[..];
    for x := 0 to row.Length
      invariant row[..x] == Unfilter(kind, f, prior, x)
      invariant forall k :: x <= k < row.Length ==> row[k] == f[k]
      invariant x > 0 ==> Supported(kind)
    {
      var left: Byte := if x >= 4 then row[x - 4] else 0;
      var above := prior[x];
      var upperLeft: Byte := if x >= 4 then prior[x - 4] else 0;
      assert left == At(row[..x], x - 4) && row[x] == f[x];
      ghost var done := row[..x];
      var sum: Byte;
      ok, sum := AddPrediction(kind, row[x], left, above, upperLeft);
      if !ok {
        return;
      }
      row[x] := sum;
      assert row[..x] == done;
      assert row[..x + 1] == done + [row[x]];
    }
    ok := true;
    assert row[..] == row[..row.Length];
  }

  method WriteRow(rgba: array<Byte>, base: nat, row: array<Byte>)
    requires base + row.Length <= rgba.Length && row != rgba
    modifies rgba
    ensures rgba[..base + row.Length] == old(rgba[..base]) + row[..]
  {
    for i := 0 to row.Length
      invariant rgba[..base + i] == old(rgba[..base]) + row[..i]
    {
      rgba[base + i] := row[i];
    }
  }

  datatype Decoded = Ok(rgba: seq<Byte>) | WrongLength | UnsupportedFilter

  /** Decoding `rest` would complete what has been written. */
  ghost predicate Progress(all: Option<seq<seq<Byte>>>, written: seq<Byte>, rest: Option<seq<seq<Byte>>>) {
    (rest.None? <==> all.None?) && (rest.Some? ==> written + Concat(rest.value) == Concat(all.value))
  }

  lemma ProgressStep(all: Option<seq<seq<Byte>>>, written: seq<Byte>, stream: seq<Byte>, height: nat, prior: seq<Byte>)
    requires height > 0 && |stream| == StreamLength(height, |prior|)
    requires Progress(all, written, Decode(stream, height, prior))
    ensures |stream| > |prior| && |stream[|prior| + 1..]| == StreamLength(height - 1, |prior|)
    ensures |prior| > 0 && !Supported(stream[0]) ==> all.None?
    ensures |prior| == 0 || Supported(stream[0]) ==>
              var row := Unfilter(stream[0], stream[1..|prior| + 1], prior, |prior|);
              Progress(all, written + row, Decode(stream[|prior| + 1..], height - 1, row))
  {
    if |prior| == 0 || Supported(stream[0]) {
      var row := Unfilter(stream[0], stream[1..|prior| + 1], prior, |prior|);
      var rest := Decode(stream[|prior| + 1..], height - 1, row);
      if rest.Some? {
        assert ([row] + rest.value)[1..] == rest.value;
        Assoc(written, row, Concat(rest.value));
      }
    }
  }

  /** Cut the next row out of the stream and unfilter it. */
  method NextRow(filtered: seq<Byte>, source: nat, prior: seq<Byte>) returns (ok: bool, row: array<Byte>)
    requires source + |prior| < |filtered|
    ensures fresh(row) && row.Length == |prior|
    ensures ok <==> |prior| == 0 || Supported(filtered[source])
    ensures ok ==> row[..] == Unfilter(filtered[source], filtered[source + 1..source + 1 + |prior|], prior, |prior|)
  {
    var kind, start := filtered[source], source + 1;
    row := new Byte[|prior|];
    for i := 0 to |prior|
      invariant forall k :: 0 <= k < i ==> row[k] == filtered[start + k]
    {
      row[i] := filtered[start + i];
    }
    assert row[..] == filtered[start..start + |prior|];
    ok := UnfilterRow(row, kind, prior);
  }

  /** Bytes in `height` unfiltered rows. */
  function Area(height: nat, stride: nat): nat {
    if height == 0 then 0 else stride + Area(height - 1, stride)
  }

  lemma {:induction false} AreaExact(height: nat, stride: nat)
    ensures Area(height, stride) == height * stride
  {
    if height > 0 {
      AreaExact(height - 1, stride);
      assert height * stride == stride + (height - 1) * stride;
    }
  }

  /** One turn of the outer loop: the next row goes to `rgba[base..]` and becomes the prior row. */
  method DecodeRow(filtered: seq<Byte>, source: nat, stride: nat, rgba: array<Byte>, base: nat, prior: seq<Byte>,
                   ghost left: nat, ghost all: Option<seq<seq<Byte>>>) returns (ok: bool, written: seq<Byte>)
    requires source <= |filtered| && base + stride <= rgba.Length && |prior| == stride
    requires left > 0 && |filtered[source..]| == StreamLength(left, stride)
    requires Progress(all, rgba[..base], Decode(filtered[source..], left, prior))
    modifies rgba
    ensures !ok ==> all.None?
    ensures ok ==> source + 1 + stride <= |filtered| && |written| == stride
    ensures ok ==> |filtered[source + 1 + stride..]| == StreamLength(left - 1, stride)
    ensures ok ==> written == rgba[base..base + stride]
    ensures ok ==> Progress(all, rgba[..base + stride], Decode(filtered[source + 1 + stride..], left - 1, written))
  {
    ghost var stream := filtered[source..];
    written := [];
    ProgressStep(all, rgba[..base], stream, left, prior);
    var row: array<Byte>;
    ok, row := NextRow(filtered, source, prior);
    assert stream[1..stride + 1] == filtered[source + 1..source + 1 + stride];
    if ok {
      assert filtered[source + 1 + stride..] == stream[stride + 1..];
      WriteRow(rgba, base, row);
      written := rgba[base..base + stride];
      assert written == rgba[..base + stride][base..] == row[..];
    }
  }

  /** The outer loop, filling a buffer of exactly the image's size. */
  method DecodeImage(filtered: seq<Byte>, stride: nat, height: nat, rgba: array<Byte>) returns (ok: bool)
    requires |filtered| == StreamLength(height, stride) && rgba.Length == Area(height, stride)
    modifies rgba
    ensures ok <==> Decode(filtered, height, Zeros(stride)).Some?
    ensures ok ==> rgba[..] == Concat(Decode(filtered, height, Zeros(stride)).value)
  {
    var source, base, y := 0, 0, 0;
    ghost var all, left := Decode(filtered, height, Zeros(stride)), height;
    var prior := Zeros(stride);
    Starting(filtered, height, prior);
    assert rgba[..0] == [];
    while y < height
      invariant 0 <= y <= height && left == height - y && |prior| == stride
      invariant 0 <= base && base + Area(left, stride) == rgba.Length
      invariant 0 <= source <= |filtered| && |filtered[source..]| == StreamLength(left, stride)
      invariant Progress(all, rgba[..base], Decode(filtered[source..], left, prior))
    {
      ok, prior := DecodeRow(filtered, source, stride, rgba, base, prior, left, all);
      if !ok {
        return;
      }
      source, base, y, left := source + 1 + stride, base + stride, y + 1, left - 1;
    }
    ok := true;
    Finished(all, rgba[..base], filtered[source..], prior);
    assert rgba[..] == rgba[..base];
  }

  lemma {:induction false} Starting(filtered: seq<Byte>, height: nat, prior: seq<Byte>)
    requires |filtered| == StreamLength(height, |prior|)
    ensures filtered[0..] == filtered
    ensures var all := Decode(filtered, height, prior); Progress(all, [], Decode(filtered[0..], height, prior))
  {
    assert filtered[0..] == filtered;
  }

  lemma {:induction false} Finished(
      all: Option<seq<seq<Byte>>>, written: seq<Byte>, stream: seq<Byte>, prior: seq<Byte>)
    requires |stream| == StreamLength(0, |prior|) && Progress(all, written, Decode(stream, 0, prior))
    ensures all.Some? && written == Concat(all.value)
  {
  }

  /** `decode_rgba` from the decompressed bytes on. */
  method DecodeRgba(filtered: seq<Byte>, width: nat, height: nat) returns (r: Decoded)
    ensures r.WrongLength? <==> |filtered| != height * (width * 4 + 1)
    ensures !r.WrongLength? ==>
              |filtered| == StreamLength(height, width * 4) &&
              var rows := Decode(filtered, height, Zeros(width * 4));
              r == if rows.None? then UnsupportedFilter else Ok(Concat(rows.value))
  {
    var stride := width * 4;
    if |filtered| != height * (stride + 1) {
      return WrongLength;
    }
    StreamLengthExact(height, stride);
    AreaExact(height, stride);
    var rgba := new Byte[height * stride];
    var ok := DecodeImage(filtered, stride, height, rgba);
    r := if ok then Ok(rgba[..]) else UnsupportedFilter;
  }

  /** End to end: decoding what a PNG writer produces gives the image back. */
  lemma {:induction false} ImageRoundTrip(rows: seq<seq<Byte>>, kinds: seq<Byte>, width: nat)
    requires |kinds| == |rows|
    requires Rectangular(rows, width * 4)
    requires AllSupported(kinds)
    ensures var stream := Encode(rows, kinds, Zeros(width * 4));
            && |stream| == StreamLength(|rows|, width * 4) == |rows| * (width * 4 + 1)
            && Decode(stream, |rows|, Zeros(width * 4)) == Some(rows)
  {
    DecodeEncode(rows, kinds, Zeros(width * 4));
    StreamLengthExact(|rows|, width * 4);
  }
}
