/** Decoding an 8-bit PNG: the chunk walk, and scanline reconstruction in place. */
module Png {
  import opened Bytes
  import opened Contracts
  import opened Multiples

  // Scanline filters, RFC 2083 section 6.

  function Abs(x: int): nat {
    if x < 0 then -x else x
  }

  /** Whichever of the three neighbours is nearest their linear estimate; section 6.6. */
  function Paeth(left: Byte, up: Byte, upperLeft: Byte): Byte {
    var estimate := left + up - upperLeft;
    var pa, pb, pc := Abs(estimate - left), Abs(estimate - up), Abs(estimate - upperLeft);
    if pa <= pb && pa <= pc then left else if pb <= pc then up else upperLeft
  }

  /** The Paeth predictor is nearest the estimate, and ties go to left, then up, then upper left. */
  lemma PaethNearest(left: Byte, up: Byte, upperLeft: Byte)
    ensures var p, estimate := Paeth(left, up, upperLeft), left + up - upperLeft;
      && Abs(estimate - p) <= Abs(estimate - left) && Abs(estimate - p) <= Abs(estimate - up)
      && Abs(estimate - p) <= Abs(estimate - upperLeft)
      && (Abs(estimate - p) == Abs(estimate - left) ==> p == left)
      && (Abs(estimate - p) == Abs(estimate - up) && p != left ==> p == up)
  {
  }

  /** The low eight bits. */
  function Wrap(x: int): Byte {
    x % 256
  }

  /** What a filter type predicts for one byte; type 0 and unknown types predict nothing. */
  function Predict(filter: Byte, left: Byte, up: Byte, upperLeft: Byte): int {
    if filter == 1 then left
    else if filter == 2 then up
    else if filter == 3 then (left + up) / 2
    else if filter == 4 then Paeth(left, up, upperLeft)
    else 0
  }

  function ByteAt(row: seq<Byte>, i: int): Byte
    requires i < |row|
  {
    if i < 0 then 0 else row[i]
  }

  /** What byte `i` of a row is predicted from: its own row so far and the row above. */
  function PredictAt(filter: Byte, channels: nat, row: seq<Byte>, above: seq<Byte>, i: nat): int
    requires channels > 0 && i <= |row| && i < |above|
  {
    Predict(filter, ByteAt(row, i - channels), above[i], ByteAt(above, i - channels))
  }

  /** Filter a row: subtract the prediction made from the unfiltered bytes. */
  function FilterRow(filter: Byte, channels: nat, row: seq<Byte>, above: seq<Byte>): (filtered: seq<Byte>)
    requires channels > 0 && |row| == |above|
    ensures |filtered| == |row|
  {
    seq(|row|, i requires 0 <= i < |row| => Wrap(row[i] - PredictAt(filter, channels, row, above, i)))
  }

  /** Reconstruct the first `n` bytes of a row: add the prediction made from the reconstructed bytes. */
  function Restore(filter: Byte, channels: nat, filtered: seq<Byte>, above: seq<Byte>, n: nat): (row: seq<Byte>)
    requires channels > 0 && n <= |filtered| <= |above|
    ensures |row| == n
  {
    if n == 0 then []
    else
      var front := Restore(filter, channels, filtered, above, n - 1);
      front + [Wrap(filtered[n - 1] + PredictAt(filter, channels, front, above, n - 1))]
  }

  function RestoreRow(filter: Byte, channels: nat, filtered: seq<Byte>, above: seq<Byte>): (row: seq<Byte>)
    requires channels > 0 && |filtered| <= |above|
    ensures |row| == |filtered|
  {
    Restore(filter, channels, filtered, above, |filtered|)
  }

  lemma WrapShifts(x: Byte, k: int)
    ensures Wrap(x - 256 * k) == x
  {
  }

  lemma AddBack(x: Byte, p: int)
    ensures Wrap(Wrap(x - p) + p) == x && Wrap(Wrap(x + p) - p) == x
  {
    WrapShifts(x, (x - p) / 256);
    WrapShifts(x, -((x + p) / 256));
  }

  lemma {:induction false} RestoreUndoesFilter(filter: Byte, channels: nat, row: seq<Byte>, above: seq<Byte>, n: nat)
    requires channels > 0 && |row| == |above| && n <= |row|
    ensures Restore(filter, channels, FilterRow(filter, channels, row, above), above, n) == row[..n]
  {
    if n > 0 {
      RestoreUndoesFilter(filter, channels, row, above, n - 1);
      hide Predict;
      assert row[..n - 1][..n - 1] == row[..n - 1];
      assert PredictAt(filter, channels, row[..n - 1], above, n - 1) == PredictAt(filter, channels, row, above, n - 1);
      AddBack(row[n - 1], PredictAt(filter, channels, row, above, n - 1));
      assert row[..n] == row[..n - 1] + [row[n - 1]];
    }
  }

  /** Reconstructing a filtered row gives the row back, for every filter type. */
  lemma FilterRoundTrip(filter: Byte, channels: nat, row: seq<Byte>, above: seq<Byte>)
    requires channels > 0 && |row| == |above|
    ensures RestoreRow(filter, channels, FilterRow(filter, channels, row, above), above) == row
  {
    RestoreUndoesFilter(filter, channels, row, above, |row|);
    assert row[..|row|] == row;
  }

  lemma {:induction false} RestorePrefix(filter: Byte, channels: nat, filtered: seq<Byte>, above: seq<Byte>, i: nat,
                                         n: nat)
    requires channels > 0 && i < n <= |filtered| <= |above|
    ensures Restore(filter, channels, filtered, above, n)[..i] == Restore(filter, channels, filtered, above, i)
    ensures Restore(filter, channels, filtered, above, n)[i]
         == Wrap(filtered[i] + PredictAt(filter, channels, Restore(filter, channels, filtered, above, i), above, i))
  {
    hide Predict;
    if i < n - 1 {
      RestorePrefix(filter, channels, filtered, above, i, n - 1);
    }
  }

  /** Filtering a reconstructed row gives the filtered row back: the two are inverse bijections. */
  lemma RestoreRoundTrip(filter: Byte, channels: nat, filtered: seq<Byte>, above: seq<Byte>)
    requires channels > 0 && |filtered| == |above|
    ensures FilterRow(filter, channels, RestoreRow(filter, channels, filtered, above), above) == filtered
  {
    hide Predict, Restore;
    var row := RestoreRow(filter, channels, filtered, above);
    forall i | 0 <= i < |row| ensures FilterRow(filter, channels, row, above)[i] == filtered[i] {
      RestorePrefix(filter, channels, filtered, above, i, |row|);
      var p := PredictAt(filter, channels, row[..i], above, i);
      assert p == PredictAt(filter, channels, row, above, i);
      AddBack(filtered[i], p);
    }
  }

  /** Types that leave a line as it is. */
  predicate LeavesAlone(filter: Byte) {
    filter == 0 || filter > 4
  }

  lemma {:induction false} AloneIsSame(filter: Byte, channels: nat, filtered: seq<Byte>, above: seq<Byte>, n: nat)
    requires channels > 0 && n <= |filtered| <= |above| && LeavesAlone(filter)
    ensures Restore(filter, channels, filtered, above, n) == filtered[..n]
  {
    if n > 0 {
      AloneIsSame(filter, channels, filtered, above, n - 1);
    }
  }

  /** The loop reads or writes past a short line, unless nothing is written and few bytes are missing. */
  predicate RowReadable(filter: Byte, channels: nat, length: nat, stride: nat) {
    length >= stride || (LeavesAlone(filter) && length + channels >= stride)
  }

  /** Reverse one scanline's filter in place; false where indexing past a short line raises. */
  method UnfilterLine(line: array<Byte>, above: array<Byte>, filter: Byte, channels: nat, stride: nat)
    returns (ok: bool)
    requires channels > 0 && line.Length <= stride == above.Length && line != above
    modifies line
    ensures ok <==> RowReadable(filter, channels, line.Length, stride)
    ensures ok ==> line[..] == RestoreRow(filter, channels, old(line[..]), above[..])
  {
    hide Restore, RestoreRow, Paeth, Predict, PredictAt, InPlace, Wrap;
    ghost var filtered, over, n := line[..], above[..], line.Length;
    ghost var now := filtered;
    RestoreNothing(filter, channels, filtered, over);
    for index := 0 to stride
      invariant above[..] == over && line[..] == now && |now| == n
      invariant index > n ==> LeavesAlone(filter) && index <= n + channels
      invariant InPlace(filter, channels, filtered, over, now, Least(index, n))
    {
      if index >= channels && index - channels >= line.Length {
        return false;
      }
      var left := if index >= channels then line[index - channels] else 0;
      var up := above[index];
      var upperLeft := if index >= channels then above[index - channels] else 0;
      if 1 <= filter <= 4 {
        if index >= line.Length {
          return false;
        }
        var prediction := Predict(filter, left, up, upperLeft);
        RestoredByte(filter, channels, filtered, over, now, index, prediction);
        now := now[index := Wrap(now[index] + prediction)];
        line[index] := Wrap(line[index] + prediction);
      } else if index < n {
        PredictsNothing(filter, left, up, upperLeft);
        KeptByte(filter, channels, filtered, over, now, index);
      }
    }
    RestoredAll(filter, channels, filtered, over, now);
    return true;
  }

  /** The first `k` bytes of a line are reconstructed, the rest still filtered. */
  ghost predicate InPlace(filter: Byte, channels: nat, filtered: seq<Byte>, above: seq<Byte>, line: seq<Byte>, k: nat)
    requires channels > 0 && k <= |filtered| <= |above|
  {
    line == Restore(filter, channels, filtered, above, k) + filtered[k..]
  }

  lemma RestoredAll(filter: Byte, channels: nat, filtered: seq<Byte>, above: seq<Byte>, line: seq<Byte>)
    requires channels > 0 && |filtered| <= |above|
    requires InPlace(filter, channels, filtered, above, line, |filtered|)
    ensures line == RestoreRow(filter, channels, filtered, above)
  {
  }

  lemma PredictsNothing(filter: Byte, left: Byte, up: Byte, upperLeft: Byte)
    requires LeavesAlone(filter)
    ensures Predict(filter, left, up, upperLeft) == 0
  {
  }

  lemma RestoreNothing(filter: Byte, channels: nat, filtered: seq<Byte>, above: seq<Byte>)
    requires channels > 0 && |filtered| <= |above|
    ensures InPlace(filter, channels, filtered, above, filtered, 0)
  {
  }

  /** One in-place step extends the reconstructed part by one byte. */
  lemma RestoredByte(filter: Byte, channels: nat, filtered: seq<Byte>, above: seq<Byte>, line: seq<Byte>, i: nat,
                     p: int)
    requires channels > 0 && i < |filtered| == |line| && |filtered| <= |above|
    requires InPlace(filter, channels, filtered, above, line, i)
    requires p == Predict(filter, ByteAt(line, i - channels), above[i], ByteAt(above, i - channels))
    ensures line[i] == filtered[i]
    ensures InPlace(filter, channels, filtered, above, line[i := Wrap(line[i] + p)], i + 1)
  {
    hide Predict;
    assert ByteAt(line, i - channels) == ByteAt(Restore(filter, channels, filtered, above, i), i - channels);
  }

  lemma KeptByte(filter: Byte, channels: nat, filtered: seq<Byte>, above: seq<Byte>, line: seq<Byte>, i: nat)
    requires channels > 0 && i < |filtered| == |line| && |filtered| <= |above|
    requires InPlace(filter, channels, filtered, above, line, i)
    requires Predict(filter, ByteAt(line, i - channels), above[i], ByteAt(above, i - channels)) == 0
    ensures InPlace(filter, channels, filtered, above, line, i + 1)
  {
    hide Predict, InPlace;
    RestoredByte(filter, channels, filtered, above, line, i, 0);
    assert line[i := Wrap(line[i] + 0)] == line;
  }

  // Rows.

  function Zeros(n: nat): seq<Byte> {
    seq(n, _ => 0)
  }

  /** The filtered line at `position`, cut short where the stream ends. */
  function LineAt(raw: seq<Byte>, position: nat, stride: nat): (line: seq<Byte>)
    requires position < |raw|
    ensures |line| == Least(stride, |raw| - position - 1)
  {
    raw[position + 1..Least(position + 1 + stride, |raw|)]
  }

  /** The pixels of `count` rows from `position`, or `None` where indexing raises. */
  function Rows(raw: seq<Byte>, position: nat, count: nat, stride: nat, channels: nat, above: seq<Byte>)
    : Option<seq<Byte>>
    requires channels > 0 && (|above| == stride || position >= |raw|)
    decreases count
  {
    if count == 0 then Some([])
    else if position >= |raw| then None
    else
      var filter, filtered := raw[position], LineAt(raw, position, stride);
      if !RowReadable(filter, channels, |filtered|, stride) then None
      else
        var line := RestoreRow(filter, channels, filtered, above);
        Before(line, Rows(raw, position + 1 + stride, count - 1, stride, channels, line))
  }

  function Before(line: seq<Byte>, rest: Option<seq<Byte>>): Option<seq<Byte>> {
    if rest.None? then None else Some(line + rest.value)
  }

  lemma RowsStep(raw: seq<Byte>, position: nat, count: nat, stride: nat, channels: nat, above: seq<Byte>)
    requires channels > 0 && (|above| == stride || position >= |raw|) && count > 0
    ensures position >= |raw| ==> Rows(raw, position, count, stride, channels, above).None?
    ensures position < |raw| && !RowReadable(raw[position], channels, |LineAt(raw, position, stride)|, stride) ==>
      Rows(raw, position, count, stride, channels, above).None?
    ensures position < |raw| && RowReadable(raw[position], channels, |LineAt(raw, position, stride)|, stride) ==>
      var line := RestoreRow(raw[position], channels, LineAt(raw, position, stride), above);
      Rows(raw, position, count, stride, channels, above)
        == Before(line, Rows(raw, position + 1 + stride, count - 1, stride, channels, line))
  {
  }

  lemma BeforeJoins(pixels: seq<Byte>, line: seq<Byte>, rest: Option<seq<Byte>>)
    ensures Before(pixels, Before(line, rest)) == Before(pixels + line, rest)
  {
    if rest.Some? {
      assert pixels + (line + rest.value) == (pixels + line) + rest.value;
    }
  }

  method DecodeRows(raw: seq<Byte>, height: nat, stride: nat, channels: nat) returns (r: Option<seq<Byte>>)
    requires channels > 0
    ensures r == Rows(raw, 0, height, stride, channels, Zeros(stride))
  {
    hide Rows, RestoreRow, RowReadable, LeavesAlone;
    var pixels: seq<Byte> := [];
    var previous := new Byte[stride](_ => 0);
    var position := 0;
    assert previous[..] == Zeros(stride);
    RowsWhole(raw, height, stride, channels);
    for k := 0 to height
      invariant previous.Length == stride || position >= |raw|
      invariant Before(pixels, Rows(raw, position, height - k, stride, channels, previous[..]))
             == Rows(raw, 0, height, stride, channels, Zeros(stride))
    {
      RowsStep(raw, position, height - k, stride, channels, previous[..]);
      if position >= |raw| {
        return None;
      }
      var filter := raw[position];
      var bytes := LineAt(raw, position, stride);
      var line := new Byte[|bytes|](i requires 0 <= i < |bytes| => bytes[i]);
      assert line[..] == bytes;
      ghost var over := previous[..];
      var ok := UnfilterLine(line, previous, filter, channels, stride);
      if !ok {
        return None;
      }
      BeforeJoins(pixels, line[..], Rows(raw, position + 1 + stride, height - k - 1, stride, channels, line[..]));
      position := position + 1 + stride;
      pixels := pixels + line[..];
      previous := line;
    }
    RowsNone(raw, position, stride, channels, previous[..]);
    assert pixels + [] == pixels;
    r := Some(pixels);
  }

  lemma RowsWhole(raw: seq<Byte>, height: nat, stride: nat, channels: nat)
    requires channels > 0
    ensures var all := Rows(raw, 0, height, stride, channels, Zeros(stride)); Before([], all) == all
  {
    hide Rows;
    var all := Rows(raw, 0, height, stride, channels, Zeros(stride));
    if all.Some? {
      assert [] + all.value == all.value;
    }
  }

  lemma RowsNone(raw: seq<Byte>, position: nat, stride: nat, channels: nat, above: seq<Byte>)
    requires channels > 0 && (|above| == stride || position >= |raw|)
    ensures Rows(raw, position, 0, stride, channels, above) == Some([])
  {
  }

  /** The filtered form of some rows, each with its own filter type. */
  function FilterRows(filters: seq<Byte>, rows: seq<seq<Byte>>, channels: nat, above: seq<Byte>): seq<Byte>
    requires channels > 0 && |filters| == |rows| && forall k :: 0 <= k < |rows| ==> |rows[k]| == |above|
  {
    if |rows| == 0 then []
    else [filters[0]] + FilterRow(filters[0], channels, rows[0], above)
         + FilterRows(filters[1..], rows[1..], channels, rows[0])
  }

  lemma LineLies(raw: seq<Byte>, position: nat, filter: Byte, filtered: seq<Byte>, rest: seq<Byte>)
    requires position <= |raw| && raw[position..] == [filter] + filtered + rest
    ensures position + 1 + |filtered| <= |raw| && raw[position] == filter
    ensures LineAt(raw, position, |filtered|) == filtered
    ensures raw[position + 1 + |filtered|..] == rest
  {
    var view, n := raw[position..], |filtered|;
    assert raw[position..|raw|] == view;
    assert view[0] == filter && view[1..1 + n] == filtered && view[1 + n..|view|] == rest;
    Within(raw, position, |raw|, 1, 1 + n);
    Within(raw, position, |raw|, 1 + n, |view|);
  }

  /** Reconstruction returns the original rows, whatever filter each row was written with. */
  lemma {:induction false} RowsRoundTrip(raw: seq<Byte>, position: nat, filters: seq<Byte>, rows: seq<seq<Byte>>,
                                         channels: nat, above: seq<Byte>, tail: seq<Byte>)
    requires channels > 0 && |filters| == |rows| && forall k :: 0 <= k < |rows| ==> |rows[k]| == |above|
    requires position <= |raw| && raw[position..] == FilterRows(filters, rows, channels, above) + tail
    ensures Rows(raw, position, |rows|, |above|, channels, above) == Some(Concat(rows))
    decreases |rows|
  {
    hide FilterRow, RestoreRow, Rows, LeavesAlone;
    if |rows| == 0 {
      RowsNone(raw, position, |above|, channels, above);
    } else {
      var filter, stride := filters[0], |above|;
      var filtered := FilterRow(filter, channels, rows[0], above);
      var rest := FilterRows(filters[1..], rows[1..], channels, rows[0]);
      assert raw[position..] == [filter] + filtered + (rest + tail);
      LineLies(raw, position, filter, filtered, rest + tail);
      FilterRoundTrip(filter, channels, rows[0], above);
      RowsStep(raw, position, |rows|, stride, channels, above);
      RowsRoundTrip(raw, position + 1 + stride, filters[1..], rows[1..], channels, rows[0], tail);
    }
  }

  /**
   How much of the stream must be there: every row in full, except that a last row which its filter
   leaves alone may lack up to `channels` bytes.
   */
  predicate EnoughRaw(raw: seq<Byte>, position: nat, count: nat, stride: nat, channels: nat) {
    var need := position + count * (1 + stride);
    count == 0 || need <= |raw|
    || (need - 1 - stride < |raw| && need <= |raw| + channels && LeavesAlone(raw[need - 1 - stride]))
  }

  /** Decoding the rows raises exactly when the stream is too short in that sense. */
  lemma {:induction false} RowsReadIff(raw: seq<Byte>, position: nat, count: nat, stride: nat, channels: nat,
                                       above: seq<Byte>)
    requires 0 < channels <= stride && (|above| == stride || position >= |raw|)
    ensures Rows(raw, position, count, stride, channels, above).Some?
      <==> EnoughRaw(raw, position, count, stride, channels)
    decreases count
  {
    hide RestoreRow, Rows, RowReadable, EnoughRaw;
    if count == 0 {
      RowsNone(raw, position, stride, channels, above);
      assert EnoughRaw(raw, position, 0, stride, channels) by { EnoughNone(raw, position, stride, channels); }
    } else {
      RowsStep(raw, position, count, stride, channels, above);
      EnoughStep(raw, position, count, stride, channels);
      if position < |raw| && RowReadable(raw[position], channels, |LineAt(raw, position, stride)|, stride) {
        var line := RestoreRow(raw[position], channels, LineAt(raw, position, stride), above);
        RowsReadIff(raw, position + 1 + stride, count - 1, stride, channels, line);
      }
    }
  }

  /** A second row of which only an unfiltered type byte is left decodes to nothing; a filtered one raises. */
  lemma ShortRowInput()
    ensures Rows([0, 10, 20, 30, 0], 0, 2, 3, 3, Zeros(3)) == Some([10, 20, 30])
    ensures Rows([0, 10, 20, 30, 1], 0, 2, 3, 3, Zeros(3)).None?
  {
    ShortRow(0);
    ShortRow(1);
  }

  lemma ShortRow(filter: Byte)
    requires filter <= 1
    ensures Rows([0, 10, 20, 30, filter], 0, 2, 3, 3, Zeros(3)) == if filter == 0 then Some([10, 20, 30]) else None
  {
    var raw := [0, 10, 20, 30, filter];
    RowsStep(raw, 0, 2, 3, 3, Zeros(3));
    assert LineAt(raw, 0, 3) == [10, 20, 30];
    AloneIsSame(0, 3, [10, 20, 30], Zeros(3), 3);
    assert RestoreRow(0, 3, [10, 20, 30], Zeros(3)) == [10, 20, 30];
    RowsStep(raw, 4, 1, 3, 3, [10, 20, 30]);
    assert LineAt(raw, 4, 3) == [];
    if filter == 0 {
      assert RestoreRow(0, 3, [], [10, 20, 30]) == [];
      RowsNone(raw, 8, 3, 3, []);
      assert [10, 20, 30] + ([] + []) == [10, 20, 30];
    }
  }

  lemma EnoughNone(raw: seq<Byte>, position: nat, stride: nat, channels: nat)
    ensures EnoughRaw(raw, position, 0, stride, channels)
  {
  }

  lemma EnoughStep(raw: seq<Byte>, position: nat, count: nat, stride: nat, channels: nat)
    requires 0 < channels <= stride && count > 0
    ensures EnoughRaw(raw, position, count, stride, channels) <==>
      && position < |raw| && RowReadable(raw[position], channels, |LineAt(raw, position, stride)|, stride)
      && EnoughRaw(raw, position + 1 + stride, count - 1, stride, channels)
  {
    hide LeavesAlone;
    RowCount(count, stride);
    if count > 1 {
      RowCount(count - 1, stride);
    }
  }

  lemma RowCount(count: nat, stride: nat)
    requires count > 0
    ensures count * (1 + stride) == (count - 1) * (1 + stride) + 1 + stride
    ensures (count - 1) * (1 + stride) >= 0
  {
  }

  // Files.

  const SIGNATURE: seq<Byte> := [0x89, 0x50, 0x4e, 0x47, 0x0d, 0x0a, 0x1a, 0x0a]
  const IHDR: seq<Byte> := [0x49, 0x48, 0x44, 0x52]
  const IDAT: seq<Byte> := [0x49, 0x44, 0x41, 0x54]
  const IEND: seq<Byte> := [0x49, 0x45, 0x4e, 0x44]

  datatype Header = Header(width: nat, height: nat, bitDepth: nat, colorType: nat, interlace: nat)
  {
    /** Bytes per pixel of the two colour types that are decoded. */
    function Channels(): nat {
      if colorType == 2 then 3 else if colorType == 6 then 4 else 0
    }

    predicate Supported() {
      Channels() > 0 && bitDepth == 8 && interlace == 0 && width > 0 && height > 0
    }
  }

  const NO_HEADER := Header(0, 0, 0, 0, 0)

  /** The fields of a thirteen-byte `IHDR` body. */
  function ReadHeader(body: seq<Byte>): Header
    requires |body| == 13
  {
    Header(Big(body[0..4]), Big(body[4..8]), body[8], body[9], body[12])
  }

  datatype Scan = Scan(header: Header, idat: seq<Byte>)

  /** The chunk walk from `offset`; `None` where unpacking an `IHDR` of the wrong size raises. */
  function ScanFrom(data: seq<Byte>, offset: nat, scan: Scan): Option<Scan>
    decreases |data| - offset
  {
    if offset + 8 > |data| then Some(scan)
    else
      var length, kind := Big(data[offset..offset + 4]), data[offset + 4..offset + 8];
      var body := data[offset + 8..Least(offset + 8 + length, |data|)];
      if kind == IHDR then
        if |body| != 13 then None else ScanFrom(data, offset + 12 + length, scan.(header := ReadHeader(body)))
      else if kind == IDAT then ScanFrom(data, offset + 12 + length, scan.(idat := scan.idat + body))
      else if kind == IEND then Some(scan)
      else ScanFrom(data, offset + 12 + length, scan)
  }

  datatype PngError = HeaderSize | BadStream | StreamTooShort

  datatype Decoded =
    | Unsupported
    | Raises(error: PngError)
    | Pixels(width: nat, height: nat, channels: nat, bytes: seq<Byte>)

  /** Decompression; `None` where the library raises. */
  type Inflate = seq<Byte> -> Option<seq<Byte>>

  function DecodeScan(scan: Scan, inflate: Inflate): Decoded {
    var header := scan.header;
    if !header.Supported() then Unsupported
    else
      var raw := inflate(scan.idat);
      if raw.None? then Raises(BadStream)
      else
        var stride := header.width * header.Channels();
        var pixels := Rows(raw.value, 0, header.height, stride, header.Channels(), Zeros(stride));
        if pixels.None? then Raises(StreamTooShort)
        else Pixels(header.width, header.height, header.Channels(), pixels.value)
  }

  function Decode(data: seq<Byte>, inflate: Inflate): Decoded {
    if !(SIGNATURE <= data) then Unsupported
    else
      var scan := ScanFrom(data, 8, Scan(NO_HEADER, []));
      if scan.None? then Raises(HeaderSize) else DecodeScan(scan.value, inflate)
  }

  method PngPixels(data: seq<Byte>, inflate: Inflate) returns (r: Decoded)
    ensures r == Decode(data, inflate)
  {
    hide Rows, ReadHeader;
    if !(SIGNATURE <= data) {
      return Unsupported;
    }
    var offset := 8;
    var scan := Scan(NO_HEADER, []);
    var done := false;
    while offset + 8 <= |data| && !done
      invariant done ==> Some(scan) == ScanFrom(data, 8, Scan(NO_HEADER, []))
      invariant !done ==> ScanFrom(data, offset, scan) == ScanFrom(data, 8, Scan(NO_HEADER, []))
      decreases |data| - offset, !done
    {
      var length, kind := Big(data[offset..offset + 4]), data[offset + 4..offset + 8];
      var body := data[offset + 8..Least(offset + 8 + length, |data|)];
      if kind == IHDR {
        if |body| != 13 {
          return Raises(HeaderSize);
        }
        scan := scan.(header := ReadHeader(body));
      } else if kind == IDAT {
        scan := scan.(idat := scan.idat + body);
      } else if kind == IEND {
        done := true;
      }
      if !done {
        offset := offset + 12 + length;
      }
    }
    var header := scan.header;
    if !header.Supported() {
      return Unsupported;
    }
    var raw := inflate(scan.idat);
    if raw.None? {
      return Raises(BadStream);
    }
    var pixels := DecodeRows(raw.value, header.height, header.width * header.Channels(), header.Channels());
    if pixels.None? {
      return Raises(StreamTooShort);
    }
    return Pixels(header.width, header.height, header.Channels(), pixels.value);
  }

  /** A chunk as it lies in a file; its checksum is not looked at. */
  datatype PngChunk = PngChunk(kind: seq<Byte>, body: seq<Byte>, checksum: seq<Byte>)
  {
    predicate Valid() {
      |kind| == 4 && |body| < 0x1_0000_0000 && |checksum| == 4 && (kind == IHDR ==> |body| == 13)
    }

    function Render(): seq<Byte> {
      PackBig(|body|, 4) + kind + body + checksum
    }
  }

  function RenderAll(chunks: seq<PngChunk>): seq<Byte> {
    if |chunks| == 0 then [] else chunks[0].Render() + RenderAll(chunks[1..])
  }

  /** Chunks that may stand ahead of the end of a file. */
  predicate Inner(chunks: seq<PngChunk>) {
    forall i :: 0 <= i < |chunks| ==> chunks[i].Valid() && chunks[i].kind != IEND
  }

  function Take(scan: Scan, c: PngChunk): Scan
    requires c.Valid()
  {
    if c.kind == IHDR then scan.(header := ReadHeader(c.body))
    else if c.kind == IDAT then scan.(idat := scan.idat + c.body)
    else scan
  }

  /** What the chunks of a file amount to: the last header, and all image data joined. */
  function TakeAll(scan: Scan, chunks: seq<PngChunk>): Scan
    requires Inner(chunks)
    decreases |chunks|
  {
    if |chunks| == 0 then scan else TakeAll(Take(scan, chunks[0]), chunks[1..])
  }

  /** Where the parts of a rendered chunk lie. */
  lemma ChunkParts(data: seq<Byte>, offset: nat, c: PngChunk, rest: seq<Byte>)
    requires c.Valid() && offset <= |data| && data[offset..] == c.Render() + rest
    ensures offset + 12 + |c.body| <= |data| && data[offset + 12 + |c.body|..] == rest
    ensures Big(data[offset..offset + 4]) == |c.body| && data[offset + 4..offset + 8] == c.kind
    ensures data[offset + 8..offset + 8 + |c.body|] == c.body
  {
    hide Big, PackBig;
    Pow2And4();
    BigOfPack(|c.body|, 4);
    var view, n := c.Render() + rest, |c.body|;
    assert data[offset..|data|] == view;
    assert view[0..4] == PackBig(n, 4);
    assert view[4..8] == c.kind;
    assert view[8..8 + n] == c.body;
    assert view[12 + n..|view|] == rest;
    Within(data, offset, |data|, 0, 4);
    Within(data, offset, |data|, 4, 8);
    Within(data, offset, |data|, 8, 8 + n);
    Within(data, offset, |data|, 12 + n, |view|);
  }

  /** One step of the walk, once the chunk's parts are known. */
  lemma ScanChunk(data: seq<Byte>, offset: nat, scan: Scan, c: PngChunk)
    requires c.Valid() && offset + 8 <= |data|
    requires Big(data[offset..offset + 4]) == |c.body| && data[offset + 4..offset + 8] == c.kind
    requires data[offset + 8..Least(offset + 8 + |c.body|, |data|)] == c.body
    ensures c.kind == IEND ==> ScanFrom(data, offset, scan) == Some(scan)
    ensures c.kind != IEND ==> ScanFrom(data, offset, scan) == ScanFrom(data, offset + 12 + |c.body|, Take(scan, c))
  {
    hide Big, ReadHeader, PngChunk.Render;
    assert IHDR[0] != IDAT[0] || IHDR[1] != IDAT[1];
  }

  lemma ScanHops(data: seq<Byte>, offset: nat, scan: Scan, c: PngChunk, rest: seq<Byte>)
    requires c.Valid() && offset <= |data| && data[offset..] == c.Render() + rest
    ensures offset + 12 + |c.body| <= |data| && data[offset + 12 + |c.body|..] == rest
    ensures c.kind == IEND ==> ScanFrom(data, offset, scan) == Some(scan)
    ensures c.kind != IEND ==> ScanFrom(data, offset, scan) == ScanFrom(data, offset + 12 + |c.body|, Take(scan, c))
  {
    hide Big, ReadHeader, PngChunk.Render, ScanFrom, Take;
    ChunkParts(data, offset, c, rest);
    assert Least(offset + 8 + |c.body|, |data|) == offset + 8 + |c.body|;
    ScanChunk(data, offset, scan, c);
  }

  /** The walk over rendered chunks gathers exactly what they hold, up to the end chunk. */
  lemma {:induction false} ScanGathers(data: seq<Byte>, offset: nat, scan: Scan, chunks: seq<PngChunk>, end: PngChunk,
                                       tail: seq<Byte>)
    requires Inner(chunks) && end.Valid() && end.kind == IEND
    requires offset <= |data| && data[offset..] == RenderAll(chunks) + end.Render() + tail
    ensures ScanFrom(data, offset, scan) == Some(TakeAll(scan, chunks))
    decreases |chunks|
  {
    hide ScanFrom, PngChunk.Render, Take;
    if |chunks| == 0 {
      assert data[offset..] == end.Render() + tail;
      ScanHops(data, offset, scan, end, tail);
    } else {
      var c, rest := chunks[0], chunks[1..];
      assert data[offset..] == c.Render() + (RenderAll(rest) + end.Render() + tail);
      ScanHops(data, offset, scan, c, RenderAll(rest) + end.Render() + tail);
      ScanGathers(data, offset + 12 + |c.body|, Take(scan, c), rest, end, tail);
    }
  }

  /**
   Decoding undoes encoding. A file with these chunks, in which the joined image data inflates to the
   filtered rows of an image (each row under any filter type), decodes to exactly the image's bytes.
   */
  lemma DecodeUndoesEncode(chunks: seq<PngChunk>, end: PngChunk, tail: seq<Byte>, filters: seq<Byte>,
                           rows: seq<seq<Byte>>, extra: seq<Byte>, inflate: Inflate)
    requires Inner(chunks) && end.Valid() && end.kind == IEND
    requires TakeAll(Scan(NO_HEADER, []), chunks).header.Supported()
    requires var header := TakeAll(Scan(NO_HEADER, []), chunks).header; var stride := header.width * header.Channels();
      && |filters| == |rows| == header.height && (forall k :: 0 <= k < |rows| ==> |rows[k]| == stride)
      && inflate(TakeAll(Scan(NO_HEADER, []), chunks).idat)
         == Some(FilterRows(filters, rows, header.Channels(), Zeros(stride)) + extra)
    ensures var header := TakeAll(Scan(NO_HEADER, []), chunks).header;
      Decode(SIGNATURE + RenderAll(chunks) + end.Render() + tail, inflate)
        == Pixels(header.width, header.height, header.Channels(), Concat(rows))
  {
    hide TakeAll, FilterRows, Rows, ScanFrom, RenderAll, PngChunk.Render;
    var data, scan := SIGNATURE + RenderAll(chunks) + end.Render() + tail, TakeAll(Scan(NO_HEADER, []), chunks);
    var stride := scan.header.width * scan.header.Channels();
    assert data[8..] == RenderAll(chunks) + end.Render() + tail;
    ScanGathers(data, 8, Scan(NO_HEADER, []), chunks, end, tail);
    var raw := FilterRows(filters, rows, scan.header.Channels(), Zeros(stride)) + extra;
    assert raw[0..] == raw;
    RowsRoundTrip(raw, 0, filters, rows, scan.header.Channels(), Zeros(stride), extra);
  }
}
