/** The SSE4.2 range scans beside the table loops. */
module Scan {
  import opened Bytes

  // The range blobs: pairs of a first and a last byte.
  const BLOB_0: seq<byte> := [9, 9, 12, 12, 33, 34, 36, 62, 64, 126, 128, 255]
  const BLOB_7: seq<byte> := [9, 9, 32, 126, 128, 255]
  const BLOB_8: seq<byte> := [32, 33, 35, 39, 42, 43, 45, 46, 48, 57, 65, 90, 94, 122, 124, 124]
  const BLOB_9: seq<byte> := [126, 126]

  const WINDOW := 16

  predicate Inside(ranges: seq<byte>, c: byte) {
    |ranges| >= 2 && (ranges[0] <= c <= ranges[1] || Inside(ranges[2..], c))
  }

  /** `_mm_cmpestri` on unsigned bytes with ranges and negative polarity: the first byte outside, or the length. */
  function FirstOutside(ranges: seq<byte>, w: seq<byte>): (k: nat)
    ensures k <= |w|
    ensures forall i :: 0 <= i < k ==> Inside(ranges, w[i])
    ensures k < |w| ==> !Inside(ranges, w[k])
  {
    if w == [] || !Inside(ranges, w[0]) then 0 else 1 + FirstOutside(ranges, w[1..])
  }

  lemma Unfold(ranges: seq<byte>, rest: seq<byte>, c: byte)
    requires |ranges| >= 2 && rest == ranges[2..]
    ensures Inside(ranges, c) <==> (ranges[0] <= c <= ranges[1] || Inside(rest, c))
  {
  }

  lemma ValueRanges(c: byte)
    ensures Inside(BLOB_7, c) <==> IsValueByte(c)
  {
    Unfold(BLOB_7, [32, 126, 128, 255], c);
    Unfold([32, 126, 128, 255], [128, 255], c);
    Unfold([128, 255], [], c);
  }

  lemma AlphanumericRanges(c: byte)
    ensures Inside([48, 57, 65, 90, 94, 122, 124, 124], c) <==> 48 <= c <= 57 || 65 <= c <= 90 || 94 <= c <= 122 || c == 124
  {
    Unfold([48, 57, 65, 90, 94, 122, 124, 124], [65, 90, 94, 122, 124, 124], c);
    Unfold([65, 90, 94, 122, 124, 124], [94, 122, 124, 124], c);
    Unfold([94, 122, 124, 124], [124, 124], c);
    Unfold([124, 124], [], c);
  }

  lemma NameRanges(c: byte)
    ensures Inside(BLOB_8, c) || Inside(BLOB_9, c) <==> IsNameByte(c)
  {
    Unfold(BLOB_8, [35, 39, 42, 43, 45, 46, 48, 57, 65, 90, 94, 122, 124, 124], c);
    Unfold([35, 39, 42, 43, 45, 46, 48, 57, 65, 90, 94, 122, 124, 124], [42, 43, 45, 46, 48, 57, 65, 90, 94, 122, 124, 124], c);
    Unfold([42, 43, 45, 46, 48, 57, 65, 90, 94, 122, 124, 124], [45, 46, 48, 57, 65, 90, 94, 122, 124, 124], c);
    Unfold([45, 46, 48, 57, 65, 90, 94, 122, 124, 124], [48, 57, 65, 90, 94, 122, 124, 124], c);
    AlphanumericRanges(c);
    Unfold(BLOB_9, [], c);
  }

  lemma PathRanges(c: byte)
    ensures Inside(BLOB_0, c) <==> IsPathByte(c)
  {
    Unfold(BLOB_0, [12, 12, 33, 34, 36, 62, 64, 126, 128, 255], c);
    Unfold([12, 12, 33, 34, 36, 62, 64, 126, 128, 255], [33, 34, 36, 62, 64, 126, 128, 255], c);
    Unfold([33, 34, 36, 62, 64, 126, 128, 255], [36, 62, 64, 126, 128, 255], c);
    Unfold([36, 62, 64, 126, 128, 255], [64, 126, 128, 255], c);
    Unfold([64, 126, 128, 255], [128, 255], c);
    Unfold([128, 255], [], c);
  }

  /** One window of header_value: how far to step, where 0 means the scan has ended at `p`. */
  method ValueWindow(data: seq<byte>, p: nat) returns (step: nat)
    requires p + WINDOW <= |data|
    ensures step <= WINDOW
    ensures forall i :: p <= i < p + step ==> IsValueByte(data[i])
    ensures step == 0 ==> !IsValueByte(data[p])
  {
    var w := data[p..p + WINDOW];
    step := FirstOutside(BLOB_7, w);
    forall i | 0 <= i < WINDOW ensures Inside(BLOB_7, w[i]) <==> IsValueByte(data[p + i]) { ValueRanges(w[i]); }
    assert forall i :: p <= i < p + step ==> data[i] == w[i - p];
  }

  /** One window of header_field_general: the second set of ranges is tried when the first steps nowhere. */
  method NameWindow(data: seq<byte>, p: nat) returns (step: nat)
    requires p + WINDOW <= |data|
    ensures step <= WINDOW
    ensures forall i :: p <= i < p + step ==> IsNameByte(data[i])
    ensures step == 0 ==> !IsNameByte(data[p])
  {
    var w := data[p..p + WINDOW];
    step := FirstOutside(BLOB_8, w);
    if step == 0 {
      step := FirstOutside(BLOB_9, w);
    }
    forall i | 0 <= i < WINDOW
      ensures Inside(BLOB_8, w[i]) || Inside(BLOB_9, w[i]) <==> IsNameByte(data[p + i]) { NameRanges(w[i]); }
    assert forall i :: p <= i < p + step ==> data[i] == w[i - p];
  }

  /** The first byte at or after `p` that is not a path byte: where the table loop of url_path stops. */
  function PathEnd(data: seq<byte>, p: nat): (q: nat)
    requires p <= |data|
    ensures p <= q <= |data|
    decreases |data| - p
  {
    if p == |data| || !IsPathByte(data[p]) then p else PathEnd(data, p + 1)
  }

  lemma {:induction false} PathEndSkips(data: seq<byte>, p: nat, q: nat)
    requires p <= q <= |data|
    requires forall i :: p <= i < q ==> IsPathByte(data[i])
    ensures PathEnd(data, p) == PathEnd(data, q)
    decreases q - p
  {
    if p < q { PathEndSkips(data, p + 1, q); }
  }

  /** url_path, with the fast path when it is compiled in. */
  method ScanPath(data: seq<byte>, start: nat, sse: bool) returns (p: nat)
    requires start <= |data|
    ensures p == PathEnd(data, start)
  {
    p := start;
    while p < |data|
      invariant start <= p <= |data|
      invariant PathEnd(data, start) == PathEnd(data, p)
    {
      if sse && |data| - p >= WINDOW {
        var w := data[p..p + WINDOW];
        var step := FirstOutside(BLOB_0, w);
        forall i | 0 <= i < WINDOW ensures Inside(BLOB_0, w[i]) <==> IsPathByte(data[p + i]) { PathRanges(w[i]); }
        if step == 0 { return; }
        assert forall i :: p <= i < p + step ==> data[i] == w[i - p];
        PathEndSkips(data, p, p + step);
        p := p + step;
      } else {
        if !IsPathByte(data[p]) { return; }
        p := p + 1;
      }
    }
  }
}
