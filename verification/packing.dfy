/** The two-pass binary packing shared by both streaming paths.

    The first pass walks the elements in announcement order: each element's
    record is encoded with the running `fTotalBinarySize` as its render
    offset, and an element with a non-empty payload is appended to
    `fElsWithBinaryData` while its size is added to the running total. The
    second pass sizes the binary frame to that total and writes every
    payload, in list order, at the running `actual_binary_size`.
 */
module Packing {
  import opened Elements
  import opened Wire

  /** One entry of `fElsWithBinaryData`: the index of the record that
      announced it, the offset it was announced at, and its payload. */
  datatype Bin = Bin(at: nat, offset: nat, payload: RenderData)

  /** First-pass state: the records so far, the binary-bearing entries, and
      the running `fTotalBinarySize`. */
  datatype Pass = Pass(records: seq<Record>, bins: seq<Bin>, total: nat)

  const Start := Pass([], [], 0)

  function SumSizes(bins: seq<Bin>): nat {
    if bins == [] then 0 else |bins[0].payload| + SumSizes(bins[1..])
  }

  /** The binary frame as it is meant to be: every payload, in list order. */
  function Concat(bins: seq<Bin>): seq<Byte> {
    if bins == [] then [] else bins[0].payload + Concat(bins[1..])
  }

  /** Entry `k` is where the first pass said it would be: at the sum of the
      sizes before it, non-empty, announced at that place by a record, and
      announced after the entry before it. */
  predicate Placed(p: Pass, k: nat)
    requires k < |p.bins|
  {
    var b := p.bins[k];
    && b.offset == SumSizes(p.bins[..k])
    && |b.payload| > 0
    && b.at < |p.records|
    && Announced(p.records[b.at]) == Some(RenderRef(b.offset, |b.payload|))
    && (k > 0 ==> p.bins[k - 1].at < b.at)
  }

  /** The first-pass invariant: the running total is the sum of the listed
      sizes and each entry is placed. */
  predicate Packed(p: Pass) {
    && p.total == SumSizes(p.bins)
    && (forall k :: 0 <= k < |p.bins| ==> Placed(p, k))
  }

  /** Entries follow the order of the records that announced them. */
  lemma {:induction false} PackedOrdered(p: Pass, k: nat, l: nat)
    requires Packed(p) && k < l < |p.bins|
    ensures p.bins[k].at < p.bins[l].at
    decreases l - k
  {
    assert Placed(p, l);
    if k + 1 < l {
      PackedOrdered(p, k, l - 1);
    }
  }

  lemma {:induction false} SumSizesAppend(a: seq<Bin>, b: seq<Bin>)
    ensures SumSizes(a + b) == SumSizes(a) + SumSizes(b)
  {
    if a != [] {
      assert (a + b)[1..] == a[1..] + b;
      SumSizesAppend(a[1..], b);
    } else {
      assert a + b == b;
    }
  }

  lemma {:induction false} ConcatAppend(a: seq<Bin>, b: seq<Bin>)
    ensures Concat(a + b) == Concat(a) + Concat(b)
  {
    if a != [] {
      assert (a + b)[1..] == a[1..] + b;
      ConcatAppend(a[1..], b);
    } else {
      assert a + b == b;
    }
  }

  lemma {:induction false} ConcatLength(bins: seq<Bin>)
    ensures |Concat(bins)| == SumSizes(bins)
  {
    if bins != [] {
      ConcatLength(bins[1..]);
    }
  }

  /** Every payload is a whole number of 4-byte words, so the total is too. */
  lemma {:induction false} SumSizesMultipleOf4(bins: seq<Bin>)
    ensures SumSizes(bins) % 4 == 0
  {
    if bins != [] {
      SumSizesMultipleOf4(bins[1..]);
    }
  }

  /** Records one encoded element: its record is appended and, when it is
      counted, its payload joins the list at the current running total. */
  function Push(p: Pass, rec: Record, payload: RenderData, counted: bool): (r: Pass)
    requires Packed(p)
    requires counted ==> |payload| > 0 && Announced(rec) == Some(RenderRef(p.total, |payload|))
    ensures Packed(r)
    ensures r.records == p.records + [rec]
    ensures r.bins == p.bins + (if counted then [Bin(|p.records|, p.total, payload)] else [])
  {
    if counted then
      var b := Bin(|p.records|, p.total, payload);
      var r := Pass(p.records + [rec], p.bins + [b], p.total + |payload|);
      PushCountedPacked(p, r, b);
      r
    else
      var r := p.(records := p.records + [rec]);
      PushRecordPacked(p, r);
      r
  }

  lemma PushRecordPacked(p: Pass, r: Pass)
    requires Packed(p)
    requires r.bins == p.bins && r.total == p.total
    requires |r.records| > |p.records| && r.records[..|p.records|] == p.records
    ensures Packed(r)
  {
    forall k | 0 <= k < |r.bins|
      ensures Placed(r, k)
    {
      assert Placed(p, k);
      assert r.records[p.bins[k].at] == p.records[p.bins[k].at];
    }
  }

  lemma PushCountedPacked(p: Pass, r: Pass, b: Bin)
    requires Packed(p)
    requires r.bins == p.bins + [b] && r.total == p.total + |b.payload|
    requires b.offset == p.total && b.at == |p.records| && |b.payload| > 0
    requires |r.records| == |p.records| + 1 && r.records[..|p.records|] == p.records
    requires Announced(r.records[|p.records|]) == Some(RenderRef(p.total, |b.payload|))
    ensures Packed(r)
  {
    SumSizesAppend(p.bins, [b]);
    assert SumSizes([b]) == |b.payload| by {
      assert [b][1..] == [];
    }
    forall k | 0 <= k < |r.bins|
      ensures Placed(r, k)
    {
      if k < |p.bins| {
        assert Placed(p, k);
        assert r.bins[..k] == p.bins[..k];
        assert r.records[p.bins[k].at] == p.records[p.bins[k].at];
      } else {
        assert r.bins[..k] == p.bins;
        if k > 0 {
          assert Placed(p, k - 1);
        }
      }
    }
  }

  /** The record index of every entry, in list order. */
  function Ats(bins: seq<Bin>): (r: seq<nat>)
    ensures |r| == |bins|
    ensures forall k :: 0 <= k < |bins| ==> r[k] == bins[k].at
  {
    seq(|bins|, k requires 0 <= k < |bins| => bins[k].at)
  }

  /** Record `i` announces no slice, is exempt, or has its payload listed. */
  predicate CoveredAt(records: seq<Record>, bins: seq<Bin>, i: nat, exempt: Record -> bool)
    requires i < |records|
  {
    Announced(records[i]).Some? && !exempt(records[i]) ==> i in Ats(bins)
  }

  /** Every record from `n` on is covered. */
  predicate Covered(records: seq<Record>, bins: seq<Bin>, n: nat, exempt: Record -> bool) {
    n <= |records| && forall i :: n <= i < |records| ==> CoveredAt(records, bins, i, exempt)
  }

  /** Listing more entries keeps a listed record listed. */
  lemma AtsGrow(a: seq<Bin>, b: seq<Bin>, x: nat)
    requires |a| <= |b| && b[..|a|] == a
    ensures x in Ats(a) ==> x in Ats(b)
  {
    if x in Ats(a) {
      var k :| 0 <= k < |a| && Ats(a)[k] == x;
      assert b[k] == a[k];
      assert Ats(b)[k] == x;
    }
  }

  /** A push keeps the records from `n` on covered, provided the new record
      is counted whenever it announces a slice and is not exempt. */
  lemma PushCovered(p: Pass, rec: Record, payload: RenderData, counted: bool, n: nat, exempt: Record -> bool)
    requires Packed(p)
    requires counted ==> |payload| > 0 && Announced(rec) == Some(RenderRef(p.total, |payload|))
    requires Covered(p.records, p.bins, n, exempt)
    requires Announced(rec).Some? && !exempt(rec) ==> counted
    ensures var r := Push(p, rec, payload, counted); Covered(r.records, r.bins, n, exempt)
  {
    var r := Push(p, rec, payload, counted);
    forall i | n <= i < |r.records|
      ensures CoveredAt(r.records, r.bins, i, exempt)
    {
      if i < |p.records| {
        assert CoveredAt(p.records, p.bins, i, exempt);
        assert r.records[i] == p.records[i];
        AtsGrow(p.bins, r.bins, i);
      } else if counted {
        assert Ats(r.bins)[|p.bins|] == i;
      }
    }
  }

  /** Coverage of two consecutive runs joins. */
  lemma CoveredJoin(q: Pass, r: Pass, n: nat, exempt: Record -> bool)
    requires Covered(q.records, q.bins, n, exempt) && Covered(r.records, r.bins, |q.records|, exempt)
    requires |q.records| <= |r.records| && r.records[..|q.records|] == q.records
    requires |q.bins| <= |r.bins| && r.bins[..|q.bins|] == q.bins
    ensures Covered(r.records, r.bins, n, exempt)
  {
    forall i | n <= i < |q.records|
      ensures CoveredAt(r.records, r.bins, i, exempt)
    {
      assert CoveredAt(q.records, q.bins, i, exempt);
      assert r.records[i] == q.records[i];
      AtsGrow(q.bins, r.bins, i);
    }
  }

  function Zeros(n: nat): (z: seq<Byte>)
    ensures |z| == n
  {
    seq(n, _ => 0)
  }

  /** The second pass: each payload is written by `fRenderData->Write` at the
      running `actual_binary_size`, which then advances by the size written.
      The result is the buffer and the final `actual_binary_size`. */
  function WriteAll(buf: seq<Byte>, bins: seq<Bin>, actual: nat): (r: (seq<Byte>, nat))
    requires actual + SumSizes(bins) <= |buf|
    ensures r.1 == actual + SumSizes(bins)
    ensures |r.0| == |buf|
    ensures r.0 == buf[..actual] + Concat(bins) + buf[r.1..]
    decreases |bins|
  {
    if bins == [] then
      (buf, actual)
    else
      var data := bins[0].payload;
      var next := actual + |data|;
      var written := buf[..actual] + data + buf[next..];
      var r := WriteAll(written, bins[1..], next);
      WriteStep(buf, data, actual, written, r.1);
      r
  }

  /** One `Write` at `actual` leaves the prefix and suffix alone. */
  lemma WriteStep(buf: seq<Byte>, data: seq<Byte>, actual: nat, written: seq<Byte>, end: nat)
    requires actual + |data| <= end <= |buf|
    requires written == buf[..actual] + data + buf[actual + |data|..]
    ensures |written| == |buf|
    ensures written[..actual + |data|] == buf[..actual] + data
    ensures written[end..] == buf[end..]
  {
  }

  /** `buf` holds `b`'s payload at the offset `b` was announced at. */
  predicate Holds(buf: seq<Byte>, b: Bin) {
    b.offset + |b.payload| <= |buf| && buf[b.offset..b.offset + |b.payload|] == b.payload
  }

  lemma {:induction false} ConcatSlice(bins: seq<Bin>, k: nat)
    requires k < |bins|
    ensures Holds(Concat(bins), bins[k].(offset := SumSizes(bins[..k])))
  {
    assert bins == bins[..k] + [bins[k]] + bins[k + 1..];
    ConcatAppend(bins[..k] + [bins[k]], bins[k + 1..]);
    ConcatAppend(bins[..k], [bins[k]]);
    assert Concat([bins[k]]) == bins[k].payload by {
      assert [bins[k]][1..] == [];
    }
    ConcatLength(bins[..k]);
  }

  /** The binary frame: sized to the first-pass total, then filled by the
      second pass, which writes exactly as many bytes as were announced.
      Every listed payload lands at the offset its record announced, so the
      frame is the payloads back to back in list order. */
  function PackBinary(p: Pass): (buf: seq<Byte>)
    requires Packed(p)
    ensures |buf| == p.total
    ensures p.total % 4 == 0
    ensures buf == Concat(p.bins)
    ensures forall k :: 0 <= k < |p.bins| ==> Holds(buf, p.bins[k])
  {
    var (out, actual) := WriteAll(Zeros(p.total), p.bins, 0);
    // The source's assert(actual_binary_size == fTotalBinarySize).
    assert actual == p.total;
    SumSizesMultipleOf4(p.bins);
    ConcatLength(p.bins);
    assert out == Concat(p.bins);
    forall k | 0 <= k < |p.bins|
      ensures Holds(out, p.bins[k])
    {
      assert Placed(p, k);
      ConcatSlice(p.bins, k);
    }
    out
  }
}
