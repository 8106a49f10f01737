/** Model of fg/freqdata.c (duplicated in freqgraph.c): the per-window record of
    a report, an append-only list of (frequency, amplitude) entries with a read
    cursor. Allocation and freeing are not modelled. */
module Freqdata {

  /** An `Ampdata`: a frequency and its amplitude. */
  datatype Ampdata = Ampdata(freq: int, amp: real)

  /** A `Freqdata`: the sample point of a window, its entries in insertion order
      and the cursor `index_next`. */
  datatype Freqdata = Freqdata(samplePoint: int, ampdata: seq<Ampdata>, indexNext: nat)

  /** `freqdata_new()`: no entries and the cursor at 0. The C leaves
      `sample_point` as whatever `malloc` returned; `residue` stands for it. */
  function New(residue: int): (d: Freqdata)
    ensures |d.ampdata| == 0 && d.indexNext == 0
  {
    Freqdata(residue, [], 0)
  }

  /** `freqdata_new_with_param(sample_point)`: a fresh record with its sample point set. */
  function NewWithParam(samplePoint: int): (d: Freqdata)
    ensures forall residue :: d == New(residue).(samplePoint := samplePoint)
  {
    New(0).(samplePoint := samplePoint)
  }

  /** `freqdata_add_ampdata(data, freq, amp)`: one entry appended at the end,
      nothing else touched. */
  function AddAmpdata(d: Freqdata, freq: int, amp: real): (d': Freqdata)
    ensures |d'.ampdata| == |d.ampdata| + 1
    ensures d'.ampdata[|d.ampdata|] == Ampdata(freq, amp)
    ensures d'.ampdata[..|d.ampdata|] == d.ampdata
    ensures d'.samplePoint == d.samplePoint && d'.indexNext == d.indexNext
  {
    d.(ampdata := d.ampdata + [Ampdata(freq, amp)])
  }

  /** What a call of `freqdata_next_ampdata` hands back: NULL, an entry, or a read
      at index `index` past the end of the array (`g_ptr_array_index` does no bounds check). */
  datatype Next = Null | Yield(entry: Ampdata) | PastEnd(index: nat)

  /** `freqdata_next_ampdata` as written: the guard `index_next > len` is the
      opposite of the documented one, so an in-range cursor gives NULL and only an
      out-of-range cursor would read, past the end. */
  function NextAmpdata(d: Freqdata): (r: (Next, Freqdata))
    ensures d.indexNext <= |d.ampdata| ==> r == (Null, d)
    ensures d.indexNext > |d.ampdata| ==> r.0 == PastEnd(d.indexNext) && r.1.indexNext == d.indexNext + 1
    ensures r.0 != Null ==> r.0.PastEnd?
  {
    if d.indexNext > |d.ampdata| then (PastEnd(d.indexNext), d.(indexNext := d.indexNext + 1))
    else (Null, d)
  }

  /** `freqdata_next_ampdata` with the guard the documentation describes
      (`index_next < len`): the next entry and an advanced cursor, or NULL at the end. */
  function NextAmpdataFixed(d: Freqdata): (r: (Next, Freqdata))
    ensures d.indexNext < |d.ampdata| ==> r == (Yield(d.ampdata[d.indexNext]), d.(indexNext := d.indexNext + 1))
    ensures d.indexNext >= |d.ampdata| ==> r == (Null, d)
    ensures !r.0.PastEnd?
  {
    if d.indexNext < |d.ampdata| then (Yield(d.ampdata[d.indexNext]), d.(indexNext := d.indexNext + 1))
    else (Null, d)
  }

  /** A call on a record: `freqdata_add_ampdata(freq, amp)` or `freqdata_next_ampdata`. */
  datatype Op = AddOp(freq: int, amp: real) | NextOp

  /** Runs a series of calls with the given version of `freqdata_next_ampdata`,
      collecting what the `next` calls return. */
  function Run(d: Freqdata, ops: seq<Op>, next: Freqdata -> (Next, Freqdata)): (Freqdata, seq<Next>)
    decreases |ops|
  {
    if |ops| == 0 then (d, [])
    else
      match ops[0]
      case AddOp(f, a) => Run(AddAmpdata(d, f, a), ops[1..], next)
      case NextOp =>
        var (x, d') := next(d);
        var (d'', xs) := Run(d', ops[1..], next);
        (d'', [x] + xs)
  }

  /** As written, a record whose cursor starts at 0 keeps it at 0 under any mix of
      adds and nexts, and every `next` returns NULL: the iterator never yields. */
  lemma {:induction false} AsWrittenNeverYields(d: Freqdata, ops: seq<Op>)
    requires d.indexNext == 0
    ensures Run(d, ops, NextAmpdata).0.indexNext == 0
    ensures Run(d, ops, NextAmpdata).0.samplePoint == d.samplePoint
    ensures forall k :: 0 <= k < |Run(d, ops, NextAmpdata).1| ==> Run(d, ops, NextAmpdata).1[k] == Null
    decreases |ops|
  {
    if |ops| > 0 {
      match ops[0]
      case AddOp(f, a) =>
        AsWrittenNeverYields(AddAmpdata(d, f, a), ops[1..]);
      case NextOp =>
        AsWrittenNeverYields(d, ops[1..]);
    }
  }

  /** The smallest witness: one entry added to a fresh record, then one `next`.
      The documented iterator returns the entry; the code as written returns NULL. */
  lemma {:induction false} AsWrittenSkipsEntry(sp: int, f: int, a: real)
    ensures Run(NewWithParam(sp), [AddOp(f, a), NextOp], NextAmpdata).1 == [Null]
    ensures Run(NewWithParam(sp), [AddOp(f, a), NextOp], NextAmpdataFixed).1 == [Yield(Ampdata(f, a))]
  {
    var d := AddAmpdata(NewWithParam(sp), f, a);
    assert [AddOp(f, a), NextOp][1..] == [NextOp];
    assert Run(d, [NextOp], NextAmpdata).1 == [Null];
    assert Run(d, [NextOp], NextAmpdataFixed).1 == [Yield(Ampdata(f, a))];
  }

  /** `n` calls of `next`. */
  function Nexts(n: nat): (ops: seq<Op>)
    ensures |ops| == n && forall k :: 0 <= k < n ==> ops[k] == NextOp
  {
    seq(n, k => NextOp)
  }

  /** With the documented guard, `next` calls from cursor `i` hand back the entries
      from `i` on in insertion order, then NULL for every further call. */
  lemma {:induction false} FixedIteratesInOrder(d: Freqdata, extra: nat)
    requires d.indexNext <= |d.ampdata|
    ensures var out := Run(d, Nexts(|d.ampdata| - d.indexNext + extra), NextAmpdataFixed).1;
      |out| == |d.ampdata| - d.indexNext + extra
      && (forall k :: 0 <= k < |d.ampdata| - d.indexNext ==> out[k] == Yield(d.ampdata[d.indexNext + k]))
      && (forall k :: |d.ampdata| - d.indexNext <= k < |out| ==> out[k] == Null)
    decreases |d.ampdata| - d.indexNext + extra
  {
    var n := |d.ampdata| - d.indexNext + extra;
    if n > 0 {
      assert Nexts(n)[1..] == Nexts(n - 1);
      var (x, d') := NextAmpdataFixed(d);
      if d.indexNext < |d.ampdata| {
        FixedIteratesInOrder(d', extra);
      } else {
        FixedIteratesInOrder(d, extra - 1);
      }
    }
  }
}
