/** The chart series the pages hand to their pie charts: named values with a colour, from which
    the empty slices are dropped (`.filter(s => s.value > 0)`). */
module Charts {
  import opened Seqs

  datatype Slice = Slice(name: string, value: nat, color: string)

  /** The sum of the slices' values. */
  function SliceTotal(ss: seq<Slice>): nat {
    if |ss| == 0 then 0 else ss[0].value + SliceTotal(ss[1..])
  }

  lemma SliceTotalThree(a: Slice, b: Slice, c: Slice)
    ensures SliceTotal([a, b, c]) == a.value + b.value + c.value
  {
    assert [c][1..] == [];
    assert SliceTotal([c]) == c.value;
    assert [b, c][1..] == [c];
    assert SliceTotal([b, c]) == b.value + c.value;
    assert [a, b, c][1..] == [b, c];
  }

  lemma SliceTotalFour(a: Slice, b: Slice, c: Slice, d: Slice)
    ensures SliceTotal([a, b, c, d]) == a.value + b.value + c.value + d.value
  {
    assert [a, b, c, d][1..] == [b, c, d];
    SliceTotalThree(b, c, d);
  }

  predicate HasValue(s: Slice) {
    s.value > 0
  }

  /** `.filter(s => s.value > 0)`: the order is kept, every slice left has a value, every slice
      with a value is left, and the values still add up to the same total, since only zeros go. */
  function DropEmpty(slices: seq<Slice>): (r: seq<Slice>)
    ensures |r| <= |slices|
    ensures forall i :: 0 <= i < |r| ==> r[i].value > 0
    ensures IsSubsequence(r, slices)
    ensures forall i :: 0 <= i < |slices| && slices[i].value > 0 ==> slices[i] in r
    ensures SliceTotal(r) == SliceTotal(slices)
    ensures (forall i :: 0 <= i < |slices| ==> slices[i].value > 0) ==> r == slices
  {
    DropEmptyTotal(slices);
    DropEmptyKeepsFull(slices);
    Filter(slices, HasValue)
  }

  lemma DropEmptyKeepsFull(slices: seq<Slice>)
    ensures (forall i :: 0 <= i < |slices| ==> slices[i].value > 0) ==> Filter(slices, HasValue) == slices
  {
    if forall i :: 0 <= i < |slices| ==> slices[i].value > 0 {
      FilterKeepsAll(slices, HasValue);
    }
  }

  /** Dropping the empty slices loses nothing from the total. */
  lemma {:induction false} DropEmptyTotal(slices: seq<Slice>)
    ensures SliceTotal(Filter(slices, HasValue)) == SliceTotal(slices)
  {
    if |slices| > 0 {
      DropEmptyTotal(slices[1..]);
      if HasValue(slices[0]) {
        assert Filter(slices, HasValue)[1..] == Filter(slices[1..], HasValue);
      }
    }
  }
}
