/** The realtime reducers the lead pages attach to the store's change feed. Each page keeps its
    rows in a list and applies every change event to it: an INSERT puts the new row in front, an
    UPDATE replaces the rows carrying the new row's id, a DELETE drops the rows carrying the old
    row's id. The reducer is the same on every page; only the row type differs, so it is written
    once here over any row type with a string id. */
module Realtime {
  import opened Wrappers
  import opened Seqs

  datatype Change<T> = Inserted(row: T) | Updated(row: T) | Deleted(id: string)

  predicate HasId<T>(xs: seq<T>, idOf: T -> string, id: string) {
    exists i | 0 <= i < |xs| :: idOf(xs[i]) == id
  }

  /** The ids of the rows, in list order. */
  function Ids<T>(xs: seq<T>, idOf: T -> string): (r: seq<string>)
    ensures |r| == |xs|
    ensures forall i :: 0 <= i < |xs| ==> r[i] == idOf(xs[i])
  {
    seq(|xs|, i requires 0 <= i < |xs| => idOf(xs[i]))
  }

  /** How many rows carry `id`. */
  function IdCount<T>(xs: seq<T>, idOf: T -> string, id: string): (n: nat)
    ensures n <= |xs|
    ensures n == 0 <==> !HasId(xs, idOf, id)
  {
    if |xs| == 0 then 0
    else
      assert forall i :: 1 <= i < |xs| ==> xs[i] == xs[1..][i - 1];
      (if idOf(xs[0]) == id then 1 else 0) + IdCount(xs[1..], idOf, id)
  }

  /** `prev.map(x => x.id === row.id ? row : x)`: the list keeps its length and its id order;
      every row with the new row's id becomes the new row and every other row stays. */
  function ReplaceById<T>(xs: seq<T>, row: T, idOf: T -> string): (r: seq<T>)
    ensures Ids(r, idOf) == Ids(xs, idOf)
    ensures forall i :: 0 <= i < |xs| && idOf(xs[i]) == idOf(row) ==> r[i] == row
    ensures forall i :: 0 <= i < |xs| && idOf(xs[i]) != idOf(row) ==> r[i] == xs[i]
  {
    seq(|xs|, i requires 0 <= i < |xs| => if idOf(xs[i]) == idOf(row) then row else xs[i])
  }

  /** `prev.filter(x => x.id !== id)`: exactly the rows carrying `id` are dropped, and the others
      keep their order. */
  function RemoveById<T>(xs: seq<T>, id: string, idOf: T -> string): (r: seq<T>)
    ensures !HasId(r, idOf, id)
    ensures |r| + IdCount(xs, idOf, id) == |xs|
    ensures forall i :: 0 <= i < |xs| && idOf(xs[i]) != id ==> xs[i] in r
    ensures IsSubsequence(r, xs)
  {
    if |xs| == 0 then []
    else
      var rest := RemoveById(xs[1..], id, idOf);
      assert forall i :: 1 <= i < |xs| ==> xs[i] == xs[1..][i - 1];
      if idOf(xs[0]) == id then rest else [xs[0]] + rest
  }

  /** One change event applied to the list. */
  function Apply<T>(xs: seq<T>, change: Change<T>, idOf: T -> string): (r: seq<T>)
    ensures change.Inserted? ==> |r| == |xs| + 1 && r[0] == change.row && r[1..] == xs
    ensures change.Updated? ==> Ids(r, idOf) == Ids(xs, idOf)
    ensures change.Updated? ==> forall i :: 0 <= i < |xs| ==>
      r[i] == (if idOf(xs[i]) == idOf(change.row) then change.row else xs[i])
    ensures change.Deleted? ==> !HasId(r, idOf, change.id) && IsSubsequence(r, xs)
    ensures change.Deleted? ==> |r| + IdCount(xs, idOf, change.id) == |xs|
  {
    match change
    case Inserted(row) => [row] + xs
    case Updated(row) => ReplaceById(xs, row, idOf)
    case Deleted(id) => RemoveById(xs, id, idOf)
  }

  /** The row open in the detail dialog after a change: an UPDATE of its id replaces it; nothing
      else touches it, so a DELETE of the open row leaves it open. */
  function Selected<T>(selected: Option<T>, change: Change<T>, idOf: T -> string): (r: Option<T>)
    ensures r.Some? <==> selected.Some?
    ensures change.Updated? && selected.Some? && idOf(selected.value) == idOf(change.row) ==>
      r == Some(change.row)
    ensures !(change.Updated? && selected.Some? && idOf(selected.value) == idOf(change.row)) ==>
      r == selected
  {
    match change
    case Updated(row) =>
      if selected.Some? && idOf(selected.value) == idOf(row) then Some(row) else selected
    case _ => selected
  }

  /** A lead page as far as the change feed is concerned: the list and the lead open in the
      detail dialog. */
  datatype Screen<T> = Screen(leads: seq<T>, selected: Option<T>)

  /** A change event applied to a page: the list is reduced and the open lead is refreshed when
      the event updates it. Both outreach pages attach exactly this reducer. */
  function Reduce<T>(s: Screen<T>, change: Change<T>, idOf: T -> string): (r: Screen<T>)
    ensures change.Inserted? ==> r.leads == [change.row] + s.leads && r.selected == s.selected
    ensures change.Updated? ==> Ids(r.leads, idOf) == Ids(s.leads, idOf)
    ensures change.Updated? ==> forall i :: 0 <= i < |s.leads| ==>
      r.leads[i] == (if idOf(s.leads[i]) == idOf(change.row) then change.row else s.leads[i])
    ensures change.Updated? && s.selected.Some? && idOf(s.selected.value) == idOf(change.row) ==>
      r.selected == Some(change.row)
    ensures !(change.Updated? && s.selected.Some? && idOf(s.selected.value) == idOf(change.row)) ==>
      r.selected == s.selected
    ensures change.Deleted? ==> !HasId(r.leads, idOf, change.id) && IsSubsequence(r.leads, s.leads)
    ensures change.Deleted? ==> |r.leads| + IdCount(s.leads, idOf, change.id) == |s.leads|
  {
    Screen(Apply(s.leads, change, idOf), Selected(s.selected, change, idOf))
  }

  /** Replaying the same UPDATE changes nothing more. */
  lemma ReplaceIdempotent<T>(xs: seq<T>, row: T, idOf: T -> string)
    ensures ReplaceById(ReplaceById(xs, row, idOf), row, idOf) == ReplaceById(xs, row, idOf)
  {
    var once := ReplaceById(xs, row, idOf);
    var twice := ReplaceById(once, row, idOf);
    assert Ids(once, idOf) == Ids(xs, idOf);
    forall i | 0 <= i < |xs|
      ensures twice[i] == once[i]
    {
      assert idOf(once[i]) == Ids(once, idOf)[i] == idOf(xs[i]);
    }
  }

  /** An UPDATE for a row the list does not hold changes nothing: the reducer never upserts. */
  lemma ReplaceAbsent<T>(xs: seq<T>, row: T, idOf: T -> string)
    requires !HasId(xs, idOf, idOf(row))
    ensures ReplaceById(xs, row, idOf) == xs
  {
  }

  /** A DELETE of an id the list does not hold changes nothing. */
  lemma {:induction false} RemoveAbsent<T>(xs: seq<T>, id: string, idOf: T -> string)
    requires !HasId(xs, idOf, id)
    ensures RemoveById(xs, id, idOf) == xs
  {
    if |xs| > 0 {
      assert idOf(xs[0]) != id;
      assert !HasId(xs[1..], idOf, id) by {
        assert forall i :: 1 <= i < |xs| ==> xs[i] == xs[1..][i - 1];
      }
      RemoveAbsent(xs[1..], id, idOf);
    }
  }

  /** Replaying the same DELETE changes nothing more. */
  lemma RemoveIdempotent<T>(xs: seq<T>, id: string, idOf: T -> string)
    ensures RemoveById(RemoveById(xs, id, idOf), id, idOf) == RemoveById(xs, id, idOf)
  {
    RemoveAbsent(RemoveById(xs, id, idOf), id, idOf);
  }

  /** Inserting a row with a fresh id and then deleting that id gives the original list back. */
  lemma InsertThenDelete<T>(xs: seq<T>, row: T, idOf: T -> string)
    requires !HasId(xs, idOf, idOf(row))
    ensures Apply(Apply(xs, Inserted(row), idOf), Deleted(idOf(row)), idOf) == xs
  {
    var ys := [row] + xs;
    assert ys[1..] == xs;
    RemoveAbsent(xs, idOf(row), idOf);
  }

  /** A row that is in the list and open in the dialog stays in the list after an insert or an
      update, and stays open in its latest version. */
  lemma SelectedFollowsUpdates<T>(xs: seq<T>, selected: T, change: Change<T>, idOf: T -> string)
    requires selected in xs
    requires !change.Deleted?
    ensures Selected(Some(selected), change, idOf).value in Apply(xs, change, idOf)
  {
    var i :| 0 <= i < |xs| && xs[i] == selected;
    var r := Apply(xs, change, idOf);
    if change.Inserted? {
      assert r[i + 1] == selected;
    } else {
      assert r[i] == Selected(Some(selected), change, idOf).value;
    }
  }

  /** A DELETE of the open row removes it from the list but leaves it open in the dialog. */
  lemma DeleteKeepsSelection<T>(xs: seq<T>, selected: T, idOf: T -> string)
    ensures Selected(Some(selected), Deleted(idOf(selected)), idOf) == Some(selected)
    ensures selected !in Apply(xs, Deleted(idOf(selected)), idOf)
  {
    var r := Apply(xs, Deleted(idOf(selected)), idOf);
    assert forall i :: 0 <= i < |r| ==> idOf(r[i]) != idOf(selected);
  }
}
