/** Cursor paging over a table in id order, the `take` / `cursor` / `skip: 1` query of the backfills. */
module Paging {
  import opened Wrappers

  /** The position of the row called `x`, or the length of the table. */
  function Position<T>(id: T -> string, rows: seq<T>, x: string): (p: nat)
    ensures p <= |rows|
    ensures p < |rows| ==> id(rows[p]) == x
  {
    if rows == [] then 0 else if id(rows[0]) == x then 0 else 1 + Position(id, rows[1..], x)
  }

  predicate UniqueIds<T>(id: T -> string, rows: seq<T>) {
    forall i, j :: 0 <= i < j < |rows| ==> id(rows[i]) != id(rows[j])
  }

  lemma {:induction false} PositionOf<T>(id: T -> string, rows: seq<T>, i: nat)
    requires UniqueIds(id, rows) && i < |rows|
    ensures Position(id, rows, id(rows[i])) == i
  {
    if i != 0 { PositionOf(id, rows[1..], i - 1); }
  }

  /** The rows of one query: after the cursor row if there is one, at most `take` of them. */
  function Page<T>(id: T -> string, rows: seq<T>, cursor: Option<string>, take: nat): seq<T> {
    var from := if cursor == None then 0 else Position(id, rows, cursor.value) + 1;
    if |rows| <= from then [] else rows[from..if from + take <= |rows| then from + take else |rows|]
  }

  /** The cursor after `n` rows: the last id seen. */
  function CursorAt<T>(id: T -> string, rows: seq<T>, n: nat): Option<string>
    requires n <= |rows|
  {
    if n == 0 then None else Some(id(rows[n - 1]))
  }

  /** The page after the first `n` rows starts right behind them and is empty only at the end. */
  lemma NextPage<T>(id: T -> string, rows: seq<T>, n: nat, take: nat)
    requires UniqueIds(id, rows) && n <= |rows| && 0 < take
    ensures var page := Page(id, rows, CursorAt(id, rows, n), take);
            && n + |page| <= |rows| && page == rows[n..n + |page|]
            && (|page| == 0 ==> n == |rows|)
            && (0 < |page| ==> CursorAt(id, rows, n + |page|) == Some(id(page[|page| - 1])))
  {
    hide Position, UniqueIds;
    if n != 0 { PositionOf(id, rows, n - 1); }
    var page := Page(id, rows, CursorAt(id, rows, n), take);
    assert page == rows[n..n + |page|];
  }
}
