/**
 The cursor-paged backfill of the three search columns
 (scripts/backfill-listing-search-columns.ts).
 */
module SearchBackfill {
  import opened Wrappers
  import opened Paging
  import opened SearchText

  datatype Columns = Columns(city: string, make: string, model: string)

  /** A listing: its texts, and what is stored in the derived columns. */
  datatype Row = Row(
    id: string,
    city: Option<string>, make: Option<string>, model: Option<string>,
    citySearch: Option<string>, makeSearch: Option<string>, modelSearch: Option<string>)

  function Wanted(r: Row): Columns {
    Columns(NormalizeSearchText(r.city), NormalizeCompact(r.make), NormalizeCompact(r.model))
  }

  /** The stored columns, NULL read as the empty string. */
  function Stored(r: Row): Columns {
    Columns(OrEmpty(r.citySearch), OrEmpty(r.makeSearch), OrEmpty(r.modelSearch))
  }

  function OrEmpty(s: Option<string>): string {
    if s == None then "" else s.value
  }

  function Write(r: Row, c: Columns): Row {
    r.(citySearch := Some(c.city), makeSearch := Some(c.make), modelSearch := Some(c.model))
  }

  /** What the run makes of one row. */
  function Filled(r: Row): Row {
    if Stored(r) == Wanted(r) then r else Write(r, Wanted(r))
  }

  function Stale(rows: seq<Row>): nat {
    if rows == [] then 0 else (if Stored(rows[0]) == Wanted(rows[0]) then 0 else 1) + Stale(rows[1..])
  }

  /** Every column holds what its text gives: the city as a place, make and model compact. */
  ghost predicate IsFilled(r: Row) {
    && (if r.citySearch == None then "" else r.citySearch.value) == NormalizeSearchText(r.city)
    && (if r.makeSearch == None then "" else r.makeSearch.value) == NormalizeCompact(r.make)
    && (if r.modelSearch == None then "" else r.modelSearch.value) == NormalizeCompact(r.model)
  }

  ghost function Unfilled(rows: seq<Row>): set<nat> {
    set i: nat | i < |rows| && !IsFilled(rows[i])
  }

  lemma FilledMeans(r: Row)
    ensures Stored(r) == Wanted(r) <==> IsFilled(r)
    ensures IsFilled(Filled(r)) && (IsFilled(r) ==> Filled(r) == r)
  {
    hide NormalizeSearchText, NormalizeCompact;
  }

  lemma {:induction false} StaleAreUnfilled(rows: seq<Row>)
    ensures Stale(rows) == |Unfilled(rows)|
    decreases |rows|
  {
    if rows != [] {
      var (front, r) := (rows[..|rows| - 1], rows[|rows| - 1]);
      assert rows == front + [r];
      StaleAreUnfilled(front);
      StaleAppend(front, r);
      FilledMeans(r);
      UnfilledAppend(front, r);
      hide *;
    }
  }

  lemma UnfilledAppend(rows: seq<Row>, r: Row)
    ensures |Unfilled(rows + [r])| == |Unfilled(rows)| + if IsFilled(r) then 0 else 1
  {
    hide IsFilled;
    assert |rows| !in Unfilled(rows);
    assert Unfilled(rows + [r]) == Unfilled(rows) + if IsFilled(r) then {} else {|rows| as nat};
  }

  function IdOf(r: Row): string { r.id }

  /** After a run every column is the normalizer's output, and the texts are untouched. */
  lemma FilledIsRight(r: Row)
    ensures Stored(Filled(r)) == Wanted(r) == Wanted(Filled(r))
    ensures Filled(r).(citySearch := r.citySearch, makeSearch := r.makeSearch, modelSearch := r.modelSearch) == r
    ensures Filled(Filled(r)) == Filled(r)
  {
  }

  function FillAll(rows: seq<Row>): (r: seq<Row>)
    ensures |r| == |rows| && forall i :: 0 <= i < |rows| ==> r[i] == Filled(rows[i])
  {
    seq(|rows|, i requires 0 <= i < |rows| => Filled(rows[i]))
  }

  /** A second run finds nothing to write. */
  lemma {:induction false} SecondRunIsFree(rows: seq<Row>)
    ensures Stale(FillAll(rows)) == 0 && FillAll(FillAll(rows)) == FillAll(rows)
  {
    if rows != [] {
      SecondRunIsFree(rows[1..]);
      FilledIsRight(rows[0]);
      assert FillAll(rows)[1..] == FillAll(rows[1..]);
    }
  }

  lemma {:induction false} StaleAppend(a: seq<Row>, r: Row)
    ensures Stale(a + [r]) == Stale(a) + if Stored(r) == Wanted(r) then 0 else 1
  {
    hide Stored, Wanted;
    if a == [] {
      assert [r][1..] == [] && a + [r] == [r];
    } else {
      StaleAppend(a[1..], r);
      assert (a + [r])[1..] == a[1..] + [r];
    }
  }

  /** The table once the first `n` rows are done. */
  ghost function HalfDone(rows: seq<Row>, n: nat): (r: seq<Row>)
    ensures |r| == |rows|
    ensures forall i :: 0 <= i < |r| ==> r[i] == if i < n then Filled(rows[i]) else rows[i]
  {
    seq(|rows|, i requires 0 <= i < |rows| => if i < n then Filled(rows[i]) else rows[i])
  }

  lemma HalfDoneIds(rows: seq<Row>, n: nat)
    ensures forall i :: 0 <= i < |rows| ==> HalfDone(rows, n)[i].id == rows[i].id
    ensures UniqueIds(IdOf, rows) ==> UniqueIds(IdOf, HalfDone(rows, n))
  {
  }

  lemma HalfDoneNext(rows: seq<Row>, n: nat)
    requires n < |rows| && UniqueIds(IdOf, rows)
    ensures HalfDone(rows, n + 1) == HalfDone(rows, n)[n := Filled(rows[n])]
    ensures Stale(rows[..n + 1]) == Stale(rows[..n]) + if Stored(rows[n]) == Wanted(rows[n]) then 0 else 1
    ensures Position(IdOf, HalfDone(rows, n), rows[n].id) == n
  {
    assert rows[..n + 1] == rows[..n] + [rows[n]];
    StaleAppend(rows[..n], rows[n]);
    HalfDoneIds(rows, n);
    PositionOf(IdOf, HalfDone(rows, n), n);
  }

  ghost function Ids(rows: seq<Row>): (ids: seq<string>) {
    seq(|rows|, i requires 0 <= i < |rows| => rows[i].id)
  }

  lemma IdsAppend(a: seq<Row>, b: seq<Row>)
    ensures Ids(a + b) == Ids(a) + Ids(b)
  {
  }

  lemma HalfDoneEnds(rows: seq<Row>)
    ensures HalfDone(rows, 0) == rows && HalfDone(rows, |rows|) == FillAll(rows)
    ensures Stale(rows[..0]) == 0 && rows[..|rows|] == rows && Ids(rows[..0]) == []
  {
  }

  /** The next page of the table as it stands, half of it done. */
  lemma NextHalfDonePage(rows: seq<Row>, n: nat, take: nat)
    requires UniqueIds(IdOf, rows) && n <= |rows| && 0 < take
    ensures var page := Page(IdOf, HalfDone(rows, n), CursorAt(IdOf, rows, n), take);
            && n + |page| <= |rows| && page == rows[n..n + |page|]
            && (|page| == 0 ==> n == |rows|)
            && (0 < |page| ==> CursorAt(IdOf, rows, n + |page|) == Some(page[|page| - 1].id))
  {
    hide Wanted, Stored, Write, Filled, Page, UniqueIds;
    var half := HalfDone(rows, n);
    HalfDoneIds(rows, n);
    NextPage(IdOf, half, n, take);
    assert CursorAt(IdOf, half, n) == CursorAt(IdOf, rows, n);
    var k := n + |Page(IdOf, half, CursorAt(IdOf, rows, n), take)|;
    assert half[n..k] == rows[n..k];
    assert n < k ==> CursorAt(IdOf, half, k) == CursorAt(IdOf, rows, k);
  }

  class Listings {
    /** The table in id order. */
    var rows: seq<Row>

    ghost predicate Valid()
      reads this
    {
      UniqueIds(IdOf, rows)
    }

    constructor (rows: seq<Row>)
      requires UniqueIds(IdOf, rows)
      ensures Valid() && this.rows == rows
    {
      this.rows := rows;
    }

    method Update(id: string, c: Columns)
      requires Valid() && Position(IdOf, rows, id) < |rows|
      modifies this
      ensures Valid()
      ensures var p := old(Position(IdOf, rows, id)); rows == old(rows)[p := Write(old(rows)[p], c)]
    {
      var p := Position(IdOf, rows, id);
      rows := rows[p := Write(rows[p], c)];
    }

    /** The rows of one page, each written only if it differs. */
    method FillPage(page: seq<Row>, ghost start: seq<Row>, ghost from: nat) returns (written: nat)
      requires UniqueIds(IdOf, start) && rows == HalfDone(start, from)
      requires from + |page| <= |start| && page == start[from..from + |page|]
      modifies this
      ensures rows == HalfDone(start, from + |page|)
      ensures written + Stale(start[..from]) == Stale(start[..from + |page|])
    {
      hide Wanted, Stored, Write, Stale, UniqueIds, Position;
      written := 0;
      for j := 0 to |page|
        invariant rows == HalfDone(start, from + j)
        invariant written + Stale(start[..from]) == Stale(start[..from + j])
      {
        var row := page[j];
        assert row == start[from + j] == rows[from + j];
        HalfDoneNext(start, from + j);
        HalfDoneIds(start, from + j);
        if Wanted(row) != Stored(row) {
          Update(row.id, Wanted(row));
          written := written + 1;
        }
      }
    }

    /** The whole script. `visited` are the ids in the order the run handled them. */
    method Backfill(batch: nat) returns (seen: nat, written: nat, ghost visited: seq<string>)
      requires Valid() && 0 < batch
      modifies this
      ensures Valid() && rows == FillAll(old(rows))
      ensures seen == |old(rows)| && written == Stale(old(rows))
      ensures visited == Ids(old(rows))
      ensures |rows| == |old(rows)| && written == |Unfilled(old(rows))|
      ensures forall i :: 0 <= i < |rows| ==>
                var (was, row) := (old(rows)[i], rows[i]);
                && IsFilled(row) && (IsFilled(was) ==> row == was)
                && row.id == was.id && row.city == was.city && row.make == was.make && row.model == was.model
    {
      hide IsFilled, Unfilled;
      hide Wanted, Stored, Write, Stale, UniqueIds, Filled, Page, Ids;
      ghost var start := rows;
      var cursor := None;
      seen, written, visited := 0, 0, [];
      HalfDoneEnds(start);
      while true
        invariant seen <= |start| && rows == HalfDone(start, seen)
        invariant cursor == CursorAt(IdOf, start, seen)
        invariant written == Stale(start[..seen])
        invariant visited == Ids(start[..seen])
        decreases |start| - seen
      {
        NextHalfDonePage(start, seen, batch);
        var page := Page(IdOf, rows, cursor, batch);
        if |page| == 0 { break; }
        cursor := Some(page[|page| - 1].id);
        var more := FillPage(page, start, seen);
        written := written + more;
        visited := visited + Ids(page);
        assert start[..seen + |page|] == start[..seen] + page;
        IdsAppend(start[..seen], page);
        seen := seen + |page|;
      }
      HalfDoneIds(start, seen);
      RowsAreFilled(start);
    }
  }

  lemma RowsAreFilled(rows: seq<Row>)
    ensures Stale(rows) == |Unfilled(rows)|
    ensures var rows' := FillAll(rows);
            forall i :: 0 <= i < |rows'| ==>
              && IsFilled(rows'[i]) && (IsFilled(rows[i]) ==> rows'[i] == rows[i])
              && rows'[i].id == rows[i].id
              && rows'[i].city == rows[i].city && rows'[i].make == rows[i].make && rows'[i].model == rows[i].model
  {
    hide IsFilled, Stored, Wanted, Unfilled;
    StaleAreUnfilled(rows);
    forall i | 0 <= i < |rows|
      ensures IsFilled(Filled(rows[i])) && (IsFilled(rows[i]) ==> Filled(rows[i]) == rows[i])
    {
      FilledMeans(rows[i]);
    }
  }
}
