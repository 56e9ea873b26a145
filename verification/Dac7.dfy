/**
 The DAC7 report (src/admin/admin-finance.service.ts, `dac7Csv`): one row for each inspector with
 paid payouts in a calendar year. The grouping comes from the database in any order.
 */
module Dac7 {
  import opened Wrappers
  import opened Strings
  import opened Sorting
  import opened Csv
  import opened Decimal

  datatype Payout = Payout(inspector: string, cents: int, status: string, createdAt: int)

  datatype Profile = Profile(
    name: Option<string>, email: Option<string>, companyName: Option<string>,
    taxId: Option<string>, vatId: Option<string>, countryCode: Option<string>)

  datatype Group = Group(inspector: string, count: nat, cents: int)

  const DAC7_HEADER := [
    "inspectorUserId", "name", "email", "companyName", "taxId", "vatId", "countryCode",
    "payoutCount", "totalPayoutCents", "totalPayoutEur"
  ]

  const COUNT_COLUMN: nat := 7
  const CENTS_COLUMN: nat := 8
  const EUR_COLUMN: nat := 9

  // ---------------------------------------------------------------------------
  // Calendar years
  // ---------------------------------------------------------------------------

  const MS_PER_DAY := 86_400_000

  /** Days from 1970 to the first of January (DayFromYear of ECMA-262). */
  function DayFromYear(y: int): int {
    365 * (y - 1970) + (y - 1969) / 4 - (y - 1901) / 100 + (y - 1601) / 400
  }

  predicate IsLeap(y: int) {
    y % 4 == 0 && (y % 100 != 0 || y % 400 == 0)
  }

  /** `Date.UTC(year, 0, 1)`, which takes the years 0 to 99 as 1900 to 1999. */
  function YearStart(year: int): int {
    DayFromYear(if 0 <= year <= 99 then 1900 + year else year) * MS_PER_DAY
  }

  /** The epoch and the lengths of the years behind it and before it fix the starts of all years. */
  lemma YearsFromTheEpoch(y: int)
    ensures YearStart(1970) == 0
    ensures 0 <= y <= 99 ==> YearStart(y) == YearStart(1900 + y)
    ensures y < -1 || 100 <= y ==>
              YearStart(y + 1) - YearStart(y)
              == (if y % 4 == 0 && (y % 100 != 0 || y % 400 == 0) then 366 else 365) * 24 * 60 * 60 * 1000
  {
    YearLength(y);
  }

  lemma FourthYears(y: int)
    ensures (y - 1968) / 4 == (y - 1969) / 4 + if y % 4 == 0 then 1 else 0
  {
  }

  lemma Centuries(y: int)
    ensures (y - 1900) / 100 == (y - 1901) / 100 + if y % 100 == 0 then 1 else 0
  {
  }

  lemma FourthCenturies(y: int)
    ensures (y - 1600) / 400 == (y - 1601) / 400 + if y % 400 == 0 then 1 else 0
    ensures y % 400 == 0 ==> y % 100 == 0
    ensures y % 100 == 0 ==> y % 4 == 0
  {
  }

  lemma YearLength(y: int)
    ensures DayFromYear(y + 1) - DayFromYear(y) == if IsLeap(y) then 366 else 365
  {
    FourthYears(y);
    Centuries(y);
    FourthCenturies(y);
  }

  lemma {:induction false} DaysGrow(y: int, z: int)
    requires y <= z
    ensures DayFromYear(y) + 365 * (z - y) <= DayFromYear(z)
    decreases z - y
  {
    if y < z {
      YearLength(z - 1);
      DaysGrow(y, z - 1);
    }
  }

  /** The window of a report is a real span of time for every year but 99. */
  lemma WindowIsASpan(year: int)
    ensures YearStart(year) < YearStart(year + 1) <==> year != 99
  {
    if year == 99 {
      DaysGrow(100, 1999);
    } else if year == -1 {
      DaysGrow(-1, 1900);
    } else {
      YearLength(if 0 <= year <= 99 then 1900 + year else year);
    }
  }

  // ---------------------------------------------------------------------------
  // The queries
  // ---------------------------------------------------------------------------

  predicate PaidWithin(start: int, end: int, p: Payout) {
    p.status == "paid" && start <= p.createdAt < end
  }

  function PaidFilter(start: int, end: int): Payout -> bool {
    (p: Payout) => PaidWithin(start, end, p)
  }

  function Paid(payouts: seq<Payout>, start: int, end: int): seq<Payout> {
    Filter(PaidFilter(start, end), payouts)
  }

  function Cents(ps: seq<Payout>): int {
    if ps == [] then 0 else ps[0].cents + Cents(ps[1..])
  }

  function By(inspector: string): Payout -> bool {
    (p: Payout) => p.inspector == inspector
  }

  function NotBy(inspector: string): Payout -> bool {
    (p: Payout) => p.inspector != inspector
  }

  function InspectorOf(g: Group): string { g.inspector }

  /** `groupBy({ by: ['inspectorId'], _count, _sum })`, in some order. */
  ghost predicate IsGrouping(paid: seq<Payout>, groups: seq<Group>) {
    && DistinctBy(InspectorOf, groups)
    && (forall p :: p in paid ==> exists g :: g in groups && g.inspector == p.inspector)
    && (forall g :: g in groups ==>
          var own := Filter(By(g.inspector), paid);
          own != [] && g.count == |own| && g.cents == Cents(own))
  }

  // ---------------------------------------------------------------------------
  // The report
  // ---------------------------------------------------------------------------

  function Or(x: Option<string>): string {
    match x
    case None => ""
    case Some(s) => s
  }

  function ProfileOf(profiles: map<string, Profile>, inspector: string): Profile {
    if inspector in profiles then profiles[inspector] else Profile(None, None, None, None, None, None)
  }

  function RowOf(profiles: map<string, Profile>, g: Group): (row: seq<string>)
    ensures |row| == |DAC7_HEADER|
  {
    var p := ProfileOf(profiles, g.inspector);
    [g.inspector, Or(p.name), Or(p.email), Or(p.companyName), Or(p.taxId), Or(p.vatId), Or(p.countryCode),
     IntText(g.count), IntText(g.cents), EurText(g.cents)]
  }

  /** What belongs under a heading. */
  ghost function Meant(heading: string, p: Profile, g: Group): string {
    if heading == "inspectorUserId" then g.inspector
    else if heading == "name" then (if p.name == None then "" else p.name.value)
    else if heading == "email" then (if p.email == None then "" else p.email.value)
    else if heading == "companyName" then (if p.companyName == None then "" else p.companyName.value)
    else if heading == "taxId" then (if p.taxId == None then "" else p.taxId.value)
    else if heading == "vatId" then (if p.vatId == None then "" else p.vatId.value)
    else if heading == "countryCode" then (if p.countryCode == None then "" else p.countryCode.value)
    else if heading == "payoutCount" then IntText(g.count)
    else if heading == "totalPayoutCents" then IntText(g.cents)
    else if heading == "totalPayoutEur" then EurText(g.cents)
    else ""
  }

  /** Every column holds what its heading says. */
  lemma RowMatchesHeader(profiles: map<string, Profile>, g: Group, i: nat)
    requires i < |DAC7_HEADER|
    ensures RowOf(profiles, g)[i] == Meant(DAC7_HEADER[i], ProfileOf(profiles, g.inspector), g)
  {
    hide IntText, EurText;
  }

  function ById(lc: Collation): (Group, Group) -> bool {
    (a: Group, b: Group) => lc(a.inspector, b.inspector) <= 0
  }

  function Rows(profiles: map<string, Profile>, groups: seq<Group>): (rows: seq<seq<string>>)
    ensures |rows| == |groups|
    ensures forall row :: row in rows ==> |row| == |DAC7_HEADER|
  {
    seq(|groups|, i requires 0 <= i < |groups| => RowOf(profiles, groups[i]))
  }

  function Table(lc: Collation, profiles: map<string, Profile>, groups: seq<Group>): (rows: seq<seq<string>>)
    ensures forall row :: row in rows ==> |row| == |DAC7_HEADER|
  {
    Rows(profiles, Sort(ById(lc), groups))
  }

  lemma HeaderIsPlain()
    ensures |DAC7_HEADER| == 10 && forall f :: f in DAC7_HEADER ==> IsPlain(f)
  {
  }

  /** Row i is about the i-th inspector in the order of the collation, every cell as its heading says. */
  ghost predicate CellsAsHeaded(lc: Collation, profiles: map<string, Profile>, groups: seq<Group>,
                                rows: seq<seq<string>>)
  {
    var sorted := Sort(ById(lc), groups);
    && |rows| == |sorted|
    && forall i, j :: 0 <= i < |rows| && 0 <= j < |DAC7_HEADER| ==>
         j < |rows[i]| && rows[i][j] == Meant(DAC7_HEADER[j], Known(profiles, sorted[i].inspector), sorted[i])
  }

  /** The profile of an inspector, or one in which nothing is filled in. */
  ghost function Known(profiles: map<string, Profile>, inspector: string): Profile {
    if inspector in profiles then profiles[inspector] else Profile(None, None, None, None, None, None)
  }

  lemma KnownIsProfile(profiles: map<string, Profile>, inspector: string)
    ensures Known(profiles, inspector) == ProfileOf(profiles, inspector)
  {
  }

  lemma TableIsAsHeaded(lc: Collation, profiles: map<string, Profile>, groups: seq<Group>)
    ensures CellsAsHeaded(lc, profiles, groups, Table(lc, profiles, groups))
  {
    hide RowOf, Meant, Sort, DAC7_HEADER, ProfileOf, Known;
    var (sorted, rows) := (Sort(ById(lc), groups), Table(lc, profiles, groups));
    forall i, j | 0 <= i < |rows| && 0 <= j < |DAC7_HEADER|
      ensures j < |rows[i]|
              && rows[i][j] == Meant(DAC7_HEADER[j], Known(profiles, sorted[i].inspector), sorted[i])
    {
      KnownIsProfile(profiles, sorted[i].inspector);
      assert rows[i] in rows && rows[i] == RowOf(profiles, sorted[i]);
      RowMatchesHeader(profiles, sorted[i], j);
    }
  }

  /** The whole report; a reader for RFC 4180 finds the header and exactly the rows of the table. */
  method Dac7Csv(lc: Collation, profiles: map<string, Profile>, groups: seq<Group>) returns (csv: string)
    ensures csv == PrintFile(DAC7_HEADER, Table(lc, profiles, groups))
    ensures ReadFile(csv) == Some([DAC7_HEADER] + Table(lc, profiles, groups))
    ensures CellsAsHeaded(lc, profiles, groups, Table(lc, profiles, groups))
    ensures ReadFile(csv) == Some([["inspectorUserId", "name", "email", "companyName", "taxId", "vatId", "countryCode",
                                    "payoutCount", "totalPayoutCents", "totalPayoutEur"]]
                                  + Table(lc, profiles, groups))
  {
    TableIsAsHeaded(lc, profiles, groups);
    hide CellsAsHeaded;
    HeaderIsPlain();
    hide IsPlain, ReadFile, PrintRow, RowOf, DAC7_HEADER, Join;
    var lines := [Join(DAC7_HEADER, ",")];
    var grouped := Sort(ById(lc), groups);
    ghost var table := Table(lc, profiles, groups);
    for i := 0 to |grouped|
      invariant lines == [Join(DAC7_HEADER, ",")] + PrintRows(table[..i])
    {
      assert table[i] in table && table[..i + 1] == table[..i] + [table[i]];
      lines := lines + [PrintRow(RowOf(profiles, grouped[i]))];
    }
    assert table[..|grouped|] == table;
    csv := Join(lines, CRLF) + CRLF;
    FileReadsBack(DAC7_HEADER, table);
    HeaderWrittenOut(csv, table);
  }

  lemma HeaderWrittenOut(csv: string, table: seq<seq<string>>)
    requires ReadFile(csv) == Some([DAC7_HEADER] + table)
    ensures ReadFile(csv) == Some([["inspectorUserId", "name", "email", "companyName", "taxId", "vatId", "countryCode",
                                    "payoutCount", "totalPayoutCents", "totalPayoutEur"]] + table)
  {
    hide ReadFile;
  }

  // ---------------------------------------------------------------------------
  // Nothing is lost and nothing counted twice
  // ---------------------------------------------------------------------------

  lemma {:induction false} CentsSplit(paid: seq<Payout>, inspector: string)
    ensures Cents(paid) == Cents(Filter(By(inspector), paid)) + Cents(Filter(NotBy(inspector), paid))
    ensures |paid| == |Filter(By(inspector), paid)| + |Filter(NotBy(inspector), paid)|
  {
    if paid != [] {
      CentsSplit(paid[1..], inspector);
      var rest := Filter(if paid[0].inspector == inspector then By(inspector) else NotBy(inspector), paid[1..]);
      assert ([paid[0]] + rest)[1..] == rest;
    }
  }

  /** Taking one inspector's payouts away leaves those of every other. */
  lemma {:induction false} OthersStay(paid: seq<Payout>, gone: string, other: string)
    requires gone != other
    ensures Filter(By(other), Filter(NotBy(gone), paid)) == Filter(By(other), paid)
  {
    if paid != [] {
      OthersStay(paid[1..], gone, other);
      var rest := Filter(NotBy(gone), paid[1..]);
      assert ([paid[0]] + rest)[1..] == rest;
    }
  }

  function CentsOf(g: Group): int { g.cents }

  function CountOf(g: Group): int { g.count }

  function Sum(ns: seq<int>): int {
    if ns == [] then 0 else ns[0] + Sum(ns[1..])
  }

  function Total(groups: seq<Group>, of: Group -> int): int {
    Sum(Map(of, groups))
  }

  lemma TotalCons(groups: seq<Group>, of: Group -> int)
    requires groups != []
    ensures Total(groups, of) == of(groups[0]) + Total(groups[1..], of)
  {
    assert Map(of, groups)[1..] == Map(of, groups[1..]);
  }

  lemma NobodyPaid(paid: seq<Payout>)
    ensures IsGrouping(paid, []) ==> paid == []
  {
    if paid != [] {
      var p := paid[0];
      assert p in paid && !exists g: Group :: g in [] && g.inspector == p.inspector;
    }
  }

  lemma RestIsGrouping(paid: seq<Payout>, groups: seq<Group>)
    requires IsGrouping(paid, groups) && groups != []
    ensures IsGrouping(Filter(NotBy(groups[0].inspector), paid), groups[1..])
  {
    var gone := groups[0].inspector;
    var others := Filter(NotBy(gone), paid);
    FilterMembers(NotBy(gone), paid);
    forall p | p in others
      ensures exists g :: g in groups[1..] && g.inspector == p.inspector
    {
      var g :| g in groups && g.inspector == p.inspector;
      assert g in groups[1..];
    }
    forall g | g in groups[1..]
      ensures Filter(By(g.inspector), others) == Filter(By(g.inspector), paid)
    {
      assert g in groups;
      OthersStay(paid, gone, g.inspector);
    }
  }

  /** The groups add up to the payouts. */
  lemma {:induction false} GroupsAddUp(paid: seq<Payout>, groups: seq<Group>)
    requires IsGrouping(paid, groups)
    ensures Total(groups, CentsOf) == Cents(paid) && Total(groups, CountOf) == |paid|
    decreases |groups|
  {
    if groups == [] {
      NobodyPaid(paid);
    } else {
      RestIsGrouping(paid, groups);
      GroupsAddUp(Filter(NotBy(groups[0].inspector), paid), groups[1..]);
      CentsSplit(paid, groups[0].inspector);
      assert groups[0] in groups;
      TotalCons(groups, CentsOf);
      TotalCons(groups, CountOf);
    }
  }

  lemma ByIdIsPreorder(lc: Collation)
    requires IsCollation(lc)
    ensures Preorder(ById(lc))
  {
    forall x, y
      ensures ById(lc)(x, y) || ById(lc)(y, x)
    {
      assert lc(x.inspector, y.inspector) <= 0 <==> 0 <= lc(y.inspector, x.inspector);
      assert lc(y.inspector, x.inspector) <= 0 <==> 0 <= lc(x.inspector, y.inspector);
    }
    forall x, y, z | ById(lc)(x, y) && ById(lc)(y, z)
      ensures ById(lc)(x, z)
    {
      assert lc(x.inspector, y.inspector) <= 0 && lc(y.inspector, z.inspector) <= 0;
    }
  }

  /** A rearrangement of a grouping is a grouping. */
  lemma GroupingInAnyOrder(paid: seq<Payout>, groups: seq<Group>, groups': seq<Group>)
    requires IsGrouping(paid, groups) && multiset(groups') == multiset(groups)
    ensures IsGrouping(paid, groups')
  {
    assert forall g :: g in groups <==> g in multiset(groups);
    assert forall g :: g in groups' <==> g in multiset(groups');
    DistinctInAnyOrder(InspectorOf, groups, groups');
  }

  ghost function Column(rows: seq<seq<string>>, column: nat): (r: seq<string>)
    requires forall row :: row in rows ==> column < |row|
    ensures |r| == |rows| && forall i :: 0 <= i < |r| ==> r[i] == rows[i][column]
  {
    seq(|rows|, i requires 0 <= i < |rows| => rows[i][column])
  }

  /** The number a reader takes from one column, summed over the report. */
  ghost function ColumnTotal(rows: seq<seq<string>>, column: nat, value: string -> int): int
    requires forall row :: row in rows ==> column < |row|
  {
    Sum(Map(value, Column(rows, column)))
  }

  /** An amount in euros, read as cents; what is no amount counts nothing. */
  ghost function EurCell(s: string): int {
    if CentsValue(s) == None then 0 else CentsValue(s).value
  }

  lemma RowNumbers(profiles: map<string, Profile>, g: Group)
    ensures RowOf(profiles, g)[0] == g.inspector
    ensures IntValue(RowOf(profiles, g)[COUNT_COLUMN]) == g.count
    ensures IntValue(RowOf(profiles, g)[CENTS_COLUMN]) == g.cents
    ensures CentsValue(RowOf(profiles, g)[EUR_COLUMN]) == Some(g.cents)
    ensures EurCell(RowOf(profiles, g)[EUR_COLUMN]) == g.cents
  {
    hide IntText, EurText, IntValue, CentsValue;
    IntBack(g.count);
    IntBack(g.cents);
    EurBack(g.cents);
  }

  lemma ColumnReads(profiles: map<string, Profile>, groups: seq<Group>, column: nat,
                    value: string -> int, of: Group -> int)
    requires column < |DAC7_HEADER|
    requires forall i :: 0 <= i < |groups| ==> value(RowOf(profiles, groups[i])[column]) == of(groups[i])
    ensures ColumnTotal(Rows(profiles, groups), column, value) == Total(groups, of)
  {
    hide RowOf, Sum;
    var cells := Column(Rows(profiles, groups), column);
    forall i | 0 <= i < |cells|
      ensures Map(value, cells)[i] == Map(of, groups)[i]
    {
      assert cells[i] == RowOf(profiles, groups[i])[column];
    }
    assert Map(value, cells) == Map(of, groups);
  }

  lemma RowsAddUp(profiles: map<string, Profile>, groups: seq<Group>)
    ensures ColumnTotal(Rows(profiles, groups), COUNT_COLUMN, IntValue) == Total(groups, CountOf)
    ensures ColumnTotal(Rows(profiles, groups), CENTS_COLUMN, IntValue) == Total(groups, CentsOf)
    ensures ColumnTotal(Rows(profiles, groups), EUR_COLUMN, EurCell) == Total(groups, CentsOf)
  {
    hide RowOf, IntValue, CentsValue, EurCell, ColumnTotal, Total, Rows;
    forall i | 0 <= i < |groups|
      ensures IntValue(RowOf(profiles, groups[i])[COUNT_COLUMN]) == CountOf(groups[i])
      ensures IntValue(RowOf(profiles, groups[i])[CENTS_COLUMN]) == CentsOf(groups[i])
      ensures EurCell(RowOf(profiles, groups[i])[EUR_COLUMN]) == CentsOf(groups[i])
    {
      RowNumbers(profiles, groups[i]);
    }
    ColumnReads(profiles, groups, COUNT_COLUMN, IntValue, CountOf);
    ColumnReads(profiles, groups, CENTS_COLUMN, IntValue, CentsOf);
    ColumnReads(profiles, groups, EUR_COLUMN, EurCell, CentsOf);
  }

  ghost predicate HasRow(rows: seq<seq<string>>, id: string) {
    exists i :: 0 <= i < |rows| && rows[i] != [] && rows[i][0] == id
  }

  ghost predicate WasPaid(paid: seq<Payout>, id: string) {
    exists p :: p in paid && p.inspector == id
  }

  /**
   A year's report: one row for each inspector who was paid and for nobody else, and the three
   number columns, read back from their text, add up to the payouts of the window.
   */
  lemma ReportAddsUp(lc: Collation, profiles: map<string, Profile>, paid: seq<Payout>, groups: seq<Group>)
    requires IsCollation(lc) && IsGrouping(paid, groups)
    ensures var rows := Table(lc, profiles, groups);
            && ColumnTotal(rows, COUNT_COLUMN, IntValue) == |paid|
            && ColumnTotal(rows, CENTS_COLUMN, IntValue) == Cents(paid)
            && ColumnTotal(rows, EUR_COLUMN, EurCell) == Cents(paid)
            && (forall i, j :: 0 <= i < j < |rows| ==>
                  rows[i][0] != rows[j][0] && lc(rows[i][0], rows[j][0]) <= 0)
            && (forall id :: HasRow(rows, id) <==> WasPaid(paid, id))
            && (forall i :: 0 <= i < |rows| ==> OwnNumbers(paid, rows[i]))
  {
    hide RowOf, IntValue, CentsValue, EurCell, Insert, OwnNumbers;
    var sorted := Sort(ById(lc), groups);
    ByIdIsPreorder(lc);
    SortLaws(ById(lc), groups);
    GroupingInAnyOrder(paid, groups, sorted);
    GroupsAddUp(paid, sorted);
    RowsAddUp(profiles, sorted);
    OneRowEach(profiles, paid, sorted);
    RowsInOrder(lc, profiles, sorted);
    forall i | 0 <= i < |sorted|
      ensures OwnNumbers(paid, Rows(profiles, sorted)[i])
    {
      RowOfItsOwn(profiles, paid, sorted, i);
    }
  }

  /** The numbers of a row are those of its inspector's payouts. */
  ghost predicate OwnNumbers(paid: seq<Payout>, row: seq<string>) {
    && |row| == 10
    && var own := Filter((p: Payout) => p.inspector == row[0], paid);
       && IntValue(row[COUNT_COLUMN]) == |own| && IntValue(row[CENTS_COLUMN]) == Cents(own)
       && CentsValue(row[EUR_COLUMN]) == Some(Cents(own))
  }

  lemma RowOfItsOwn(profiles: map<string, Profile>, paid: seq<Payout>, groups: seq<Group>, i: nat)
    requires IsGrouping(paid, groups) && i < |groups|
    ensures OwnNumbers(paid, Rows(profiles, groups)[i])
  {
    RowNumbers(profiles, groups[i]);
    hide RowOf, IntValue, CentsValue;
    var row := RowOf(profiles, groups[i]);
    assert Rows(profiles, groups)[i] == row;
    assert groups[i] in groups;
    SameFilter(By(groups[i].inspector), (p: Payout) => p.inspector == row[0], paid);
  }

  lemma {:induction false} SameFilter(p: Payout -> bool, q: Payout -> bool, paid: seq<Payout>)
    requires forall x :: p(x) <==> q(x)
    ensures Filter(p, paid) == Filter(q, paid)
  {
    if paid != [] { SameFilter(p, q, paid[1..]); }
  }

  lemma RowsInOrder(lc: Collation, profiles: map<string, Profile>, groups: seq<Group>)
    requires Sorted(ById(lc), groups)
    ensures var rows := Rows(profiles, groups);
            forall i, j :: 0 <= i < j < |rows| ==> lc(rows[i][0], rows[j][0]) <= 0
  {
    var rows := Rows(profiles, groups);
    forall i, j | 0 <= i < j < |rows|
      ensures lc(rows[i][0], rows[j][0]) <= 0
    {
      SortedAt(ById(lc), groups, i, j);
      RowNumbers(profiles, groups[i]);
      RowNumbers(profiles, groups[j]);
    }
  }

  lemma OneRowEach(profiles: map<string, Profile>, paid: seq<Payout>, groups: seq<Group>)
    requires IsGrouping(paid, groups)
    ensures var rows := Rows(profiles, groups);
            && (forall i, j :: 0 <= i < j < |rows| ==> rows[i][0] != rows[j][0])
            && (forall id :: HasRow(rows, id) <==> WasPaid(paid, id))
  {
    hide RowOf;
    var rows := Rows(profiles, groups);
    forall i | 0 <= i < |rows|
      ensures rows[i] == RowOf(profiles, groups[i]) && rows[i][0] == groups[i].inspector
    {
      RowNumbers(profiles, groups[i]);
    }
    forall i | 0 <= i < |rows|
      ensures WasPaid(paid, rows[i][0])
    {
      assert groups[i] in groups;
      var own := Filter(By(groups[i].inspector), paid);
      FilterMembers(By(groups[i].inspector), paid);
      assert own[0] in own;
    }
    forall p | p in paid
      ensures HasRow(rows, p.inspector)
    {
      var g :| g in groups && g.inspector == p.inspector;
      var i :| 0 <= i < |groups| && groups[i] == g;
      assert rows[i][0] == p.inspector;
    }
  }

  // ---------------------------------------------------------------------------
  // Consecutive years tile time
  // ---------------------------------------------------------------------------

  lemma {:induction false} PaidTiles(payouts: seq<Payout>, start: int, middle: int, end: int)
    requires start <= middle <= end
    ensures multiset(Paid(payouts, start, end))
            == multiset(Paid(payouts, start, middle)) + multiset(Paid(payouts, middle, end))
    ensures Cents(Paid(payouts, start, end)) == Cents(Paid(payouts, start, middle)) + Cents(Paid(payouts, middle, end))
  {
    if payouts != [] {
      PaidTiles(payouts[1..], start, middle, end);
      PaidCons(payouts, start, end);
      PaidCons(payouts, start, middle);
      PaidCons(payouts, middle, end);
    }
  }

  lemma PaidCons(payouts: seq<Payout>, start: int, end: int)
    requires payouts != []
    ensures Paid(payouts, start, end)
            == (if PaidWithin(start, end, payouts[0]) then [payouts[0]] else []) + Paid(payouts[1..], start, end)
    ensures multiset(Paid(payouts, start, end))
            == (if PaidWithin(start, end, payouts[0]) then multiset{payouts[0]} else multiset{})
               + multiset(Paid(payouts[1..], start, end))
    ensures Cents(Paid(payouts, start, end))
            == (if PaidWithin(start, end, payouts[0]) then payouts[0].cents else 0)
               + Cents(Paid(payouts[1..], start, end))
  {
    var rest := Paid(payouts[1..], start, end);
    assert ([payouts[0]] + rest)[1..] == rest;
    assert [] + rest == rest;
  }

  /** The query takes the payouts that are paid and created in the window, each as often as it is there. */
  lemma {:induction false} PaidExactly(payouts: seq<Payout>, start: int, end: int, p: Payout)
    ensures multiset(Paid(payouts, start, end))[p]
            == if p.status == "paid" && start <= p.createdAt && p.createdAt < end then multiset(payouts)[p] else 0
  {
    if payouts != [] {
      PaidExactly(payouts[1..], start, end, p);
      PaidCons(payouts, start, end);
      MultisetTail(payouts);
    }
  }

  function PaidInYear(payouts: seq<Payout>, year: int): seq<Payout> {
    Paid(payouts, YearStart(year), YearStart(year + 1))
  }

  /** The payouts of the reports for the years from `a` up to but not including `b`. */
  function PaidInYears(payouts: seq<Payout>, a: int, b: int): seq<Payout>
    decreases b - a
  {
    if b <= a then [] else PaidInYears(payouts, a, b - 1) + PaidInYear(payouts, b - 1)
  }

  lemma {:induction false} StartsGrow(a: int, b: int)
    requires a <= b && (b <= 99 || 100 <= a)
    ensures YearStart(a) <= YearStart(b)
    decreases b - a
  {
    hide YearStart;
    if a < b {
      StartsGrow(a, b - 1);
      WindowIsASpan(b - 1);
    }
  }

  lemma {:induction false} CentsAppend(a: seq<Payout>, b: seq<Payout>)
    ensures Cents(a + b) == Cents(a) + Cents(b)
  {
    if a == [] {
      assert a + b == b;
    } else {
      CentsAppend(a[1..], b);
      assert (a + b)[1..] == a[1..] + b;
    }
  }

  lemma {:induction false} NothingPaid(payouts: seq<Payout>, start: int, end: int)
    requires end <= start
    ensures Paid(payouts, start, end) == []
  {
    if payouts != [] { NothingPaid(payouts[1..], start, end); }
  }

  /** Away from the year 99, consecutive reports hold every payout of the span exactly once. */
  lemma {:induction false} YearsTile(payouts: seq<Payout>, a: int, b: int)
    requires a <= b && (b <= 99 || 100 <= a)
    ensures multiset(PaidInYears(payouts, a, b)) == multiset(Paid(payouts, YearStart(a), YearStart(b)))
    ensures Cents(PaidInYears(payouts, a, b)) == Cents(Paid(payouts, YearStart(a), YearStart(b)))
    decreases b - a
  {
    hide YearStart, Paid, Cents;
    if a == b {
      NothingPaid(payouts, YearStart(a), YearStart(b));
    } else {
      YearsTile(payouts, a, b - 1);
      StartsGrow(a, b - 1);
      StartsGrow(b - 1, b);
      PaidTiles(payouts, YearStart(a), YearStart(b - 1), YearStart(b));
      CentsAppend(PaidInYears(payouts, a, b - 1), PaidInYear(payouts, b - 1));
    }
  }

  lemma {:induction false} YearsJoin(payouts: seq<Payout>, a: int, c: int, b: int)
    requires a <= c <= b
    ensures PaidInYears(payouts, a, b) == PaidInYears(payouts, a, c) + PaidInYears(payouts, c, b)
    decreases b - c
  {
    hide PaidInYear;
    if c < b {
      YearsJoin(payouts, a, c, b - 1);
      var (x, y, z) := (PaidInYears(payouts, a, c), PaidInYears(payouts, c, b - 1), PaidInYear(payouts, b - 1));
      assert (x + y) + z == x + (y + z);
    }
  }

  predicate InYear(y: int, t: int) {
    YearStart(y) <= t < YearStart(y + 1)
  }

  /** The windows of the two reports have no moment in common. */
  ghost predicate Apart(y: int, z: int) {
    forall t :: !(InYear(y, t) && InYear(z, t))
  }

  lemma {:induction false} YearOf(a: int, b: int, t: int) returns (y: int)
    requires (b <= 99 || 100 <= a) && YearStart(a) <= t < YearStart(b) && a <= b
    ensures a <= y < b && InYear(y, t)
    decreases b - a
  {
    hide YearStart;
    y := b - 1;
    if t < YearStart(b - 1) { y := YearOf(a, b - 1, t); }
  }

  lemma ApartOnOneSide(y: int, z: int)
    requires y < z && (z <= 99 || 99 <= y)
    ensures Apart(y, z)
  {
    WindowIsASpan(99);
    hide YearStart;
    if y != 99 && z != 99 { StartsGrow(y + 1, z); }
  }

  /** No two reports of a span overlap, unless the span runs over 99 and the years read as 19xx into its end. */
  lemma YearsAreApartExactly(a: int, b: int)
    ensures (forall y, z :: a <= y < z < b ==> Apart(y, z)) <==> !(a < 99 && 100 < b && YearStart(a) < YearStart(b))
  {
    WindowIsASpan(99);
    hide YearStart, Apart;
    if a < 99 && 100 < b && YearStart(a) < YearStart(b) {
      Overlap(a, b);
    } else {
      forall y, z | a <= y < z < b
        ensures Apart(y, z)
      {
        if z <= 99 || 99 <= y {
          ApartOnOneSide(y, z);
        } else {
          StartsGrow(a, y);
          StartsGrow(z + 1, b);
          ApartIfBefore(z, y);
        }
      }
    }
  }

  lemma ApartIfBefore(z: int, y: int)
    requires YearStart(z + 1) <= YearStart(y)
    ensures Apart(y, z)
  {
  }

  lemma Overlap(a: int, b: int)
    requires a < 99 && 100 < b && YearStart(a) < YearStart(b)
    ensures exists y, z :: a <= y < z < b && !Apart(y, z)
  {
    WindowIsASpan(99);
    StartsGrow(a, 98);
    WindowIsASpan(98);
    WindowIsASpan(100);
    StartsGrow(101, b);
    hide YearStart;
    var t := if YearStart(a) < YearStart(100) then YearStart(100) else YearStart(a);
    var y := YearOf(a, 99, t);
    var z := YearOf(100, b, t);
    assert InYear(y, t) && InYear(z, t) && !Apart(y, z);
  }

  lemma PaidOnce(p: Payout, start: int, end: int)
    ensures Paid([p], start, end) == if PaidWithin(start, end, p) then [p] else []
  {
    PaidCons([p], start, end);
    assert [p][1..] == [] && Paid([], start, end) == [];
  }

  lemma PaidAt(p: Payout, y: int)
    requires p.status == "paid" && InYear(y, p.createdAt)
    ensures PaidInYears([p], y, y + 1) == [p]
  {
    hide YearStart, Paid;
    PaidOnce(p, YearStart(y), YearStart(y + 1));
    assert PaidInYears([p], y, y) == [] && [] + PaidInYear([p], y) == [p];
  }

  /** A payout that the reports from `a` to `b` hold once more often than the span does. */
  lemma OnceTooOften(a: int, b: int) returns (p: Payout)
    requires a < b && a <= 99 < b && !(a == 99 && b == 100)
    ensures |PaidInYears([p], a, b)| > |Paid([p], YearStart(a), YearStart(b))|
  {
    var y := if a == 99 then 100 else 98;
    p := Payout("i", 1, "paid", YearStart(y));
    WindowIsASpan(y);
    WindowIsASpan(99);
    PaidOnce(p, YearStart(a), YearStart(b));
    PaidAt(p, y);
    YearsJoin([p], a, y, b);
    YearsJoin([p], y, y + 1, b);
    if a == 99 {
      assert YearStart(99) == YearStart(1999);
      StartsGrow(100, 1999);
    } else {
      assert YearStart(98) == YearStart(1998) && YearStart(99) == YearStart(1999);
      if 1998 < b {
        PaidAt(p, 1998);
        YearsJoin([p], 99, 1998, b);
        YearsJoin([p], 1998, 1999, b);
      } else {
        StartsGrow(b, 1998);
      }
    }
  }

  /** For which spans the reports hold every payout exactly once, whatever was paid. */
  lemma YearsTileExactly(a: int, b: int)
    requires a <= b
    ensures (forall payouts ::
               multiset(PaidInYears(payouts, a, b)) == multiset(Paid(payouts, YearStart(a), YearStart(b))))
            <==> b <= 99 || 100 <= a || (a == 99 && b == 100)
  {
    if b <= 99 || 100 <= a {
      forall payouts
        ensures multiset(PaidInYears(payouts, a, b)) == multiset(Paid(payouts, YearStart(a), YearStart(b)))
      {
        YearsTile(payouts, a, b);
      }
    } else if a == 99 && b == 100 {
      WindowIsASpan(99);
      forall payouts
        ensures multiset(PaidInYears(payouts, a, b)) == multiset(Paid(payouts, YearStart(a), YearStart(b)))
      {
        assert PaidInYears(payouts, 99, 99) == [];
        assert PaidInYears(payouts, 99, 100) == [] + PaidInYear(payouts, 99);
      }
    } else {
      hide YearStart, Paid, PaidInYears;
      var p := OnceTooOften(a, b);
      var (x, y) := (PaidInYears([p], a, b), Paid([p], YearStart(a), YearStart(b)));
      assert |multiset(x)| == |x| && |multiset(y)| == |y|;
    }
  }

  ghost function ReportsTotal(lc: Collation, profiles: map<string, Profile>, groups: int -> seq<Group>,
                              a: int, b: int): int
    decreases b - a
  {
    if b <= a then 0
    else ReportsTotal(lc, profiles, groups, a, b - 1)
         + ColumnTotal(Table(lc, profiles, groups(b - 1)), CENTS_COLUMN, IntValue)
  }

  lemma {:induction false} ReportByReport(lc: Collation, profiles: map<string, Profile>, payouts: seq<Payout>,
                                          groups: int -> seq<Group>, a: int, b: int)
    requires IsCollation(lc) && forall y :: a <= y < b ==> IsGrouping(PaidInYear(payouts, y), groups(y))
    ensures ReportsTotal(lc, profiles, groups, a, b) == Cents(PaidInYears(payouts, a, b))
    decreases b - a
  {
    hide PaidInYear, Cents, IsGrouping, ColumnTotal, IsCollation, Table;
    NoCents();
    if a < b {
      ReportByReport(lc, profiles, payouts, groups, a, b - 1);
      ReportCents(lc, profiles, PaidInYear(payouts, b - 1), groups(b - 1));
      CentsAppend(PaidInYears(payouts, a, b - 1), PaidInYear(payouts, b - 1));
    }
  }

  /** The totals printed in consecutive reports add up to what was paid in the span. */
  lemma ReportsAddUp(lc: Collation, profiles: map<string, Profile>, payouts: seq<Payout>,
                     groups: int -> seq<Group>, a: int, b: int)
    requires IsCollation(lc) && a <= b && (b <= 99 || 100 <= a)
    requires forall y :: a <= y < b ==> IsGrouping(PaidInYear(payouts, y), groups(y))
    ensures ReportsTotal(lc, profiles, groups, a, b) == Cents(Paid(payouts, YearStart(a), YearStart(b)))
  {
    hide *;
    YearsTile(payouts, a, b);
    ReportByReport(lc, profiles, payouts, groups, a, b);
  }

  lemma ReportCents(lc: Collation, profiles: map<string, Profile>, paid: seq<Payout>, groups: seq<Group>)
    requires IsCollation(lc) && IsGrouping(paid, groups)
    ensures ColumnTotal(Table(lc, profiles, groups), CENTS_COLUMN, IntValue) == Cents(paid)
  {
    hide *;
    ReportAddsUp(lc, profiles, paid, groups);
  }

  lemma NoCents()
    ensures Cents([]) == 0
  {
  }

  // ---------------------------------------------------------------------------
  // Does the order of the database show?
  // ---------------------------------------------------------------------------

  /** The collation tells any two of the groups apart. */
  ghost predicate Separates(lc: Collation, groups: seq<Group>) {
    forall a, b :: a in groups && b in groups && Like(ById(lc), a)(b) ==> a == b
  }

  ghost predicate Deterministic(lc: Collation, profiles: map<string, Profile>, groups: seq<Group>) {
    forall groups' :: multiset(groups') == multiset(groups) ==>
      Table(lc, profiles, groups') == Table(lc, profiles, groups)
  }

  /** Two groups that the collation does not tell apart: each can come first. */
  lemma TieShows(lc: Collation, profiles: map<string, Profile>, groups: seq<Group>, i: nat, j: nat)
      returns (one: seq<Group>, other: seq<Group>)
    requires IsCollation(lc) && i < j < |groups| && Like(ById(lc), groups[i])(groups[j])
    requires groups[i].inspector != groups[j].inspector
    ensures multiset(one) == multiset(groups) == multiset(other)
    ensures Sort(ById(lc), one) != Sort(ById(lc), other)
  {
    var (a, b, leq) := (groups[i], groups[j], ById(lc));
    var rest := groups[..i] + groups[i + 1..j] + groups[j + 1..];
    one, other := [a, b] + rest, [b, a] + rest;
    assert groups == groups[..i] + [a] + groups[i + 1..j] + [b] + groups[j + 1..];
    ByIdIsPreorder(lc);
    LikeFilterSort(leq, a, one);
    LikeFilterSort(leq, a, other);
    assert leq(a, a) || leq(a, a);
    TwoInFront(Like(leq, a), a, b, rest);
    TwoInFront(Like(leq, a), b, a, rest);
    assert Filter(Like(leq, a), one)[0] == a && Filter(Like(leq, a), other)[0] == b;
  }

  lemma TwoInFront<T>(p: T -> bool, a: T, b: T, rest: seq<T>)
    requires p(a) && p(b)
    ensures Filter(p, [a, b] + rest) == [a, b] + Filter(p, rest)
  {
    assert ([a, b] + rest)[1..] == [b] + rest;
    assert ([b] + rest)[1..] == rest;
  }

  lemma RowsTellGroupsApart(profiles: map<string, Profile>, groups: seq<Group>, s: seq<Group>, t: seq<Group>)
    requires DistinctBy(InspectorOf, groups)
    requires multiset(s) == multiset(groups) == multiset(t)
    requires Rows(profiles, s) == Rows(profiles, t)
    ensures s == t
  {
    hide RowOf;
    assert |s| == |Rows(profiles, s)| == |t|;
    forall k | 0 <= k < |s|
      ensures s[k] == t[k]
    {
      RowNumbers(profiles, s[k]);
      RowNumbers(profiles, t[k]);
      assert Rows(profiles, s)[k] == Rows(profiles, t)[k];
      assert s[k] in multiset(groups) && t[k] in multiset(groups);
      var x :| 0 <= x < |groups| && groups[x] == s[k];
      var y :| 0 <= y < |groups| && groups[y] == t[k];
      assert x == y;
    }
  }

  lemma SortedTheSame(lc: Collation, groups: seq<Group>, groups': seq<Group>)
    requires IsCollation(lc) && Separates(lc, groups) && multiset(groups') == multiset(groups)
    ensures Sort(ById(lc), groups') == Sort(ById(lc), groups)
  {
    hide Insert, IsCollation, Sort;
    ByIdIsPreorder(lc);
    SortLaws(ById(lc), groups);
    SortLaws(ById(lc), groups');
    var s := Sort(ById(lc), groups);
    forall a, b | a in s && b in s && ById(lc)(a, b) && ById(lc)(b, a)
      ensures a == b
    {
      assert a in multiset(s) && b in multiset(s) && multiset(s) == multiset(groups);
      assert a in groups && b in groups;
      assert Like(ById(lc), a)(b);
    }
    SortedOnce(ById(lc), s, Sort(ById(lc), groups'));
  }

  /** The report is independent of the order of the database exactly when no two ids tie. */
  lemma DeterministicExactlyWithoutTies(lc: Collation, profiles: map<string, Profile>, paid: seq<Payout>,
                                        groups: seq<Group>)
    requires IsCollation(lc) && IsGrouping(paid, groups)
    ensures Deterministic(lc, profiles, groups) <==> Separates(lc, groups)
  {
    hide Rows, IsCollation, Sort, ById, Like;
    if Separates(lc, groups) {
      forall groups' | multiset(groups') == multiset(groups)
        ensures Table(lc, profiles, groups') == Table(lc, profiles, groups)
      {
        SortedTheSame(lc, groups, groups');
      }
    } else {
      var a, b :| a in groups && b in groups && Like(ById(lc), a)(b) && a != b;
      TieSpoils(lc, profiles, groups, a, b);
    }
  }

  lemma TieSpoils(lc: Collation, profiles: map<string, Profile>, groups: seq<Group>, a: Group, b: Group)
    requires IsCollation(lc) && a in groups && b in groups && a != b && Like(ById(lc), a)(b)
    requires DistinctBy(InspectorOf, groups)
    ensures !Deterministic(lc, profiles, groups)
  {
    hide IsCollation, ById, Like, Deterministic;
    var i :| 0 <= i < |groups| && groups[i] == a;
    var j :| 0 <= j < |groups| && groups[j] == b;
    LikeIsMutual(ById(lc), a, b);
    if i < j {
      NoTie(lc, profiles, groups, i, j);
    } else {
      NoTie(lc, profiles, groups, j, i);
    }
  }

  lemma LikeIsMutual<T>(leq: (T, T) -> bool, a: T, b: T)
    ensures Like(leq, a)(b) <==> Like(leq, b)(a)
  {
  }

  lemma NoTie(lc: Collation, profiles: map<string, Profile>, groups: seq<Group>, i: nat, j: nat)
    requires IsCollation(lc) && i < j < |groups| && Like(ById(lc), groups[i])(groups[j])
    requires DistinctBy(InspectorOf, groups)
    ensures !Deterministic(lc, profiles, groups)
  {
    if Deterministic(lc, profiles, groups) {
      var one, other := TieShows(lc, profiles, groups, i, j);
      ByIdIsPreorder(lc);
      SortLaws(ById(lc), one);
      SortLaws(ById(lc), other);
      assert Table(lc, profiles, one) == Table(lc, profiles, groups) == Table(lc, profiles, other);
      RowsTellGroupsApart(profiles, groups, Sort(ById(lc), one), Sort(ById(lc), other));
    }
  }
}
