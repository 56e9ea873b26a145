/**
 The versions of the legal templates: the admin service (src/admin/admin-legal.service.ts), the
 publish script (scripts/publish-contract-template.ts) and the seed (prisma/seed.ts) write one table.
 */
module LegalVersions {
  import opened Wrappers
  import opened Sorting

  datatype Draft = Draft(locale: string, title: string, bodyMd: string)

  datatype Row = Row(key: string, version: int, text: Draft, active: bool)

  /** The table in the order of creation. */
  type Table = seq<Row>

  const CONTRACT_KEYS := ["contract_de", "contract_eu", "contract_en"]

  const DRAFT_MARKER := "_Draft \U{2014} pending legal review (E10)._"

  predicate Includes(s: string, part: string) {
    part <= s || (s != "" && Includes(s[1..], part))
  }

  predicate IsStub(bodyMd: string) {
    Includes(bodyMd, DRAFT_MARKER)
  }

  // ---------------------------------------------------------------------------
  // Queries
  // ---------------------------------------------------------------------------

  function ByVersionDesc(): (Row, Row) -> bool {
    (a: Row, b: Row) => b.version <= a.version
  }

  function OfKey(key: string): Row -> bool {
    (r: Row) => r.key == key
  }

  function IsActive(r: Row): bool { r.active }

  function ActiveOfKey(key: string): Row -> bool {
    (r: Row) => r.key == key && r.active
  }

  /** `findMany` with `orderBy: { version: 'desc' }`. */
  function NewestFirst(where: Row -> bool, t: Table): Table {
    Sort(ByVersionDesc(), Filter(where, t))
  }

  /** `findFirst` of the same. */
  function Newest(where: Row -> bool, t: Table): Option<Row> {
    var rows := NewestFirst(where, t);
    if rows == [] then None else Some(rows[0])
  }

  lemma NewestIsNewest(where: Row -> bool, t: Table)
    ensures match Newest(where, t)
            case None => forall r :: r in t ==> !where(r)
            case Some(n) => n in t && where(n) && forall r :: r in t && where(r) ==> r.version <= n.version
  {
    var rows := NewestFirst(where, t);
    FilterMembers(where, t);
    SortLaws(ByVersionDesc(), Filter(where, t));
    forall r | r in t && where(r)
      ensures r in rows
    {
      assert r in Filter(where, t) && r in multiset(Filter(where, t));
      assert r in multiset(rows);
    }
    if rows != [] {
      assert rows[0] in multiset(rows) && rows[0] in Filter(where, t);
      assert ByVersionDesc()(rows[0], rows[0]);
    }
  }

  function NextVersion(t: Table, key: string): int {
    match Newest(OfKey(key), t)
    case None => 1
    case Some(r) => r.version + 1
  }

  // ---------------------------------------------------------------------------
  // Effects
  // ---------------------------------------------------------------------------

  /** `updateMany({ where: { key, active: true }, data: { active: false } })`. */
  function Deactivated(t: Table, key: string): (t': Table)
    ensures |t'| == |t|
  {
    seq(|t|, i requires 0 <= i < |t| => if t[i].key == key then t[i].(active := false) else t[i])
  }

  /** `update({ where: { key_version } })` of the flag. */
  function Flagged(t: Table, key: string, version: int, active: bool): (t': Table)
    ensures |t'| == |t|
  {
    seq(|t|, i requires 0 <= i < |t| =>
      if t[i].key == key && t[i].version == version then t[i].(active := active) else t[i])
  }

  predicate HasVersion(t: Table, key: string, version: int) {
    exists i :: 0 <= i < |t| && t[i].key == key && t[i].version == version
  }

  datatype Op =
    | Create(key: string, text: Draft, activate: bool)
    | Activate(key: string, version: int)
    | Publish(key: string)
    | SeedKey(key: string)

  type Builtin = map<string, Draft>

  function Added(t: Table, key: string, text: Draft, active: bool): Table {
    t + [Row(key, NextVersion(t, key), text, active)]
  }

  /** A new active version, all others of the key switched off. */
  function Published(t: Table, key: string, text: Draft): Table {
    Deactivated(t, key) + [Row(key, NextVersion(t, key), text, true)]
  }

  predicate UpToDate(builtin: Builtin, t: Table, key: string)
    requires key in builtin
  {
    match Newest(ActiveOfKey(key), t)
    case None => false
    case Some(a) => a.text.bodyMd == builtin[key].bodyMd && a.text.title == builtin[key].title
  }

  /** The seed leaves a key alone when its active version holds real content. */
  predicate Settled(t: Table, key: string) {
    match Newest(ActiveOfKey(key), t)
    case None => false
    case Some(a) => !IsStub(a.text.bodyMd)
  }

  /** The two writes with which the seed replaces a stub; without an active version the first is all. */
  function SeedFirstWrite(builtin: Builtin, t: Table, key: string): Table
    requires key in builtin
  {
    Added(t, key, builtin[key], true)
  }

  function Seeded(builtin: Builtin, t: Table, key: string): Table
    requires key in builtin
  {
    if Settled(t, key) then t
    else
      match Newest(ActiveOfKey(key), t)
      case None => SeedFirstWrite(builtin, t, key)
      case Some(a) => Flagged(SeedFirstWrite(builtin, t, key), key, a.version, false)
  }

  function After(builtin: Builtin, t: Table, op: Op): Table {
    match op
    case Create(key, text, activate) =>
      if key !in CONTRACT_KEYS then t
      else if activate then Published(t, key, text) else Added(t, key, text, false)
    case Activate(key, version) =>
      if key in CONTRACT_KEYS && HasVersion(t, key, version) then Flagged(Deactivated(t, key), key, version, true)
      else t
    case Publish(key) =>
      if key !in builtin || UpToDate(builtin, t, key) then t else Published(t, key, builtin[key])
    case SeedKey(key) =>
      if key !in builtin then t else Seeded(builtin, t, key)
  }

  ghost function AfterAll(builtin: Builtin, t: Table, ops: seq<Op>): Table {
    if ops == [] then t else After(builtin, AfterAll(builtin, t, ops[..|ops| - 1]), ops[|ops| - 1])
  }

  // ---------------------------------------------------------------------------
  // What the programs promise, row by row
  // ---------------------------------------------------------------------------

  /** An active row of the key that no other active row of it exceeds. */
  ghost predicate InForce(t: Table, key: string, a: Row) {
    a in t && a.key == key && a.active && forall r :: r in t && r.key == key && r.active ==> r.version <= a.version
  }

  /** One row more, a new version of the key. */
  ghost predicate NewVersion(t: Table, t': Table, key: string, text: Draft, active: bool) {
    && |t'| == |t| + 1
    && var row := t'[|t|];
       && row.key == key && row.text == text && row.active == active
       && (forall r :: r in t && r.key == key ==> r.version < row.version)
       && (row.version == 1 || exists r :: r in t && r.key == key && row.version == r.version + 1)
  }

  /** The rows that were there, those of the key switched off. */
  ghost predicate SwitchedOff(t: Table, t': Table, key: string) {
    |t| <= |t'| && forall i :: 0 <= i < |t| ==> t'[i] == if t[i].key == key then t[i].(active := false) else t[i]
  }

  /** The rows that were there, those of the version of `a` switched off. */
  ghost predicate OnlySwitchedOff(t: Table, t': Table, a: Row) {
    |t| <= |t'| && forall i :: 0 <= i < |t| ==>
      t'[i] == if t[i].key == a.key && t[i].version == a.version then t[i].(active := false) else t[i]
  }

  /** No other active row has the key and version of `a`. */
  ghost predicate Lonely(t: Table, a: Row) {
    forall r :: r in t && r.key == a.key && r.active && r.version == a.version ==> r == a
  }

  /** The text still carries the marker of the drafts, at any place. */
  ghost predicate CarriesMarker(bodyMd: string) {
    exists a, b :: bodyMd == a + "_Draft \U{2014} pending legal review (E10)._" + b
  }

  lemma {:induction false} IncludesSomewhere(s: string, part: string)
    ensures Includes(s, part) <==> exists a, b :: s == a + part + b
  {
    if part <= s {
      assert s == "" + part + s[|part|..];
    } else {
      if s != "" {
        IncludesSomewhere(s[1..], part);
        if Includes(s[1..], part) {
          var a, b :| s[1..] == a + part + b;
          assert s == ([s[0]] + a) + part + b;
        }
      }
      if a, b :| s == a + part + b {
        NotAtTheFront(s, a, part, b);
        assert s[1..] == a[1..] + part + b;
      }
    }
  }

  lemma NotAtTheFront(s: string, a: string, part: string, b: string)
    requires s == a + part + b && !(part <= s)
    ensures a != "" && s[1..] == a[1..] + part + b
  {
    assert a + part + b == a + (part + b);
  }

  lemma StubsCarryTheMarker(bodyMd: string)
    ensures IsStub(bodyMd) <==> CarriesMarker(bodyMd)
  {
    IncludesSomewhere(bodyMd, DRAFT_MARKER);
  }

  lemma NextIsExact(t: Table, key: string)
    ensures NextVersion(t, key) == 1 || exists r :: r in t && r.key == key && NextVersion(t, key) == r.version + 1
  {
    hide NewestFirst;
    NewestIsNewest(OfKey(key), t);
  }

  /** The row that the queries find is in force, and where there is none they find none. */
  lemma NewestIsInForce(t: Table, key: string)
    ensures match Newest(ActiveOfKey(key), t)
            case None => forall r :: r in t ==> !(r.key == key && r.active)
            case Some(a) => InForce(t, key, a)
  {
    hide NewestFirst;
    NewestIsNewest(ActiveOfKey(key), t);
  }

  lemma PublishedRows(t: Table, key: string, text: Draft)
    ensures NewVersion(t, Published(t, key, text), key, text, true) && SwitchedOff(t, Published(t, key, text), key)
  {
    NextIsNew(t, key);
    NextIsExact(t, key);
    hide NextVersion;
  }

  lemma AddedRows(t: Table, key: string, text: Draft, active: bool)
    ensures NewVersion(t, Added(t, key, text, active), key, text, active) && t <= Added(t, key, text, active)
  {
    NextIsNew(t, key);
    NextIsExact(t, key);
    hide NextVersion;
  }

  lemma SeededRows(builtin: Builtin, t: Table, key: string)
    requires key in builtin
    ensures var t' := Seeded(builtin, t, key);
            && ((forall r :: r in t ==> !(r.key == key && r.active)) ==>
                  NewVersion(t, t', key, builtin[key], true) && t <= t')
            && (forall a :: InForce(t, key, a) && Lonely(t, a) ==>
                  if CarriesMarker(a.text.bodyMd) then
                    NewVersion(t, t', key, builtin[key], true) && OnlySwitchedOff(t, t', a)
                  else t' == t)
  {
    hide NewestFirst, NextVersion, NewVersion;
    NewestIsInForce(t, key);
    AddedRows(t, key, builtin[key], true);
    NextIsNew(t, key);
    forall body: string
      ensures IsStub(body) <==> CarriesMarker(body)
    {
      StubsCarryTheMarker(body);
    }
    hide IsStub, CarriesMarker;
    var first := SeedFirstWrite(builtin, t, key);
    if Newest(ActiveOfKey(key), t).Some? {
      var a := Newest(ActiveOfKey(key), t).value;
      SameNewVersion(t, first, Flagged(first, key, a.version, false), key, builtin[key]);
    }
  }

  lemma SameNewVersion(t: Table, t': Table, t'': Table, key: string, text: Draft)
    requires NewVersion(t, t', key, text, true) && |t''| == |t'| && t''[|t|] == t'[|t|]
    ensures NewVersion(t, t'', key, text, true)
  {
  }

  // ---------------------------------------------------------------------------
  // The programs
  // ---------------------------------------------------------------------------

  datatype LegalError = UnknownTemplateKey | NotFound

  datatype View = View(versions: Table, active: Option<Row>)

  class LegalTemplates {
    var rows: Table
    const builtin: Builtin

    constructor (rows: Table, builtin: Builtin)
      ensures this.rows == rows && this.builtin == builtin
    {
      this.rows := rows;
      this.builtin := builtin;
    }

    method CreateVersion(key: string, text: Draft, activate: Option<bool>) returns (r: Result<Row, LegalError>)
      modifies this
      ensures rows == After(builtin, old(rows), Create(key, text, activate != Some(false)))
      ensures match r
              case Err(e) => key !in CONTRACT_KEYS && e == UnknownTemplateKey && rows == old(rows)
              case Ok(row) =>
                && key in CONTRACT_KEYS && rows != [] && row == rows[|rows| - 1]
                && NewVersion(old(rows), rows, key, text, activate != Some(false))
                && (activate == Some(false) ==> old(rows) <= rows)
                && (activate != Some(false) ==> SwitchedOff(old(rows), rows, key))
    {
      PublishedRows(rows, key, text);
      AddedRows(rows, key, text, false);
      if key !in CONTRACT_KEYS { return Err(UnknownTemplateKey); }
      var active := if activate.Some? then activate.value else true;
      var nextVersion := NextVersion(rows, key);
      if active { rows := Deactivated(rows, key); }
      rows := rows + [Row(key, nextVersion, text, active)];
      return Ok(rows[|rows| - 1]);
    }

    method ActivateVersion(key: string, version: int) returns (r: Result<Row, LegalError>)
      modifies this
      ensures rows == After(builtin, old(rows), Activate(key, version))
      ensures match r
              case Err(UnknownTemplateKey) => key !in CONTRACT_KEYS && rows == old(rows)
              case Err(NotFound) =>
                && key in CONTRACT_KEYS && rows == old(rows)
                && forall r :: r in old(rows) ==> !(r.key == key && r.version == version)
              case Ok(row) =>
                && row in rows && row.key == key && row.version == version && row.active
                && |rows| == |old(rows)|
                && forall i :: 0 <= i < |rows| ==>
                     rows[i] == if old(rows)[i].key == key then old(rows)[i].(active := old(rows)[i].version == version)
                                else old(rows)[i]
    {
      if key !in CONTRACT_KEYS { return Err(UnknownTemplateKey); }
      if !HasVersion(rows, key, version) { return Err(NotFound); }
      ghost var i :| 0 <= i < |rows| && rows[i].key == key && rows[i].version == version;
      ActivatedRows(rows, key, version);
      rows := Flagged(Deactivated(rows, key), key, version, true);
      assert rows[i].key == key && rows[i].version == version && rows[i].active;
      var row :| row in rows && row.key == key && row.version == version && row.active;
      return Ok(row);
    }

    method PublishTemplate(key: string, dryRun: bool) returns (r: Result<bool, LegalError>)
      modifies this
      ensures rows == if dryRun then old(rows) else After(builtin, old(rows), Publish(key))
      ensures r.Err? <==> key !in builtin
      ensures r.Ok? ==> (r.value <==> rows != old(rows))
      ensures r == Ok(true) ==>
                NewVersion(old(rows), rows, key, builtin[key], true) && SwitchedOff(old(rows), rows, key)
      ensures r == Ok(false) && !dryRun ==>
                exists a :: InForce(old(rows), key, a)
                  && a.text.bodyMd == builtin[key].bodyMd && a.text.title == builtin[key].title
      ensures r == Ok(true) ==>
                || (forall row :: row in old(rows) ==> !(row.key == key && row.active))
                || exists a :: InForce(old(rows), key, a)
                     && (a.text.bodyMd != builtin[key].bodyMd || a.text.title != builtin[key].title)
    {
      hide NewestFirst, InForce;
      NewestIsInForce(rows, key);
      if key !in builtin { return Err(UnknownTemplateKey); }
      var tpl := builtin[key];
      var active := Newest(ActiveOfKey(key), rows);
      if active.Some? && active.value.text.bodyMd == tpl.bodyMd && active.value.text.title == tpl.title {
        return Ok(false);
      }
      var nextVersion := NextVersion(rows, key);
      if dryRun { return Ok(false); }
      PublishedRows(rows, key, tpl);
      rows := Deactivated(rows, key) + [Row(key, nextVersion, tpl, true)];
      assert |rows| == |old(rows)| + 1;
      return Ok(true);
    }

    method SeedOne(key: string)
      requires key in builtin
      modifies this
      ensures rows == Seeded(builtin, old(rows), key)
      ensures (forall r :: r in old(rows) ==> !(r.key == key && r.active)) ==>
                NewVersion(old(rows), rows, key, builtin[key], true) && old(rows) <= rows
      ensures forall a :: InForce(old(rows), key, a) && Lonely(old(rows), a) ==>
                if CarriesMarker(a.text.bodyMd) then
                  NewVersion(old(rows), rows, key, builtin[key], true) && OnlySwitchedOff(old(rows), rows, a)
                else rows == old(rows)
    {
      hide IsStub, Sort, Filter, InForce, Lonely, NewVersion, CarriesMarker;
      SeededRows(builtin, rows, key);
      var tpl := builtin[key];
      var active := Newest(ActiveOfKey(key), rows);
      if active == None {
        rows := rows + [Row(key, NextVersion(rows, key), tpl, true)];
        return;
      }
      if IsStub(active.value.text.bodyMd) {
        rows := rows + [Row(key, NextVersion(rows, key), tpl, true)];
        rows := Flagged(rows, key, active.value.version, false);
      }
    }

    /** The whole seed of the templates. */
    method SeedContractTemplates()
      requires forall key :: key in CONTRACT_KEYS ==> key in builtin
      modifies this
      ensures rows == SeededAll(builtin, old(rows))
      ensures Sound(old(rows)) ==>
                HasActive(rows, "contract_de") && HasActive(rows, "contract_eu") && HasActive(rows, "contract_en")
    {
      if Sound(rows) { SeededUpToIsActive(builtin, rows, |CONTRACT_KEYS|); }
      assert Sound(rows) ==>
        HasActive(SeededAll(builtin, rows), CONTRACT_KEYS[0]) && HasActive(SeededAll(builtin, rows), CONTRACT_KEYS[1])
        && HasActive(SeededAll(builtin, rows), CONTRACT_KEYS[2]);
      hide Seeded, Sound, HasActive;
      for i := 0 to |CONTRACT_KEYS|
        invariant rows == SeededUpTo(builtin, old(rows), i)
      {
        assert CONTRACT_KEYS[i] in CONTRACT_KEYS;
        SeedOne(CONTRACT_KEYS[i]);
      }
    }

    /** What the panel shows for a key. */
    method GetByKey(key: string) returns (r: Result<View, LegalError>)
      ensures r.Err? <==> key !in CONTRACT_KEYS
      ensures r.Ok? ==> r.value.versions == NewestFirst(OfKey(key), rows)
      ensures r.Ok? ==> forall row ::
                multiset(r.value.versions)[row] == if row.key == key then multiset(rows)[row] else 0
      ensures r.Ok? ==> forall i, j :: 0 <= i < j < |r.value.versions| ==>
                r.value.versions[j].version <= r.value.versions[i].version
      ensures r.Ok? ==> match r.value.active
                        case None => forall row :: row in rows ==> !(row.key == key && row.active)
                        case Some(a) => InForce(rows, key, a)
      ensures r.Ok? ==> r.value.active == Newest(ActiveOfKey(key), rows)
    {
      if key !in CONTRACT_KEYS { return Err(UnknownTemplateKey); }
      var versions := NewestFirst(OfKey(key), rows);
      var active := None;
      var i := 0;
      while i < |versions| && active == None
        invariant i <= |versions|
        invariant active == FirstActive(versions[..i])
      {
        FirstActiveAppend(versions[..i], versions[i]);
        assert versions[..i + 1] == versions[..i] + [versions[i]];
        if versions[i].active { active := Some(versions[i]); }
        i := i + 1;
      }
      FirstActiveOfAll(versions, i);
      FirstActiveIsNewest(key, rows);
      NewestIsInForce(rows, key);
      ListingOfKey(rows, key);
      return Ok(View(versions, active));
    }
  }

  function SeededUpTo(builtin: Builtin, t: Table, n: nat): Table
    requires n <= |CONTRACT_KEYS| && forall key :: key in CONTRACT_KEYS ==> key in builtin
  {
    if n == 0 then t
    else
      assert CONTRACT_KEYS[n - 1] in CONTRACT_KEYS;
      Seeded(builtin, SeededUpTo(builtin, t, n - 1), CONTRACT_KEYS[n - 1])
  }

  function SeededAll(builtin: Builtin, t: Table): Table
    requires forall key :: key in CONTRACT_KEYS ==> key in builtin
  {
    SeededUpTo(builtin, t, |CONTRACT_KEYS|)
  }

  /** The listing of a key: its rows and no others, each as often as it is there, newest first. */
  lemma ListingOfKey(t: Table, key: string)
    ensures forall row: Row ::
              multiset(NewestFirst(OfKey(key), t))[row] == if row.key == key then multiset(t)[row] else 0
    ensures var rows := NewestFirst(OfKey(key), t);
            forall i, j :: 0 <= i < j < |rows| ==> rows[j].version <= rows[i].version
  {
    SortLaws(ByVersionDesc(), Filter(OfKey(key), t));
    var rows := NewestFirst(OfKey(key), t);
    forall row: Row
      ensures multiset(rows)[row] == if row.key == key then multiset(t)[row] else 0
    {
      FilterCount(OfKey(key), t, row);
    }
    forall i, j | 0 <= i < j < |rows|
      ensures rows[j].version <= rows[i].version
    {
      SortedAt(ByVersionDesc(), rows, i, j);
    }
  }

  lemma {:induction false} FilterCount<T(!new)>(p: T -> bool, s: seq<T>, x: T)
    ensures multiset(Filter(p, s))[x] == if p(x) then multiset(s)[x] else 0
  {
    if s != [] {
      FilterCount(p, s[1..], x);
      MultisetTail(s);
    }
  }

  function FirstActive(t: Table): Option<Row> {
    if t == [] then None else if t[0].active then Some(t[0]) else FirstActive(t[1..])
  }

  lemma {:induction false} FirstActiveAppend(t: Table, r: Row)
    ensures FirstActive(t + [r]) == if FirstActive(t).Some? then FirstActive(t) else if r.active then Some(r) else None
  {
    if t == [] {
      assert t + [r] == [r] && [r][1..] == [];
    } else {
      FirstActiveAppend(t[1..], r);
      assert (t + [r])[1..] == t[1..] + [r];
    }
  }

  lemma {:induction false} FirstActiveOfAll(t: Table, i: nat)
    requires i <= |t| && (i == |t| || FirstActive(t[..i]).Some?)
    ensures FirstActive(t) == FirstActive(t[..i])
    decreases |t| - i
  {
    if i == |t| {
      assert t[..i] == t;
    } else {
      assert t[..i + 1] == t[..i] + [t[i]];
      FirstActiveAppend(t[..i], t[i]);
      FirstActiveOfAll(t, i + 1);
    }
  }

  lemma {:induction false} FirstActiveFiltered(t: Table)
    ensures FirstActive(t) == if Filter(IsActive, t) == [] then None else Some(Filter(IsActive, t)[0])
  {
    if t != [] { FirstActiveFiltered(t[1..]); }
  }

  lemma {:induction false} FilterTwice(p: Row -> bool, q: Row -> bool, both: Row -> bool, t: Table)
    requires forall r :: both(r) <==> p(r) && q(r)
    ensures Filter(q, Filter(p, t)) == Filter(both, t)
  {
    if t != [] {
      FilterTwice(p, q, both, t[1..]);
      var rest := Filter(p, t[1..]);
      assert ([t[0]] + rest)[1..] == rest;
    }
  }

  /** The first active row of the listing is the row that the other programs look up. */
  lemma FirstActiveIsNewest(key: string, t: Table)
    ensures FirstActive(NewestFirst(OfKey(key), t)) == Newest(ActiveOfKey(key), t)
  {
    FirstActiveFiltered(NewestFirst(OfKey(key), t));
    FilterSort(ByVersionDesc(), IsActive, Filter(OfKey(key), t));
    FilterTwice(OfKey(key), IsActive, ActiveOfKey(key), t);
  }

  // ---------------------------------------------------------------------------
  // Invariants
  // ---------------------------------------------------------------------------

  /** Every version of a key exceeds all that were created before it. */
  ghost predicate Increasing(t: Table) {
    forall i, j :: 0 <= i < j < |t| && t[i].key == t[j].key ==> t[i].version < t[j].version
  }

  ghost predicate OneActive(t: Table, key: string) {
    forall i, j :: 0 <= i < j < |t| && t[i].key == key == t[j].key ==> !(t[i].active && t[j].active)
  }

  ghost predicate Sound(t: Table) {
    Increasing(t) && forall key :: OneActive(t, key)
  }

  ghost predicate HasActive(t: Table, key: string) {
    exists r :: r in t && r.key == key && r.active
  }

  /** Rows are never removed and their key, version and text never change. */
  ghost predicate Frozen(t: Table, t': Table) {
    |t| <= |t'| && forall i :: 0 <= i < |t| ==> t'[i].(active := t[i].active) == t[i]
  }

  ghost predicate Untouched(t: Table, t': Table, key: string) {
    && |t| <= |t'| && (forall i :: 0 <= i < |t| && t[i].key == key ==> t'[i] == t[i])
    && (forall i :: |t| <= i < |t'| ==> t'[i].key != key)
  }

  lemma NextIsNew(t: Table, key: string)
    ensures forall r :: r in t && r.key == key ==> r.version < NextVersion(t, key)
  {
    hide NewestFirst;
    NewestIsNewest(OfKey(key), t);
  }

  lemma AddedKeeps(t: Table, key: string, text: Draft, active: bool)
    requires Increasing(t)
    ensures var t' := Added(t, key, text, active);
            && Increasing(t') && Frozen(t, t')
            && (forall k :: k != key ==> Untouched(t, t', k))
            && (forall k :: OneActive(t, k) && (k == key && active ==> !HasActive(t, k)) ==> OneActive(t', k))
  {
    hide Newest;
    NextIsNew(t, key);
  }

  lemma PublishedKeeps(t: Table, key: string, text: Draft)
    requires Increasing(t)
    ensures var t' := Published(t, key, text);
            && Increasing(t') && Frozen(t, t') && OneActive(t', key) && HasActive(t', key)
            && (forall k :: k != key ==> Untouched(t, t', k))
            && (forall r :: r in t' && r.key == key && r.active ==> r.text == text)
  {
    hide Newest;
    NextIsNew(t, key);
    var t' := Published(t, key, text);
    assert t'[|t|] in t' && t'[|t|].active;
  }

  lemma ActivatedKeeps(t: Table, key: string, version: int)
    requires Increasing(t) && HasVersion(t, key, version)
    ensures var t' := Flagged(Deactivated(t, key), key, version, true);
            && Increasing(t') && Frozen(t, t') && OneActive(t', key) && HasActive(t', key)
            && (forall k :: k != key ==> Untouched(t, t', k))
            && (forall r :: r in t' && r.key == key && r.active ==> r.version == version)
  {
    var t' := Flagged(Deactivated(t, key), key, version, true);
    ActivatedRows(t, key, version);
    hide Flagged, Deactivated;
    var i :| 0 <= i < |t| && t[i].key == key && t[i].version == version;
    assert t'[i] in t' && t'[i].active;
    forall i, j | 0 <= i < j < |t'| && t'[i].key == key == t'[j].key
      ensures !(t'[i].active && t'[j].active)
    {
      assert t[i].key == t[j].key;
    }
  }

  lemma ActivatedRows(t: Table, key: string, version: int)
    ensures var t' := Flagged(Deactivated(t, key), key, version, true);
            |t'| == |t| && forall i :: 0 <= i < |t| ==>
              t'[i] == if t[i].key == key then t[i].(active := t[i].version == version) else t[i]
  {
  }

  lemma SeededKeeps(builtin: Builtin, t: Table, key: string)
    requires key in builtin && Increasing(t) && OneActive(t, key)
    ensures var t' := Seeded(builtin, t, key);
            && Increasing(t') && Frozen(t, t') && OneActive(t', key) && HasActive(t', key)
            && (forall k :: k != key ==> Untouched(t, t', k))
    ensures !Settled(t, key) ==>
              var t' := Seeded(builtin, t, key);
              |t'| == |t| + 1 && forall r :: r in t' && r.key == key && r.active ==> r.text == builtin[key]
  {
    hide Newest, IsStub;
    NewestIsNewest(ActiveOfKey(key), t);
    NextIsNew(t, key);
    AddedKeeps(t, key, builtin[key], true);
    var t' := Seeded(builtin, t, key);
    if Settled(t, key) {
      assert HasActive(t, key);
    } else {
      assert t'[|t|] in t' && t'[|t|].active;
      forall i | 0 <= i < |t| && t'[i].key == key
        ensures !t'[i].active
      {
        if t[i].active { OnlyTheNewest(t, key, i); }
      }
    }
  }

  /** Where at most one row is active, it is the one that is looked up. */
  lemma OnlyTheNewest(t: Table, key: string, i: nat)
    requires OneActive(t, key) && i < |t| && t[i].key == key && t[i].active
    ensures Newest(ActiveOfKey(key), t) == Some(t[i])
  {
    hide Newest;
    NewestIsNewest(ActiveOfKey(key), t);
    assert t[i] in t;
    var n := Newest(ActiveOfKey(key), t).value;
    var j :| 0 <= j < |t| && t[j] == n;
    assert i == j;
  }

  lemma UntouchedKeeps(t: Table, t': Table, key: string)
    requires Untouched(t, t', key) && Frozen(t, t')
    ensures OneActive(t, key) ==> OneActive(t', key)
    ensures HasActive(t, key) ==> HasActive(t', key)
  {
    if HasActive(t, key) {
      var r :| r in t && r.key == key && r.active;
      var i :| 0 <= i < |t| && t[i] == r;
      assert t'[i] in t';
    }
  }

  /** What one operation of any of the programs keeps. */
  lemma StepKeeps(builtin: Builtin, t: Table, op: Op)
    requires Sound(t)
    ensures Sound(After(builtin, t, op)) && Frozen(t, After(builtin, t, op))
    ensures forall key :: HasActive(t, key) ==> HasActive(After(builtin, t, op), key)
  {
    hide Newest, IsStub, Published, Added, Seeded, Deactivated, Flagged, UpToDate, Increasing, OneActive, HasActive;
    var t' := After(builtin, t, op);
    if t' != t {
      var key := op.key;
      match op {
        case Create(_, text, activate) =>
          if activate {
            PublishedKeeps(t, key, text);
          } else {
            AddedKeeps(t, key, text, false);
            AddedStays(t, key, text);
          }
        case Activate(_, version) => ActivatedKeeps(t, key, version);
        case Publish(_) => PublishedKeeps(t, key, builtin[key]);
        case SeedKey(_) => SeededKeeps(builtin, t, key);
      }
      forall k
        ensures OneActive(t', k) && (HasActive(t, k) ==> HasActive(t', k))
      {
        if k != key { UntouchedKeeps(t, t', k); }
      }
    }
  }

  lemma AddedStays(t: Table, key: string, text: Draft)
    ensures HasActive(t, key) ==> HasActive(Added(t, key, text, false), key)
  {
    if HasActive(t, key) {
      var r :| r in t && r.key == key && r.active;
      assert r in Added(t, key, text, false);
    }
  }

  lemma FrozenTransitive(t: Table, t': Table, t'': Table)
    requires Frozen(t, t') && Frozen(t', t'')
    ensures Frozen(t, t'')
  {
  }

  /**
   Over any sequence of operations: at most one active version of each key, none of them lost once
   there was one, growing version numbers, and nothing rewritten.
   */
  lemma {:induction false} RunKeeps(builtin: Builtin, t: Table, ops: seq<Op>)
    requires Sound(t)
    ensures Sound(AfterAll(builtin, t, ops)) && Frozen(t, AfterAll(builtin, t, ops))
    ensures forall key :: HasActive(t, key) ==> HasActive(AfterAll(builtin, t, ops), key)
  {
    hide After, Sound, Frozen, HasActive;
    if ops == [] {
      FrozenItself(t);
    } else {
      var before := AfterAll(builtin, t, ops[..|ops| - 1]);
      RunKeeps(builtin, t, ops[..|ops| - 1]);
      StepKeeps(builtin, before, ops[|ops| - 1]);
      FrozenTransitive(t, before, AfterAll(builtin, t, ops));
    }
  }

  lemma FrozenItself(t: Table)
    ensures Frozen(t, t)
  {
  }

  lemma EmptyIsSound()
    ensures Sound([])
  {
  }

  /** From the empty table: every table the four programs can produce. */
  lemma RunFromNothing(builtin: Builtin, ops: seq<Op>)
    ensures Sound(AfterAll(builtin, [], ops))
  {
    EmptyIsSound();
    RunKeeps(builtin, [], ops);
  }

  /** What a rendered contract points at, a key and a version, means one text for ever. */
  lemma VersionsAreForEver(builtin: Builtin, t: Table, ops: seq<Op>, i: nat, j: nat)
    requires Sound(t) && i < |t| && j < |AfterAll(builtin, t, ops)|
    requires var u := AfterAll(builtin, t, ops); u[j].key == t[i].key && u[j].version == t[i].version
    ensures AfterAll(builtin, t, ops)[j].text == t[i].text
  {
    hide AfterAll;
    RunKeeps(builtin, t, ops);
    assert i == j;
  }

  // ---------------------------------------------------------------------------
  // The seed once more
  // ---------------------------------------------------------------------------

  /** Whether a key is settled depends on its active row alone. */
  lemma SettledByRow(t: Table, key: string, i: nat)
    requires OneActive(t, key) && i < |t| && t[i].key == key && t[i].active
    ensures Settled(t, key) <==> !IsStub(t[i].text.bodyMd)
  {
    hide Newest, IsStub;
    OnlyTheNewest(t, key, i);
  }

  lemma UntouchedSettled(t: Table, t': Table, key: string)
    requires Untouched(t, t', key) && Frozen(t, t') && OneActive(t, key)
    ensures Settled(t', key) <==> Settled(t, key)
  {
    hide Newest, IsStub;
    UntouchedKeeps(t, t', key);
    NewestIsNewest(ActiveOfKey(key), t);
    NewestIsNewest(ActiveOfKey(key), t');
    if HasActive(t, key) {
      var r :| r in t && r.key == key && r.active;
      var i :| 0 <= i < |t| && t[i] == r;
      SettledByRow(t, key, i);
      SettledByRow(t', key, i);
    }
  }

  lemma SettledAfterwards(builtin: Builtin, t: Table, key: string)
    requires key in builtin && Increasing(t) && OneActive(t, key)
    ensures Settled(Seeded(builtin, t, key), key) <==> Settled(t, key) || !IsStub(builtin[key].bodyMd)
  {
    hide Newest, IsStub;
    SeededKeeps(builtin, t, key);
    if !Settled(t, key) {
      var t' := Seeded(builtin, t, key);
      var r :| r in t' && r.key == key && r.active;
      var i :| 0 <= i < |t'| && t'[i] == r;
      SettledByRow(t', key, i);
    }
  }

  lemma KeysDiffer()
    ensures forall i, j :: 0 <= i < j < |CONTRACT_KEYS| ==> CONTRACT_KEYS[i] != CONTRACT_KEYS[j]
  {
    assert "contract_de"[9] == 'd' && "contract_eu"[9] == 'e' && "contract_en"[9] == 'e';
    assert "contract_eu"[10] == 'u' && "contract_en"[10] == 'n';
  }

  ghost predicate Complete(builtin: Builtin) {
    forall key :: key in CONTRACT_KEYS ==> key in builtin
  }

  lemma {:induction false} SeededUpToSettles(builtin: Builtin, t: Table, n: nat)
    requires Complete(builtin) && Sound(t) && n <= |CONTRACT_KEYS|
    ensures var t' := SeededUpTo(builtin, t, n);
            && Sound(t') && |t| <= |t'| && (t' == t <==> forall j :: 0 <= j < n ==> Settled(t, CONTRACT_KEYS[j]))
            && (t' != t ==> |t| < |t'|)
            && (forall j :: 0 <= j < |CONTRACT_KEYS| ==>
                  (Settled(t', CONTRACT_KEYS[j]) <==>
                     Settled(t, CONTRACT_KEYS[j]) || (j < n && !IsStub(builtin[CONTRACT_KEYS[j]].bodyMd))))
  {
    hide Newest, IsStub, Seeded, Settled, Frozen, Untouched, HasActive, Increasing, OneActive;
    KeysDiffer();
    hide CONTRACT_KEYS;
    if n != 0 {
      SeededUpToSettles(builtin, t, n - 1);
      var before := SeededUpTo(builtin, t, n - 1);
      var key := CONTRACT_KEYS[n - 1];
      assert key in CONTRACT_KEYS;
      SeededKeeps(builtin, before, key);
      StepKeeps(builtin, before, SeedKey(key));
      SettledAfterwards(builtin, before, key);
      forall j | 0 <= j < |CONTRACT_KEYS| && j != n - 1
        ensures Settled(Seeded(builtin, before, key), CONTRACT_KEYS[j]) <==> Settled(before, CONTRACT_KEYS[j])
      {
        UntouchedSettled(before, Seeded(builtin, before, key), CONTRACT_KEYS[j]);
      }
      if Settled(before, key) { SettledStays(builtin, before, key); }
    }
  }

  lemma {:induction false} SeededUpToIsActive(builtin: Builtin, t: Table, n: nat)
    requires Complete(builtin) && Sound(t) && n <= |CONTRACT_KEYS|
    ensures var t' := SeededUpTo(builtin, t, n);
            Sound(t') && forall j :: 0 <= j < n ==> HasActive(t', CONTRACT_KEYS[j])
  {
    hide Sound, Seeded, HasActive, CONTRACT_KEYS, Frozen;
    if n != 0 {
      SeededUpToIsActive(builtin, t, n - 1);
      var before := SeededUpTo(builtin, t, n - 1);
      var key := CONTRACT_KEYS[n - 1];
      assert key in CONTRACT_KEYS;
      StepKeeps(builtin, before, SeedKey(key));
      SeededHasActive(builtin, before, key);
    }
  }

  lemma SeededHasActive(builtin: Builtin, t: Table, key: string)
    requires key in builtin && Sound(t)
    ensures HasActive(Seeded(builtin, t, key), key)
  {
    SeededKeeps(builtin, t, key);
  }

  lemma SettledStays(builtin: Builtin, t: Table, key: string)
    requires key in builtin && Settled(t, key)
    ensures Seeded(builtin, t, key) == t
  {
  }

  /** A second seed writes nothing exactly when no built-in text that the first one put in force is a draft. */
  lemma SecondSeedWritesNothing(builtin: Builtin, t: Table)
    requires Complete(builtin) && Sound(t)
    ensures SeededAll(builtin, SeededAll(builtin, t)) == SeededAll(builtin, t) <==>
              forall j :: 0 <= j < |CONTRACT_KEYS| ==>
                Settled(t, CONTRACT_KEYS[j]) || !IsStub(builtin[CONTRACT_KEYS[j]].bodyMd)
  {
    hide SeededUpTo, Settled, IsStub, Sound, CONTRACT_KEYS;
    SeededUpToSettles(builtin, t, |CONTRACT_KEYS|);
    SeededUpToSettles(builtin, SeededAll(builtin, t), |CONTRACT_KEYS|);
  }

  /**
   A seed that dies between its two writes leaves two active versions. Neither the next seed nor a
   publish mends it, for both find the new text in force; the next version created active does, and
   so does activating any version.
   */
  lemma SeedCutInTwo(builtin: Builtin, t: Table, key: string, text: Draft, version: int)
    requires key in builtin && Sound(t) && HasActive(t, key) && !IsStub(builtin[key].bodyMd)
    ensures var cut := SeedFirstWrite(builtin, t, key);
            && !OneActive(cut, key)
            && After(builtin, cut, SeedKey(key)) == cut && After(builtin, cut, Publish(key)) == cut
            && (key in CONTRACT_KEYS ==> Sound(After(builtin, cut, Create(key, text, true))))
            && (key in CONTRACT_KEYS && HasVersion(cut, key, version) ==>
                  Sound(After(builtin, cut, Activate(key, version))))
  {
    hide Newest, IsStub, CONTRACT_KEYS, Sound, Published, Flagged, Deactivated;
    CutHasTwo(builtin, t, key);
    CutIsMended(builtin, t, key, text, version);
  }

  lemma CutIsMended(builtin: Builtin, t: Table, key: string, text: Draft, version: int)
    requires key in builtin && Sound(t)
    ensures var cut := SeedFirstWrite(builtin, t, key);
            && Sound(Published(cut, key, text))
            && (HasVersion(cut, key, version) ==> Sound(Flagged(Deactivated(cut, key), key, version, true)))
  {
    hide Newest, Increasing, OneActive, Untouched, Frozen, HasVersion, HasActive;
    hide Published, Flagged, Deactivated, Added;
    var cut := SeedFirstWrite(builtin, t, key);
    AddedKeeps(t, key, builtin[key], true);
    forall k | k != key
      ensures OneActive(cut, k)
    {
      UntouchedKeeps(t, cut, k);
    }
    PublishedKeeps(cut, key, text);
    OthersStaySound(cut, Published(cut, key, text), key);
    if HasVersion(cut, key, version) {
      ActivatedKeeps(cut, key, version);
      OthersStaySound(cut, Flagged(Deactivated(cut, key), key, version, true), key);
    }
  }

  lemma CutHasTwo(builtin: Builtin, t: Table, key: string)
    requires key in builtin && HasActive(t, key)
    ensures var cut := SeedFirstWrite(builtin, t, key);
            && !OneActive(cut, key)
            && Newest(ActiveOfKey(key), cut).Some? && Newest(ActiveOfKey(key), cut).value.text == builtin[key]
  {
    hide Newest, IsStub;
    var cut := SeedFirstWrite(builtin, t, key);
    NextIsNew(t, key);
    NewestIsNewest(ActiveOfKey(key), cut);
    assert cut[|t|] in cut && cut[|t|].active;
    var r :| r in t && r.key == key && r.active;
    var i :| 0 <= i < |t| && t[i] == r;
    assert cut[i] == r;
  }

  lemma OthersStaySound(cut: Table, t': Table, key: string)
    requires Increasing(t') && OneActive(t', key) && Frozen(cut, t')
    requires forall k :: k != key ==> OneActive(cut, k) && Untouched(cut, t', k)
    ensures Sound(t')
  {
    hide Increasing, OneActive, Untouched, Frozen;
    forall k | k != key
      ensures OneActive(t', k)
    {
      UntouchedKeeps(cut, t', k);
    }
  }
}
