/**
 The merge of the translated sidecars into the catalog (src/catalog/catalog.i18n.ts). Labels are
 objects that several keys may share; the merge writes them in place through an index of references.
 */
module CatalogI18n {
  import opened Wrappers
  import opened Sorting

  /** A localized label: texts by locale tag. */
  class Label {
    var texts: map<string, string>

    constructor (texts: map<string, string>)
      ensures this.texts == texts
    {
      this.texts := texts;
    }
  }

  datatype Item = Item(id: string, caption: Label?, hint: Label?)

  datatype Catalog = Catalog(
    angles: seq<Item>, groups: seq<Item>, subgroups: seq<Item>, parts: seq<Item>, damageTypes: seq<Item>,
    repairMethods: seq<Item>, kstCodes: seq<Item>, checklist: seq<Item>, thicknessPanels: seq<Item>)

  type Index = map<string, Label>

  datatype Json = Text(s: string) | NoText

  datatype Pair = Pair(key: string, value: Json)

  /** One file, `catalog.<tag>.json`. */
  datatype Sidecar = Sidecar(tag: string, entries: seq<Pair>)

  datatype MergeReport = MergeReport(tags: seq<string>, applied: map<string, nat>, orphans: map<string, seq<string>>)

  // ---------------------------------------------------------------------------
  // The index
  // ---------------------------------------------------------------------------

  type Adds = seq<(string, Label?)>

  function LabelAdds(collection: string, items: seq<Item>): Adds {
    if items == [] then []
    else [(collection + "." + items[0].id, items[0].caption)] + LabelAdds(collection, items[1..])
  }

  function AngleAdds(items: seq<Item>): Adds {
    if items == [] then []
    else
      var key := "angles." + items[0].id;
      [(key, items[0].caption), (key + ".hint", items[0].hint)] + AngleAdds(items[1..])
  }

  /** All the calls of `add`, in order. */
  function AddsOf(c: Catalog): Adds {
    AngleAdds(c.angles) + LabelAdds("groups", c.groups) + LabelAdds("subgroups", c.subgroups)
    + LabelAdds("parts", c.parts) + LabelAdds("damageTypes", c.damageTypes)
    + LabelAdds("repairMethods", c.repairMethods) + LabelAdds("kstCodes", c.kstCodes)
    + LabelAdds("checklist", c.checklist) + LabelAdds("thicknessPanels", c.thicknessPanels)
  }

  /** The last add of a key that carries a label. */
  function LastAdd(adds: Adds, key: string): Label? {
    if adds == [] then null
    else
      var a := adds[|adds| - 1];
      if a.0 == key && a.1 != null then a.1 else LastAdd(adds[..|adds| - 1], key)
  }

  ghost predicate IsIndexOf(index: Index, adds: Adds) {
    forall key :: if key in index then LastAdd(adds, key) == index[key] else LastAdd(adds, key) == null
  }

  lemma LastAddAppend(adds: Adds, a: (string, Label?))
    ensures forall key :: LastAdd(adds + [a], key) == if a.0 == key && a.1 != null then a.1 else LastAdd(adds, key)
  {
    assert (adds + [a])[..|adds|] == adds;
  }

  /** The keys and labels of one collection, written out. */
  ghost predicate NamesIn(collection: string, items: seq<Item>, key: string, l: Label?) {
    exists i :: 0 <= i < |items| && key == collection + "." + items[i].id && l == items[i].caption
  }

  ghost predicate HintsIn(angles: seq<Item>, key: string, l: Label?) {
    exists i :: 0 <= i < |angles| && key == "angles." + angles[i].id + ".hint" && l == angles[i].hint
  }

  /** `l` stands in the catalog under `key`: `<collection>.<id>`, and `.hint` behind it for the hint of an angle. */
  ghost predicate Names(c: Catalog, key: string, l: Label?) {
    || NamesIn("angles", c.angles, key, l)
    || HintsIn(c.angles, key, l)
    || NamesIn("groups", c.groups, key, l) || NamesIn("subgroups", c.subgroups, key, l)
    || NamesIn("parts", c.parts, key, l) || NamesIn("damageTypes", c.damageTypes, key, l)
    || NamesIn("repairMethods", c.repairMethods, key, l) || NamesIn("kstCodes", c.kstCodes, key, l)
    || NamesIn("checklist", c.checklist, key, l) || NamesIn("thicknessPanels", c.thicknessPanels, key, l)
  }

  lemma NamesInCons(collection: string, items: seq<Item>, key: string, l: Label?)
    requires items != []
    ensures NamesIn(collection, items, key, l) <==>
              || (key == collection + "." + items[0].id && l == items[0].caption)
              || NamesIn(collection, items[1..], key, l)
  {
    var rest := items[1..];
    if i :| 0 <= i < |items| && key == collection + "." + items[i].id && l == items[i].caption && i != 0 {
      assert rest[i - 1] == items[i];
    }
    if i :| 0 <= i < |rest| && key == collection + "." + rest[i].id && l == rest[i].caption {
      assert items[i + 1] == rest[i];
    }
  }

  lemma HintsInCons(items: seq<Item>, key: string, l: Label?)
    requires items != []
    ensures HintsIn(items, key, l) <==>
              (key == "angles." + items[0].id + ".hint" && l == items[0].hint) || HintsIn(items[1..], key, l)
  {
    var rest := items[1..];
    if i :| 0 <= i < |items| && key == "angles." + items[i].id + ".hint" && l == items[i].hint && i != 0 {
      assert rest[i - 1] == items[i];
    }
    if i :| 0 <= i < |rest| && key == "angles." + rest[i].id + ".hint" && l == rest[i].hint {
      assert items[i + 1] == rest[i];
    }
  }

  lemma {:induction false} LabelAddsName(collection: string, items: seq<Item>, key: string, l: Label?)
    ensures (key, l) in LabelAdds(collection, items) <==> NamesIn(collection, items, key, l)
  {
    if items != [] {
      hide NamesIn;
      LabelAddsName(collection, items[1..], key, l);
      NamesInCons(collection, items, key, l);
    }
  }

  lemma {:induction false} AngleAddsName(items: seq<Item>, key: string, l: Label?)
    ensures (key, l) in AngleAdds(items) <==> NamesIn("angles", items, key, l) || HintsIn(items, key, l)
  {
    if items != [] {
      hide NamesIn, HintsIn;
      AngleAddsName(items[1..], key, l);
      NamesInCons("angles", items, key, l);
      HintsInCons(items, key, l);
      assert "angles" + "." == "angles.";
    }
  }

  lemma AddsAreNames(c: Catalog, key: string, l: Label?)
    ensures (key, l) in AddsOf(c) <==> Names(c, key, l)
  {
    hide LabelAdds, AngleAdds, NamesIn, HintsIn;
    AngleAddsName(c.angles, key, l);
    LabelAddsName("groups", c.groups, key, l);
    LabelAddsName("subgroups", c.subgroups, key, l);
    LabelAddsName("parts", c.parts, key, l);
    LabelAddsName("damageTypes", c.damageTypes, key, l);
    LabelAddsName("repairMethods", c.repairMethods, key, l);
    LabelAddsName("kstCodes", c.kstCodes, key, l);
    LabelAddsName("checklist", c.checklist, key, l);
    LabelAddsName("thicknessPanels", c.thicknessPanels, key, l);
  }

  lemma {:induction false} LastAddIsAdded(adds: Adds, key: string)
    ensures LastAdd(adds, key) != null ==> (key, LastAdd(adds, key)) in adds
    ensures forall l: Label :: (key, l) in adds ==> LastAdd(adds, key) != null
  {
    if adds != [] {
      LastAddIsAdded(adds[..|adds| - 1], key);
      assert adds == adds[..|adds| - 1] + [adds[|adds| - 1]];
    }
  }

  /** Every label of the catalog is indexed under its keys, and nothing else is. */
  lemma IndexIsOfTheCatalog(index: Index, c: Catalog)
    requires IsIndexOf(index, AddsOf(c))
    ensures forall key :: key in index ==> Names(c, key, index[key])
    ensures forall key, l: Label :: Names(c, key, l) ==> key in index
  {
    hide AddsOf, Names, LastAdd;
    forall key | key in index
      ensures Names(c, key, index[key])
    {
      LastAddIsAdded(AddsOf(c), key);
      AddsAreNames(c, key, index[key]);
    }
    forall key, l: Label | Names(c, key, l)
      ensures key in index
    {
      LastAddIsAdded(AddsOf(c), key);
      AddsAreNames(c, key, l);
    }
  }

  method Add(index: Index, key: string, l: Label?, ghost adds: Adds) returns (index': Index)
    requires IsIndexOf(index, adds)
    ensures IsIndexOf(index', adds + [(key, l)])
  {
    LastAddAppend(adds, (key, l));
    index' := index;
    if l != null { index' := index[key := l]; }
  }

  lemma {:induction false} LabelAddsNext(collection: string, items: seq<Item>, i: nat)
    requires i < |items|
    ensures LabelAdds(collection, items[..i + 1])
            == LabelAdds(collection, items[..i]) + [(collection + "." + items[i].id, items[i].caption)]
  {
    if i == 0 {
      assert items[..1] == [items[0]] && items[..0] == [];
    } else {
      LabelAddsNext(collection, items[1..], i - 1);
      assert items[..i + 1][1..] == items[1..][..i] && items[..i][1..] == items[1..][..i - 1];
    }
  }

  lemma {:induction false} AngleAddsNext(items: seq<Item>, i: nat)
    requires i < |items|
    ensures var key := "angles." + items[i].id;
            AngleAdds(items[..i + 1])
            == AngleAdds(items[..i]) + [(key, items[i].caption)] + [(key + ".hint", items[i].hint)]
  {
    if i == 0 {
      assert items[..1] == [items[0]] && items[..0] == [];
    } else {
      AngleAddsNext(items[1..], i - 1);
      assert items[..i + 1][1..] == items[1..][..i] && items[..i][1..] == items[1..][..i - 1];
    }
  }

  method AddLabels(index: Index, collection: string, items: seq<Item>, ghost adds: Adds) returns (index': Index)
    requires IsIndexOf(index, adds)
    ensures IsIndexOf(index', adds + LabelAdds(collection, items))
  {
    hide IsIndexOf, LabelAdds;
    index' := index;
    NoAdds(collection);
    assert adds + LabelAdds(collection, items[..0]) == adds;
    for i := 0 to |items|
      invariant IsIndexOf(index', adds + LabelAdds(collection, items[..i]))
    {
      LabelAddsNext(collection, items, i);
      ghost var before := adds + LabelAdds(collection, items[..i]);
      index' := Add(index', collection + "." + items[i].id, items[i].caption, before);
      assert adds + LabelAdds(collection, items[..i + 1])
          == before + [(collection + "." + items[i].id, items[i].caption)];
    }
    assert items[..|items|] == items;
  }

  lemma NoAdds(collection: string)
    ensures LabelAdds(collection, []) == [] && AngleAdds([]) == []
  {
  }

  method AddAngles(items: seq<Item>) returns (index: Index)
    ensures IsIndexOf(index, AngleAdds(items))
  {
    index := map[];
    for i := 0 to |items|
      invariant IsIndexOf(index, AngleAdds(items[..i]))
    {
      AngleAddsNext(items, i);
      var key := "angles." + items[i].id;
      ghost var before := AngleAdds(items[..i]);
      index := Add(index, key, items[i].caption, before);
      index := Add(index, key + ".hint", items[i].hint, before + [(key, items[i].caption)]);
    }
    assert items[..|items|] == items;
  }

  method IndexLabels(c: Catalog) returns (index: Index)
    ensures IsIndexOf(index, AddsOf(c))
    ensures forall key :: key in index ==> Names(c, key, index[key])
    ensures forall key, l: Label :: Names(c, key, l) ==> key in index
  {
    hide IsIndexOf, LabelAdds, AngleAdds, Names;
    index := AddAngles(c.angles);
    ghost var adds := AngleAdds(c.angles);
    index := AddLabels(index, "groups", c.groups, adds);
    adds := adds + LabelAdds("groups", c.groups);
    index := AddLabels(index, "subgroups", c.subgroups, adds);
    adds := adds + LabelAdds("subgroups", c.subgroups);
    index := AddLabels(index, "parts", c.parts, adds);
    adds := adds + LabelAdds("parts", c.parts);
    index := AddLabels(index, "damageTypes", c.damageTypes, adds);
    adds := adds + LabelAdds("damageTypes", c.damageTypes);
    index := AddLabels(index, "repairMethods", c.repairMethods, adds);
    adds := adds + LabelAdds("repairMethods", c.repairMethods);
    index := AddLabels(index, "kstCodes", c.kstCodes, adds);
    adds := adds + LabelAdds("kstCodes", c.kstCodes);
    index := AddLabels(index, "checklist", c.checklist, adds);
    adds := adds + LabelAdds("checklist", c.checklist);
    index := AddLabels(index, "thicknessPanels", c.thicknessPanels, adds);
    IndexIsOfTheCatalog(index, c);
  }

  // ---------------------------------------------------------------------------
  // What a merge does to one label
  // ---------------------------------------------------------------------------

  predicate IsText(e: Pair) {
    e.value.Text? && e.value.s != ""
  }

  predicate Hits(index: Index, e: Pair, l: Label) {
    IsText(e) && e.key in index && index[e.key] == l
  }

  /** The last text of a file for a label, under whichever of its keys. */
  function LastText(index: Index, entries: seq<Pair>, l: Label): Option<string> {
    if entries == [] then None
    else
      var e := entries[|entries| - 1];
      if Hits(index, e, l) then Some(e.value.s) else LastText(index, entries[..|entries| - 1], l)
  }

  function Put(m: map<string, string>, tag: string, text: Option<string>): map<string, string> {
    match text
    case None => m
    case Some(s) => m[tag := s]
  }

  /** The texts of a label after the files, in their order. */
  function Merged(m: map<string, string>, index: Index, files: seq<Sidecar>, l: Label): map<string, string> {
    if files == [] then m
    else
      var f := files[|files| - 1];
      Put(Merged(m, index, files[..|files| - 1], l), f.tag, LastText(index, f.entries, l))
  }

  function AppliedCount(index: Index, entries: seq<Pair>): nat {
    if entries == [] then 0
    else
      var e := entries[|entries| - 1];
      AppliedCount(index, entries[..|entries| - 1]) + if IsText(e) && e.key in index then 1 else 0
  }

  function OrphansOf(index: Index, entries: seq<Pair>): seq<string> {
    if entries == [] then []
    else
      var e := entries[|entries| - 1];
      OrphansOf(index, entries[..|entries| - 1]) + if IsText(e) && e.key !in index then [e.key] else []
  }

  function IgnoredCount(entries: seq<Pair>): nat {
    if entries == [] then 0
    else IgnoredCount(entries[..|entries| - 1]) + if IsText(entries[|entries| - 1]) then 0 else 1
  }

  /** Every entry is applied, an orphan or ignored. */
  lemma {:induction false} EveryEntryIsCounted(index: Index, entries: seq<Pair>)
    ensures AppliedCount(index, entries) + |OrphansOf(index, entries)| + IgnoredCount(entries) == |entries|
  {
    if entries != [] { EveryEntryIsCounted(index, entries[..|entries| - 1]); }
  }

  /** The default order of `sort`, by code units. */
  function CodeUnitLeq(a: string, b: string): bool {
    if a == "" then true
    else if b == "" then false
    else if a[0] != b[0] then a[0] < b[0]
    else CodeUnitLeq(a[1..], b[1..])
  }

  /** A text comes before those it begins, and before those with a larger code unit at the first difference. */
  lemma {:induction false} CodeUnitsExactly(a: string, b: string)
    ensures CodeUnitLeq(a, b) <==>
              a <= b || exists k :: 0 <= k < |a| && k < |b| && a[..k] == b[..k] && a[k] < b[k]
  {
    if a != "" && b != "" {
      if a[0] != b[0] {
        assert a[..0] == b[..0];
        assert forall k :: 0 < k < |a| && k < |b| && a[..k] == b[..k] ==> a[..k][0] == b[..k][0];
      } else {
        CodeUnitsExactly(a[1..], b[1..]);
        assert a <= b <==> a[1..] <= b[1..];
        forall k | 0 <= k < |a| - 1 && k < |b| - 1
          ensures a[1..][..k] == b[1..][..k] <==> a[..k + 1] == b[..k + 1]
        {
          assert a[..k + 1] == [a[0]] + a[1..][..k] && b[..k + 1] == [b[0]] + b[1..][..k];
          assert a[1..][..k] == a[..k + 1][1..] && b[1..][..k] == b[..k + 1][1..];
        }
        if k :| 0 <= k < |a[1..]| && k < |b[1..]| && a[1..][..k] == b[1..][..k] && a[1..][k] < b[1..][k] {
          assert a[..k + 1] == b[..k + 1] && a[k + 1] < b[k + 1];
        }
        if k :| 0 <= k < |a| && k < |b| && a[..k] == b[..k] && a[k] < b[k] {
          assert a[1..][..k - 1] == b[1..][..k - 1] && a[1..][k - 1] < b[1..][k - 1];
        }
      }
    }
  }

  function FileName(f: Sidecar): string {
    "catalog." + f.tag + ".json"
  }

  function ByName(a: Sidecar, b: Sidecar): bool {
    CodeUnitLeq(FileName(a), FileName(b))
  }

  // ---------------------------------------------------------------------------
  // The merge
  // ---------------------------------------------------------------------------

  /** Entry `i` writes its text into `l`: the value is a text, not an empty one, and the key is one of the label's. */
  ghost predicate WritesInto(index: Index, entries: seq<Pair>, i: int, l: Label) {
    && 0 <= i < |entries| && entries[i].value.Text? && entries[i].value.s != ""
    && entries[i].key in index && index[entries[i].key] == l
  }

  /** And no later one does. */
  ghost predicate WritesLast(index: Index, entries: seq<Pair>, i: int, l: Label) {
    WritesInto(index, entries, i, l) && forall j :: i < j ==> !WritesInto(index, entries, j, l)
  }

  lemma {:induction false} LastWriterDecides(index: Index, entries: seq<Pair>, i: int, l: Label)
    requires WritesLast(index, entries, i, l)
    ensures LastText(index, entries, l) == Some(entries[i].value.s)
  {
    var (front, n) := (entries[..|entries| - 1], |entries| - 1);
    assert forall j :: j < n ==> (WritesInto(index, entries, j, l) <==> WritesInto(index, front, j, l));
    assert !WritesInto(index, front, n, l);
    if i != n {
      assert !WritesInto(index, entries, n, l);
      LastWriterDecides(index, front, i, l);
    }
  }

  lemma {:induction false} NoWriterNoText(index: Index, entries: seq<Pair>, l: Label)
    requires forall i :: !WritesInto(index, entries, i, l)
    ensures LastText(index, entries, l) == None
  {
    if entries != [] {
      var (front, n) := (entries[..|entries| - 1], |entries| - 1);
      assert !WritesInto(index, entries, n, l);
      forall i
        ensures !WritesInto(index, front, i, l)
      {
        assert !WritesInto(index, entries, i, l);
      }
      NoWriterNoText(index, front, l);
    }
  }

  lemma TextsByWriter(index: Index, entries: seq<Pair>)
    ensures forall i, l :: WritesLast(index, entries, i, l) ==>
              0 <= i < |entries| && entries[i].value.Text? && LastText(index, entries, l) == Some(entries[i].value.s)
    ensures forall l :: (forall i :: !WritesInto(index, entries, i, l)) ==> LastText(index, entries, l) == None
  {
    hide LastText;
    forall i, l | WritesLast(index, entries, i, l)
      ensures LastText(index, entries, l) == Some(entries[i].value.s)
    {
      LastWriterDecides(index, entries, i, l);
    }
    forall l | forall i :: !WritesInto(index, entries, i, l)
      ensures LastText(index, entries, l) == None
    {
      NoWriterNoText(index, entries, l);
    }
  }

  /** The entries that are texts, known or unknown to the index. */
  ghost function Positions(index: Index, entries: seq<Pair>, known: bool): set<nat> {
    set i: nat | i < |entries| && entries[i].value.Text? && entries[i].value.s != ""
                 && (entries[i].key in index <==> known)
  }

  lemma {:induction false} CountsArePositions(index: Index, entries: seq<Pair>)
    ensures AppliedCount(index, entries) == |Positions(index, entries, true)|
    ensures |OrphansOf(index, entries)| == |Positions(index, entries, false)|
  {
    if entries != [] {
      CountsArePositions(index, entries[..|entries| - 1]);
      NextPosition(index, entries, true);
      NextPosition(index, entries, false);
      hide Positions;
    }
  }

  /** The orphans are the keys of the texts that the index does not know. */
  lemma {:induction false} OrphansAreUnknown(index: Index, entries: seq<Pair>, key: string)
    ensures key in OrphansOf(index, entries) <==>
              exists i :: i in Positions(index, entries, false) && entries[i].key == key
  {
    if entries != [] {
      var (front, n) := (entries[..|entries| - 1], |entries| - 1);
      OrphansAreUnknown(index, front, key);
      NextPosition(index, entries, false);
      assert forall i :: i in Positions(index, front, false) ==> entries[i] == front[i];
      hide Positions;
    }
  }

  lemma NextPosition(index: Index, entries: seq<Pair>, known: bool)
    requires entries != []
    ensures var (front, n) := (entries[..|entries| - 1], |entries| - 1);
            && n !in Positions(index, front, known)
            && Positions(index, entries, known)
               == Positions(index, front, known)
                  + if IsText(entries[n]) && (entries[n].key in index <==> known) then {n as nat} else {}
  {
  }

  lemma FileMeans(index: Index, entries: seq<Pair>)
    ensures forall i, l :: WritesLast(index, entries, i, l) ==>
              && 0 <= i < |entries| && entries[i].value.Text? && l in index.Values
              && LastText(index, entries, l) == Some(entries[i].value.s)
    ensures forall l :: (forall i :: !WritesInto(index, entries, i, l)) ==> LastText(index, entries, l) == None
    ensures AppliedCount(index, entries) == |Positions(index, entries, true)|
    ensures |OrphansOf(index, entries)| == |Positions(index, entries, false)|
    ensures forall key :: key in OrphansOf(index, entries) <==>
              exists i :: i in Positions(index, entries, false) && entries[i].key == key
  {
    TextsByWriter(index, entries);
    CountsArePositions(index, entries);
    hide LastText, OrphansOf, AppliedCount;
    forall key
      ensures key in OrphansOf(index, entries) <==>
                exists i :: i in Positions(index, entries, false) && entries[i].key == key
    {
      OrphansAreUnknown(index, entries, key);
    }
  }

  /** One file: its texts go into the labels, its unknown keys into the report. */
  method MergeFile(index: Index, f: Sidecar) returns (applied: nat, orphans: seq<string>)
    modifies index.Values
    ensures forall l :: l in index.Values ==> l.texts == Put(old(l.texts), f.tag, LastText(index, f.entries, l))
    ensures applied == AppliedCount(index, f.entries) && orphans == OrphansOf(index, f.entries)
    ensures forall i, l :: WritesLast(index, f.entries, i, l) ==>
              l.texts == old(l.texts)[f.tag := f.entries[i].value.s]
    ensures forall l :: l in index.Values && (forall i :: !WritesInto(index, f.entries, i, l)) ==>
              l.texts == old(l.texts)
    ensures applied == |Positions(index, f.entries, true)| && |orphans| == |Positions(index, f.entries, false)|
    ensures forall key :: key in orphans <==>
              exists i :: i in Positions(index, f.entries, false) && f.entries[i].key == key
  {
    hide Positions, WritesInto, WritesLast;
    applied, orphans := 0, [];
    for i := 0 to |f.entries|
      invariant forall l :: l in index.Values ==>
                  l.texts == Put(old(l.texts), f.tag, LastText(index, f.entries[..i], l))
      invariant applied == AppliedCount(index, f.entries[..i]) && orphans == OrphansOf(index, f.entries[..i])
    {
      var e := f.entries[i];
      assert f.entries[..i + 1][..i] == f.entries[..i];
      if IsText(e) {
        if e.key !in index {
          orphans := orphans + [e.key];
        } else {
          var l := index[e.key];
          l.texts := l.texts[f.tag := e.value.s];
          applied := applied + 1;
        }
      }
    }
    assert f.entries[..|f.entries|] == f.entries;
    FileMeans(index, f.entries);
  }

  /** The report the merge owes for the files, taken in this order. */
  ghost predicate Reports(r: MergeReport, index: Index, files: seq<Sidecar>) {
    && |r.tags| == |files| && (forall i :: 0 <= i < |files| ==> r.tags[i] == files[i].tag)
    && (forall f :: f in files ==>
          && f.tag in r.applied && r.applied[f.tag] == AppliedCount(index, f.entries)
          && (f.tag in r.orphans <==> OrphansOf(index, f.entries) != [])
          && (f.tag in r.orphans ==> r.orphans[f.tag] == Sort(CodeUnitLeq, OrphansOf(index, f.entries))))
    && (forall tag :: tag in r.orphans || tag in r.applied ==> tag in r.tags)
  }

  function TagOf(f: Sidecar): string { f.tag }

  /** Two files of one directory have two names and so two tags. */
  ghost predicate DistinctTags(files: seq<Sidecar>) {
    DistinctBy(TagOf, files)
  }

  method MergeFiles(index: Index, files: seq<Sidecar>) returns (r: MergeReport)
    requires DistinctTags(files)
    modifies index.Values
    ensures forall l :: l in index.Values ==> l.texts == Merged(old(l.texts), index, files, l)
    ensures Reports(r, index, files)
  {
    hide AppliedCount, OrphansOf, Sort, LastText, CodeUnitLeq, Reports, DistinctTags;
    r := MergeReport([], map[], map[]);
    NothingToReport(index);
    for i := 0 to |files|
      invariant forall l :: l in index.Values ==> l.texts == Merged(old(l.texts), index, files[..i], l)
      invariant Reports(r, index, files[..i])
    {
      assert files[..i + 1][..i] == files[..i];
      var f := files[i];
      var applied, orphans := MergeFile(index, f);
      ReportsNext(r, index, files, i);
      r := MergeReport(
        r.tags + [f.tag], r.applied[f.tag := applied],
        if |orphans| > 0 then r.orphans[f.tag := Sort(CodeUnitLeq, orphans)] else r.orphans);
    }
    assert files[..|files|] == files;
  }

  lemma NothingToReport(index: Index)
    ensures Reports(MergeReport([], map[], map[]), index, [])
  {
  }

  lemma ReportsNext(r: MergeReport, index: Index, files: seq<Sidecar>, i: nat)
    requires DistinctTags(files) && i < |files| && Reports(r, index, files[..i])
    ensures var (f, orphans) := (files[i], OrphansOf(index, files[i].entries));
            Reports(MergeReport(
                      r.tags + [f.tag], r.applied[f.tag := AppliedCount(index, f.entries)],
                      if |orphans| > 0 then r.orphans[f.tag := Sort(CodeUnitLeq, orphans)] else r.orphans),
                    index, files[..i + 1])
  {
    hide AppliedCount, OrphansOf, Sort, CodeUnitLeq;
    assert files[..i + 1] == files[..i] + [files[i]];
    forall f | f in files[..i]
      ensures f.tag != files[i].tag
    {
      var j :| 0 <= j < i && files[j] == f;
      assert TagOf(files[j]) != TagOf(files[i]);
    }
  }

  ghost function LabelsOf(adds: Adds): set<Label> {
    set a | a in adds && a.1 != null :: a.1
  }

  lemma {:induction false} LastAddIsALabel(adds: Adds, key: string)
    ensures LastAdd(adds, key) != null ==> LastAdd(adds, key) in LabelsOf(adds)
  {
    if adds != [] {
      LastAddIsALabel(adds[..|adds| - 1], key);
      assert adds == adds[..|adds| - 1] + [adds[|adds| - 1]];
    }
  }

  lemma IndexedAreLabels(index: Index, adds: Adds)
    requires IsIndexOf(index, adds)
    ensures index.Values <= LabelsOf(adds)
  {
    forall l | l in index.Values
      ensures l in LabelsOf(adds)
    {
      var key :| key in index && index[key] == l;
      LastAddIsALabel(adds, key);
    }
  }

  /** `mergeCatalogI18n`; no directory is no file. `labels` are all the labels of the catalog. */
  method MergeCatalog(c: Catalog, dir: Option<seq<Sidecar>>, ghost labels: set<Label>)
    returns (r: MergeReport, ghost index: Index)
    requires labels == LabelsOf(AddsOf(c)) && (dir.Some? ==> DistinctTags(dir.value))
    modifies labels
    ensures dir == None ==> r == MergeReport([], map[], map[])
    ensures IsIndexOf(index, AddsOf(c))
    ensures forall l :: l in labels ==>
              l.texts == if dir.Some? && l in index.Values then Merged(old(l.texts), index, Sort(ByName, dir.value), l)
                         else old(l.texts)
    ensures dir.Some? ==> Reports(r, index, Sort(ByName, dir.value))
    ensures dir.Some? ==> forall tag :: tag in r.tags <==> exists f :: f in dir.value && f.tag == tag
    ensures forall i, j :: 0 <= i < j < |r.tags| ==>
              r.tags[i] != r.tags[j] && CodeUnitLeq("catalog." + r.tags[i] + ".json", "catalog." + r.tags[j] + ".json")
  {
    hide AddsOf, LastAdd, Merged, Sort, Reports, IsIndexOf;
    var ix := IndexLabels(c);
    index := ix;
    IndexedAreLabels(ix, AddsOf(c));
    if dir == None { return MergeReport([], map[], map[]), ix; }
    SortedTagsAreDistinct(dir.value);
    r := MergeFiles(ix, Sort(ByName, dir.value));
    TagsInOrder(r, ix, dir.value);
  }

  lemma TagsInOrder(r: MergeReport, index: Index, files: seq<Sidecar>)
    requires DistinctTags(files) && Reports(r, index, Sort(ByName, files))
    ensures forall tag :: tag in r.tags <==> exists f :: f in files && f.tag == tag
    ensures forall i, j :: 0 <= i < j < |r.tags| ==>
              r.tags[i] != r.tags[j] && CodeUnitLeq("catalog." + r.tags[i] + ".json", "catalog." + r.tags[j] + ".json")
  {
    FilesInOrder(files);
    hide AppliedCount, OrphansOf, CodeUnitLeq, Sort, DistinctTags;
    var sorted := Sort(ByName, files);
    assert forall i :: 0 <= i < |sorted| ==> r.tags[i] == sorted[i].tag && sorted[i] in sorted;
    forall f | f in sorted
      ensures f.tag in r.tags
    {
      var i :| 0 <= i < |sorted| && sorted[i] == f;
      assert r.tags[i] == f.tag;
    }
  }

  lemma FilesInOrder(files: seq<Sidecar>)
    requires DistinctTags(files)
    ensures var sorted := Sort(ByName, files);
            && (forall f :: f in sorted <==> f in files)
            && (forall i, j :: 0 <= i < j < |sorted| ==>
                  sorted[i].tag != sorted[j].tag
                  && CodeUnitLeq("catalog." + sorted[i].tag + ".json", "catalog." + sorted[j].tag + ".json"))
  {
    hide CodeUnitLeq, Sort, Sorted;
    var sorted := Sort(ByName, files);
    ByNameIsPreorder();
    SortLaws(ByName, files);
    SortedTagsAreDistinct(files);
    hide Preorder;
    forall i, j | 0 <= i < j < |sorted|
      ensures sorted[i].tag != sorted[j].tag
      ensures CodeUnitLeq("catalog." + sorted[i].tag + ".json", "catalog." + sorted[j].tag + ".json")
    {
      SortedAt(ByName, sorted, i, j);
      assert TagOf(sorted[i]) != TagOf(sorted[j]);
    }
    assert forall f :: f in sorted <==> f in multiset(sorted);
    assert forall f :: f in files <==> f in multiset(files);
  }

  // ---------------------------------------------------------------------------
  // Order, repetition and what stays
  // ---------------------------------------------------------------------------

  lemma {:induction false} CodeUnitTotal(a: string, b: string)
    ensures CodeUnitLeq(a, b) || CodeUnitLeq(b, a)
  {
    if a != "" && b != "" { CodeUnitTotal(a[1..], b[1..]); }
  }

  lemma {:induction false} CodeUnitTransitive(a: string, b: string, c: string)
    requires CodeUnitLeq(a, b) && CodeUnitLeq(b, c)
    ensures CodeUnitLeq(a, c)
  {
    if a != "" && b != "" && c != "" && a[0] == b[0] == c[0] { CodeUnitTransitive(a[1..], b[1..], c[1..]); }
  }

  lemma ByNameIsPreorder()
    ensures Preorder(ByName) && Preorder(CodeUnitLeq)
  {
    forall a, b
      ensures CodeUnitLeq(a, b) || CodeUnitLeq(b, a)
    {
      CodeUnitTotal(a, b);
    }
    forall a, b, c | CodeUnitLeq(a, b) && CodeUnitLeq(b, c)
      ensures CodeUnitLeq(a, c)
    {
      CodeUnitTransitive(a, b, c);
    }
    hide CodeUnitLeq, FileName;
    forall x, y, z | ByName(x, y) && ByName(y, z)
      ensures ByName(x, z)
    {
    }
  }

  lemma SortedTagsAreDistinct(files: seq<Sidecar>)
    requires DistinctTags(files)
    ensures DistinctTags(Sort(ByName, files)) && multiset(Sort(ByName, files)) == multiset(files)
  {
    ByNameIsPreorder();
    SortLaws(ByName, files);
    DistinctInAnyOrder(TagOf, files, Sort(ByName, files));
  }

  function Slot(m: map<string, string>, tag: string): Option<string> {
    if tag in m then Some(m[tag]) else None
  }

  lemma SameSlots(m: map<string, string>, m': map<string, string>)
    requires forall tag :: Slot(m, tag) == Slot(m', tag)
    ensures m == m'
  {
    forall tag
      ensures tag in m <==> tag in m'
      ensures tag in m ==> m[tag] == m'[tag]
    {
      assert Slot(m, tag) == Slot(m', tag);
    }
  }

  /** The file of a tag; the tags of the files are distinct. */
  ghost function FileOf(files: seq<Sidecar>, tag: string): Option<Sidecar> {
    if exists f :: f in files && f.tag == tag then
      var f :| f in files && f.tag == tag;
      Some(f)
    else None
  }

  lemma FileOfIs(files: seq<Sidecar>, f: Sidecar)
    requires DistinctTags(files) && f in files
    ensures FileOf(files, f.tag) == Some(f)
  {
    var g := FileOf(files, f.tag).value;
    var i :| 0 <= i < |files| && files[i] == f;
    var j :| 0 <= j < |files| && files[j] == g;
    assert TagOf(files[i]) == TagOf(files[j]);
    assert i == j;
  }

  /** What ends up in one slot of one label: the last text its file has for it, or what was there. */
  ghost function NewSlot(m: map<string, string>, index: Index, files: seq<Sidecar>, l: Label, tag: string):
    Option<string>
  {
    var f := FileOf(files, tag);
    if f.Some? && LastText(index, f.value.entries, l).Some? then LastText(index, f.value.entries, l) else Slot(m, tag)
  }

  /** The merge by slot: nothing but the slots of the files' tags can change. */
  lemma {:induction false} MergedBySlot(m: map<string, string>, index: Index, files: seq<Sidecar>, l: Label,
                                        tag: string)
    requires DistinctTags(files)
    ensures Slot(Merged(m, index, files, l), tag) == NewSlot(m, index, files, l, tag)
  {
    hide LastText, FileOf, DistinctTags;
    NoFile(tag);
    if files != [] {
      FileOfNext(files, tag);
      MergedBySlot(m, index, files[..|files| - 1], l, tag);
    }
  }

  lemma NoFile(tag: string)
    ensures FileOf([], tag) == None
  {
  }

  lemma FileOfNext(files: seq<Sidecar>, tag: string)
    requires DistinctTags(files) && files != []
    ensures var (rest, f) := (files[..|files| - 1], files[|files| - 1]);
            && DistinctTags(rest) && (f.tag == tag ==> FileOf(rest, tag) == None)
            && FileOf(files, tag) == if f.tag == tag then Some(f) else FileOf(rest, tag)
  {
    var (rest, f) := (files[..|files| - 1], files[|files| - 1]);
    assert files == rest + [f];
    assert f in files;
    if f.tag == tag {
      FileOfIs(files, f);
      assert forall i :: 0 <= i < |rest| ==> TagOf(files[i]) != TagOf(f);
    } else if FileOf(files, tag).Some? {
      var g := FileOf(files, tag).value;
      assert g in rest;
      FileOfIs(rest, g);
    } else {
      assert forall g :: g in rest ==> g in files;
    }
  }

  /** Merging the same files once more changes nothing. */
  lemma MergeIsIdempotent(m: map<string, string>, index: Index, files: seq<Sidecar>, l: Label)
    requires DistinctTags(files)
    ensures Merged(Merged(m, index, files, l), index, files, l) == Merged(m, index, files, l)
  {
    hide Merged, FileOf, LastText;
    var once := Merged(m, index, files, l);
    forall tag
      ensures Slot(Merged(once, index, files, l), tag) == Slot(once, tag)
    {
      MergedBySlot(m, index, files, l, tag);
      MergedBySlot(once, index, files, l, tag);
    }
    SameSlots(Merged(once, index, files, l), once);
  }

  /** Nor does the order in which the files are read matter. */
  lemma MergeInAnyOrder(m: map<string, string>, index: Index, files: seq<Sidecar>, files': seq<Sidecar>, l: Label)
    requires DistinctTags(files) && multiset(files') == multiset(files)
    ensures Merged(m, index, files', l) == Merged(m, index, files, l)
  {
    hide Merged, FileOf, LastText;
    DistinctInAnyOrder(TagOf, files, files');
    forall tag
      ensures Slot(Merged(m, index, files', l), tag) == Slot(Merged(m, index, files, l), tag)
    {
      MergedBySlot(m, index, files, l, tag);
      MergedBySlot(m, index, files', l, tag);
      SameFileOf(files, files', tag);
    }
    SameSlots(Merged(m, index, files', l), Merged(m, index, files, l));
  }

  lemma SameFileOf(files: seq<Sidecar>, files': seq<Sidecar>, tag: string)
    requires DistinctTags(files) && DistinctTags(files') && multiset(files') == multiset(files)
    ensures FileOf(files', tag) == FileOf(files, tag)
  {
    assert forall f :: f in files <==> f in multiset(files);
    assert forall f :: f in files' <==> f in multiset(files');
    if FileOf(files, tag).Some? { FileOfIs(files', FileOf(files, tag).value); }
  }

  /** A text arrives in its label unless a later key of the same file writes the same label. */
  lemma {:induction false} TextArrives(index: Index, entries: seq<Pair>, i: nat, l: Label)
    requires i < |entries| && Hits(index, entries[i], l)
    requires forall j :: i < j < |entries| ==> !Hits(index, entries[j], l)
    ensures LastText(index, entries, l) == Some(entries[i].value.s)
  {
    if i != |entries| - 1 { TextArrives(index, entries[..|entries| - 1], i, l); }
  }
}
