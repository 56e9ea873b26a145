/**
 The photo manifest of a report: its rewrite into canonical order
 (scripts/backfill-report-photo-angles.ts, `rewrite`) and the showroom subset every reader
 takes from it (src/listings/listing-photo-urls.ts, `manifestPhotoRefs`).
 */
module Manifest {
  import opened Wrappers
  import opened Sorting
  import opened PhotoOrder
  import SearchText

  /** A property of a stored JSON entry. */
  datatype Field = Absent | NotText | Value(s: string)

  /**
   A stored array element: no object at all, or one with these properties and perhaps others, and
   whether its keys are stored as the code writes them, `s3Key` before `kind` before `angle`.
   */
  datatype Raw = Junk | Ref(s3Key: Field, kind: Field, angle: Field, others: bool, inOrder: bool)

  datatype Entry = Entry(s3Key: string, kind: Option<string>, angle: Option<string>)

  const MAX_LISTING_PHOTOS: nat := 40

  predicate Usable(r: Raw) {
    r.Ref? && r.s3Key.Value? && r.s3Key.s != ""
  }

  function TextOf(f: Field): Option<string> {
    if f.Value? then Some(f.s) else None
  }

  /** `...(x ? { x } : {})`. */
  function Truthy(x: Option<string>): Option<string> {
    if x == Some("") then None else x
  }

  function Parsed(r: Raw): Entry
    requires Usable(r)
  {
    Entry(r.s3Key.s, Truthy(TextOf(r.kind)), Truthy(AngleForKind(TextOf(r.kind))))
  }

  function ParseAll(m: seq<Raw>): seq<Entry> {
    if m == [] then [] else if Usable(m[0]) then [Parsed(m[0])] + ParseAll(m[1..]) else ParseAll(m[1..])
  }

  function FieldOf(x: Option<string>): Field {
    if x == None then Absent else Value(x.value)
  }

  /** An entry as `JSON.stringify` writes it. */
  function Written(e: Entry): Raw {
    Ref(Value(e.s3Key), FieldOf(e.kind), FieldOf(e.angle), false, true)
  }

  /** What the scripts run against: the collation, and whether the column keeps the order of keys. */
  datatype Env = Env(lc: Collation, keyOrder: bool)

  /** An entry as the column gives it back; a binary JSON column puts `kind` first. */
  function Stored(env: Env): Entry -> Raw {
    (e: Entry) => Written(e).(inOrder := env.keyOrder || e.kind == None)
  }

  function EntryLeq(lc: Collation): (Entry, Entry) -> bool {
    (a: Entry, b: Entry) => KindLeq(lc)(a.kind, b.kind)
  }

  function Canonical(lc: Collation, m: seq<Raw>): seq<Entry> {
    Sort(EntryLeq(lc), ParseAll(m))
  }

  lemma EntryLeqIsPreorder(lc: Collation)
    requires IsCollation(lc)
    ensures Preorder(EntryLeq(lc))
  {
    hide ComparePhotoKinds;
    CompareIsPreorder(lc);
    assert forall a, b :: KindLeq(lc)(a, b) || KindLeq(lc)(b, a);
    forall x, y, z | EntryLeq(lc)(x, y) && EntryLeq(lc)(y, z)
      ensures EntryLeq(lc)(x, z)
    {
      assert KindLeq(lc)(x.kind, y.kind) && KindLeq(lc)(y.kind, z.kind);
    }
    forall x, y
      ensures EntryLeq(lc)(x, y) || EntryLeq(lc)(y, x)
    {
      assert KindLeq(lc)(x.kind, y.kind) || KindLeq(lc)(y.kind, x.kind);
    }
  }

  lemma {:induction false} ParseAllAppend(a: seq<Raw>, r: Raw)
    ensures ParseAll(a + [r]) == ParseAll(a) + if Usable(r) then [Parsed(r)] else []
  {
    if a == [] {
      assert a + [r] == [r] && [r][1..] == [];
    } else {
      ParseAllAppend(a[1..], r);
      assert (a + [r])[1..] == a[1..] + [r];
    }
  }

  /** The canonical manifest for a stored one; `None` when it is no array or already right. */
  method Rewrite(lc: Collation, manifest: Option<seq<Raw>>) returns (next: Option<seq<Entry>>)
    ensures next == RewriteOf(lc, manifest)
  {
    if manifest == None { return None; }
    var m := manifest.value;
    var entries := [];
    for i := 0 to |m|
      invariant entries == ParseAll(m[..i])
    {
      assert m[..i + 1] == m[..i] + [m[i]];
      ParseAllAppend(m[..i], m[i]);
      if Usable(m[i]) {
        entries := entries + [Parsed(m[i])];
      }
    }
    assert m[..|m|] == m;
    entries := Sort(EntryLeq(lc), entries);
    next := if Map(Written, entries) == m then None else Some(entries);
  }

  function RewriteOf(lc: Collation, manifest: Option<seq<Raw>>): Option<seq<Entry>> {
    if manifest == None || Map(Written, Canonical(lc, manifest.value)) == manifest.value then None
    else Some(Canonical(lc, manifest.value))
  }

  // ---------------------------------------------------------------------------
  // What is taken over from a stored element
  // ---------------------------------------------------------------------------

  /** The elements that count: objects whose `s3Key` is a text that is not empty. */
  ghost predicate HasKey(r: Raw) {
    r.Ref? && r.s3Key.Value? && r.s3Key.s != ""
  }

  /** The kind of such an element, an empty text standing for none. */
  ghost function KindIn(r: Raw): Option<string>
    requires HasKey(r)
  {
    if r.kind.Value? && r.kind.s != "" then Some(r.kind.s) else None
  }

  /** Positions in ascending order. */
  ghost predicate Ascending(at: seq<nat>, n: nat) {
    && (forall k :: 0 <= k < |at| ==> at[k] < n)
    && (forall k, l :: 0 <= k < l < |at| ==> at[k] < at[l])
  }

  lemma AscendingMore(at: seq<nat>, n: nat)
    requires Ascending(at, n)
    ensures Ascending(at, n + 1) && Ascending(at + [n], n + 1)
  {
  }

  /**
   The entries are those elements and no others, each once and in the stored order: its key, its
   kind, and the angle the kind names.
   */
  lemma {:induction false} ParsedInOrder(m: seq<Raw>) returns (at: seq<nat>)
    ensures |at| == |ParseAll(m)| && Ascending(at, |m|)
    ensures forall k :: 0 <= k < |at| ==>
              HasKey(m[at[k]])
              && ParseAll(m)[k] == Entry(m[at[k]].s3Key.s, KindIn(m[at[k]]), AngleForKind(KindIn(m[at[k]])))
    ensures forall i: nat :: i < |m| && HasKey(m[i]) ==> i in at
  {
    hide AngleForKind;
    at := [];
    if m != [] {
      var (front, n) := (m[..|m| - 1], |m| - 1);
      assert m == front + [m[n]];
      ParseAllAppend(front, m[n]);
      at := ParsedInOrder(front);
      AscendingMore(at, n);
      if HasKey(m[n]) {
        NoEmptyAngle(TextOf(m[n].kind));
        NoKindNoAngle();
        at := at + [n];
      }
    }
  }

  /** No angle of the catalog has an empty id. */
  lemma NoEmptyAngle(kind: Option<string>)
    ensures AngleForKind(kind) != Some("")
  {
    if AngleForKind(kind).Some? { AngleIdLaws(AngleForKind(kind).value); }
  }

  // ---------------------------------------------------------------------------
  // The rewrite is canonical
  // ---------------------------------------------------------------------------

  predicate Clean(e: Entry) {
    e.s3Key != "" && e.kind != Some("") && e.angle == Truthy(AngleForKind(e.kind))
  }

  lemma {:induction false} ParsedAreClean(m: seq<Raw>)
    ensures forall e :: e in ParseAll(m) ==> Clean(e)
  {
    hide AngleForKind;
    NoKindNoAngle();
    if m != [] { ParsedAreClean(m[1..]); }
  }

  lemma NoKindNoAngle()
    ensures AngleForKind(None) == None && AngleForKind(Some("")) == None
  {
  }

  lemma {:induction false} ParseStored(env: Env, es: seq<Entry>)
    requires forall e :: e in es ==> Clean(e)
    ensures ParseAll(Map(Stored(env), es)) == es
  {
    hide AngleForKind;
    if es != [] {
      ParseStored(env, es[1..]);
      assert Map(Stored(env), es)[1..] == Map(Stored(env), es[1..]);
      assert es[0] in es && Usable(Stored(env)(es[0]));
      assert Parsed(Stored(env)(es[0])) == es[0];
    }
  }

  /** An order-keeping column gives back what was written. */
  lemma WrittenIsStored(lc: Collation, es: seq<Entry>)
    ensures Map(Written, es) == Map(Stored(Env(lc, true)), es)
  {
  }

  lemma CanonicalIsClean(lc: Collation, m: seq<Raw>)
    requires IsCollation(lc)
    ensures forall e :: e in Canonical(lc, m) ==> Clean(e)
    ensures Sorted(EntryLeq(lc), Canonical(lc, m))
    ensures multiset(Canonical(lc, m)) == multiset(ParseAll(m))
  {
    EntryLeqIsPreorder(lc);
    SortLaws(EntryLeq(lc), ParseAll(m));
    ParsedAreClean(m);
    forall e | e in Canonical(lc, m)
      ensures Clean(e)
    {
      assert e in multiset(Canonical(lc, m));
    }
  }

  /** The column gives a canonical manifest back with its keys in order. */
  ghost predicate KeepsKeys(env: Env, es: seq<Entry>) {
    env.keyOrder || forall e :: e in es ==> e.kind == None
  }

  /**
   Rewriting the rewritten manifest: the same entries in the same order, and nothing to write exactly
   when the column keeps the order of keys or no entry has a kind.
   */
  lemma RewriteIsIdempotent(env: Env, m: seq<Raw>)
    requires IsCollation(env.lc)
    ensures var again := Map(Stored(env), Canonical(env.lc, m));
            && Canonical(env.lc, again) == Canonical(env.lc, m)
            && (RewriteOf(env.lc, Some(again)) == None <==> KeepsKeys(env, Canonical(env.lc, m)))
  {
    hide AngleForKind, ComparePhotoKinds, KeepsKeys;
    var es := Canonical(env.lc, m);
    CanonicalIsClean(env.lc, m);
    ParseStored(env, es);
    EntryLeqIsPreorder(env.lc);
    SortOfSorted(EntryLeq(env.lc), es);
    KeysAreKept(env, es);
  }

  lemma KeysAreKept(env: Env, es: seq<Entry>)
    ensures Map(Written, es) == Map(Stored(env), es) <==> KeepsKeys(env, es)
  {
    var (written, stored) := (Map(Written, es), Map(Stored(env), es));
    if KeepsKeys(env, es) {
      assert forall i :: 0 <= i < |es| ==> es[i] in es && written[i] == stored[i];
    } else {
      var e :| e in es && e.kind != None;
      var i :| 0 <= i < |es| && es[i] == e;
      assert written[i].inOrder && !stored[i].inOrder;
    }
  }

  /** A manifest is left alone exactly when it holds clean entries only, keys and entries in order. */
  lemma LeftAloneExactlyWhenRight(lc: Collation, m: seq<Raw>)
    requires IsCollation(lc)
    ensures RewriteOf(lc, Some(m)) == None <==>
              Map(Written, ParseAll(m)) == m && Sorted(EntryLeq(lc), ParseAll(m))
  {
    CanonicalIsClean(lc, m);
    ParseStored(Env(lc, true), Canonical(lc, m));
    WrittenIsStored(lc, Canonical(lc, m));
    EntryLeqIsPreorder(lc);
    if Sorted(EntryLeq(lc), ParseAll(m)) { SortOfSorted(EntryLeq(lc), ParseAll(m)); }
  }

  /** The valid entries are permuted, and those of one place in the walk-around keep their order. */
  lemma RewriteKeepsCaptureOrder(lc: Collation, m: seq<Raw>, e: Entry)
    requires IsCollation(lc)
    ensures multiset(Canonical(lc, m)) == multiset(ParseAll(m))
    ensures Filter(Like(EntryLeq(lc), e), Canonical(lc, m)) == Filter(Like(EntryLeq(lc), e), ParseAll(m))
  {
    CanonicalIsClean(lc, m);
    EntryLeqIsPreorder(lc);
    LikeFilterSort(EntryLeq(lc), e, ParseAll(m));
  }

  // ---------------------------------------------------------------------------
  // The showroom subset does not notice the rewrite
  // ---------------------------------------------------------------------------

  predicate IsNeverPublicKind(kind: Option<string>) {
    var value := SearchText.ToLower(Text(kind));
    value == "passport" || "passport-" <= value || "passport_" <= value
  }

  /** The entry a reader sees: a stored angle wins over the derived one. */
  function RefOf(r: Raw): Entry
    requires Usable(r)
  {
    var kind := TextOf(r.kind);
    Entry(r.s3Key.s, Truthy(kind), Truthy(if r.angle.Value? then Some(r.angle.s) else AngleForKind(kind)))
  }

  function RefsOf(m: seq<Raw>, includeNeverPublic: bool): seq<Entry> {
    if m == [] then []
    else if Usable(m[0]) && (includeNeverPublic || !IsNeverPublicKind(TextOf(m[0].kind))) then
      [RefOf(m[0])] + RefsOf(m[1..], includeNeverPublic)
    else RefsOf(m[1..], includeNeverPublic)
  }

  /** `slice(0, limit)`, and nothing at all for a limit that is not positive. */
  function Truncated<T>(s: seq<T>, limit: int): seq<T> {
    if limit <= 0 then [] else if |s| <= limit then s else s[..limit]
  }

  function ManifestPhotoRefs(lc: Collation, m: Option<seq<Raw>>, limit: int, includeNeverPublic: bool):
    (refs: seq<Entry>)
    ensures |refs| <= if limit <= 0 then 0 else limit
    ensures m == None ==> refs == []
  {
    if m == None then [] else Truncated(Sort(EntryLeq(lc), RefsOf(m.value, includeNeverPublic)), limit)
  }

  /** What of an entry decides which object is shown where. */
  type Shape = (string, Option<string>)

  function ShapeOf(e: Entry): Shape { (e.s3Key, e.kind) }

  function ShapeLeq(lc: Collation): (Shape, Shape) -> bool {
    (a: Shape, b: Shape) => KindLeq(lc)(a.1, b.1)
  }

  function Shown(includeNeverPublic: bool): Shape -> bool {
    (s: Shape) => includeNeverPublic || !IsNeverPublicKind(s.1)
  }

  lemma MapCons<T, U>(f: T -> U, x: T, s: seq<T>)
    ensures Map(f, [x] + s) == [f(x)] + Map(f, s)
  {
  }

  lemma FilterCons<T>(p: T -> bool, x: T, s: seq<T>)
    ensures Filter(p, [x] + s) == if p(x) then [x] + Filter(p, s) else Filter(p, s)
  {
    assert ([x] + s)[1..] == s;
  }

  lemma {:induction false} RefsAreShownShapes(m: seq<Raw>, all: bool)
    ensures Map(ShapeOf, RefsOf(m, all)) == Filter(Shown(all), Map(ShapeOf, ParseAll(m)))
  {
    hide IsNeverPublicKind;
    if m != [] {
      RefsAreShownShapes(m[1..], all);
      if Usable(m[0]) {
        var (e, rest) := (Parsed(m[0]), ParseAll(m[1..]));
        assert IsNeverPublicKind(Some("")) == IsNeverPublicKind(None) by { BlankKind(); }
        MapCons(ShapeOf, e, rest);
        FilterCons(Shown(all), ShapeOf(e), Map(ShapeOf, rest));
        MapCons(ShapeOf, RefOf(m[0]), RefsOf(m[1..], all));
        assert ShapeOf(RefOf(m[0])) == ShapeOf(e);
      }
    }
  }

  lemma BlankKind()
    ensures IsNeverPublicKind(Some("")) == IsNeverPublicKind(None)
  {
  }

  /** The shapes of the subset, computed from the shapes of the valid entries. */
  lemma SubsetByShapes(lc: Collation, m: seq<Raw>, all: bool)
    requires IsCollation(lc)
    ensures Map(ShapeOf, Sort(EntryLeq(lc), RefsOf(m, all)))
            == Sort(ShapeLeq(lc), Filter(Shown(all), Map(ShapeOf, ParseAll(m))))
  {
    EntryLeqIsPreorder(lc);
    MapSort(EntryLeq(lc), ShapeLeq(lc), ShapeOf, RefsOf(m, all));
    RefsAreShownShapes(m, all);
  }

  lemma ShapeLeqIsPreorder(lc: Collation)
    requires IsCollation(lc)
    ensures Preorder(ShapeLeq(lc))
  {
    EntryLeqIsPreorder(lc);
    forall x, y, z | ShapeLeq(lc)(x, y) && ShapeLeq(lc)(y, z)
      ensures ShapeLeq(lc)(x, z)
    {
      var (a, b, c) := (Entry("", x.1, None), Entry("", y.1, None), Entry("", z.1, None));
      assert EntryLeq(lc)(a, b) && EntryLeq(lc)(b, c);
      assert EntryLeq(lc)(a, c);
    }
    forall x, y
      ensures ShapeLeq(lc)(x, y) || ShapeLeq(lc)(y, x)
    {
      assert EntryLeq(lc)(Entry("", x.1, None), Entry("", y.1, None))
          || EntryLeq(lc)(Entry("", y.1, None), Entry("", x.1, None));
    }
  }

  lemma SameShapes(env: Env, m: seq<Raw>, all: bool)
    requires IsCollation(env.lc)
    ensures Map(ShapeOf, Sort(EntryLeq(env.lc), RefsOf(Map(Stored(env), Canonical(env.lc, m)), all)))
            == Map(ShapeOf, Sort(EntryLeq(env.lc), RefsOf(m, all)))
  {
    hide ShapeLeq, EntryLeq, Shown, RefsOf, ParseAll;
    var (leq, p, shapes) := (ShapeLeq(env.lc), Shown(all), Map(ShapeOf, ParseAll(m)));
    CanonicalIsClean(env.lc, m);
    ParseStored(env, Canonical(env.lc, m));
    SubsetByShapes(env.lc, m, all);
    SubsetByShapes(env.lc, Map(Stored(env), Canonical(env.lc, m)), all);
    CanonicalShapes(env.lc, m);
    ShapeLeqIsPreorder(env.lc);
    FilterSort(leq, p, shapes);
    SortLaws(leq, Filter(p, shapes));
    SortOfSorted(leq, Sort(leq, Filter(p, shapes)));
  }

  lemma CanonicalShapes(lc: Collation, m: seq<Raw>)
    requires IsCollation(lc)
    ensures Map(ShapeOf, Canonical(lc, m)) == Sort(ShapeLeq(lc), Map(ShapeOf, ParseAll(m)))
  {
    EntryLeqIsPreorder(lc);
    MapSort(EntryLeq(lc), ShapeLeq(lc), ShapeOf, ParseAll(m));
  }

  lemma MapTruncated<T, U>(f: T -> U, s: seq<T>, limit: int)
    ensures Map(f, Truncated(s, limit)) == Truncated(Map(f, s), limit)
  {
  }

  /** Readers show the same objects under the same kinds before and after a rewrite, for every cap. */
  lemma RewriteKeepsSubset(env: Env, m: seq<Raw>, limit: int, all: bool)
    requires IsCollation(env.lc)
    ensures var after := Some(Map(Stored(env), Canonical(env.lc, m)));
            Map(ShapeOf, ManifestPhotoRefs(env.lc, after, limit, all))
              == Map(ShapeOf, ManifestPhotoRefs(env.lc, Some(m), limit, all))
  {
    SameShapes(env, m, all);
    hide ShapeLeq, EntryLeq, RefsOf, Canonical, Sort;
    MapTruncated(ShapeOf, Sort(EntryLeq(env.lc), RefsOf(m, all)), limit);
    MapTruncated(ShapeOf, Sort(EntryLeq(env.lc), RefsOf(Map(Stored(env), Canonical(env.lc, m)), all)), limit);
  }

  lemma {:induction false} RefsOfMembers(m: seq<Raw>, all: bool)
    ensures forall e :: e in RefsOf(m, all) <==>
              exists r :: r in m && Usable(r) && (all || !IsNeverPublicKind(TextOf(r.kind))) && e == RefOf(r)
  {
    hide IsNeverPublicKind, RefOf;
    if m != [] {
      RefsOfMembers(m[1..], all);
      assert m == [m[0]] + m[1..];
    }
  }

  /** A kind that may be shown in public: not the vehicle registration document, however it is numbered. */
  ghost predicate MayBePublic(r: Raw) {
    r.Ref? && r.kind.Value? ==>
      var kind := SearchText.ToLower(r.kind.s);
      kind != "passport" && !("passport-" <= kind) && !("passport_" <= kind)
  }

  lemma NeverPublicIsNotPublic(r: Raw)
    requires r.Ref?
    ensures IsNeverPublicKind(TextOf(r.kind)) <==> !MayBePublic(r)
  {
    assert SearchText.ToLower("") == "";
  }

  lemma {:induction false} RefsOfAppend(a: seq<Raw>, r: Raw, all: bool)
    ensures RefsOf(a + [r], all) ==
              RefsOf(a, all) + if Usable(r) && (all || !IsNeverPublicKind(TextOf(r.kind))) then [RefOf(r)] else []
  {
    hide IsNeverPublicKind, RefOf;
    if a == [] {
      assert a + [r] == [r] && [r][1..] == [];
    } else {
      RefsOfAppend(a[1..], r, all);
      assert (a + [r])[1..] == a[1..] + [r];
    }
  }

  /** The angle a reader is given: the stored text, or else what the kind names. */
  ghost function AngleIn(r: Raw): Option<string>
    requires HasKey(r)
  {
    if r.angle.Value? then (if r.angle.s == "" then None else Some(r.angle.s)) else AngleForKind(KindIn(r))
  }

  /**
   What readers choose from: every element that counts and that may be public, or all of them on
   demand, each once and in the stored order.
   */
  lemma {:induction false} RefsInOrder(m: seq<Raw>, all: bool) returns (at: seq<nat>)
    ensures |at| == |RefsOf(m, all)| && Ascending(at, |m|)
    ensures forall k :: 0 <= k < |at| ==>
              && HasKey(m[at[k]]) && (all || MayBePublic(m[at[k]]))
              && RefsOf(m, all)[k] == Entry(m[at[k]].s3Key.s, KindIn(m[at[k]]), AngleIn(m[at[k]]))
    ensures forall i: nat :: i < |m| && HasKey(m[i]) && (all || MayBePublic(m[i])) ==> i in at
  {
    hide AngleForKind, IsNeverPublicKind, MayBePublic;
    at := [];
    if m != [] {
      var (front, n) := (m[..|m| - 1], |m| - 1);
      assert m == front + [m[n]];
      RefsOfAppend(front, m[n], all);
      at := RefsInOrder(front, all);
      AscendingMore(at, n);
      if HasKey(m[n]) {
        NeverPublicIsNotPublic(m[n]);
        NoEmptyAngle(TextOf(m[n].kind));
        NoKindNoAngle();
        if all || MayBePublic(m[n]) { at := at + [n]; }
      }
    }
  }

  /** What is shown in public, and so what the mirror copies, never comes from a passport entry. */
  lemma PassportsStayPrivate(lc: Collation, m: seq<Raw>, limit: int)
    requires IsCollation(lc)
    ensures forall e :: e in ManifestPhotoRefs(lc, Some(m), limit, false) ==>
              exists r :: r in m && Usable(r) && !IsNeverPublicKind(TextOf(r.kind)) && e == RefOf(r)
  {
    hide IsNeverPublicKind, RefOf, RefsOf;
    EntryLeqIsPreorder(lc);
    var refs := RefsOf(m, false);
    SortLaws(EntryLeq(lc), refs);
    RefsOfMembers(m, false);
    forall e | e in ManifestPhotoRefs(lc, Some(m), limit, false)
      ensures e in refs
    {
      assert e in Sort(EntryLeq(lc), refs);
      assert e in multiset(Sort(EntryLeq(lc), refs));
    }
  }

  /**
   The subset is the front of the walk-around: sorted, taken from the showable entries, each as often
   as it is there, as many as fit, and everything left out comes no earlier than anything shown.
   */
  lemma SubsetIsTheFront(lc: Collation, m: seq<Raw>, limit: nat, all: bool) returns (leftOut: seq<Entry>)
    requires IsCollation(lc)
    ensures var (refs, shown) := (RefsOf(m, all), ManifestPhotoRefs(lc, Some(m), limit, all));
            && multiset(shown) + multiset(leftOut) == multiset(refs)
            && |shown| == (if |refs| <= limit then |refs| else limit)
            && Sorted(EntryLeq(lc), shown + leftOut)
            && (forall e :: Filter(Like(EntryLeq(lc), e), shown + leftOut) == Filter(Like(EntryLeq(lc), e), refs))
            && forall x, y :: x in shown && y in leftOut ==> EntryLeq(lc)(x, y)
  {
    hide RefsOf, EntryLeq, Sort, Sorted;
    EntryLeqIsPreorder(lc);
    var refs := RefsOf(m, all);
    SortLaws(EntryLeq(lc), refs);
    var sorted := Sort(EntryLeq(lc), refs);
    StableSortIsUnique(EntryLeq(lc), refs, sorted);
    hide Preorder;
    assert |sorted| == |multiset(sorted)| == |refs|;
    var n := if |sorted| <= limit then |sorted| else limit;
    leftOut := sorted[n..];
    assert sorted == sorted[..n] + leftOut && Truncated(sorted, limit) == sorted[..n];
    forall x, y | x in sorted[..n] && y in leftOut
      ensures EntryLeq(lc)(x, y)
    {
      var i :| 0 <= i < n && sorted[i] == x;
      var j :| 0 <= j < |leftOut| && leftOut[j] == y;
      SortedAt(EntryLeq(lc), sorted, i, n + j);
    }
  }
}
