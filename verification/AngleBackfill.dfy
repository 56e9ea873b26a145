/**
 The manifest backfill (scripts/backfill-report-photo-angles.ts): cursor paging over the reports,
 and for each stale manifest two writes, the manifest itself and the stamps of its listings.
 Its effects are `PhotoMirror.Steps`, so its runs mix freely with those of the mirror script.
 */
module AngleBackfill {
  import opened Wrappers
  import opened Runs
  import opened Sorting
  import opened PhotoOrder
  import opened Manifest
  import opened Paging
  import opened PhotoMirror
  import opened MirrorScripts

  function Itself(id: string): string { id }

  predicate Distinct(ids: seq<string>) {
    UniqueIds(Itself, ids)
  }

  /** The two requests behind one stale manifest. */
  datatype RowFaults = RowFaults(update: Reply, clear: Reply)

  predicate Stale(env: Env, m: Option<seq<Raw>>) {
    RewriteOf(env.lc, m).Some?
  }

  function Canon(env: Env, m: Option<seq<Raw>>): Option<seq<Raw>> {
    if Stale(env, m) then Some(Map(Stored(env), RewriteOf(env.lc, m).value)) else m
  }

  /** A stored manifest with these entries: key, kind and angle of each under their names, and nothing else. */
  ghost predicate Lists(m: seq<Raw>, es: seq<Entry>) {
    && |m| == |es|
    && forall i :: 0 <= i < |m| ==>
         && m[i].Ref? && m[i].s3Key == Value(es[i].s3Key) && !m[i].others
         && m[i].kind == (if es[i].kind == None then Absent else Value(es[i].kind.value))
         && m[i].angle == (if es[i].angle == None then Absent else Value(es[i].angle.value))
  }

  /** A manifest lists its canonical entries once it is written, and already when it is left alone. */
  lemma CanonLists(env: Env, m: seq<Raw>)
    ensures Canon(env, None) == None
    ensures Canon(env, Some(m)).Some? && Lists(Canon(env, Some(m)).value, Canonical(env.lc, m))
  {
    hide Canonical;
  }

  /** The manifest lists the canonical entries of what was there, unless that was no array. */
  ghost predicate CaughtUp(env: Env, before: Option<seq<Raw>>, after: Option<seq<Raw>>) {
    if before == None then after == None
    else after.Some? && Lists(after.value, Canonical(env.lc, before.value))
  }

  lemma AllCaughtUp(env: Env, w: World, ids: seq<string>)
    requires Known(w, ids) && Distinct(ids)
    ensures var w' := Rewritten(env, w, ids);
            forall r :: r in ids ==> r in w'.reports && CaughtUp(env, w.reports[r], w'.reports[r])
  {
    hide Canon, Lists, Canonical, Rewritten;
    RewrittenByRow(env, w, ids);
    forall r | r in ids
      ensures CaughtUp(env, w.reports[r], Canon(env, w.reports[r]))
    {
      match w.reports[r] {
        case None => CanonLists(env, []);
        case Some(m) => CanonLists(env, m);
      }
    }
  }

  /** Both writes of one report. */
  function RewrittenOne(env: Env, w: World, id: string): World
    requires id in w.reports
  {
    if !Stale(env, w.reports[id]) then w
    else w.(reports := w.reports[id := Canon(env, w.reports[id])], listings := ClearAll(w.listings, id))
  }

  ghost predicate Known(w: World, ids: seq<string>) {
    forall r :: r in ids ==> r in w.reports
  }

  /** The reports `ids` one after the other. */
  ghost function Rewritten(env: Env, w: World, ids: seq<string>): (w': World)
    requires Known(w, ids)
    ensures w'.reports.Keys == w.reports.Keys
  {
    if ids == [] then w else RewrittenOne(env, Rewritten(env, w, ids[..|ids| - 1]), ids[|ids| - 1])
  }

  function StampedOn(w: World, report: string): set<string> {
    set l | l in w.listings && w.listings[l].report == Some(report) && w.listings[l].stamped
  }

  /** How many of the manifests are stale, and how many stamps hang on those. */
  ghost function StaleCount(env: Env, w: World, ids: seq<string>): nat
    requires Known(w, ids)
  {
    if ids == [] then 0
    else StaleCount(env, w, ids[..|ids| - 1]) + if Stale(env, w.reports[ids[|ids| - 1]]) then 1 else 0
  }

  ghost function StampCount(env: Env, w: World, ids: seq<string>): nat
    requires Known(w, ids)
  {
    if ids == [] then 0
    else StampCount(env, w, ids[..|ids| - 1])
         + if Stale(env, w.reports[ids[|ids| - 1]]) then |StampedOn(w, ids[|ids| - 1])| else 0
  }

  // ---------------------------------------------------------------------------
  // What the writes add up to
  // ---------------------------------------------------------------------------

  ghost predicate Requeued(env: Env, w: World, ids: seq<string>, l: Listing) {
    && l.report.Some? && l.report.value in ids
    && l.report.value in w.reports && Stale(env, w.reports[l.report.value])
  }

  lemma DropLast(ids: seq<string>)
    requires Distinct(ids) && ids != []
    ensures ids == ids[..|ids| - 1] + [ids[|ids| - 1]]
    ensures Distinct(ids[..|ids| - 1]) && ids[|ids| - 1] !in ids[..|ids| - 1]
  {
    assert forall i, j :: 0 <= i < j < |ids| ==> Itself(ids[i]) != Itself(ids[j]);
  }

  /**
   Each report of the list is canonical, each listing of a stale one has lost its stamp, and
   everything else is as before: one row at a time, independent of the others.
   */
  lemma {:induction false} RewrittenByRow(env: Env, w: World, ids: seq<string>)
    requires Known(w, ids) && Distinct(ids)
    ensures var w' := Rewritten(env, w, ids);
            && w'.source == w.source && w'.copies == w.copies && w'.photos == w.photos
            && w'.listings.Keys == w.listings.Keys
            && (forall r :: r in w.reports ==>
                  w'.reports[r] == if r in ids then Canon(env, w.reports[r]) else w.reports[r])
            && (forall l :: l in w.listings ==>
                  w'.listings[l] == if Requeued(env, w, ids, w.listings[l])
                                    then w.listings[l].(stamped := false) else w.listings[l])
  {
    hide Stale, Distinct, RewriteOf;
    if ids != [] {
      DropLast(ids);
      RewrittenByRow(env, w, ids[..|ids| - 1]);
    }
  }

  /** A manifest that is stale again as soon as it is rewritten: the column reorders its keys. */
  ghost predicate Relapses(env: Env, m: Option<seq<Raw>>) {
    Stale(env, m) && !KeepsKeys(env, Canonical(env.lc, m.value))
  }

  lemma CanonTwice(env: Env, m: Option<seq<Raw>>)
    requires IsCollation(env.lc)
    ensures Canon(env, Canon(env, m)) == Canon(env, m)
    ensures Stale(env, Canon(env, m)) <==> Relapses(env, m)
  {
    hide Canonical, KeepsKeys;
    if Stale(env, m) { RewriteIsIdempotent(env, m.value); }
  }

  /** A run over reports that are done already: nothing to rewrite and nothing to clear. */
  lemma {:induction false} NothingLeft(env: Env, w: World, ids: seq<string>, again: seq<string>)
    requires IsCollation(env.lc) && Known(w, ids) && Distinct(ids)
    requires Known(Rewritten(env, w, ids), again) && forall r :: r in again ==> r in ids && !Relapses(env, w.reports[r])
    ensures Rewritten(env, Rewritten(env, w, ids), again) == Rewritten(env, w, ids)
    ensures StaleCount(env, Rewritten(env, w, ids), again) == 0 == StampCount(env, Rewritten(env, w, ids), again)
  {
    hide RewriteOf, Canonical, Relapses;
    if again != [] {
      var r := again[|again| - 1];
      NothingLeft(env, w, ids, again[..|again| - 1]);
      RewrittenByRow(env, w, ids);
      assert r in again && r in ids;
      CanonTwice(env, w.reports[r]);
    }
  }

  lemma {:induction false} StaleIsCounted(env: Env, w: World, ids: seq<string>, r: string)
    requires Known(w, ids) && r in ids && Stale(env, w.reports[r])
    ensures 0 < StaleCount(env, w, ids)
  {
    hide Stale;
    if r != ids[|ids| - 1] { StaleIsCounted(env, w, ids[..|ids| - 1], r); }
  }

  /** A second run over the same reports is free exactly when none of them relapses. */
  lemma RerunIsFreeExactlyWithoutRelapses(env: Env, w: World, ids: seq<string>)
    requires IsCollation(env.lc) && Known(w, ids) && Distinct(ids)
    ensures Known(Rewritten(env, w, ids), ids)
    ensures StaleCount(env, Rewritten(env, w, ids), ids) == 0 <==> forall r :: r in ids ==> !Relapses(env, w.reports[r])
  {
    hide Stale, Canon, Relapses, StaleCount, Rewritten, Distinct;
    if r :| r in ids && Relapses(env, w.reports[r]) {
      RewrittenByRow(env, w, ids);
      CanonTwice(env, w.reports[r]);
      StaleIsCounted(env, Rewritten(env, w, ids), ids, r);
    } else {
      NothingLeft(env, w, ids, ids);
    }
  }

  lemma OneEntry(lc: Collation, e: Entry, raw: Raw)
    requires Usable(raw) && Parsed(raw) == e
    ensures Canonical(lc, [raw]) == [e] && Canonical(lc, [Junk, raw]) == [e]
  {
    hide AngleForKind;
    assert [raw][1..] == [] && [Junk, raw][1..] == [raw] && [e][1..] == [];
    assert ParseAll([raw]) == [e] + ParseAll([]) == [e];
    assert ParseAll([Junk, raw]) == ParseAll([raw]);
    assert Sort(EntryLeq(lc), [e]) == Insert(EntryLeq(lc), e, Sort(EntryLeq(lc), [])) == [e];
  }

  /** A failing input for the rerun: one photo of a kind, in a column that puts `kind` first. */
  lemma ARerunIsNotFree(lc: Collation)
    ensures Relapses(Env(lc, false), Some([Ref(Value("k"), Value("obd"), Absent, false, false)]))
  {
    var raw := Ref(Value("k"), Value("obd"), Absent, false, false);
    var e := Parsed(raw);
    OneEntry(lc, e, raw);
    hide AngleForKind, Canonical;
    assert e.kind == Some("obd") && e in [e];
    assert Map(Written, [e])[0].inOrder && ![raw][0].inOrder;
  }

  /** The stamps of a report are not touched by the reports before it. */
  lemma StampsOfTheNext(env: Env, w: World, ids: seq<string>, id: string)
    requires Known(w, ids) && Distinct(ids) && id !in ids && id in w.reports
    ensures StampedOn(Rewritten(env, w, ids), id) == StampedOn(w, id)
    ensures Rewritten(env, w, ids).reports[id] == w.reports[id]
  {
    hide Stale, Canon;
    RewrittenByRow(env, w, ids);
  }

  /** `unmirrored` is the number of listings that lost their stamp. */
  lemma {:induction false} StampCountIsLosses(env: Env, w: World, ids: seq<string>)
    requires Known(w, ids) && Distinct(ids)
    ensures StampCount(env, w, ids) == |Losses(w, Rewritten(env, w, ids))|
  {
    hide Stale, Canon, Distinct;
    if ids != [] {
      var (rest, id) := (ids[..|ids| - 1], ids[|ids| - 1]);
      DropLast(ids);
      StampCountIsLosses(env, w, rest);
      StampsOfTheNext(env, w, rest, id);
      RewrittenByRow(env, w, rest);
      LossesOfTheNext(env, w, Rewritten(env, w, rest), id);
    }
  }

  lemma LossesOfTheNext(env: Env, w: World, now: World, id: string)
    requires now.listings.Keys == w.listings.Keys && id in now.reports
    requires forall l :: l in w.listings ==>
      now.listings[l] == w.listings[l] || now.listings[l] == w.listings[l].(stamped := false)
    requires StampedOn(now, id) == StampedOn(w, id)
    ensures |Losses(w, RewrittenOne(env, now, id))|
            == |Losses(w, now)| + if Stale(env, now.reports[id]) then |StampedOn(w, id)| else 0
  {
    hide Stale, Canon;
    var (losses, stamps) := (Losses(w, now), StampedOn(w, id));
    if Stale(env, now.reports[id]) {
      var w' := RewrittenOne(env, now, id);
      forall l | l in stamps
        ensures l !in losses
      {
        assert l in StampedOn(now, id);
      }
      forall l | l in w.listings
        ensures l in Losses(w, w') <==> l in losses || l in stamps
      {
        assert w'.listings[l] == Unstamped(now.listings[l], id);
        assert l in stamps <==> l in StampedOn(now, id);
      }
      assert Losses(w, w') == losses + stamps && losses !! stamps;
    }
  }

  ghost function Losses(w: World, w': World): set<string> {
    set l | l in w.listings && w.listings[l].stamped && l in w'.listings && !w'.listings[l].stamped
  }

  // ---------------------------------------------------------------------------
  // A run that is cut between the two writes of a report
  // ---------------------------------------------------------------------------

  /** A later run over the report catches up exactly when no stamp hung on it or it relapses. */
  lemma CutRunResumesExactly(env: Env, w: World, r: string, w': World, ids: seq<string>)
    requires IsCollation(env.lc) && StepBy(env, w, RewriteReport(r), w')
    requires Known(w, ids) && Distinct(ids) && r in ids
    ensures Known(w', ids)
    ensures Rewritten(env, w', ids) == Rewritten(env, w, ids) <==>
              StampedOn(w, r) == {} || Relapses(env, w.reports[r])
  {
    hide RewriteOf, Distinct, RefKeys, Rewritten, Relapses;
    assert w'.reports[r] == Canon(env, w.reports[r]) && Stale(env, w.reports[r]);
    CanonTwice(env, w.reports[r]);
    RewrittenByRow(env, w, ids);
    RewrittenByRow(env, w', ids);
    var (a, b) := (Rewritten(env, w, ids), Rewritten(env, w', ids));
    hide Canon, Stale, IsCollation, StepBy;
    assert a.reports == b.reports;
    assert a.listings == b.listings ==> a == b;
    assert forall l :: l in w.listings && l !in StampedOn(w, r) ==> a.listings[l] == b.listings[l];
    if Relapses(env, w.reports[r]) {
      assert a.listings == b.listings;
    } else {
      assert forall l :: l in StampedOn(w, r) ==> !a.listings[l].stamped && b.listings[l].stamped;
      if StampedOn(w, r) == {} { assert a.listings == b.listings; }
    }
  }

  /**
   A failing input for the cut: a manifest without kinds, stale for an element that is no object, and
   a stamped listing on it. The uncut run clears the stamp, the run after the cut does not.
   */
  lemma ACutRunDoesNotResume(env: Env) returns (w: World, w': World)
    requires IsCollation(env.lc)
    ensures StepBy(env, w, RewriteReport("r"), w') && Known(w, ["r"]) && Known(w', ["r"])
    ensures "l" in Rewritten(env, w, ["r"]).listings && !Rewritten(env, w, ["r"]).listings["l"].stamped
    ensures "l" in Rewritten(env, w', ["r"]).listings && Rewritten(env, w', ["r"]).listings["l"].stamped
  {
    var raw := Ref(Value("k"), Absent, Absent, false, true);
    var (m, e) := ([Junk, raw], Entry("k", None, None));
    NoKindNoAngle();
    assert Parsed(raw) == e;
    OneEntry(env.lc, e, raw);
    hide AngleForKind, Canonical, RefKeys;
    assert Map(Written, [e])[0] == raw && |Map(Written, [e])| == 1 != |m|;
    assert Map(Stored(env), [e]) == [raw] == Map(Written, [e]);
    w := World(map[], map[], map[], map["l" := Listing(Some("r"), "ACTIVE", true)], map["r" := Some(m)]);
    w' := w.(reports := map["r" := Some([raw])]);
    hide RewriteOf;
    OneReport(env, w, "r");
    OneReport(env, w', "r");
  }

  lemma OneReport(env: Env, w: World, r: string)
    requires r in w.reports
    ensures Known(w, [r]) && Rewritten(env, w, [r]) == RewrittenOne(env, w, r)
  {
    assert [r][..0] == [];
  }

  /** Any number of complete backfill runs, each over its own selection of reports. */
  ghost function AfterRuns(env: Env, w: World, runs: seq<seq<string>>): (w': World)
    requires forall ids :: ids in runs ==> Known(w, ids)
    ensures w'.reports.Keys == w.reports.Keys
  {
    if runs == [] then w
    else
      var (v, last) := (AfterRuns(env, w, runs[..|runs| - 1]), runs[|runs| - 1]);
      assert last in runs && Known(w, last) && forall id :: id in v.reports.Keys <==> id in w.reports.Keys;
      Rewritten(env, v, last)
  }

  lemma {:induction false} FreshStaysFresh(env: Env, w: World, r: string, runs: seq<seq<string>>)
    requires r in w.reports && !Stale(env, w.reports[r])
    requires forall ids :: ids in runs ==> Known(w, ids) && Distinct(ids)
    ensures AfterRuns(env, w, runs).reports[r] == w.reports[r]
    ensures AfterRuns(env, w, runs).listings.Keys == w.listings.Keys
    ensures forall l :: l in w.listings && w.listings[l].report == Some(r) ==>
              AfterRuns(env, w, runs).listings[l] == w.listings[l]
  {
    hide RewriteOf, Distinct, Stale, Rewritten;
    if runs != [] {
      var (front, last) := (runs[..|runs| - 1], runs[|runs| - 1]);
      assert last in runs && forall ids :: ids in front ==> ids in runs;
      FreshStaysFresh(env, w, r, front);
      RewrittenByRow(env, AfterRuns(env, w, front), last);
    }
  }

  /** Where it does not relapse, no number of later runs takes away a stamp that the cut left on it. */
  lemma StampsOutliveTheCut(env: Env, w: World, r: string, w': World, runs: seq<seq<string>>)
    requires IsCollation(env.lc) && StepBy(env, w, RewriteReport(r), w') && !Relapses(env, w.reports[r])
    requires forall ids :: ids in runs ==> Known(w', ids) && Distinct(ids)
    ensures StampedOn(AfterRuns(env, w', runs), r) >= StampedOn(w, r)
  {
    hide RewriteOf, Distinct, AfterRuns, Relapses;
    assert w'.reports[r] == Canon(env, w.reports[r]);
    CanonTwice(env, w.reports[r]);
    FreshStaysFresh(env, w', r, runs);
  }

  // ---------------------------------------------------------------------------
  // The script
  // ---------------------------------------------------------------------------

  datatype Flags = Flags(batch: nat, limit: Option<int>, dryRun: bool, only: string)

  predicate Enough(f: Flags, examined: nat) {
    f.limit.Some? && examined >= f.limit.value
  }

  class Reports {
    const source: map<Key, Bytes>
    const copies: map<PublicKey, Bytes>
    const photos: map<string, Photo>
    var listings: map<string, Listing>
    var reports: map<string, Option<seq<Raw>>>
    /** The reports that have a manifest, by id; the run never changes which those are. */
    const order: seq<string>
    ghost var history: seq<World>
    const env: Env

    ghost function Now(): World
      reads this
    {
      World(source, copies, photos, listings, reports)
    }

    ghost predicate Valid()
      reads this
    {
      && IsCollation(env.lc)
      && Behaviour(Steps(env), history) && history[|history| - 1] == Now()
      && Distinct(order) && Known(Now(), order)
    }

    constructor (env: Env, w: World, order: seq<string>)
      requires IsCollation(env.lc) && Distinct(order) && Known(w, order)
      ensures Valid() && this.env == env && Now() == w && history == [w] && this.order == order
    {
      this.env := env;
      source, copies, photos, listings, reports := w.source, w.copies, w.photos, w.listings, w.reports;
      this.order := order;
      history := [w];
    }

    ghost method Record(e: Event)
      requires IsCollation(env.lc) && Behaviour(Steps(env), history) && Distinct(order) && Known(Now(), order)
      requires StepBy(env, history[|history| - 1], e, Now())
      modifies this`history
      ensures Valid() && history == old(history) + [Now()]
    {
      hide StepBy;
      assert Step(env, history[|history| - 1], Now());
      Extend(Steps(env), history, Now());
      history := history + [Now()];
    }

    /** `report.update`, which may report an error after it took effect. */
    method UpdateManifest(id: string, next: seq<Entry>, reply: Reply) returns (ok: bool)
      requires Valid() && id in reports && RewriteOf(env.lc, reports[id]) == Some(next)
      modifies this`reports, this`history
      ensures Valid() && old(history) <= history
      ensures ok <==> reply == Done
      ensures reports == if reply == Refused then old(reports) else old(reports)[id := Some(Map(Stored(env), next))]
      ensures reply != Refused ==> reports[id].Some? && Lists(reports[id].value, next)
    {
      hide Behaviour, RewriteOf;
      if reply != Refused {
        reports := reports[id := Some(Map(Stored(env), next))];
        Record(RewriteReport(id));
      }
      ok := reply == Done;
    }

    /** `listing.updateMany`, with the number of rows it hit. */
    method ClearStampsOf(id: string, reply: Reply) returns (count: nat, ok: bool)
      requires Valid()
      modifies this`listings, this`history
      ensures Valid() && old(history) <= history
      ensures ok <==> reply == Done
      ensures listings == if reply == Refused then old(listings) else ClearAll(old(listings), id)
      ensures count == |StampedOn(old(Now()), id)|
    {
      hide Behaviour, RewriteOf;
      count := |StampedOn(World(source, copies, photos, listings, reports), id)|;
      if reply != Refused {
        listings := ClearAll(listings, id);
        Record(ClearStamps(id));
      }
      ok := reply == Done;
    }

    /** One report. Nothing here is guarded: an error ends the run. */
    method RewriteOne(id: string, manifest: Option<seq<Raw>>, dryRun: bool, net: RowFaults)
      returns (rewrote: bool, cleared: nat, fatal: bool)
      requires Valid() && id in reports && manifest == reports[id]
      modifies this`reports, this`listings, this`history
      ensures Valid() && old(history) <= history
      ensures dryRun ==> Now() == old(Now()) && history == old(history)
      ensures !dryRun && !fatal ==> Now() == RewrittenOne(env, old(Now()), id)
      ensures rewrote <==> Stale(env, manifest)
      ensures !fatal ==> cleared == if rewrote then |StampedOn(old(Now()), id)| else 0
      ensures net == RowFaults(Done, Done) ==> !fatal
    {
      hide Behaviour, RewriteOf;
      rewrote, cleared, fatal := false, 0, false;
      var next := Rewrite(env.lc, manifest);
      if next == None { return; }
      rewrote := true;
      if dryRun {
        cleared := |StampedOn(World(source, copies, photos, listings, reports), id)|;
        return;
      }
      var ok := UpdateManifest(id, next.value, net.update);
      if !ok { return true, 0, true; }
      cleared, ok := ClearStampsOf(id, net.clear);
      fatal := !ok;
    }

    /** What is done so far: the reports `done`, or on a dry run nothing but the counting. */
    ghost predicate DoneSince(start: World, done: seq<string>, dryRun: bool, rewritten: nat, unmirrored: nat)
      reads this
    {
      DoneAt(env, start, Now(), done, dryRun, rewritten, unmirrored)
    }

    /** The reports of one page, with the manifests as the query returned them. */
    method RewritePage(page: seq<string>, fetched: map<string, Option<seq<Raw>>>, f: Flags, net: nat -> RowFaults,
                       examined0: nat, rewritten0: nat, unmirrored0: nat,
                       ghost start: World, ghost selected: seq<string>)
      returns (examined: nat, rewritten: nat, unmirrored: nat, fatal: bool)
      requires Valid() && Known(start, selected) && Distinct(selected)
      requires examined0 + |page| <= |selected| && page == selected[examined0..examined0 + |page|]
      requires fetched == reports && DoneSince(start, selected[..examined0], f.dryRun, rewritten0, unmirrored0)
      modifies this`reports, this`listings, this`history
      ensures Valid() && old(history) <= history && (f.dryRun ==> history == old(history) && Now() == old(Now()))
      ensures examined0 <= examined <= examined0 + |page|
      ensures examined0 < examined && f.limit.Some? ==> examined <= f.limit.value
      ensures !fatal ==> DoneSince(start, selected[..examined], f.dryRun, rewritten, unmirrored)
      ensures !fatal && examined < examined0 + |page| ==> Enough(f, examined)
      ensures (forall n :: net(n) == RowFaults(Done, Done)) ==> !fatal
    {
      hide Behaviour, RewriteOf, RewrittenOne, Stale, Distinct, DoneAt, Known;
      examined, rewritten, unmirrored, fatal := examined0, rewritten0, unmirrored0, false;
      ghost var first := Now();
      for j := 0 to |page|
        invariant Valid() && old(history) <= history && (f.dryRun ==> history == old(history) && Now() == old(Now()))
        invariant examined == examined0 + j && (0 < j && f.limit.Some? ==> examined <= f.limit.value)
        invariant DoneSince(start, selected[..examined], f.dryRun, rewritten, unmirrored)
      {
        if Enough(f, examined) { return; }
        var id := page[j];
        ghost var before := Now();
        AsFetched(env, start, first, before, selected, examined0, examined, f.dryRun,
                  rewritten0, unmirrored0, rewritten, unmirrored);
        var rewrote, cleared;
        rewrote, cleared, fatal := RewriteOne(id, fetched[id], f.dryRun, net(examined));
        examined := examined + 1;
        if fatal { return; }
        OneMoreDone(env, start, before, Now(), selected, examined - 1, f.dryRun,
                    rewritten, unmirrored, rewrote, cleared);
        if rewrote { rewritten := rewritten + 1; }
        unmirrored := unmirrored + cleared;
      }
    }

    /** The `where` clause of the query. */
    function Selected(only: string): (ids: seq<string>)
      ensures forall r :: r in ids <==> r in order && (only == "" || r == only)
      ensures only == "" ==> ids == order
    {
      if only == "" then order else if only in order then [only] else []
    }

    /**
     The whole script. The cursor visits every report once, in id order; the counters are those of
     the table the run started with, so a dry run foretells exactly what the real run will do.
     */
    method Run(f: Flags, net: nat -> RowFaults)
      returns (examined: nat, rewritten: nat, unmirrored: nat, fatal: bool)
      requires Valid() && 0 < f.batch
      modifies this`reports, this`listings, this`history
      ensures Valid() && old(history) <= history && (f.dryRun ==> history == old(history) && Now() == old(Now()))
      ensures examined <= |Selected(f.only)| && Known(old(Now()), Selected(f.only))
      ensures !fatal ==> DoneSince(old(Now()), Selected(f.only)[..examined], f.dryRun, rewritten, unmirrored)
      ensures !fatal ==> examined == Bounded(f, |Selected(f.only)|)
      ensures !fatal && examined < |Selected(f.only)| ==> f.limit.Some? && f.limit.value <= examined
      ensures !fatal && !f.dryRun ==>
                forall r :: r in Selected(f.only)[..examined] ==>
                  r in reports && CaughtUp(env, old(reports)[r], reports[r])
      ensures (forall n :: net(n) == RowFaults(Done, Done)) ==> !fatal
    {
      hide Behaviour, Rewritten, StaleCount, StampCount, Distinct, Page, CursorAt;
      ghost var start := Now();
      var selected := Selected(f.only);
      SelectedIsDistinct(order, f.only);
      var cursor: Option<string> := None;
      examined, rewritten, unmirrored, fatal := 0, 0, 0, false;
      NothingYet(env, start, selected);
      while true
        invariant Valid() && old(history) <= history && (f.dryRun ==> history == old(history) && Now() == old(Now()))
        invariant examined <= |selected| && cursor == CursorAt(Itself, selected, examined)
        invariant DoneSince(start, selected[..examined], f.dryRun, rewritten, unmirrored)
        invariant 0 < examined ==> f.only == "" && !Enough(f, examined)
        decreases |selected| - examined
      {
        NextIds(selected, examined, f.batch);
        var page := Page(Itself, selected, cursor, f.batch);
        if |page| == 0 { break; }
        cursor := Some(page[|page| - 1]);
        examined, rewritten, unmirrored, fatal :=
          RewritePage(page, reports, f, net, examined, rewritten, unmirrored, start, selected);
        if fatal { return; }
        if Enough(f, examined) || f.only != "" { break; }
      }
      FrontIsDistinct(selected, examined);
      AllCaughtUp(env, start, selected[..examined]);
    }
  }

  /** How many of `n` reports a run gets to: the limit is tested before each of them. */
  function Bounded(f: Flags, n: nat): nat {
    match f.limit
    case None => n
    case Some(k) => if k <= 0 then 0 else if k < n then k else n
  }

  lemma FrontIsDistinct(ids: seq<string>, n: nat)
    requires Distinct(ids) && n <= |ids|
    ensures Distinct(ids[..n])
  {
    assert forall i, j :: 0 <= i < j < |ids| ==> Itself(ids[i]) != Itself(ids[j]);
  }

  lemma SelectedIsDistinct(order: seq<string>, only: string)
    requires Distinct(order)
    ensures Distinct([]) && Distinct([only])
  {
  }

  lemma NextIds(ids: seq<string>, n: nat, take: nat)
    requires Distinct(ids) && n <= |ids| && 0 < take
    ensures var page := Page(Itself, ids, CursorAt(Itself, ids, n), take);
            && n + |page| <= |ids| && page == ids[n..n + |page|]
            && (|page| == 0 ==> n == |ids|) && (|ids| - n <= 1 ==> n + |page| == |ids|)
            && (0 < |page| ==> CursorAt(Itself, ids, n + |page|) == Some(page[|page| - 1]))
  {
    NextPage(Itself, ids, n, take);
  }

  lemma NothingYet(env: Env, w: World, ids: seq<string>)
    requires Known(w, ids)
    ensures Known(w, ids[..0]) && Rewritten(env, w, ids[..0]) == w
    ensures StaleCount(env, w, ids[..0]) == 0 == StampCount(env, w, ids[..0])
    ensures CursorAt(Itself, ids, 0) == None
  {
  }

  /** What is done in the world `now`: the reports `done`, or on a dry run nothing but the counting. */
  ghost predicate DoneAt(env: Env, start: World, now: World, done: seq<string>, dryRun: bool,
                         rewritten: nat, unmirrored: nat)
  {
    && Known(start, done)
    && now == (if dryRun then start else Rewritten(env, start, done))
    && rewritten == StaleCount(env, start, done)
    && unmirrored == StampCount(env, start, done)
  }

  /** A report not yet visited is as the page query found it. */
  lemma AsFetched(env: Env, start: World, first: World, now: World, ids: seq<string>, m: nat, n: nat, dryRun: bool,
                  rewritten0: nat, unmirrored0: nat, rewritten: nat, unmirrored: nat)
    requires Known(start, ids) && Distinct(ids) && m <= n < |ids|
    requires DoneAt(env, start, first, ids[..m], dryRun, rewritten0, unmirrored0)
    requires DoneAt(env, start, now, ids[..n], dryRun, rewritten, unmirrored)
    ensures ids[n] in first.reports && ids[n] in now.reports
    ensures first.reports[ids[n]] == now.reports[ids[n]] == start.reports[ids[n]]
  {
    hide Distinct, Rewritten, RewrittenOne, StaleCount, StampCount;
    NextReport(env, start, ids, m, n);
  }

  lemma OneMoreDone(env: Env, start: World, before: World, now: World, ids: seq<string>, n: nat, dryRun: bool,
                    rewritten: nat, unmirrored: nat, rewrote: bool, cleared: nat)
    requires Known(start, ids) && Distinct(ids) && n < |ids|
    requires DoneAt(env, start, before, ids[..n], dryRun, rewritten, unmirrored)
    requires dryRun ==> now == before
    requires !dryRun ==> now == RewrittenOne(env, before, ids[n])
    requires rewrote <==> Stale(env, start.reports[ids[n]])
    requires cleared == if rewrote then |StampedOn(before, ids[n])| else 0
    ensures DoneAt(env, start, now, ids[..n + 1], dryRun, rewritten + if rewrote then 1 else 0, unmirrored + cleared)
  {
    hide Distinct, Rewritten, RewrittenOne, StaleCount, StampCount;
    NextReport(env, start, ids, n, n);
  }

  lemma NextReport(env: Env, w: World, ids: seq<string>, m: nat, n: nat)
    requires Known(w, ids) && Distinct(ids) && m <= n < |ids|
    ensures Rewritten(env, w, ids[..n + 1]) == RewrittenOne(env, Rewritten(env, w, ids[..n]), ids[n])
    ensures StaleCount(env, w, ids[..n + 1])
            == StaleCount(env, w, ids[..n]) + if Stale(env, w.reports[ids[n]]) then 1 else 0
    ensures StampCount(env, w, ids[..n + 1])
            == StampCount(env, w, ids[..n]) + if Stale(env, w.reports[ids[n]]) then |StampedOn(w, ids[n])| else 0
    ensures StampedOn(Rewritten(env, w, ids[..n]), ids[n]) == StampedOn(w, ids[n])
    ensures Rewritten(env, w, ids[..n]).reports[ids[n]] == w.reports[ids[n]]
    ensures Rewritten(env, w, ids[..m]).reports[ids[n]] == w.reports[ids[n]]
  {
    hide Stale, RewrittenOne;
    assert ids[..n + 1][..n] == ids[..n];
    assert forall i, j :: 0 <= i < j < |ids| ==> Itself(ids[i]) != Itself(ids[j]);
    StampsOfTheNext(env, w, ids[..n], ids[n]);
    StampsOfTheNext(env, w, ids[..m], ids[n]);
  }
}
