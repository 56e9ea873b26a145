/**
 The mirror script as it runs, with its two passes.
 Every effect is recorded in `history`, which stays a behaviour of `PhotoMirror.Steps`.
 */
module MirrorScripts {
  import opened Wrappers
  import opened Runs
  import opened Sorting
  import opened PhotoOrder
  import opened Manifest
  import opened PhotoMirror

  /** How a request that changes something ends: an error may hide that it took effect. */
  datatype Reply = Done | Refused | Lost

  /** What happens to one transfer and to the row update behind it. */
  datatype Faults = Faults(
    sourceHeadFails: bool, destHeadFails: bool, getFails: bool,
    put: Reply, garbled: Option<Bytes>, verifyFails: bool, update: Reply)
  {
    predicate Clean() {
      && !sourceHeadFails && !destHeadFails && !getFails && !verifyFails
      && put == Done && garbled == None && update == Done
    }
  }

  ghost predicate NeverFails(net: nat -> Faults) {
    forall n :: net(n).Clean()
  }

  ghost predicate NothingFails(net: (nat, nat) -> Faults) {
    forall n, m :: net(n, m).Clean()
  }

  datatype Outcome = Transferred | AlreadyThere | Missing

  datatype Stats = Stats(
    rowsScanned: nat, rowsCopied: nat, rowsSkipped: nat,
    listingsScanned: nat, mirrored: nat, mirrorSkipped: nat, listingsStamped: nat,
    missingSources: nat, failed: nat)
  {
    /** How many objects the run has moved: what the limit counts. */
    function Moved(): nat { rowsCopied + mirrored }

    /** The rows of pass A that reached an outcome, and the photos of pass B that did or threw. */
    function RowsBooked(): nat { rowsCopied + rowsSkipped + missingSources }

    function RefsBooked(): nat { mirrored + mirrorSkipped + missingSources + failed }
  }

  const ZERO := Stats(0, 0, 0, 0, 0, 0, 0, 0, 0)

  datatype Options = Options(
    batch: nat, limit: Option<int>, dryRun: bool, activeOnly: bool, onlyListing: string)

  predicate AtLimit(o: Options, s: Stats) {
    o.limit.Some? && s.Moved() >= o.limit.value
  }

  /** The `where` clause on the listing. */
  predicate Eligible(o: Options, id: string, l: Listing) {
    && (if o.activeOnly then l.status == "ACTIVE" else l.status != "DELETED")
    && (o.onlyListing != "" ==> id == o.onlyListing)
  }

  predicate PhotoPending(w: World, o: Options, id: string) {
    && id in w.photos && !w.photos[id].isPublic
    && w.photos[id].listing in w.listings
    && Eligible(o, w.photos[id].listing, w.listings[w.photos[id].listing])
  }

  predicate ListingPending(w: World, o: Options, id: string) {
    && id in w.listings && !w.listings[id].stamped && w.listings[id].report.Some?
    && Eligible(o, id, w.listings[id])
  }

  function PhotoFilter(w: World, o: Options): string -> bool { id => PhotoPending(w, o, id) }

  function ListingFilter(w: World, o: Options): string -> bool { id => ListingPending(w, o, id) }

  /** The rows the queries return, in the order of the table. */
  function PendingPhotos(w: World, o: Options, order: seq<string>): seq<string> {
    Filter(PhotoFilter(w, o), order)
  }

  function PendingListings(w: World, o: Options, order: seq<string>): seq<string> {
    Filter(ListingFilter(w, o), order)
  }

  /** Copies are only ever improved. */
  ghost predicate CopiesGrow(w: World, w': World) {
    forall d :: Copied(w, d) ==> Copied(w', d)
  }

  /** The rows that pass A takes up, written out. */
  ghost predicate TakesPhoto(w: World, o: Options, order: seq<string>, p: string) {
    && p in order && p in w.photos && !w.photos[p].isPublic
    && var l := w.photos[p].listing;
       && l in w.listings && (o.activeOnly ==> w.listings[l].status == "ACTIVE")
       && (!o.activeOnly ==> w.listings[l].status != "DELETED")
       && (o.onlyListing == "" || l == o.onlyListing)
  }

  /** And the listings that pass B takes up. */
  ghost predicate TakesListing(w: World, o: Options, order: seq<string>, l: string) {
    && l in order && l in w.listings && w.listings[l].report != None && !w.listings[l].stamped
    && (o.activeOnly ==> w.listings[l].status == "ACTIVE")
    && (!o.activeOnly ==> w.listings[l].status != "DELETED")
    && (o.onlyListing == "" || l == o.onlyListing)
  }

  /** Objects come to the public bucket under `ds` only, and a copy that is right is not touched. */
  ghost predicate OnlyCopies(w: World, w': World, ds: set<PublicKey>) {
    && (forall d :: d in w.copies ==>
          d in w'.copies && (d !in ds || Copied(w, d) ==> w'.copies[d] == w.copies[d]))
    && (forall d :: d in w'.copies && d !in w.copies ==> d in ds && d.key in w.source)
  }

  ghost function UploadsOf(w: World, rows: seq<string>): set<PublicKey> {
    set p | p in rows && p in w.photos :: Upload(w.photos[p].key)
  }

  ghost function MirrorsOf(listing: string, keys: seq<Key>): set<PublicKey> {
    set k | k in keys :: Mirrored(listing, k)
  }

  ghost function KeysShown(env: Env, w: World, l: string): seq<Key>
    requires l in w.listings
  {
    RefKeys(env, ManifestOf(w, w.listings[l]))
  }

  ghost function MirrorsFor(env: Env, w: World, rows: seq<string>): set<PublicKey> {
    set l, k | l in rows && l in w.listings && k in KeysShown(env, w, l) :: Mirrored(l, k)
  }

  /** Rows to whose requests nothing happened are public, whatever happened to the others. */
  ghost predicate CleanRows(start: World, now: World, handled: seq<string>, net: nat -> Faults) {
    forall i :: 0 <= i < |handled| && handled[i] in start.photos && handled[i] in now.photos && net(i).Clean() ==>
      start.photos[handled[i]].key in start.source ==> now.photos[handled[i]].isPublic
  }

  ghost predicate CleanListings(start: World, now: World, handled: seq<string>, net: (nat, nat) -> Faults) {
    forall i :: 0 <= i < |handled| && handled[i] in start.listings && handled[i] in now.listings ==>
      AllClean(net, i) ==> now.listings[handled[i]].stamped
  }

  ghost predicate AllClean(net: (nat, nat) -> Faults, i: nat) {
    forall k :: net(i, k).Clean()
  }

  /** Pass A between its start and now: which rows it may have marked, and which it must have. */
  ghost predicate PassA(start: World, now: World, handled: seq<string>, allWell: bool) {
    && now.source == start.source && now.listings == start.listings && now.reports == start.reports
    && now.photos.Keys == start.photos.Keys
    && CopiesGrow(start, now)
    && (forall p :: p in start.photos ==>
          || now.photos[p] == start.photos[p]
          || (p in handled && now.photos[p] == start.photos[p].(isPublic := true)
              && Copied(now, Upload(start.photos[p].key))))
    && OnlyCopies(start, now, UploadsOf(start, handled))
    && (allWell ==> forall p :: p in handled && p in start.photos && start.photos[p].key in start.source ==>
          now.photos[p].isPublic)
  }

  /** Rows whose object is not in the source bucket. */
  ghost predicate SourcesGone(start: World, rows: seq<string>) {
    forall p :: p in rows && p in start.photos ==> start.photos[p].key !in start.source
  }

  /** The queries of a run return nothing that could be transferred. */
  ghost predicate NothingToMove(w: World, o: Options, photoOrder: seq<string>, listingOrder: seq<string>) {
    SourcesGone(w, PendingPhotos(w, o, photoOrder)) && PendingListings(w, o, listingOrder) == []
  }

  /** Pass B likewise, on the stamps. */
  ghost predicate PassB(env: Env, start: World, now: World, handled: seq<string>, allWell: bool) {
    && now.source == start.source && now.photos == start.photos && now.reports == start.reports
    && now.listings.Keys == start.listings.Keys
    && CopiesGrow(start, now)
    && (forall l :: l in start.listings ==>
          || now.listings[l] == start.listings[l]
          || (l in handled && now.listings[l] == start.listings[l].(stamped := true)
              && AllServed(now, l, KeysShown(env, start, l))))
    && OnlyCopies(start, now, MirrorsFor(env, start, handled))
    && (allWell ==> forall l :: l in handled && l in start.listings ==> now.listings[l].stamped)
  }

  /** Pass A with its counters, which stood at `s` and stand at `t`. */
  ghost predicate PassADone(start: World, now: World, s: Stats, t: Stats, o: Options, handled: seq<string>,
                            net: nat -> Faults)
  {
    && (!o.dryRun ==> CleanRows(start, now, handled, net))
    && PassA(start, now, handled, !o.dryRun && t.failed == s.failed)
    && (o.dryRun ==> now == start)
    && (o.limit.Some? && s.Moved() <= o.limit.value ==> t.Moved() <= o.limit.value)
    && t.rowsScanned == s.rowsScanned + |handled|
    && s.failed <= t.failed
    && (t.failed == s.failed ==> t.RowsBooked() == s.RowsBooked() + |handled|)
    && (SourcesGone(start, handled) ==> t.Moved() == s.Moved())
  }

  /** Pass B with its counters. */
  ghost predicate PassBDone(env: Env, start: World, now: World, s: Stats, t: Stats, o: Options, handled: seq<string>,
                            fatal: bool, net: (nat, nat) -> Faults)
  {
    && (!o.dryRun ==> CleanListings(start, now, handled, net))
    && PassB(env, start, now, handled, !o.dryRun && !fatal && t.failed == s.failed)
    && (o.dryRun ==> now == start)
    && (o.limit.Some? && s.Moved() < o.limit.value + MAX_LISTING_PHOTOS ==>
          t.Moved() < o.limit.value + MAX_LISTING_PHOTOS)
    && t.listingsScanned == s.listingsScanned + |handled|
    && s.failed <= t.failed
    && s.Moved() <= t.Moved() <= s.Moved() + MAX_LISTING_PHOTOS * |handled|
  }

  /** One row of pass A in the counters: a transfer only where there was no copy, a skip only where there was. */
  ghost predicate RowBooked(w: World, d: PublicKey, s: Stats, s': Stats) {
    && s'.rowsScanned == s.rowsScanned + 1
    && s.failed <= s'.failed <= s.failed + 1
    && s.RowsBooked() <= s'.RowsBooked() <= s.RowsBooked() + 1
    && (s'.failed == s.failed ==>
          && s'.rowsCopied == s.rowsCopied + (if d.key in w.source && !Copied(w, d) then 1 else 0)
          && s'.rowsSkipped == s.rowsSkipped + (if Copied(w, d) then 1 else 0)
          && s'.missingSources == s.missingSources + (if d.key in w.source then 0 else 1))
    && (s'.rowsCopied != s.rowsCopied ==> s'.rowsCopied == s.rowsCopied + 1 && d.key in w.source && !Copied(w, d))
    && s'.mirrored == s.mirrored
  }

  /** One photo of pass B in the counters. */
  ghost predicate RefBooked(w: World, d: PublicKey, threw: bool, s: Stats, s': Stats) {
    s' == if threw then s.(failed := s.failed + 1)
          else if d.key !in w.source then s.(missingSources := s.missingSources + 1)
          else if Copied(w, d) then s.(mirrorSkipped := s.mirrorSkipped + 1)
          else s.(mirrored := s.mirrored + 1)
  }

  class Showroom {
    var source: map<Key, Bytes>
    var copies: map<PublicKey, Bytes>
    var photos: map<string, Photo>
    var listings: map<string, Listing>
    var reports: map<string, Option<seq<Raw>>>
    var stats: Stats
    ghost var history: seq<World>
    const env: Env

    ghost function Now(): World
      reads this
    {
      World(source, copies, photos, listings, reports)
    }

    ghost predicate Valid()
      reads this
    {
      && IsCollation(env.lc)
      && Behaviour(Steps(env), history)
      && history[|history| - 1] == Now()
    }

    constructor (env: Env, w: World)
      requires IsCollation(env.lc)
      ensures Valid() && this.env == env && Now() == w && history == [w]
    {
      this.env := env;
      source, copies, photos, listings, reports := w.source, w.copies, w.photos, w.listings, w.reports;
      stats := ZERO;
      history := [w];
    }

    ghost method Record(e: Event)
      requires IsCollation(env.lc) && Behaviour(Steps(env), history)
      requires StepBy(env, history[|history| - 1], e, Now())
      modifies this`history
      ensures Valid() && history == old(history) + [Now()]
    {
      hide StepBy;
      assert Step(env, history[|history| - 1], Now());
      Extend(Steps(env), history, Now());
      history := history + [Now()];
    }

    /** PutObject, which may store something else or report an error after storing. */
    method PutCopy(d: PublicKey, net: Faults) returns (ok: bool)
      requires Valid() && d.key in source && !Copied(Now(), d)
      modifies this`copies, this`history
      ensures Valid() && old(history) <= history
      ensures ok <==> net.put == Done
      ensures copies == if net.put == Refused then old(copies)
                        else old(copies)[d := if net.garbled.Some? then net.garbled.value else source[d.key]]
    {
      hide Behaviour;
      if net.put != Refused {
        var bytes := if net.garbled.Some? then net.garbled.value else source[d.key];
        copies := copies[d := bytes];
        Record(Put(d, bytes));
      }
      ok := net.put == Done;
    }

    /** Download, upload, verify. `None` stands for a throw. */
    method CopyObject(d: PublicKey, dryRun: bool, net: Faults) returns (r: Option<Outcome>)
      requires Valid()
      modifies this`copies, this`history, this`stats
      ensures Valid() && old(history) <= history
      ensures dryRun ==> history == old(history)
      ensures CopiesGrow(old(Now()), Now())
      ensures copies == old(copies) || (d in copies && copies == old(copies)[d := copies[d]])
      ensures OnlyCopies(old(Now()), Now(), {d})
      ensures r == Some(Missing) ==> d.key !in source
      ensures d.key !in source ==> r == Some(Missing) || r == None
      ensures r == Some(AlreadyThere) ==> Copied(old(Now()), d) && Copied(Now(), d)
      ensures r == Some(Transferred) ==> !Copied(old(Now()), d) && (dryRun || Copied(Now(), d))
      ensures r == Some(Transferred) && !dryRun && net.garbled == None ==> copies[d] == source[d.key]
      ensures stats == if r == Some(Missing) then old(stats).(missingSources := old(stats).missingSources + 1)
                       else old(stats)
      ensures net.Clean() ==> r.Some?
    {
      hide Behaviour;
      if net.sourceHeadFails { return None; }
      if d.key !in source {
        stats := stats.(missingSources := stats.missingSources + 1);
        return Some(Missing);
      }
      if net.destHeadFails { return None; }
      if d in copies && |copies[d]| == |source[d.key]| { return Some(AlreadyThere); }
      if dryRun { return Some(Transferred); }

      if net.getFails { return None; }
      var bytes := source[d.key];
      var ok := PutCopy(d, net);
      if !ok || net.verifyFails { return None; }
      if d !in copies || |copies[d]| != |bytes| { return None; }
      return Some(Transferred);
    }

    // -------------------------------------------------------------------------
    // Pass A: uploaded photos
    // -------------------------------------------------------------------------

    /** The row update behind a verified copy; its throw is counted too. */
    method MarkPublic(id: string, net: Faults)
      requires Valid() && id in photos && Copied(Now(), Upload(photos[id].key))
      modifies this`photos, this`history, this`stats
      ensures Valid() && old(history) <= history
      ensures photos == if net.update == Refused then old(photos)
                        else old(photos)[id := old(photos)[id].(isPublic := true)]
      ensures CopiesGrow(old(Now()), Now())
      ensures stats == old(stats).(failed := old(stats).failed + if net.update == Done then 0 else 1)
    {
      hide Behaviour;
      if net.update != Refused {
        photos := photos[id := photos[id].(isPublic := true)];
        Record(MarkPhoto(id));
      }
      if net.update != Done {
        stats := stats.(failed := stats.failed + 1);
      }
    }

    /** The transfer of one row; `served` says that the row may be marked. */
    method TransferPhoto(id: string, dryRun: bool, net: Faults) returns (served: bool)
      requires Valid() && id in photos
      modifies this`copies, this`history, this`stats
      ensures Valid() && old(history) <= history
      ensures dryRun ==> copies == old(copies) && history == old(history)
      ensures CopiesGrow(old(Now()), Now())
      ensures OnlyCopies(old(Now()), Now(), {Upload(photos[id].key)})
      ensures served ==> photos[id].key in source && (!dryRun ==> Copied(Now(), Upload(photos[id].key)))
      ensures served ==> stats.failed == old(stats).failed
      ensures !served && stats.failed == old(stats).failed ==> photos[id].key !in source
      ensures net.Clean() ==> stats.failed == old(stats).failed
      ensures RowBooked(old(Now()), Upload(photos[id].key), old(stats), stats)
    {
      hide Behaviour, CopiesGrow, OnlyCopies;
      stats := stats.(rowsScanned := stats.rowsScanned + 1);
      var d := Upload(photos[id].key);
      var r := CopyObject(d, dryRun, net);
      match r {
        case None =>
          stats := stats.(failed := stats.failed + 1);
          served := false;
        case Some(Missing) =>
          served := false;
        case Some(AlreadyThere) =>
          stats := stats.(rowsSkipped := stats.rowsSkipped + 1);
          served := true;
        case Some(Transferred) =>
          stats := stats.(rowsCopied := stats.rowsCopied + 1);
          served := true;
      }
    }

    /** One row of pass A: copy to the same key, then mark the row; a throw is counted. */
    method MigratePhoto(id: string, dryRun: bool, net: Faults)
      requires Valid() && id in photos
      modifies this`copies, this`photos, this`history, this`stats
      ensures Valid() && old(history) <= history
      ensures dryRun ==> Now() == old(Now()) && history == old(history)
      ensures CopiesGrow(old(Now()), Now())
      ensures photos == old(photos) || photos == old(photos)[id := old(photos)[id].(isPublic := true)]
      ensures photos != old(photos) ==> Copied(Now(), Upload(photos[id].key))
      ensures OnlyCopies(old(Now()), Now(), {Upload(photos[id].key)})
      ensures !dryRun && stats.failed == old(stats).failed && photos[id].key in source ==> photos[id].isPublic
      ensures net.Clean() ==> stats.failed == old(stats).failed
      ensures RowBooked(old(Now()), Upload(photos[id].key), old(stats), stats)
    {
      hide Behaviour, Copied, CopiesGrow, OnlyCopies;
      ghost var before := Now();
      var served := TransferPhoto(id, dryRun, net);
      if served && !dryRun {
        ghost var copied := Now();
        MarkPublic(id, net);
        CopiesKeepGrowing(before, copied, Now());
        SameCopies(before, copied, Now(), {Upload(photos[id].key)});
        CopiedStays(copied, Now(), Upload(photos[id].key));
      }
    }

    /** What pass A has achieved since `start`, where the counters stood at `s`. */
    ghost predicate PassASince(start: World, s: Stats, o: Options, handled: seq<string>, net: nat -> Faults)
      reads this
    {
      PassADone(start, Now(), s, stats, o, handled, net)
    }

    /** The rows of one batch. */
    method MigrateChunk(chunk: seq<string>, o: Options, net: nat -> Faults, at: nat,
                        ghost start: World, ghost s: Stats, ghost before: seq<string>)
      returns (ghost taken: nat, limited: bool)
      requires at == |before|
      requires Valid() && PassASince(start, s, o, before, net) && forall p :: p in chunk ==> p in start.photos
      modifies this`copies, this`photos, this`history, this`stats
      ensures Valid() && old(history) <= history && (o.dryRun ==> history == old(history))
      ensures taken <= |chunk| && PassASince(start, s, o, before + chunk[..taken], net)
      ensures if limited then AtLimit(o, stats) else taken == |chunk|
      ensures NeverFails(net) ==> stats.failed == old(stats).failed
    {
      hide Behaviour, PassADone, OnlyCopies, CopiesGrow, Copied, RowBooked;
      taken := 0;
      assert before + chunk[..0] == before;
      for j := 0 to |chunk|
        invariant Valid() && old(history) <= history && (o.dryRun ==> history == old(history))
        invariant taken == j && PassASince(start, s, o, before + chunk[..j], net)
        invariant NeverFails(net) ==> stats.failed == old(stats).failed
      {
        if AtLimit(o, stats) { return j, true; }
        var row := chunk[j];
        ghost var (w, t, handled) := (Now(), stats, before + chunk[..j]);
        RowIsThere(start, w, s, t, o, handled, net, row);
        MigratePhoto(row, o.dryRun, net(at + j));
        RowTaken(start, w, Now(), s, t, stats, o, handled, net, row);
        assert before + chunk[..j + 1] == handled + [row];
        taken := j + 1;
      }
      limited := false;
    }

    /** Pass A in batches. `handled` are the rows it took up, in order. */
    method MigrateUploadedPhotos(order: seq<string>, o: Options, net: nat -> Faults)
      returns (ghost handled: seq<string>, limited: bool)
      requires Valid() && 0 < o.batch
      modifies this`copies, this`photos, this`history, this`stats
      ensures Valid() && old(history) <= history && (o.dryRun ==> history == old(history))
      ensures PassASince(old(Now()), old(stats), o, handled, net)
      ensures handled <= PendingPhotos(old(Now()), o, order)
      ensures if limited then AtLimit(o, stats) else handled == PendingPhotos(old(Now()), o, order)
      ensures NeverFails(net) ==> stats.failed == old(stats).failed
    {
      hide Behaviour, Filter, PassA, PendingPhotos, PendingListings, CleanRows;
      ghost var (start, s) := (Now(), stats);
      var pending := PendingPhotos(World(source, copies, photos, listings, reports), o, order);
      PendingArePending(start, o, order);
      PassAStarts(start, !o.dryRun, net);
      handled := [];
      var i := 0;
      while i < |pending|
        invariant Valid() && old(history) <= history && (o.dryRun ==> history == old(history))
        invariant handled == pending[..if i <= |pending| then i else |pending|]
        invariant PassASince(start, s, o, handled, net)
        invariant NeverFails(net) ==> stats.failed == s.failed
      {
        var end := if i + o.batch <= |pending| then i + o.batch else |pending|;
        ghost var (before, chunk) := (handled, pending[i..end]);
        ghost var taken;
        TakenUp(pending, i, end, 0);
        assert forall p :: p in pending ==> PhotoPending(start, o, p);
        taken, limited := MigrateChunk(pending[i..end], o, net, i, start, s, handled);
        handled := before + chunk[..taken];
        TakenUp(pending, i, end, taken);
        if limited { return; }
        i := i + o.batch;
      }
      limited := false;
    }

    // -------------------------------------------------------------------------
    // Pass B: report-backed listings
    // -------------------------------------------------------------------------

    /** One photo of one listing; a throw is counted. */
    method MirrorPhoto(id: string, key: Key, dryRun: bool, net: Faults) returns (threw: bool)
      requires Valid()
      modifies this`copies, this`history, this`stats
      ensures Valid() && old(history) <= history && (dryRun ==> history == old(history) && copies == old(copies))
      ensures CopiesGrow(old(Now()), Now())
      ensures OnlyCopies(old(Now()), Now(), {Mirrored(id, key)})
      ensures !dryRun && !threw ==> Served(Now(), Mirrored(id, key))
      ensures net.Clean() ==> !threw
      ensures RefBooked(old(Now()), Mirrored(id, key), threw, old(stats), stats)
    {
      hide Behaviour, CopiesGrow, OnlyCopies;
      var r := CopyObject(Mirrored(id, key), dryRun, net);
      threw := r == None;
      match r {
        case None =>
          stats := stats.(failed := stats.failed + 1);
        case Some(Missing) =>
        case Some(AlreadyThere) =>
          stats := stats.(mirrorSkipped := stats.mirrorSkipped + 1);
        case Some(Transferred) =>
          stats := stats.(mirrored := stats.mirrored + 1);
      }
    }

    /** The photo loop of one listing: how many transfers of `keys` threw. */
    method MirrorPhotos(id: string, keys: seq<Key>, dryRun: bool, net: nat -> Faults) returns (failedHere: nat)
      requires Valid()
      modifies this`copies, this`history, this`stats
      ensures Valid() && old(history) <= history && (dryRun ==> history == old(history) && copies == old(copies))
      ensures CopiesGrow(old(Now()), Now()) && OnlyCopies(old(Now()), Now(), MirrorsOf(id, keys))
      ensures !dryRun && failedHere == 0 ==> AllServed(Now(), id, keys)
      ensures stats.failed == old(stats).failed + failedHere
      ensures stats.RefsBooked() == old(stats).RefsBooked() + |keys|
      ensures NeverFails(net) ==> failedHere == 0
      ensures old(stats).Moved() <= stats.Moved() <= old(stats).Moved() + |keys|
      ensures stats.listingsScanned == old(stats).listingsScanned
      ensures stats.listingsStamped == old(stats).listingsStamped && stats.rowsScanned == old(stats).rowsScanned
    {
      hide Behaviour, CopiesGrow, OnlyCopies, IsCollation, RefBooked;
      failedHere := 0;
      CopiesKeepGrowing(Now(), Now(), Now());
      NoCopies(Now(), MirrorsOf(id, keys));
      for j := 0 to |keys|
        invariant Valid() && old(history) <= history && (dryRun ==> history == old(history) && copies == old(copies))
        invariant CopiesGrow(old(Now()), Now()) && OnlyCopies(old(Now()), Now(), MirrorsOf(id, keys))
        invariant !dryRun && failedHere == 0 ==> AllServed(Now(), id, keys[..j])
        invariant stats.failed == old(stats).failed + failedHere
        invariant stats.RefsBooked() == old(stats).RefsBooked() + j
        invariant NeverFails(net) ==> failedHere == 0
        invariant old(stats).Moved() <= stats.Moved() <= old(stats).Moved() + j
        invariant stats.listingsScanned == old(stats).listingsScanned
        invariant stats.listingsStamped == old(stats).listingsStamped && stats.rowsScanned == old(stats).rowsScanned
      {
        ghost var (before, counted) := (Now(), stats);
        var threw := MirrorPhoto(id, keys[j], dryRun, net(j));
        OneMoreServed(before, Now(), id, keys, j);
        RefCounts(before, Mirrored(id, keys[j]), threw, counted, stats);
        CopiesKeepGrowing(old(Now()), before, Now());
        MoreCopies(old(Now()), before, Now(), {Mirrored(id, keys[j])}, MirrorsOf(id, keys));
        if threw { failedHere := failedHere + 1; }
      }
      assert keys[..|keys|] == keys;
    }

    /** One listing of pass B. The stamp is not guarded by a `try`: its failure ends the run. */
    method MirrorListing(id: string, keys: seq<Key>, dryRun: bool, net: nat -> Faults) returns (fatal: bool)
      requires Valid() && id in listings && keys == RefKeys(env, ManifestOf(Now(), listings[id]))
      modifies this`copies, this`listings, this`history, this`stats
      ensures Valid() && old(history) <= history && (dryRun ==> history == old(history) && Now() == old(Now()))
      ensures CopiesGrow(old(Now()), Now()) && OnlyCopies(old(Now()), Now(), MirrorsOf(id, keys))
      ensures listings != old(listings) ==> AllServed(Now(), id, keys)
      ensures listings == old(listings) || listings == old(listings)[id := old(listings)[id].(stamped := true)]
      ensures !dryRun && !fatal && stats.failed == old(stats).failed ==> listings[id].stamped
      ensures stats.failed != old(stats).failed ==> listings == old(listings) && !fatal
      ensures old(stats).failed <= stats.failed
      ensures NeverFails(net) ==> stats.failed == old(stats).failed && !fatal
      ensures old(stats).Moved() <= stats.Moved() <= old(stats).Moved() + MAX_LISTING_PHOTOS
      ensures stats.listingsScanned == old(stats).listingsScanned + 1
      ensures stats.listingsStamped == old(stats).listingsStamped
              + if !dryRun && !fatal && stats.failed == old(stats).failed then 1 else 0
    {
      hide Behaviour, RefKeys;
      stats := stats.(listingsScanned := stats.listingsScanned + 1);
      var failedHere := MirrorPhotos(id, keys, dryRun, net);
      fatal := false;
      if failedHere > 0 { return; }
      if !dryRun {
        var update := net(|keys|).update;
        if update != Refused {
          listings := listings[id := listings[id].(stamped := true)];
          Record(Stamp(id));
        }
        if update != Done { return true; }
        stats := stats.(listingsStamped := stats.listingsStamped + 1);
      }
    }

    /** What pass B has achieved since `start`, where the counters stood at `s`. */
    ghost predicate PassBSince(start: World, s: Stats, o: Options, handled: seq<string>, fatal: bool,
                               net: (nat, nat) -> Faults)
      reads this
    {
      PassBDone(env, start, Now(), s, stats, o, handled, fatal, net)
    }

    /** The listings of one batch, with the manifests as the query returned them. */
    method MirrorChunk(chunk: seq<string>, o: Options, net: (nat, nat) -> Faults, at: nat, rows: World,
                       ghost start: World, ghost s: Stats, ghost before: seq<string>)
      returns (ghost taken: nat, limited: bool, fatal: bool)
      requires Valid() && PassBSince(start, s, o, before, false, net) && rows == start && at == |before|
      requires forall l :: l in chunk ==> l in start.listings
      modifies this`copies, this`listings, this`history, this`stats
      ensures Valid() && old(history) <= history && (o.dryRun ==> history == old(history))
      ensures taken <= |chunk| && PassBSince(start, s, o, before + chunk[..taken], fatal, net)
      ensures limited ==> AtLimit(o, stats)
      ensures !limited && !fatal ==> taken == |chunk|
      ensures NothingFails(net) ==> stats.failed == old(stats).failed && !fatal
    {
      hide Behaviour, PassBDone, RefKeys, Copied, OnlyCopies, CopiesGrow, AllServed;
      taken, fatal := 0, false;
      assert before + chunk[..0] == before;
      for j := 0 to |chunk|
        invariant Valid() && old(history) <= history && (o.dryRun ==> history == old(history))
        invariant taken == j && PassBSince(start, s, o, before + chunk[..j], false, net)
        invariant NothingFails(net) ==> stats.failed == old(stats).failed
      {
        if AtLimit(o, stats) { return j, true, false; }
        var id := chunk[j];
        ghost var (w, t, handled) := (Now(), stats, before + chunk[..j]);
        ListingIsThere(env, start, w, s, t, o, handled, net, id);
        var keys := RefKeys(env, ManifestOf(rows, rows.listings[id]));
        var nets: nat -> Faults := (k: nat) => net(at + j, k);
        fatal := MirrorListing(id, keys, o.dryRun, nets);
        if AllClean(net, at + j) { assert NeverFails(nets); }
        ListingTaken(env, start, w, Now(), s, t, stats, o, handled, fatal, net, id);
        assert before + chunk[..j + 1] == handled + [id];
        taken := j + 1;
        if fatal { return taken, false, true; }
      }
      limited := false;
    }

    /** Pass B in batches. */
    method MirrorReportListings(order: seq<string>, o: Options, net: (nat, nat) -> Faults)
      returns (ghost handled: seq<string>, limited: bool, fatal: bool)
      requires Valid() && 0 < o.batch
      modifies this`copies, this`listings, this`history, this`stats
      ensures Valid() && old(history) <= history && (o.dryRun ==> history == old(history))
      ensures PassBSince(old(Now()), old(stats), o, handled, fatal, net)
      ensures handled <= PendingListings(old(Now()), o, order)
      ensures limited ==> AtLimit(o, stats)
      ensures !limited && !fatal ==> handled == PendingListings(old(Now()), o, order)
      ensures NothingFails(net) ==> stats.failed == old(stats).failed && !fatal
    {
      hide Behaviour, Filter, PassB, PendingPhotos, PendingListings, CleanListings;
      ghost var (start, s) := (Now(), stats);
      var rows := World(source, copies, photos, listings, reports);
      var pending := PendingListings(rows, o, order);
      PendingArePending(start, o, order);
      PassBStarts(env, start, !o.dryRun, net);
      handled, fatal := [], false;
      var i := 0;
      while i < |pending|
        invariant Valid() && old(history) <= history && (o.dryRun ==> history == old(history))
        invariant handled == pending[..if i <= |pending| then i else |pending|]
        invariant !fatal && PassBSince(start, s, o, handled, false, net)
        invariant NothingFails(net) ==> stats.failed == s.failed
      {
        var end := if i + o.batch <= |pending| then i + o.batch else |pending|;
        ghost var (before, chunk) := (handled, pending[i..end]);
        ghost var taken;
        TakenUp(pending, i, end, 0);
        assert forall l :: l in pending ==> ListingPending(start, o, l);
        taken, limited, fatal := MirrorChunk(pending[i..end], o, net, i, rows, start, s, handled);
        handled := before + chunk[..taken];
        TakenUp(pending, i, end, taken);
        if limited || fatal { return; }
        i := i + o.batch;
      }
      limited := false;
    }

    /** One process of the mirror script. */
    method RunMirror(photoOrder: seq<string>, listingOrder: seq<string>, o: Options,
                     netA: nat -> Faults, netB: (nat, nat) -> Faults) returns (fatal: bool)
      requires Valid() && 0 < o.batch
      modifies this`copies, this`photos, this`listings, this`history, this`stats
      ensures Valid() && old(history) <= history
      ensures o.dryRun ==> Now() == old(Now()) && history == old(history)
      ensures o.limit.Some? && 1 <= o.limit.value ==> stats.Moved() <= o.limit.value - 1 + MAX_LISTING_PHOTOS
      ensures !o.dryRun && !fatal && stats.failed == 0
              && (o.limit.Some? ==> stats.rowsCopied + stats.mirrored < o.limit.value) ==>
                AllMirrored(old(Now()), Now(), o, photoOrder, listingOrder)
      ensures RunChanges(env, old(Now()), Now(), o, photoOrder, listingOrder)
      ensures !o.dryRun && o.limit == None ==>
                CleanRows(old(Now()), Now(), PendingPhotos(old(Now()), o, photoOrder), netA)
      ensures !o.dryRun && !fatal && o.limit == None ==>
                CleanListings(old(Now()), Now(), PendingListings(old(Now()), o, listingOrder), netB)
      ensures NeverFails(netA) && NothingFails(netB) ==> stats.failed == 0 && !fatal
      ensures NothingToMove(old(Now()), o, photoOrder, listingOrder) ==> stats.Moved() == 0
    {
      hide Behaviour, Filter, PendingPhotos, PendingListings, PassADone, PassBDone, AllMirrored;
      hide NeverFails, NothingFails, NothingToMove, RunChanges, CleanRows, CleanListings, PassA, PassB;
      ghost var start := Now();
      stats := ZERO;
      ghost var handledA, handledB;
      var limitedA, limitedB;
      handledA, limitedA := MigrateUploadedPhotos(photoOrder, o, netA);
      ghost var (between, s) := (Now(), stats);
      SamePendingListings(start, between, o, listingOrder);
      handledB, limitedB, fatal := MirrorReportListings(listingOrder, o, netB);
      PassesEnd(env, start, between, Now(), s, stats, o, handledA, handledB, fatal, netA, netB);
      NothingMoves(start, o, photoOrder, listingOrder, handledA, handledB);
      RunEnds(env, start, between, Now(), o, photoOrder, listingOrder, handledA, handledB,
              !o.dryRun && s.failed == 0, !o.dryRun && !fatal && stats.failed == s.failed);
    }

    /** A run after a complete one: whatever happens to its requests, it transfers nothing. */
    method MirrorAgain(photoOrder: seq<string>, listingOrder: seq<string>, o: Options,
                       netA: nat -> Faults, netB: (nat, nat) -> Faults,
                       againA: nat -> Faults, againB: (nat, nat) -> Faults) returns (fatal: bool)
      requires Valid() && 0 < o.batch && !o.dryRun && o.limit == None
      requires NeverFails(netA) && NothingFails(netB)
      modifies this`copies, this`photos, this`listings, this`history, this`stats
      ensures Valid() && old(history) <= history
      ensures AllMirrored(old(Now()), Now(), o, photoOrder, listingOrder) && stats.Moved() == 0
    {
      hide Behaviour, Filter, PendingPhotos, PendingListings, AllMirrored, RunChanges, NothingToMove;
      hide NeverFails, NothingFails;
      ghost var start := Now();
      var _ := RunMirror(photoOrder, listingOrder, o, netA, netB);
      ghost var between := Now();
      NothingIsPending(env, start, between, o, photoOrder, listingOrder);
      fatal := RunMirror(photoOrder, listingOrder, o, againA, againB);
      FlagsKeepMirrored(env, start, between, Now(), o, photoOrder, listingOrder);
    }
  }

  /** Every row a run must take up is done: photos whose object exists, and all the listings. */
  ghost predicate AllMirrored(start: World, now: World, o: Options,
                              photoOrder: seq<string>, listingOrder: seq<string>)
  {
    && (forall p :: TakesPhoto(start, o, photoOrder, p) ==>
          p in now.photos && (now.photos[p].key in now.source ==> now.photos[p].isPublic))
    && (forall l :: TakesListing(start, o, listingOrder, l) ==> l in now.listings && now.listings[l].stamped)
  }

  /** Where a new object of the public bucket comes from: a row of pass A, or what a listing of pass B may show. */
  ghost predicate HasOrigin(w: World, o: Options, photoOrder: seq<string>, listingOrder: seq<string>, d: PublicKey) {
    match d
    case Upload(k) => exists p :: TakesPhoto(w, o, photoOrder, p) && w.photos[p].key == k
    case Mirrored(l, k) => TakesListing(w, o, listingOrder, l) && Publishes(ManifestOf(w, w.listings[l]), k)
  }

  /**
   All that a run may change: flags of rows it takes up, each with its objects in the public bucket in
   their full size, and objects of such rows in the public bucket, none of which was right before.
   */
  ghost predicate RunChanges(env: Env, start: World, now: World, o: Options,
                             photoOrder: seq<string>, listingOrder: seq<string>)
  {
    && now.source == start.source && now.reports == start.reports
    && now.photos.Keys == start.photos.Keys && now.listings.Keys == start.listings.Keys
    && (forall p :: p in start.photos && now.photos[p] != start.photos[p] ==>
          && TakesPhoto(start, o, photoOrder, p) && now.photos[p] == start.photos[p].(isPublic := true)
          && InPublic(now, Upload(start.photos[p].key)))
    && (forall l :: l in start.listings && now.listings[l] != start.listings[l] ==>
          && TakesListing(start, o, listingOrder, l) && now.listings[l] == start.listings[l].(stamped := true)
          && forall k :: k in KeysShown(env, start, l) && k in start.source ==> InPublic(now, Mirrored(l, k)))
    && (forall d :: d in start.copies ==> d in now.copies)
    && (forall d :: d in now.copies ==>
          || (d in start.copies && now.copies[d] == start.copies[d])
          || (HasOrigin(start, o, photoOrder, listingOrder, d) && !InPublic(start, d)))
  }

  /** The object is in the public bucket in its full size. */
  ghost predicate InPublic(w: World, d: PublicKey) {
    d.key in w.source && d in w.copies && |w.copies[d]| == |w.source[d.key]|
  }

  /** The queries return exactly the rows written out above. */
  lemma PendingAreTaken(w: World, o: Options, photoOrder: seq<string>, listingOrder: seq<string>)
    ensures forall p :: p in PendingPhotos(w, o, photoOrder) <==> TakesPhoto(w, o, photoOrder, p)
    ensures forall l :: l in PendingListings(w, o, listingOrder) <==> TakesListing(w, o, listingOrder, l)
  {
    FilterMembers(PhotoFilter(w, o), photoOrder);
    FilterMembers(ListingFilter(w, o), listingOrder);
  }

  lemma BothPasses(env: Env, start: World, between: World, now: World, o: Options,
                   photoOrder: seq<string>, listingOrder: seq<string>)
    requires PassA(start, between, PendingPhotos(start, o, photoOrder), true)
    requires PassB(env, between, now, PendingListings(start, o, listingOrder), true)
    ensures AllMirrored(start, now, o, photoOrder, listingOrder)
  {
    hide PendingPhotos, PendingListings, CopiesGrow, OnlyCopies;
    PendingAreTaken(start, o, photoOrder, listingOrder);
  }

  /** What the two passes of a run come to in the stores. */
  lemma RunEnds(env: Env, start: World, between: World, now: World, o: Options,
                photoOrder: seq<string>, listingOrder: seq<string>,
                handledA: seq<string>, handledB: seq<string>, wellA: bool, wellB: bool)
    requires IsCollation(env.lc)
    requires PassA(start, between, handledA, wellA) && PassB(env, between, now, handledB, wellB)
    requires handledA <= PendingPhotos(start, o, photoOrder) && handledB <= PendingListings(start, o, listingOrder)
    ensures RunChanges(env, start, now, o, photoOrder, listingOrder)
    ensures wellA && wellB && handledA == PendingPhotos(start, o, photoOrder)
            && handledB == PendingListings(start, o, listingOrder) ==>
              AllMirrored(start, now, o, photoOrder, listingOrder)
  {
    hide PendingPhotos, PendingListings, PassA, PassB, AllMirrored, RunChanges, IsCollation;
    PendingAreTaken(start, o, photoOrder, listingOrder);
    assert forall p :: p in handledA ==> p in PendingPhotos(start, o, photoOrder);
    assert forall l :: l in handledB ==> l in PendingListings(start, o, listingOrder);
    hide TakesPhoto, TakesListing;
    ChangesOfPasses(env, start, between, now, o, photoOrder, listingOrder, handledA, handledB, wellA, wellB);
    if wellA && wellB && handledA == PendingPhotos(start, o, photoOrder)
       && handledB == PendingListings(start, o, listingOrder) {
      BothPasses(env, start, between, now, o, photoOrder, listingOrder);
    }
  }

  lemma ChangesOfPasses(env: Env, start: World, between: World, now: World, o: Options,
                        photoOrder: seq<string>, listingOrder: seq<string>,
                        handledA: seq<string>, handledB: seq<string>, wellA: bool, wellB: bool)
    requires IsCollation(env.lc)
    requires PassA(start, between, handledA, wellA) && PassB(env, between, now, handledB, wellB)
    requires forall p :: p in handledA ==> TakesPhoto(start, o, photoOrder, p)
    requires forall l :: l in handledB ==> TakesListing(start, o, listingOrder, l)
    ensures RunChanges(env, start, now, o, photoOrder, listingOrder)
  {
    hide OnlyCopies, TakesPhoto, TakesListing, HasOrigin, KeysShown, IsCollation, UploadsOf, MirrorsFor;
    assert OnlyCopies(start, between, UploadsOf(start, handledA));
    assert OnlyCopies(between, now, MirrorsFor(env, between, handledB));
    assert forall l :: l in start.listings ==> KeysShown(env, between, l) == KeysShown(env, start, l) by {
      SameKeysShown(env, start, between);
    }
    CopiesOfPasses(start, between, now, UploadsOf(start, handledA), MirrorsFor(env, between, handledB));
    UploadsHaveOrigin(start, o, photoOrder, listingOrder, handledA);
    MirrorsHaveOrigin(env, start, between, o, photoOrder, listingOrder, handledB);
  }

  lemma SameKeysShown(env: Env, w: World, w': World)
    requires w'.listings == w.listings && w'.reports == w.reports
    ensures forall l :: l in w.listings ==> KeysShown(env, w', l) == KeysShown(env, w, l)
  {
  }

  lemma UploadsHaveOrigin(w: World, o: Options, photoOrder: seq<string>, listingOrder: seq<string>,
                          rows: seq<string>)
    requires forall p :: p in rows ==> TakesPhoto(w, o, photoOrder, p)
    ensures forall d :: d in UploadsOf(w, rows) ==> HasOrigin(w, o, photoOrder, listingOrder, d)
  {
  }

  lemma MirrorsHaveOrigin(env: Env, w: World, between: World, o: Options,
                          photoOrder: seq<string>, listingOrder: seq<string>, rows: seq<string>)
    requires IsCollation(env.lc) && between.listings == w.listings && between.reports == w.reports
    requires forall l :: l in rows ==> TakesListing(w, o, listingOrder, l)
    ensures forall d :: d in MirrorsFor(env, between, rows) ==> HasOrigin(w, o, photoOrder, listingOrder, d)
  {
    hide RefKeys, Publishes, IsCollation, TakesListing;
    forall l, k | l in rows && l in w.listings && k in KeysShown(env, between, l)
      ensures HasOrigin(w, o, photoOrder, listingOrder, Mirrored(l, k))
    {
      MirroredKeysMayBePublic(env, ManifestOf(w, w.listings[l]));
    }
  }

  /** What two passes do to the public bucket. */
  lemma CopiesOfPasses(start: World, between: World, now: World, a: set<PublicKey>, b: set<PublicKey>)
    requires OnlyCopies(start, between, a) && OnlyCopies(between, now, b)
    requires CopiesGrow(start, between) && between.source == start.source
    ensures forall d :: d in start.copies ==> d in now.copies
    ensures forall d :: d in now.copies ==>
              || (d in start.copies && now.copies[d] == start.copies[d])
              || ((d in a || d in b) && !InPublic(start, d))
  {
    forall d | d in now.copies && !(d in start.copies && now.copies[d] == start.copies[d])
      ensures (d in a || d in b) && !InPublic(start, d)
    {
      assert InPublic(start, d) ==> Copied(start, d) && Copied(between, d);
    }
  }

  /** What the counters say of the two passes. */
  lemma PassesEnd(env: Env, start: World, between: World, now: World, s: Stats, t: Stats, o: Options,
                  handledA: seq<string>, handledB: seq<string>, fatal: bool,
                  netA: nat -> Faults, netB: (nat, nat) -> Faults)
    requires PassADone(start, between, ZERO, s, o, handledA, netA)
    requires PassBDone(env, between, now, s, t, o, handledB, fatal, netB)
    ensures PassA(start, between, handledA, !o.dryRun && s.failed == 0)
    ensures PassB(env, between, now, handledB, !o.dryRun && !fatal && t.failed == s.failed)
    ensures o.dryRun ==> now == start
    ensures !o.dryRun ==> CleanRows(start, now, handledA, netA) && CleanListings(start, now, handledB, netB)
    ensures s.failed <= t.failed && s.Moved() <= t.Moved()
    ensures o.limit.Some? && 1 <= o.limit.value ==> t.Moved() <= o.limit.value - 1 + MAX_LISTING_PHOTOS
    ensures SourcesGone(start, handledA) && handledB == [] ==> t.Moved() == 0
  {
    hide CopiesGrow, OnlyCopies, SourcesGone, AllClean;
  }

  /** Where nothing can be transferred, nothing is. */
  lemma NothingMoves(w: World, o: Options, photoOrder: seq<string>, listingOrder: seq<string>,
                     handledA: seq<string>, handledB: seq<string>)
    requires handledA <= PendingPhotos(w, o, photoOrder) && handledB <= PendingListings(w, o, listingOrder)
    ensures NothingToMove(w, o, photoOrder, listingOrder) ==> SourcesGone(w, handledA) && handledB == []
  {
    hide PendingPhotos, PendingListings, SourcesGone;
    if NothingToMove(w, o, photoOrder, listingOrder) {
      GoneInFront(w, handledA, PendingPhotos(w, o, photoOrder));
    }
  }

  lemma GoneInFront(start: World, handled: seq<string>, pending: seq<string>)
    requires handled <= pending && SourcesGone(start, pending)
    ensures SourcesGone(start, handled)
  {
  }

  /** After a complete run the queries return only rows whose object is gone. */
  lemma NothingIsPending(env: Env, start: World, now: World, o: Options,
                         photoOrder: seq<string>, listingOrder: seq<string>)
    requires AllMirrored(start, now, o, photoOrder, listingOrder)
    requires RunChanges(env, start, now, o, photoOrder, listingOrder)
    ensures NothingToMove(now, o, photoOrder, listingOrder)
  {
    hide PendingPhotos, PendingListings;
    PendingAreTaken(now, o, photoOrder, listingOrder);
    forall p | TakesPhoto(now, o, photoOrder, p)
      ensures now.photos[p].key !in now.source
    {
      RowsTakenBefore(env, start, now, o, photoOrder, listingOrder);
    }
    var left := PendingListings(now, o, listingOrder);
    forall l | TakesListing(now, o, listingOrder, l)
      ensures false
    {
      RowsTakenBefore(env, start, now, o, photoOrder, listingOrder);
    }
    SomeMember(left);
  }

  /** A run makes no row eligible. */
  lemma RowsTakenBefore(env: Env, start: World, now: World, o: Options,
                        photoOrder: seq<string>, listingOrder: seq<string>)
    requires RunChanges(env, start, now, o, photoOrder, listingOrder)
    ensures forall p :: TakesPhoto(now, o, photoOrder, p) ==>
              TakesPhoto(start, o, photoOrder, p) && now.photos[p].key == start.photos[p].key
    ensures forall l :: TakesListing(now, o, listingOrder, l) ==> TakesListing(start, o, listingOrder, l)
  {
    hide HasOrigin, KeysShown;
  }

  lemma SomeMember<T>(s: seq<T>)
    ensures s == [] || exists x :: x in s
  {
    if s != [] { assert s[0] in s; }
  }

  /** Flags that are set stay set. */
  lemma FlagsKeepMirrored(env: Env, start: World, now: World, later: World, o: Options,
                          photoOrder: seq<string>, listingOrder: seq<string>)
    requires AllMirrored(start, now, o, photoOrder, listingOrder)
    requires RunChanges(env, now, later, o, photoOrder, listingOrder)
    ensures AllMirrored(start, later, o, photoOrder, listingOrder)
  {
    hide TakesPhoto, TakesListing, HasOrigin, KeysShown;
  }

  lemma RefCounts(w: World, d: PublicKey, threw: bool, s: Stats, s': Stats)
    requires RefBooked(w, d, threw, s, s')
    ensures s'.RefsBooked() == s.RefsBooked() + 1 && s'.failed == s.failed + if threw then 1 else 0
    ensures s.Moved() <= s'.Moved() <= s.Moved() + 1
    ensures s'.listingsScanned == s.listingsScanned && s'.listingsStamped == s.listingsStamped
    ensures s'.rowsScanned == s.rowsScanned
  {
    hide Copied;
  }

  lemma CopiedStays(w: World, w': World, d: PublicKey)
    requires Copied(w, d) && CopiesGrow(w, w')
    ensures Copied(w', d)
  {
    hide Copied;
  }

  lemma NoCopies(w: World, ds: set<PublicKey>)
    ensures OnlyCopies(w, w, ds)
  {
  }

  lemma SameCopies(w: World, w': World, w'': World, ds: set<PublicKey>)
    requires OnlyCopies(w, w', ds) && w''.copies == w'.copies
    ensures OnlyCopies(w, w'', ds)
  {
  }

  lemma MoreCopies(w: World, w': World, w'': World, some: set<PublicKey>, ds: set<PublicKey>)
    requires OnlyCopies(w, w', ds) && OnlyCopies(w', w'', some) && some <= ds
    requires CopiesGrow(w, w') && w'.source == w.source
    ensures OnlyCopies(w, w'', ds)
  {
    hide Copied;
  }

  lemma WiderCopies(w: World, w': World, some: set<PublicKey>, ds: set<PublicKey>)
    requires OnlyCopies(w, w', some) && some <= ds
    ensures OnlyCopies(w, w', ds)
  {
    hide Copied;
  }

  lemma CopiesKeepGrowing(w: World, w': World, w'': World)
    ensures CopiesGrow(w, w)
    ensures CopiesGrow(w, w') && CopiesGrow(w', w'') ==> CopiesGrow(w, w'')
  {
  }

  lemma TakenUp<T>(s: seq<T>, i: nat, end: nat, n: nat)
    requires i <= end <= |s| && n <= end - i
    ensures s[..i] + s[i..end][..n] == s[..i + n]
    ensures forall x :: x in s[i..end] ==> x in s
  {
  }

  lemma PassAStarts(w: World, well: bool, net: nat -> Faults)
    ensures PassA(w, w, [], well) && CleanRows(w, w, [], net)
  {
  }

  lemma PassAFields(start: World, now: World, handled: seq<string>, well: bool)
    requires PassA(start, now, handled, well)
    ensures now.source == start.source && now.photos.Keys == start.photos.Keys
    ensures forall p :: p in start.photos ==> now.photos[p].key == start.photos[p].key
  {
  }

  lemma PendingArePending(w: World, o: Options, order: seq<string>)
    ensures forall p :: p in PendingPhotos(w, o, order) ==> PhotoPending(w, o, p)
    ensures forall l :: l in PendingListings(w, o, order) ==> ListingPending(w, o, l)
  {
    FilterMembers(PhotoFilter(w, o), order);
    FilterMembers(ListingFilter(w, o), order);
  }

  lemma PassANext(start: World, before: World, now: World, handled: seq<string>, row: string, well: bool, well': bool)
    requires PassA(start, before, handled, well) && row in start.photos && (well' ==> well)
    requires now == before.(photos := now.photos, copies := now.copies) && CopiesGrow(before, now)
    requires now.photos == before.photos || now.photos == before.photos[row := before.photos[row].(isPublic := true)]
    requires now.photos != before.photos ==> Copied(now, Upload(start.photos[row].key))
    requires OnlyCopies(before, now, {Upload(start.photos[row].key)})
    requires well' && now.photos[row].key in now.source ==> now.photos[row].isPublic
    ensures PassA(start, now, handled + [row], well')
  {
    hide Copied, OnlyCopies;
    var d := Upload(start.photos[row].key);
    assert row in handled + [row];
    WiderCopies(start, before, UploadsOf(start, handled), UploadsOf(start, handled + [row]));
    MoreCopies(start, before, now, {d}, UploadsOf(start, handled + [row]));
  }

  /** A row of a batch is there, as it was at the start but for its flag. */
  lemma RowIsThere(start: World, w: World, s: Stats, t: Stats, o: Options, handled: seq<string>, net: nat -> Faults,
                   row: string)
    requires PassADone(start, w, s, t, o, handled, net) && row in start.photos
    ensures row in w.photos && w.photos[row].key == start.photos[row].key && w.source == start.source
    ensures s.failed <= t.failed
  {
    hide CopiesGrow, OnlyCopies, CleanRows;
  }

  lemma RowTaken(start: World, w: World, now: World, s: Stats, t: Stats, t': Stats, o: Options, handled: seq<string>,
                 net: nat -> Faults, row: string)
    requires PassADone(start, w, s, t, o, handled, net) && !AtLimit(o, t) && row in start.photos && row in w.photos
    requires w.photos[row].key == start.photos[row].key
    requires now == w.(photos := now.photos, copies := now.copies) && CopiesGrow(w, now) && (o.dryRun ==> now == w)
    requires now.photos == w.photos || now.photos == w.photos[row := w.photos[row].(isPublic := true)]
    requires now.photos != w.photos ==> Copied(now, Upload(start.photos[row].key))
    requires OnlyCopies(w, now, {Upload(start.photos[row].key)})
    requires !o.dryRun && t'.failed == t.failed && now.photos[row].key in now.source ==> now.photos[row].isPublic
    requires net(|handled|).Clean() ==> t'.failed == t.failed
    requires RowBooked(w, Upload(start.photos[row].key), t, t')
    ensures PassADone(start, now, s, t', o, handled + [row], net)
  {
    hide CleanRows, PassA, OnlyCopies, CopiesGrow, Copied;
    PassAFields(start, w, handled, !o.dryRun && t.failed == s.failed);
    PassANext(start, w, now, handled, row, !o.dryRun && t.failed == s.failed, !o.dryRun && t'.failed == s.failed);
    CleanRowsNext(start, w, now, handled, row, net, o.dryRun);
  }

  lemma ListingIsThere(env: Env, start: World, w: World, s: Stats, t: Stats, o: Options, handled: seq<string>,
                       net: (nat, nat) -> Faults, id: string)
    requires PassBDone(env, start, w, s, t, o, handled, false, net) && id in start.listings
    ensures id in w.listings && w.source == start.source
    ensures ManifestOf(w, w.listings[id]) == ManifestOf(start, start.listings[id])
  {
    hide CopiesGrow, OnlyCopies, CleanListings;
  }

  lemma ListingTaken(env: Env, start: World, w: World, now: World, s: Stats, t: Stats, t': Stats, o: Options,
                     handled: seq<string>, fatal: bool, net: (nat, nat) -> Faults, id: string)
    requires PassBDone(env, start, w, s, t, o, handled, false, net) && !AtLimit(o, t)
    requires id in start.listings && id in w.listings
    requires now == w.(listings := now.listings, copies := now.copies) && CopiesGrow(w, now)
    requires o.dryRun ==> now == w
    requires now.listings == w.listings || now.listings == w.listings[id := w.listings[id].(stamped := true)]
    requires now.listings != w.listings ==> AllServed(now, id, KeysShown(env, start, id))
    requires OnlyCopies(w, now, MirrorsOf(id, KeysShown(env, start, id)))
    requires !o.dryRun && !fatal && t'.failed == t.failed ==> now.listings[id].stamped
    requires AllClean(net, |handled|) ==> !fatal && t'.failed == t.failed
    requires t.failed <= t'.failed && t'.listingsScanned == t.listingsScanned + 1
    requires t.Moved() <= t'.Moved() <= t.Moved() + MAX_LISTING_PHOTOS
    ensures PassBDone(env, start, now, s, t', o, handled + [id], fatal, net)
  {
    hide CleanListings, PassB, OnlyCopies, CopiesGrow, Copied, AllServed, KeysShown, AllClean;
    PassBFields(env, start, w, handled, !o.dryRun && t.failed == s.failed, id);
    PassBNext(env, start, w, now, handled, id, !o.dryRun && t.failed == s.failed,
              !o.dryRun && !fatal && t'.failed == s.failed);
    CleanListingsNext(start, w, now, handled, id, net, o.dryRun);
  }

  lemma CleanRowsNext(start: World, before: World, now: World, handled: seq<string>, row: string, net: nat -> Faults,
                      dryRun: bool)
    requires !dryRun ==> CleanRows(start, before, handled, net)
    requires now.photos.Keys == before.photos.Keys
    requires forall p :: p in before.photos && before.photos[p].isPublic ==> now.photos[p].isPublic
    requires row in start.photos && row in now.photos
    requires !dryRun && net(|handled|).Clean() && start.photos[row].key in start.source ==> now.photos[row].isPublic
    ensures !dryRun ==> CleanRows(start, now, handled + [row], net)
  {
  }

  lemma CleanListingsNext(start: World, before: World, now: World, handled: seq<string>, id: string,
                          net: (nat, nat) -> Faults, dryRun: bool)
    requires !dryRun ==> CleanListings(start, before, handled, net)
    requires now.listings.Keys == before.listings.Keys
    requires forall l :: l in before.listings && before.listings[l].stamped ==> now.listings[l].stamped
    requires id in start.listings && id in now.listings
    requires !dryRun && AllClean(net, |handled|) ==> now.listings[id].stamped
    ensures !dryRun ==> CleanListings(start, now, handled + [id], net)
  {
    hide AllClean;
  }

  /** One photo more: a transfer that did not throw leaves it served, and serves none less. */
  lemma OneMoreServed(w: World, w': World, id: string, keys: seq<Key>, j: nat)
    requires j < |keys| && CopiesGrow(w, w') && w'.source == w.source
    ensures AllServed(w, id, keys[..j]) && Served(w', Mirrored(id, keys[j])) ==> AllServed(w', id, keys[..j + 1])
  {
    hide Copied;
    assert keys[..j + 1] == keys[..j] + [keys[j]];
  }

  lemma PassBStarts(env: Env, w: World, well: bool, net: (nat, nat) -> Faults)
    ensures PassB(env, w, w, [], well) && CleanListings(w, w, [], net)
  {
  }

  lemma PassBFields(env: Env, start: World, now: World, handled: seq<string>, well: bool, id: string)
    requires PassB(env, start, now, handled, well)
    ensures now.source == start.source && now.listings.Keys == start.listings.Keys && now.reports == start.reports
    ensures id in start.listings ==> ManifestOf(now, now.listings[id]) == ManifestOf(start, start.listings[id])
  {
  }

  lemma PassBNext(env: Env, start: World, before: World, now: World, handled: seq<string>, id: string,
                  well: bool, well': bool)
    requires PassB(env, start, before, handled, well) && id in start.listings && (well' ==> well)
    requires now == before.(listings := now.listings, copies := now.copies) && CopiesGrow(before, now)
    requires now.listings == before.listings
             || now.listings == before.listings[id := before.listings[id].(stamped := true)]
    requires now.listings != before.listings ==> AllServed(now, id, KeysShown(env, start, id))
    requires OnlyCopies(before, now, MirrorsOf(id, KeysShown(env, start, id)))
    requires well' ==> now.listings[id].stamped
    ensures PassB(env, start, now, handled + [id], well')
  {
    hide Copied, OnlyCopies, KeysShown;
    var all := MirrorsFor(env, start, handled + [id]);
    assert id in handled + [id];
    WiderCopies(start, before, MirrorsFor(env, start, handled), all);
    MoreCopies(start, before, now, MirrorsOf(id, KeysShown(env, start, id)), all);
  }

  /** Pass A does not change which listings pass B takes up. */
  lemma SamePendingListings(w: World, w': World, o: Options, order: seq<string>)
    requires w'.listings == w.listings
    ensures PendingListings(w', o, order) == PendingListings(w, o, order)
  {
    SameFilter(ListingFilter(w, o), ListingFilter(w', o), order);
  }

  lemma {:induction false} SameFilter<T>(p: T -> bool, q: T -> bool, s: seq<T>)
    requires forall x :: x in s ==> p(x) == q(x)
    ensures Filter(p, s) == Filter(q, s)
  {
    if s != [] { SameFilter(p, q, s[1..]); }
  }
}
