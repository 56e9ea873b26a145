/**
 The public copies of the showroom photos: which effects the mirror script
 (scripts/migrate-listing-photos-public.ts) and the manifest backfill
 (scripts/backfill-report-photo-angles.ts) may have, and what every interleaving of their
 runs keeps, wherever a run is cut off.
 */
module PhotoMirror {
  import opened Wrappers
  import opened Runs
  import opened Sorting
  import opened PhotoOrder
  import opened Manifest

  type Key = string
  type Bytes = seq<bv8>

  /**
   Keys of the public bucket. An upload keeps its own key; `mirroredPhotoKey` names a copy after
   the listing and the digest of the source key, which is taken to be free of collisions.
   */
  datatype PublicKey = Upload(key: Key) | Mirrored(listing: string, key: Key)

  datatype Photo = Photo(listing: string, key: Key, isPublic: bool)

  datatype Listing = Listing(report: Option<string>, status: string, stamped: bool)

  /** Both buckets and the three tables; a manifest that is no array is `None`. */
  datatype World = World(
    source: map<Key, Bytes>, copies: map<PublicKey, Bytes>,
    photos: map<string, Photo>, listings: map<string, Listing>,
    reports: map<string, Option<seq<Raw>>>)

  /** The public bucket holds something of the size of the source object. */
  predicate Copied(w: World, d: PublicKey) {
    d.key in w.source && d in w.copies && |w.copies[d]| == |w.source[d.key]|
  }

  /** No broken image: the source object is gone as well, or there is a copy. */
  predicate Served(w: World, d: PublicKey) {
    d.key in w.source ==> Copied(w, d)
  }

  function ManifestOf(w: World, l: Listing): Option<seq<Raw>> {
    if l.report.Some? && l.report.value in w.reports then w.reports[l.report.value] else None
  }

  function KeyOf(e: Entry): Key { e.s3Key }

  /** The objects the showroom shows for a manifest. */
  function RefKeys(env: Env, m: Option<seq<Raw>>): (keys: seq<Key>)
    ensures |keys| <= MAX_LISTING_PHOTOS
  {
    Map(KeyOf, ManifestPhotoRefs(env.lc, m, MAX_LISTING_PHOTOS, false))
  }

  /** Some element of the manifest that counts and may be public names `k`. */
  ghost predicate Publishes(m: Option<seq<Raw>>, k: Key) {
    m.Some? && exists r :: r in m.value && HasKey(r) && r.s3Key.s == k && MayBePublic(r)
  }

  /** The positions of such elements. */
  ghost function Publishable(m: seq<Raw>): set<nat> {
    set i: nat | i < |m| && HasKey(m[i]) && MayBePublic(m[i])
  }

  /**
   Only such keys are mirrored, so never one that stands in passport elements alone, and all of them
   where there are no more than fit.
   */
  lemma MirroredKeysMayBePublic(env: Env, m: Option<seq<Raw>>)
    requires IsCollation(env.lc)
    ensures forall k :: k in RefKeys(env, m) ==> Publishes(m, k)
    ensures m.Some? && |Publishable(m.value)| <= 40 ==> forall k :: Publishes(m, k) ==> k in RefKeys(env, m)
  {
    hide RefKeys, ManifestPhotoRefs, RefsOf, Publishes, Publishable, IsCollation;
    KeysOfRefs(env, m);
    if m.Some? {
      RefsArePublishable(m.value);
      ShownAreRefs(env, m.value);
    }
  }

  lemma RefsArePublishable(m: seq<Raw>)
    ensures forall k :: Publishes(Some(m), k) <==> exists e :: e in RefsOf(m, false) && e.s3Key == k
    ensures |RefsOf(m, false)| <= |Publishable(m)|
  {
    hide MayBePublic, RefsOf;
    var refs := RefsOf(m, false);
    var at := RefsInOrder(m, false);
    AsManyAsPositions(at, Publishable(m), |m|);
    forall e | e in refs
      ensures Publishes(Some(m), e.s3Key)
    {
      var i :| 0 <= i < |refs| && refs[i] == e;
      assert m[at[i]] in m;
    }
    forall k | Publishes(Some(m), k)
      ensures exists e :: e in refs && e.s3Key == k
    {
      var i :| 0 <= i < |m| && HasKey(m[i]) && m[i].s3Key.s == k && MayBePublic(m[i]);
      var j :| 0 <= j < |at| && at[j] == i;
      assert refs[j] in refs && refs[j].s3Key == k;
    }
  }

  lemma ShownAreRefs(env: Env, m: seq<Raw>)
    requires IsCollation(env.lc)
    ensures var shown := ManifestPhotoRefs(env.lc, Some(m), MAX_LISTING_PHOTOS, false);
            && (forall e :: e in shown ==> e in RefsOf(m, false))
            && (|RefsOf(m, false)| <= 40 ==> forall e :: e in RefsOf(m, false) ==> e in shown)
  {
    hide ManifestPhotoRefs, RefsOf, IsCollation;
    var refs := RefsOf(m, false);
    var leftOut := SubsetIsTheFront(env.lc, m, MAX_LISTING_PHOTOS, false);
    var shown := ManifestPhotoRefs(env.lc, Some(m), MAX_LISTING_PHOTOS, false);
    forall e | e in shown
      ensures e in refs
    {
      assert e in multiset(shown) + multiset(leftOut);
    }
    if |refs| <= 40 {
      assert |multiset(shown) + multiset(leftOut)| == |shown| + |leftOut|;
      assert leftOut == [];
      forall e | e in refs
        ensures e in shown
      {
        assert e in multiset(refs);
      }
    }
  }

  lemma KeysOfRefs(env: Env, m: Option<seq<Raw>>)
    ensures forall k :: k in RefKeys(env, m) <==>
              exists e :: e in ManifestPhotoRefs(env.lc, m, MAX_LISTING_PHOTOS, false) && e.s3Key == k
  {
    hide ManifestPhotoRefs;
    var refs := ManifestPhotoRefs(env.lc, m, MAX_LISTING_PHOTOS, false);
    forall e | e in refs
      ensures e.s3Key in RefKeys(env, m)
    {
      var i :| 0 <= i < |refs| && refs[i] == e;
      assert RefKeys(env, m)[i] == e.s3Key;
    }
  }

  lemma {:induction false} AsManyAsPositions(at: seq<nat>, positions: set<nat>, n: nat)
    requires Ascending(at, n) && forall k :: 0 <= k < |at| ==> at[k] in positions
    ensures |at| <= |positions|
  {
    if at != [] {
      var front := at[..|at| - 1];
      var last := at[|at| - 1];
      assert at[|at| - 1] in positions;
      AsManyAsPositions(front, positions - {last}, n);
    }
  }

  ghost predicate AllServed(w: World, listing: string, keys: seq<Key>) {
    forall k :: k in keys ==> Served(w, Mirrored(listing, k))
  }

  /** A stamp is sound when every photo of the current manifest is served from the public bucket. */
  ghost predicate StampSound(env: Env, w: World, listing: string) {
    listing in w.listings && w.listings[listing].stamped ==>
      AllServed(w, listing, RefKeys(env, ManifestOf(w, w.listings[listing])))
  }

  /** A photo row that names the public bucket has its object there. */
  ghost predicate PhotoSound(w: World, photo: string) {
    photo in w.photos && w.photos[photo].isPublic ==>
      var d := Upload(w.photos[photo].key);
      d in w.copies && Served(w, d)
  }

  datatype Event =
    | Put(dest: PublicKey, bytes: Bytes)
    | MarkPhoto(photo: string)
    | Stamp(listing: string)
    | RewriteReport(report: string)
    | ClearStamps(report: string)

  function Unstamped(l: Listing, report: string): Listing {
    if l.report == Some(report) then l.(stamped := false) else l
  }

  function ClearAll(listings: map<string, Listing>, report: string): map<string, Listing> {
    map l | l in listings :: Unstamped(listings[l], report)
  }

  /** One effect on the stores, with the guard the scripts must meet. */
  ghost predicate StepBy(env: Env, w: World, e: Event, w': World) {
    match e
    case Put(d, bytes) =>
      d.key in w.source && !Copied(w, d) && w' == w.(copies := w.copies[d := bytes])
    case MarkPhoto(p) =>
      && p in w.photos && Copied(w, Upload(w.photos[p].key))
      && w' == w.(photos := w.photos[p := w.photos[p].(isPublic := true)])
    case Stamp(l) =>
      && l in w.listings && AllServed(w, l, RefKeys(env, ManifestOf(w, w.listings[l])))
      && w' == w.(listings := w.listings[l := w.listings[l].(stamped := true)])
    case RewriteReport(r) =>
      && r in w.reports && RewriteOf(env.lc, w.reports[r]).Some?
      && w' == w.(reports := w.reports[r := Some(Map(Stored(env), RewriteOf(env.lc, w.reports[r]).value))])
    case ClearStamps(r) =>
      w' == w.(listings := ClearAll(w.listings, r))
  }

  ghost predicate Step(env: Env, w: World, w': World) {
    exists e :: StepBy(env, w, e, w')
  }

  ghost function Steps(env: Env): (World, World) -> bool {
    (w: World, w': World) => Step(env, w, w')
  }

  /** The promise between an earlier and a later world, for one listing and one photo. */
  ghost predicate Keeps(env: Env, w: World, w': World, listing: string, photo: string) {
    && w'.source == w.source
    && (StampSound(env, w, listing) ==> StampSound(env, w', listing))
    && (PhotoSound(w, photo) ==> PhotoSound(w', photo))
  }

  ghost function KeepsFor(env: Env, listing: string, photo: string): (World, World) -> bool {
    (w: World, w': World) => Keeps(env, w, w', listing, photo)
  }

  /** The manifest rewrite leaves every reader's keys as they are. */
  lemma RewriteKeepsKeys(env: Env, m: Option<seq<Raw>>)
    requires IsCollation(env.lc) && RewriteOf(env.lc, m).Some?
    ensures RefKeys(env, Some(Map(Stored(env), RewriteOf(env.lc, m).value))) == RefKeys(env, m)
  {
    RewriteKeepsSubset(env, m.value, MAX_LISTING_PHOTOS, false);
    hide ManifestPhotoRefs, Canonical;
    var before := ManifestPhotoRefs(env.lc, m, MAX_LISTING_PHOTOS, false);
    var rewritten := Some(Map(Stored(env), Canonical(env.lc, m.value)));
    var after := ManifestPhotoRefs(env.lc, rewritten, MAX_LISTING_PHOTOS, false);
    assert Map(ShapeOf, after) == Map(ShapeOf, before);
    assert |after| == |Map(ShapeOf, after)| == |before|;
    forall i | 0 <= i < |after|
      ensures KeyOf(after[i]) == KeyOf(before[i])
    {
      assert Map(ShapeOf, after)[i] == Map(ShapeOf, before)[i];
    }
  }

  lemma PutKeeps(env: Env, w: World, d: PublicKey, bytes: Bytes, w': World, listing: string, photo: string)
    requires StepBy(env, w, Put(d, bytes), w')
    ensures Keeps(env, w, w', listing, photo)
  {
    hide RefKeys;
    forall x | Served(w, x)
      ensures Served(w', x)
    {
    }
  }

  lemma RewriteKeeps(env: Env, w: World, r: string, w': World, listing: string, photo: string)
    requires IsCollation(env.lc) && StepBy(env, w, RewriteReport(r), w')
    ensures Keeps(env, w, w', listing, photo)
  {
    hide RefKeys;
    RewriteKeepsKeys(env, w.reports[r]);
  }

  lemma MarkKeeps(env: Env, w: World, p: string, w': World, listing: string, photo: string)
    requires StepBy(env, w, MarkPhoto(p), w')
    ensures Keeps(env, w, w', listing, photo)
  {
    hide RefKeys;
  }

  lemma StampKeeps(env: Env, w: World, l: string, w': World, listing: string, photo: string)
    requires StepBy(env, w, Stamp(l), w')
    ensures Keeps(env, w, w', listing, photo)
  {
    hide RefKeys;
  }

  lemma ClearKeeps(env: Env, w: World, r: string, w': World, listing: string, photo: string)
    requires StepBy(env, w, ClearStamps(r), w')
    ensures Keeps(env, w, w', listing, photo)
  {
    hide RefKeys;
  }

  lemma StepKeeps(env: Env, w: World, w': World, listing: string, photo: string)
    requires IsCollation(env.lc) && Step(env, w, w')
    ensures Keeps(env, w, w', listing, photo)
  {
    hide StepBy, Keeps, IsCollation;
    var e :| StepBy(env, w, e, w');
    match e {
      case Put(d, bytes) => PutKeeps(env, w, d, bytes, w', listing, photo);
      case RewriteReport(r) => RewriteKeeps(env, w, r, w', listing, photo);
      case MarkPhoto(p) => MarkKeeps(env, w, p, w', listing, photo);
      case Stamp(l) => StampKeeps(env, w, l, w', listing, photo);
      case ClearStamps(r) => ClearKeeps(env, w, r, w', listing, photo);
    }
  }

  /**
   No broken advert: over any campaign of mirror runs and backfill runs, each cut off anywhere,
   a sound stamp stays sound, a public photo keeps its object, and nothing leaves the source.
   */
  lemma CampaignKeepsPhotos(env: Env, runs: seq<seq<World>>, i: nat, j: nat, listing: string, photo: string)
    requires IsCollation(env.lc) && Campaign(Steps(env), runs) && i < |runs| && j < |runs[i]|
    ensures Keeps(env, runs[0][0], runs[i][j], listing, photo)
  {
    hide Keeps, Step;
    forall w, w' | Steps(env)(w, w')
      ensures KeepsFor(env, listing, photo)(w, w')
    {
      StepKeeps(env, w, w', listing, photo);
    }
    KeepsIsPreorder(env, listing, photo);
    CampaignKeeps(Steps(env), KeepsFor(env, listing, photo), runs, i, j);
  }

  lemma KeepsIsPreorder(env: Env, listing: string, photo: string)
    ensures var k := KeepsFor(env, listing, photo);
            (forall w :: k(w, w)) && (forall u, v, w :: k(u, v) && k(v, w) ==> k(u, w))
  {
    hide StampSound, PhotoSound;
  }

  /**
   A backfill cut off between its two writes. The stamp is exactly as sound as it was, and the report
   is not taken up again exactly when the column keeps the order of keys or no entry has a kind.
   */
  lemma CutBetweenTheWrites(env: Env, w: World, r: string, w': World, listing: string)
    requires IsCollation(env.lc) && StepBy(env, w, RewriteReport(r), w')
    requires listing in w.listings && w.listings[listing].report == Some(r) && w.listings[listing].stamped
    ensures RewriteOf(env.lc, w'.reports[r]) == None <==> KeepsKeys(env, Canonical(env.lc, w.reports[r].value))
    ensures w'.listings[listing].stamped
    ensures StampSound(env, w', listing) <==> StampSound(env, w, listing)
  {
    hide RefKeys, KeepsKeys;
    RewriteKeepsKeys(env, w.reports[r]);
    RewriteIsIdempotent(env, w.reports[r].value);
  }
}
