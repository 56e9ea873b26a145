/**
 The move of the KYC documents out of the shared reports bucket
 (scripts/migrate-kyc-objects.ts).

 The first half is an action system: which single effects on the two buckets and
 the `kyc_document` rows the protocol allows, and what every run of such effects
 keeps. The second half is the script itself, a class whose methods perform the
 effects one at a time and record every world in between in `history`. A crash
 stops a run at any element of that history.
 */
module KycMigration {
  import opened Wrappers
  import opened Runs

  type Key = string
  type Blob = seq<bv8>

  /** The bucket a row names: NULL is the legacy reports bucket. */
  datatype Home = Reports | Kyc

  /** Both buckets and the table, one row per key. */
  datatype World = World(source: map<Key, Blob>, kyc: map<Key, Blob>, rows: map<Key, Home>)

  /** What a reader who follows the row of `k` finds. */
  function Located(w: World, k: Key): Option<Blob> {
    if k !in w.rows then None
    else
      var bucket := if w.rows[k] == Kyc then w.kyc else w.source;
      if k in bucket then Some(bucket[k]) else None
  }

  /** What may be relied on: copies that write what they read, listings that carry sizes. */
  datatype Setting = Setting(faithful: bool, sized: bool)

  datatype Event = Copy(key: Key) | Repoint(key: Key) | Delete(key: Key)

  /** One effect of the protocol, with the guard it must meet. */
  ghost predicate StepBy(s: Setting, w: World, e: Event, w': World) {
    var k := e.key;
    match e
    case Copy(_) =>
      && k in w.source
      && !(k in w.rows && w.rows[k] == Kyc && k in w.kyc)
      && k in w'.kyc
      && (s.faithful ==> w'.kyc[k] == w.source[k])
      && w' == w.(kyc := w.kyc[k := w'.kyc[k]])
    case Repoint(_) =>
      && k in w.source && k in w.kyc && k in w.rows
      && (s.faithful ==> w.kyc[k] == w.source[k])
      && (s.sized ==> |w.kyc[k]| == |w.source[k]|)
      && w' == w.(rows := w.rows[k := Kyc])
    case Delete(_) =>
      && k in w.kyc && k in w.rows && w.rows[k] == Kyc
      && w' == w.(source := w.source - {k})
  }

  ghost predicate Step(s: Setting, w: World, w': World) {
    exists e :: StepBy(s, w, e, w')
  }

  ghost function Steps(s: Setting): (World, World) -> bool {
    (w: World, w': World) => Step(s, w, w')
  }

  /** As far as the setting can tell, `a` is a copy of `b`. */
  predicate Matches(s: Setting, a: Blob, b: Blob) {
    (s.faithful ==> a == b) && (s.sized ==> |a| == |b|)
  }

  /**
   A row that already names the KYC bucket while the source is still there has a matching copy there,
   or none at all and copies are made right.
   */
  predicate Covered(s: Setting, w: World, k: Key) {
    k in w.source && k in w.rows && w.rows[k] == Kyc ==>
      if k in w.kyc then Matches(s, w.kyc[k], w.source[k]) else s.faithful || !s.sized
  }

  /** The promise about `k` between an earlier and a later world. */
  ghost predicate Safe(s: Setting, w: World, w': World, k: Key) {
    && w'.rows.Keys == w.rows.Keys
    && (k in w'.source ==> k in w.source && w'.source[k] == w.source[k])
    && (k !in w.rows && k in w.source ==> k in w'.source)
    && (k in w.rows && w.rows[k] == Kyc ==> w'.rows[k] == Kyc)
    && (Located(w, k).Some? ==>
          && Located(w', k).Some?
          && Matches(s, Located(w', k).value, Located(w, k).value))
    && (Covered(s, w, k) ==> Covered(s, w', k))
    && (k in w.source && k !in w'.source ==>
          && k in w'.rows && w'.rows[k] == Kyc && k in w'.kyc
          && (Covered(s, w, k) ==> Matches(s, w'.kyc[k], w.source[k])))
  }

  lemma StepIsSafe(s: Setting, w: World, w': World, k: Key)
    requires Step(s, w, w')
    ensures Safe(s, w, w', k)
  {
    var e :| StepBy(s, w, e, w');
    match e {
      case Copy(key) =>
      case Repoint(key) =>
      case Delete(key) =>
    }
  }

  lemma SafeItself(s: Setting, w: World, k: Key)
    ensures Safe(s, w, w, k)
  {
  }

  lemma SafeTransitive(s: Setting, u: World, v: World, w: World, k: Key)
    requires Safe(s, u, v, k) && Safe(s, v, w, k)
    ensures Safe(s, u, w, k)
  {
  }

  ghost function SafeFor(s: Setting, k: Key): (World, World) -> bool {
    (w: World, w': World) => Safe(s, w, w', k)
  }

  /** Crash safety: whatever stops the runs, a readable document stays readable. */
  lemma CampaignIsSafe(s: Setting, runs: seq<seq<World>>, i: nat, j: nat, k: Key)
    requires Campaign(Steps(s), runs) && i < |runs| && j < |runs[i]|
    ensures Safe(s, runs[0][0], runs[i][j], k)
  {
    hide Safe, Step;
    forall w, w' | Steps(s)(w, w')
      ensures SafeFor(s, k)(w, w')
    {
      StepIsSafe(s, w, w', k);
    }
    forall w
      ensures Safe(s, w, w, k)
    {
      SafeItself(s, w, k);
    }
    forall u, v, w | Safe(s, u, v, k) && Safe(s, v, w, k)
      ensures Safe(s, u, w, k)
    {
      SafeTransitive(s, u, v, w, k);
    }
    CampaignKeeps(Steps(s), SafeFor(s, k), runs, i, j);
  }

  predicate SameContent(w: World, w': World, k: Key) {
    Located(w, k).Some? ==> Located(w', k) == Located(w, k)
  }

  predicate SameSize(w: World, w': World, k: Key) {
    Located(w, k).Some? ==> Located(w', k).Some? && |Located(w', k).value| == |Located(w, k).value|
  }

  /** Every campaign keeps the bytes, respectively the size, of every readable document. */
  ghost predicate KeepsContent(s: Setting) {
    forall runs: seq<seq<World>>, i: nat, j: nat, k: Key ::
      Campaign(Steps(s), runs) && i < |runs| && j < |runs[i]| ==> SameContent(runs[0][0], runs[i][j], k)
  }

  ghost predicate KeepsSize(s: Setting) {
    forall runs: seq<seq<World>>, i: nat, j: nat, k: Key ::
      Campaign(Steps(s), runs) && i < |runs| && j < |runs[i]| ==> SameSize(runs[0][0], runs[i][j], k)
  }

  /** A copy that wrote `written` instead of `[1]`, followed by the repoint. */
  lemma BadCopyCampaign(s: Setting, written: Blob) returns (runs: seq<seq<World>>)
    requires !s.faithful && (s.sized ==> |written| == 1)
    ensures Campaign(Steps(s), runs) && |runs| == 1 && |runs[0]| == 3
    ensures Located(runs[0][0], "a") == Some([1]) && Located(runs[0][2], "a") == Some(written)
  {
    var w0 := World(map["a" := [1]], map[], map["a" := Reports]);
    var w1 := w0.(kyc := map["a" := written]);
    var w2 := w1.(rows := map["a" := Kyc]);
    assert StepBy(s, w0, Copy("a"), w1);
    assert StepBy(s, w1, Repoint("a"), w2);
    var run := [w0, w1, w2];
    assert run[..2] == [w0, w1] && [w0, w1][..1] == [w0];
    assert Behaviour(Steps(s), [w0]);
    assert Behaviour(Steps(s), [w0, w1]);
    assert Behaviour(Steps(s), run);
    runs := [run];
  }

  /** The size check stands in for faithful copies exactly as far as sizes go. */
  lemma WhatTheSizeCheckBuys(s: Setting)
    ensures KeepsContent(s) <==> s.faithful
    ensures KeepsSize(s) <==> s.faithful || s.sized
  {
    forall runs: seq<seq<World>>, i: nat, j: nat, k: Key
      | Campaign(Steps(s), runs) && i < |runs| && j < |runs[i]|
      ensures s.faithful ==> SameContent(runs[0][0], runs[i][j], k)
      ensures s.faithful || s.sized ==> SameSize(runs[0][0], runs[i][j], k)
    {
      CampaignIsSafe(s, runs, i, j, k);
    }
    if !s.faithful {
      var runs := BadCopyCampaign(s, [2]);
      assert !SameContent(runs[0][0], runs[0][2], "a");
      if !s.sized {
        var shorter := BadCopyCampaign(s, []);
        assert !SameSize(shorter[0][0], shorter[0][2], "a");
      }
    }
  }

  /** Every campaign from `w` deletes the source of `k` only with a matching copy in the KYC bucket. */
  ghost predicate DeletesSafely(s: Setting, w: World, k: Key) {
    forall runs: seq<seq<World>>, i: nat, j: nat ::
      Campaign(Steps(s), runs) && runs[0][0] == w && i < |runs| && j < |runs[i]|
      && k in w.source && k !in runs[i][j].source ==>
        k in runs[i][j].kyc && Matches(s, runs[i][j].kyc[k], w.source[k])
  }

  /** The fast path trusts any object it finds; what it then deletes is safe exactly where `k` was covered. */
  lemma DeletesSafelyExactlyWhenCovered(s: Setting, w: World, k: Key)
    ensures DeletesSafely(s, w, k) <==> Covered(s, w, k)
  {
    if Covered(s, w, k) {
      forall runs: seq<seq<World>>, i: nat, j: nat
        | Campaign(Steps(s), runs) && runs[0][0] == w && i < |runs| && j < |runs[i]|
          && k in w.source && k !in runs[i][j].source
        ensures k in runs[i][j].kyc && Matches(s, runs[i][j].kyc[k], w.source[k])
      {
        CampaignIsSafe(s, runs, i, j, k);
      }
    } else {
      var wrong := if k in w.kyc then w.kyc[k] else w.source[k] + [0];
      var runs: seq<seq<World>> := LossOf(s, w, k, wrong);
      assert !Matches(s, wrong, w.source[k]);
      assert k !in runs[1][1].source && runs[1][1].kyc[k] == wrong;
    }
  }

  /** A run that dies with a wrong copy in place, and one that takes that copy for the document. */
  lemma LossOf(s: Setting, w: World, k: Key, wrong: Blob) returns (runs: seq<seq<World>>)
    requires k in w.source && k in w.rows && w.rows[k] == Kyc
    requires if k in w.kyc then wrong == w.kyc[k] else !s.faithful
    ensures Campaign(Steps(s), runs) && |runs| == 2 && |runs[1]| == 2 && runs[0][0] == w
    ensures runs[1][1] == w.(source := w.source - {k}, kyc := w.kyc[k := wrong])
  {
    hide StepBy;
    var w1 := w.(kyc := w.kyc[k := wrong]);
    var w2 := w1.(source := w.source - {k});
    var first := if k in w.kyc then [w] else [w, w1];
    LossSteps(s, w, k, w1, w2);
    assert [w, w1][..1] == [w] && [w1, w2][..1] == [w1];
    assert Behaviour(Steps(s), [w]) && Behaviour(Steps(s), [w1]);
    assert Behaviour(Steps(s), [w1, w2]);
    assert k in w.kyc ==> w1 == w;
    assert k !in w.kyc ==> Behaviour(Steps(s), [w, w1]);
    assert w1 in first by { assert first[|first| - 1] == w1; }
    runs := [first, [w1, w2]];
  }

  lemma LossSteps(s: Setting, w: World, k: Key, w1: World, w2: World)
    requires k in w.source && k in w.rows && w.rows[k] == Kyc && k in w1.kyc
    requires w1 == w.(kyc := w.kyc[k := w1.kyc[k]]) && w2 == w1.(source := w.source - {k})
    ensures k !in w.kyc && !s.faithful ==> Steps(s)(w, w1)
    ensures Steps(s)(w1, w2)
  {
    assert StepBy(s, w1, Delete(k), w2);
    if k !in w.kyc && !s.faithful { assert StepBy(s, w, Copy(k), w1); }
  }

  /** A row ahead of its copy: the size check throws in the first run, the second deletes the only original. */
  lemma ADocumentIsLost() returns (runs: seq<seq<World>>)
    ensures var w := World(map["a" := [1, 2]], map[], map["a" := Kyc]);
            && !Covered(Setting(false, true), w, "a")
            && Campaign(Steps(Setting(false, true)), runs) && |runs| == 2 && |runs[1]| == 2 && runs[0][0] == w
            && runs[1][1] == World(map[], map["a" := [3]], map["a" := Kyc])
  {
    var w := World(map["a" := [1, 2]], map[], map["a" := Kyc]);
    runs := LossOf(Setting(false, true), w, "a", [3]);
  }

  // ---------------------------------------------------------------------------
  // The script
  // ---------------------------------------------------------------------------

  /** How a request that changes something ends: an error may hide that it took effect. */
  datatype Reply = Done | Refused | Lost

  /** What the stores and the database do to one object of a run. */
  datatype Faults = Faults(
    findFails: bool, headFails: bool, copy: Reply, garbled: Option<Blob>,
    verifyFails: bool, update: Reply, delete: Reply)
  {
    predicate Clean() {
      && !findFails && !headFails && !verifyFails
      && copy == Done && garbled == None && update == Done && delete == Done
    }
  }

  /** One entry of a listing page; the store may leave the size out. */
  datatype Listed = Listed(key: Key, size: Option<nat>)

  /** Folder placeholders and entries without a key are passed over. */
  predicate IsFile(l: Listed) {
    l.key != "" && l.key[|l.key| - 1] != '/'
  }

  datatype Stats = Stats(
    listed: nat, copied: nat, skipped: nat, rowsUpdated: nat,
    sourcesDeleted: nat, orphans: nat, failed: nat)

  const ZERO := Stats(0, 0, 0, 0, 0, 0, 0)

  /** How the page loop ended. */
  datatype End = Completed | LimitReached | Fatal

  /** The two worlds agree on everything filed under `k`. */
  ghost predicate SameAt(w: World, w': World, k: Key) {
    && (k in w.source <==> k in w'.source) && (k in w.source ==> w'.source[k] == w.source[k])
    && (k in w.kyc <==> k in w'.kyc) && (k in w.kyc ==> w'.kyc[k] == w.kyc[k])
    && (k in w.rows <==> k in w'.rows) && (k in w.rows ==> w'.rows[k] == w.rows[k])
  }

  predicate AlreadyMoved(w: World, k: Key) {
    k in w.rows && w.rows[k] == Kyc && k in w.kyc
  }

  /** What a finished key looks like: moved if it has a row, copied and kept if it has none. */
  ghost predicate Finished(s: Setting, w: World, w': World, k: Key)
    requires k in w.source
  {
    && k in w'.kyc
    && (AlreadyMoved(w, k) ==> w'.kyc[k] == w.kyc[k])
    && (!AlreadyMoved(w, k) && s.faithful ==> w'.kyc[k] == w.source[k])
    && (!AlreadyMoved(w, k) && s.sized ==> |w'.kyc[k]| == |w.source[k]|)
    && (k in w.rows <==> k in w'.rows)
    && (k in w.rows ==> w'.rows[k] == Kyc && k !in w'.source)
    && (k !in w.rows ==> k in w'.source && w'.source[k] == w.source[k])
  }

  /** Nothing but the entries filed under `k` differs. */
  ghost predicate OnlyAt(w: World, w': World, k: Key) {
    && (w'.source == w.source || w'.source == w.source - {k})
    && (w'.kyc == w.kyc || (k in w'.kyc && w'.kyc == w.kyc[k := w'.kyc[k]]))
    && (w'.rows == w.rows || w'.rows == w.rows[k := Kyc])
  }

  ghost predicate SameOutside(w: World, w': World, keys: set<Key>) {
    forall k :: k !in keys ==> SameAt(w, w', k)
  }

  ghost predicate AllFinished(s: Setting, w: World, w': World, keys: set<Key>) {
    forall k :: k in keys ==> k in w.source && Finished(s, w, w', k)
  }

  lemma TakeOneMore(s: Setting, start: World, w: World, w': World, keys: set<Key>, k: Key)
    requires SameOutside(start, w, keys) && k !in keys && k in w.source && OnlyAt(w, w', k)
    ensures SameOutside(start, w', keys + {k})
    ensures AllFinished(s, start, w, keys) && Finished(s, w, w', k) ==> AllFinished(s, start, w', keys + {k})
  {
    assert SameAt(start, w, k);
    forall k' | k' != k
      ensures SameAt(w, w', k')
    {
    }
    hide OnlyAt;
  }

  /** `Finished` reads its first world at `k` only. */
  lemma SameStart(s: Setting, start: World, w: World, w': World, k: Key)
    requires SameAt(start, w, k) && k in start.source
    ensures Finished(s, start, w', k) <==> Finished(s, w, w', k)
  {
  }

  /** The keys of a listing that are no folder placeholders. */
  ghost function FileKeys(all: seq<Listed>): set<Key> {
    set l | l in all && l.key != "" && l.key[|l.key| - 1] != '/' :: l.key
  }

  /** How many entries of a listing are no folder placeholders. */
  ghost function Files(all: seq<Listed>): nat {
    if all == [] then 0
    else
      var l := all[|all| - 1];
      Files(all[..|all| - 1]) + if l.key != "" && l.key[|l.key| - 1] != '/' then 1 else 0
  }

  /**
   Of the first `n` entries every file to whose requests nothing happened is finished, whatever
   happened to the others.
   */
  ghost predicate CleanOnesFinished(s: Setting, w: World, w': World, all: seq<Listed>, n: nat, net: nat -> Faults)
    requires n <= |all|
  {
    forall i :: 0 <= i < n && all[i].key != "" && all[i].key[|all[i].key| - 1] != '/' ==>
      net(Files(all[..i])).Clean() ==> all[i].key in w.source && Finished(s, w, w', all[i].key)
  }

  lemma OneMoreFinished(s: Setting, start: World, w: World, w': World, all: seq<Listed>, n: nat, net: nat -> Faults)
    requires n < |all| && ListingOf(s, start, all)
    requires CleanOnesFinished(s, start, w, all, n, net)
    requires IsFile(all[n]) ==>
               && OnlyAt(w, w', all[n].key)
               && (net(Files(all[..n])).Clean() ==> Finished(s, start, w', all[n].key))
    requires !IsFile(all[n]) ==> w' == w
    ensures CleanOnesFinished(s, start, w', all, n + 1, net)
  {
    hide Finished, Files, OnlyAt;
    forall i | 0 <= i < n && all[i].key in start.source && Finished(s, start, w, all[i].key)
      ensures Finished(s, start, w', all[i].key)
    {
      assert all[i].key != all[n].key;
      if IsFile(all[n]) { FinishedStays(s, start, w, w', all[i].key, all[n].key); }
    }
  }

  lemma OneMoreTaken(s: Setting, start: World, w: World, w': World, all: seq<Listed>, n: nat, dryRun: bool,
                     net: nat -> Faults)
    requires n < |all| && ListingOf(s, start, all)
    requires !dryRun ==> CleanOnesFinished(s, start, w, all, n, net)
    requires !dryRun && IsFile(all[n]) ==>
               && OnlyAt(w, w', all[n].key)
               && (net(Files(all[..n])).Clean() ==> Finished(s, start, w', all[n].key))
    requires !IsFile(all[n]) ==> w' == w
    ensures !dryRun ==> CleanOnesFinished(s, start, w', all, n + 1, net)
    ensures Files(all[..n + 1]) == Files(all[..n]) + if IsFile(all[n]) then 1 else 0
  {
    hide CleanOnesFinished, Finished, OnlyAt, ListingOf;
    assert all[..n + 1][..n] == all[..n];
    if !dryRun { OneMoreFinished(s, start, w, w', all, n, net); }
  }

  lemma FoldersAreLeft(w: World, w': World, all: seq<Listed>)
    requires SameOutside(w, w', FileKeys(all))
    ensures forall l :: l in all && (l.key == "" || l.key[|l.key| - 1] == '/') ==> SameAt(w, w', l.key)
  {
    hide SameAt;
  }

  lemma FilesAreFinished(s: Setting, w: World, w': World, all: seq<Listed>)
    ensures AllFinished(s, w, w', FileKeys(all)) ==>
              forall l :: l in all && l.key != "" && l.key[|l.key| - 1] != '/' ==>
                l.key in w.source && Finished(s, w, w', l.key)
  {
    hide Finished;
  }

  lemma NoFilesYet(s: Setting, w: World, net: nat -> Faults)
    ensures Files([]) == 0 && forall all: seq<Listed> :: CleanOnesFinished(s, w, w, all, 0, net)
  {
  }

  lemma FinishedStays(s: Setting, start: World, w: World, w': World, k: Key, other: Key)
    requires k in start.source && Finished(s, start, w, k) && OnlyAt(w, w', other) && k != other
    ensures Finished(s, start, w', k)
  {
  }

  lemma NothingTaken(s: Setting, w: World)
    ensures FileKeys([]) == {} && SameOutside(w, w, {}) && AllFinished(s, w, w, {})
  {
  }

  lemma SameOutsideMore(w: World, w': World, keys: set<Key>, more: set<Key>)
    requires SameOutside(w, w', keys) && keys <= more
    ensures SameOutside(w, w', more)
  {
  }

  lemma FileKeysGrow(all: seq<Listed>, n: nat)
    requires n <= |all|
    ensures FileKeys(all[..n]) <= FileKeys(all)
  {
  }

  lemma FileKeysNext(s: Setting, w: World, all: seq<Listed>, n: nat)
    requires ListingOf(s, w, all) && n < |all|
    ensures FileKeys(all[..n + 1]) ==
              if IsFile(all[n]) then FileKeys(all[..n]) + {all[n].key} else FileKeys(all[..n])
    ensures all[n].key !in FileKeys(all[..n])
  {
    assert all[..n + 1] == all[..n] + [all[n]];
    forall i | 0 <= i < n
      ensures all[..n][i].key != all[n].key
    {
    }
  }

  ghost function Flatten(pages: seq<seq<Listed>>): seq<Listed> {
    if pages == [] then [] else pages[0] + Flatten(pages[1..])
  }

  lemma {:induction false} FlattenAt(pages: seq<seq<Listed>>, p: nat)
    requires p < |pages|
    ensures Flatten(pages) == Flatten(pages[..p]) + pages[p] + Flatten(pages[p + 1..])
    ensures Flatten(pages[..p + 1]) == Flatten(pages[..p]) + pages[p]
  {
    if p == 0 {
      assert pages[..1] == [pages[0]] + [];
      assert Flatten(pages[..1]) == pages[0] + Flatten([]);
    } else {
      FlattenAt(pages[1..], p - 1);
      assert pages[1..][..p - 1] == pages[..p][1..];
      assert pages[1..][..p] == pages[..p + 1][1..];
      assert pages[1..][p..] == pages[p + 1..];
    }
  }

  /** A listing of `w`: each key once, each present, sizes right where they are given. */
  ghost predicate ListingOf(s: Setting, w: World, all: seq<Listed>) {
    && (forall i, j {:trigger all[i].key, all[j].key} :: 0 <= i < j < |all| ==> all[i].key != all[j].key)
    && (forall i :: 0 <= i < |all| ==>
          && all[i].key in w.source
          && (all[i].size.Some? ==> all[i].size.value == |w.source[all[i].key]|)
          && (s.sized ==> all[i].size.Some?))
  }

  /** How one object moves the counters: exactly when it finishes, within bounds when it fails. */
  ghost predicate Booked(w: World, key: Key, dryRun: bool, ok: bool, s: Stats, s': Stats) {
    && s'.listed == s.listed && s'.failed == s.failed
    && (dryRun || !ok ==> s'.sourcesDeleted == s.sourcesDeleted)
    && (!ok ==> s'.orphans == s.orphans)
    && (dryRun ==> s'.copied == s.copied && s'.rowsUpdated == s.rowsUpdated)
    && (ok && !dryRun ==> s' == BookedWhenDone(w, key, s))
    && (ok && dryRun ==> s' == BookedWhenDry(w, key, s))
  }

  function BookedWhenDry(w: World, key: Key, s: Stats): Stats {
    if AlreadyMoved(w, key) then s.(skipped := s.skipped + 1)
    else if key !in w.rows then s.(orphans := s.orphans + 1)
    else s
  }

  function BookedWhenDone(w: World, key: Key, s: Stats): Stats {
    if AlreadyMoved(w, key) then s.(skipped := s.skipped + 1, sourcesDeleted := s.sourcesDeleted + 1)
    else if key !in w.rows then s.(copied := s.copied + 1, orphans := s.orphans + 1)
    else s.(copied := s.copied + 1, rowsUpdated := s.rowsUpdated + 1, sourcesDeleted := s.sourcesDeleted + 1)
  }

  // ---------------------------------------------------------------------------
  // What one process does, as a function
  // ---------------------------------------------------------------------------

  type Outcome = (World, Stats, bool)

  function Dropped(w: World, s: Stats, key: Key, net: Faults): Outcome {
    if net.delete == Done then
      (w.(source := w.source - {key}), s.(sourcesDeleted := s.sourcesDeleted + 1), true)
    else (if net.delete == Refused then w else w.(source := w.source - {key}), s, false)
  }

  function Pointed(w: World, s: Stats, key: Key, net: Faults): Outcome {
    var w' := if net.update == Refused then w else w.(rows := w.rows[key := Kyc]);
    if net.update != Done then (w', s, false)
    else Dropped(w', s.(rowsUpdated := s.rowsUpdated + 1), key, net)
  }

  function Written(w: World, key: Key, net: Faults): Blob
    requires key in w.source
  {
    if net.garbled.Some? then net.garbled.value else w.source[key]
  }

  /** The copy and its check. */
  function CopiedOver(w: World, s: Stats, key: Key, size: Option<nat>, net: Faults): Outcome
    requires key in w.source
  {
    var bytes := Written(w, key, net);
    var w' := if net.copy == Refused then w else w.(kyc := w.kyc[key := bytes]);
    if net.copy != Done then (w', s, false)
    else
      (w', s.(copied := s.copied + 1), !net.verifyFails && (size.Some? ==> |bytes| == size.value))
  }

  /** The four steps for an object that is not moved yet. */
  function FourSteps(w: World, s: Stats, key: Key, size: Option<nat>, dryRun: bool, net: Faults): Outcome
    requires key in w.source
  {
    var (v, t, ok) := if dryRun then (w, s, true) else CopiedOver(w, s, key, size, net);
    if !ok then (v, t, false)
    else if key !in w.rows then (v, t.(orphans := t.orphans + 1), true)
    else if dryRun then (v, t, true)
    else Pointed(v, t, key, net)
  }

  function MigratedOne(w: World, s: Stats, key: Key, size: Option<nat>, dryRun: bool, net: Faults): Outcome
    requires key in w.source
  {
    if net.findFails || (key in w.rows && w.rows[key] == Kyc && net.headFails) then (w, s, false)
    else if AlreadyMoved(w, key) then
      var s' := s.(skipped := s.skipped + 1);
      if dryRun then (w, s', true) else Dropped(w, s', key, net)
    else FourSteps(w, s, key, size, dryRun, net)
  }

  function TakenUp(w: World, s: Stats, entry: Listed, dryRun: bool, net: Faults): (World, Stats)
    requires entry.key in w.source
  {
    var (v, t, ok) := MigratedOne(w, s.(listed := s.listed + 1), entry.key, entry.size, dryRun, net);
    (v, if ok then t else t.(failed := t.failed + 1))
  }

  /** The first `n` entries of a listing, taken up from a fresh count. */
  ghost function Progressed(w: World, all: seq<Listed>, n: nat, dryRun: bool, net: nat -> Faults): (World, Stats)
    requires n <= |all|
  {
    if n == 0 then (w, ZERO)
    else
      var (v, s) := Progressed(w, all, n - 1, dryRun, net);
      var entry := all[n - 1];
      if IsFile(entry) && entry.key in v.source then TakenUp(v, s, entry, dryRun, net(s.listed)) else (v, s)
  }

  lemma DroppedIsRight(w: World, s: Stats, key: Key, net: Faults)
    ensures var (v, t, ok) := Dropped(w, s, key, net);
            && v == w.(source := v.source) && (v.source == w.source || v.source == w.source - {key})
            && (ok ==> v.source == w.source - {key})
            && t == (if ok then s.(sourcesDeleted := s.sourcesDeleted + 1) else s) && (net.Clean() ==> ok)
  {
  }

  lemma PointedIsRight(w: World, s: Stats, key: Key, net: Faults)
    ensures var (v, t, ok) := Pointed(w, s, key, net);
            && v.kyc == w.kyc && (v.source == w.source || v.source == w.source - {key})
            && (v.rows == w.rows || v.rows == w.rows[key := Kyc])
            && (ok ==> v == w.(source := w.source - {key}, rows := w.rows[key := Kyc]))
            && t.(rowsUpdated := 0) == s.(rowsUpdated := 0, sourcesDeleted := s.sourcesDeleted + if ok then 1 else 0)
            && (ok ==> t.rowsUpdated == s.rowsUpdated + 1) && (net.Clean() ==> ok)
  {
  }

  lemma CopiedOverIsRight(setting: Setting, w: World, s: Stats, key: Key, size: Option<nat>, net: Faults)
    requires key in w.source && (size.Some? ==> size.value == |w.source[key]|)
    requires (setting.sized ==> size.Some?) && (setting.faithful ==> net.garbled == None)
    ensures var (v, t, ok) := CopiedOver(w, s, key, size, net);
            && v == w.(kyc := v.kyc) && (v.kyc == w.kyc || (key in v.kyc && v.kyc == w.kyc[key := v.kyc[key]]))
            && (ok ==> key in v.kyc && Matches(setting, v.kyc[key], w.source[key]))
            && (t == s || t == s.(copied := s.copied + 1)) && (ok ==> t == s.(copied := s.copied + 1))
            && (net.Clean() ==> ok)
  {
  }

  lemma FourStepsAreRight(setting: Setting, w: World, s: Stats, key: Key, size: Option<nat>, dryRun: bool, net: Faults)
    requires key in w.source && (size.Some? ==> size.value == |w.source[key]|) && !AlreadyMoved(w, key)
    requires (setting.sized ==> size.Some?) && (setting.faithful ==> net.garbled == None)
    ensures var (v, t, ok) := FourSteps(w, s, key, size, dryRun, net);
            && (dryRun ==> v == w) && OnlyAt(w, v, key) && (net.Clean() ==> ok)
            && (ok && !dryRun ==> Finished(setting, w, v, key))
            && Booked(w, key, dryRun, ok, s, t)
  {
    hide Dropped, Pointed, CopiedOver;
    CopiedOverIsRight(setting, w, s, key, size, net);
    var (v, t, ok) := CopiedOver(w, s, key, size, net);
    PointedIsRight(v, t, key, net);
  }

  /** One object under any faults: what changes, what success means, and how it is counted. */
  lemma MigratedOneIsRight(setting: Setting, w: World, s: Stats, key: Key, size: Option<nat>, dryRun: bool, net: Faults)
    requires key in w.source && (size.Some? ==> size.value == |w.source[key]|)
    requires (setting.sized ==> size.Some?) && (setting.faithful ==> net.garbled == None)
    ensures var (v, t, ok) := MigratedOne(w, s, key, size, dryRun, net);
            && (dryRun ==> v == w) && OnlyAt(w, v, key) && (net.Clean() ==> ok)
            && (ok && !dryRun ==> Finished(setting, w, v, key))
            && Booked(w, key, dryRun, ok, s, t)
  {
    hide Dropped, FourSteps;
    DroppedIsRight(w, s.(skipped := s.skipped + 1), key, net);
    if !AlreadyMoved(w, key) {
      FourStepsAreRight(setting, w, s, key, size, dryRun, net);
    }
  }

  /** The counters of one object that went well, written out. */
  lemma CountedOnce(w: World, s: Stats, key: Key, size: Option<nat>, dryRun: bool, net: Faults)
    requires key in w.source && MigratedOne(w, s, key, size, dryRun, net).2
    ensures var t := MigratedOne(w, s, key, size, dryRun, net).1;
            var moved := key in w.rows && w.rows[key] == Kyc && key in w.kyc;
            && t.listed == s.listed && t.failed == s.failed
            && t.skipped == s.skipped + (if moved then 1 else 0)
            && t.orphans == s.orphans + (if !moved && key !in w.rows then 1 else 0)
            && t.copied == s.copied + (if !dryRun && !moved then 1 else 0)
            && t.rowsUpdated == s.rowsUpdated + (if !dryRun && !moved && key in w.rows then 1 else 0)
            && t.sourcesDeleted == s.sourcesDeleted + (if !dryRun && key in w.rows then 1 else 0)
  {
  }

  lemma NoProgress(w: World, all: seq<Listed>, dryRun: bool, net: nat -> Faults)
    ensures Progressed(w, all, 0, dryRun, net) == (w, ZERO)
  {
  }

  lemma ProgressedNext(w: World, all: seq<Listed>, n: nat, dryRun: bool, net: nat -> Faults)
    requires n < |all|
    ensures var (v, s) := Progressed(w, all, n, dryRun, net);
            Progressed(w, all, n + 1, dryRun, net)
            == if IsFile(all[n]) && all[n].key in v.source then TakenUp(v, s, all[n], dryRun, net(s.listed)) else (v, s)
  {
  }

  class Migration {
    var source: map<Key, Blob>
    var kyc: map<Key, Blob>
    var rows: map<Key, Home>
    var stats: Stats
    ghost var history: seq<World>
    ghost const setting: Setting

    ghost function Now(): World
      reads this
    {
      World(source, kyc, rows)
    }

    ghost predicate Valid()
      reads this
    {
      && Behaviour(Steps(setting), history)
      && history[|history| - 1] == Now()
    }

    constructor (ghost s: Setting, source: map<Key, Blob>, kyc: map<Key, Blob>, rows: map<Key, Home>)
      ensures Valid() && setting == s && history == [World(source, kyc, rows)] && Now() == World(source, kyc, rows)
    {
      setting := s;
      this.source, this.kyc, this.rows := source, kyc, rows;
      stats := ZERO;
      history := [World(source, kyc, rows)];
    }

    /** Record the world an effect has just produced. */
    ghost method Record(e: Event)
      requires Behaviour(Steps(setting), history)
      requires StepBy(setting, history[|history| - 1], e, Now())
      modifies this`history
      ensures Valid() && history == old(history) + [Now()]
    {
      assert Step(setting, history[|history| - 1], Now());
      Extend(Steps(setting), history, Now());
      history := history + [Now()];
    }

    /** HEAD on the KYC bucket; `None` stands for "not found". */
    function HeadKyc(key: Key): (size: Option<nat>)
      reads this
      ensures size.Some? <==> key in kyc
      ensures size.Some? ==> size.value == |kyc[key]|
    {
      if key in kyc then Some(|kyc[key]|) else None
    }

    /** CopyObject, which stores the source object or, when garbled, something else. */
    method CopyToKyc(key: Key, net: Faults) returns (ok: bool)
      requires Valid() && key in source
      requires !AlreadyMoved(Now(), key)
      requires setting.faithful ==> net.garbled == None
      modifies this`kyc, this`history
      ensures Valid() && old(history) <= history
      ensures ok <==> net.copy == Done
      ensures net.copy == Refused ==> kyc == old(kyc)
      ensures net.copy != Refused ==>
                kyc == old(kyc)[key := if net.garbled.Some? then net.garbled.value else source[key]]
    {
      if net.copy != Refused {
        kyc := kyc[key := if net.garbled.Some? then net.garbled.value else source[key]];
        Record(Copy(key));
      }
      ok := net.copy == Done;
    }

    method PointRowAtKyc(key: Key, net: Faults) returns (ok: bool)
      requires Valid() && key in source && key in kyc && key in rows
      requires setting.faithful ==> kyc[key] == source[key]
      requires setting.sized ==> |kyc[key]| == |source[key]|
      modifies this`rows, this`history
      ensures Valid() && old(history) <= history
      ensures ok <==> net.update == Done
      ensures rows == if net.update == Refused then old(rows) else old(rows)[key := Kyc]
    {
      if net.update != Refused {
        rows := rows[key := Kyc];
        Record(Repoint(key));
      }
      ok := net.update == Done;
    }

    method DeleteSource(key: Key, net: Faults) returns (ok: bool)
      requires Valid() && AlreadyMoved(Now(), key)
      modifies this`source, this`history
      ensures Valid() && old(history) <= history
      ensures ok <==> net.delete == Done
      ensures source == if net.delete == Refused then old(source) else old(source) - {key}
    {
      if net.delete != Refused {
        source := source - {key};
        Record(Delete(key));
      }
      ok := net.delete == Done;
    }

    /** Steps 1 and 2: copy the object, then HEAD the copy and compare sizes. */
    method CopyAndVerify(key: Key, listedSize: Option<nat>, net: Faults) returns (ok: bool)
      requires Valid() && key in source && !AlreadyMoved(Now(), key)
      requires listedSize.Some? ==> listedSize.value == |source[key]|
      requires setting.sized ==> listedSize.Some?
      requires setting.faithful ==> net.garbled == None
      modifies this`kyc, this`history, this`stats
      ensures Valid() && old(history) <= history
      ensures kyc == old(kyc) || (key in kyc && kyc == old(kyc)[key := kyc[key]])
      ensures ok ==> key in kyc
                     && (setting.faithful ==> kyc[key] == source[key])
                     && (setting.sized ==> |kyc[key]| == |source[key]|)
      ensures net.Clean() ==> ok
      ensures stats == old(stats) || (stats == old(stats).(copied := old(stats).copied + 1))
      ensures ok ==> stats == old(stats).(copied := old(stats).copied + 1)
      ensures (Now(), stats, ok) == CopiedOver(old(Now()), old(stats), key, listedSize, net)
    {
      ok := CopyToKyc(key, net);
      if !ok { return; }
      stats := stats.(copied := stats.copied + 1);

      if net.verifyFails { return false; }
      var destSize := HeadKyc(key);
      if destSize == None { return false; }
      if listedSize.Some? && destSize.value != listedSize.value { return false; }
    }

    /** Steps 3 and 4: point the row at the verified copy, and only then delete the source. */
    method RepointAndDelete(key: Key, net: Faults) returns (ok: bool)
      requires Valid() && key in source && key in kyc && key in rows
      requires setting.faithful ==> kyc[key] == source[key]
      requires setting.sized ==> |kyc[key]| == |source[key]|
      modifies this`source, this`rows, this`history, this`stats
      ensures Valid() && old(history) <= history
      ensures source == old(source) || source == old(source) - {key}
      ensures rows == old(rows) || rows == old(rows)[key := Kyc]
      ensures ok ==> key !in source && rows[key] == Kyc
      ensures net.Clean() ==> ok
      ensures stats.(rowsUpdated := 0, sourcesDeleted := 0) == old(stats).(rowsUpdated := 0, sourcesDeleted := 0)
      ensures stats.sourcesDeleted == old(stats).sourcesDeleted + if ok then 1 else 0
      ensures ok ==> stats.rowsUpdated == old(stats).rowsUpdated + 1
      ensures (Now(), stats, ok) == Pointed(old(Now()), old(stats), key, net)
    {
      hide Behaviour;
      ok := PointRowAtKyc(key, net);
      if !ok { return; }
      stats := stats.(rowsUpdated := stats.rowsUpdated + 1);

      ok := DeleteSource(key, net);
      if !ok { return; }
      stats := stats.(sourcesDeleted := stats.sourcesDeleted + 1);
    }

    /**
     The four steps for one object. `ok` is false when the source throws. The object is
     the one the listing named, so it is still in the source bucket when the step starts.
     */
    method MigrateOne(key: Key, listedSize: Option<nat>, dryRun: bool, net: Faults) returns (ok: bool)
      requires Valid() && key in source
      requires listedSize.Some? ==> listedSize.value == |source[key]|
      requires setting.sized ==> listedSize.Some?
      requires setting.faithful ==> net.garbled == None
      modifies this
      ensures Valid() && old(history) <= history
      ensures dryRun ==> history == old(history)
      ensures OnlyAt(old(Now()), Now(), key)
      ensures ok && !dryRun ==> Finished(setting, old(Now()), Now(), key)
      ensures net.Clean() ==> ok
      ensures Booked(old(Now()), key, dryRun, ok, old(stats), stats)
      ensures (Now(), stats, ok) == MigratedOne(old(Now()), old(stats), key, listedSize, dryRun, net)
    {
      hide Behaviour, OnlyAt, Finished, Booked, CopiedOver, Pointed;
      MigratedOneIsRight(setting, Now(), stats, key, listedSize, dryRun, net);
      if net.findFails { return false; }
      var row := if key in rows then Some(rows[key]) else None;

      if row == Some(Kyc) {
        if net.headFails { return false; }
        var dest := HeadKyc(key);
        if dest != None {
          stats := stats.(skipped := stats.skipped + 1);
          if !dryRun {
            ok := DeleteSource(key, net);
            if !ok { return; }
            stats := stats.(sourcesDeleted := stats.sourcesDeleted + 1);
          }
          return true;
        }
      }

      if !dryRun {
        ok := CopyAndVerify(key, listedSize, net);
        if !ok { return; }
      }
      if row == None {
        stats := stats.(orphans := stats.orphans + 1);
        return true;
      }
      if !dryRun {
        ok := RepointAndDelete(key, net);
        return;
      }
      return true;
    }

    /** What a run that began in `start` has achieved once it has taken up `keys`. */
    ghost predicate Progress(start: World, keys: set<Key>, dryRun: bool)
      reads this
    {
      && SameOutside(start, Now(), keys)
      && (dryRun ==> Now() == start && stats.copied == stats.rowsUpdated == stats.sourcesDeleted == 0)
      && (!dryRun && stats.failed == 0 ==> AllFinished(setting, start, Now(), keys))
      && (!dryRun ==> stats.listed == stats.sourcesDeleted + stats.orphans + stats.failed)
      && (!dryRun && stats.failed == 0 ==>
            && stats.copied == stats.orphans + stats.rowsUpdated
            && stats.sourcesDeleted == stats.skipped + stats.rowsUpdated)
    }

    /** One turn of the page loop: count the object, migrate it, and count a throw. */
    method TakeUp(entry: Listed, dryRun: bool, net: Faults, ghost start: World, ghost keys: set<Key>)
      requires Valid() && Progress(start, keys, dryRun)
      requires ListingOf(setting, start, [entry]) && entry.key !in keys
      requires setting.faithful ==> net.garbled == None
      modifies this
      ensures Valid() && old(history) <= history && (dryRun ==> history == old(history))
      ensures Progress(start, keys + {entry.key}, dryRun)
      ensures stats.listed == old(stats.listed) + 1
      ensures net.Clean() ==> stats.failed == old(stats.failed)
      ensures OnlyAt(old(Now()), Now(), entry.key)
      ensures !dryRun && net.Clean() ==> entry.key in start.source && Finished(setting, start, Now(), entry.key)
      ensures entry.key in old(source) && (Now(), stats) == TakenUp(old(Now()), old(stats), entry, dryRun, net)
    {
      hide Behaviour, MigratedOne, Finished, OnlyAt, AllFinished;
      assert [entry][0] == entry && SameAt(start, Now(), entry.key);
      stats := stats.(listed := stats.listed + 1);
      ghost var before := Now();
      var ok := MigrateOne(entry.key, entry.size, dryRun, net);
      TakeOneMore(setting, start, before, Now(), keys, entry.key);
      if ok {
        SameStart(setting, start, before, Now(), entry.key);
      } else {
        stats := stats.(failed := stats.failed + 1);
      }
    }

    /** The inner loop: one page of the listing, `all[n..][..|page|]`, up to the limit. */
    method TakePage(page: seq<Listed>, limit: Option<int>, dryRun: bool, net: nat -> Faults,
                    ghost start: World, ghost all: seq<Listed>, ghost n: nat) returns (atLimit: bool, ghost m: nat)
      requires Valid() && ListingOf(setting, start, all) && n + |page| <= |all| && all[n..n + |page|] == page
      requires Progress(start, FileKeys(all[..n]), dryRun)
      requires (Now(), stats) == Progressed(start, all, n, dryRun, net)
      requires stats.listed == Files(all[..n])
      requires !dryRun ==> CleanOnesFinished(setting, start, Now(), all, n, net)
      requires limit.Some? && 0 <= limit.value ==> stats.listed <= limit.value
      requires setting.faithful ==> forall i :: net(i).garbled == None
      modifies this
      ensures Valid() && old(history) <= history && (dryRun ==> history == old(history))
      ensures limit.Some? && 0 <= limit.value ==> stats.listed <= limit.value
      ensures (forall i :: net(i).Clean()) ==> stats.failed == old(stats.failed)
      ensures m <= |all| && Progress(start, FileKeys(all[..m]), dryRun)
      ensures (Now(), stats) == Progressed(start, all, m, dryRun, net)
      ensures stats.listed == Files(all[..m])
      ensures !dryRun ==> CleanOnesFinished(setting, start, Now(), all, m, net)
      ensures if atLimit then limit.Some? && limit.value <= stats.listed && m < |all| && IsFile(all[m])
              else m == n + |page|
    {
      hide Behaviour, SameOutside, AllFinished, FileKeys, Progressed, TakenUp;
      hide OnlyAt, Finished, CleanOnesFinished, Files, MigratedOne;
      var j := 0;
      m := n;
      while j < |page|
        invariant Valid() && old(history) <= history && 0 <= j <= |page|
        invariant dryRun ==> history == old(history)
        invariant m == n + j && Progress(start, FileKeys(all[..m]), dryRun)
        invariant (Now(), stats) == Progressed(start, all, m, dryRun, net)
        invariant stats.listed == Files(all[..m])
        invariant !dryRun ==> CleanOnesFinished(setting, start, Now(), all, m, net)
        invariant limit.Some? && 0 <= limit.value ==> stats.listed <= limit.value
        invariant (forall i :: net(i).Clean()) ==> stats.failed == old(stats.failed)
      {
        ghost var before := Now();
        var entry := page[j];
        assert all[m] == entry by { assert all[n..n + |page|][j] == all[n + j]; }
        FileKeysNext(setting, start, all, m);
        ProgressedNext(start, all, m, dryRun, net);
        if IsFile(entry) {
          if limit.Some? && stats.listed >= limit.value { return true, m; }
          TakeUp(entry, dryRun, net(stats.listed), start, FileKeys(all[..m]));
        }
        OneMoreTaken(setting, start, before, Now(), all, m, dryRun, net);
        j := j + 1;
        m := m + 1;
      }
      atLimit := false;
    }

    /**
     One process of the script over the pages of the listing. `net(n)` is what happens to
     the n-th object it takes up, `pageFails(p)` says that fetching page p fails.
     */
    method Run(pages: seq<seq<Listed>>, limit: Option<int>, dryRun: bool,
               net: nat -> Faults, pageFails: nat -> bool) returns (end: End, ghost n: nat)
      requires Valid() && ListingOf(setting, Now(), Flatten(pages))
      requires setting.faithful ==> forall n :: net(n).garbled == None
      modifies this
      ensures Valid() && old(history) <= history
      ensures dryRun ==> Now() == old(Now()) && history == old(history)
      ensures dryRun ==> stats.copied == stats.rowsUpdated == stats.sourcesDeleted == 0
      ensures SameOutside(old(Now()), Now(), FileKeys(Flatten(pages)))
      ensures limit.Some? && 0 <= limit.value ==> stats.listed <= limit.value
      ensures !dryRun ==> stats.listed == stats.sourcesDeleted + stats.orphans + stats.failed
      ensures !dryRun && stats.failed == 0 ==>
                && stats.listed == stats.skipped + stats.orphans + stats.rowsUpdated
                && stats.copied == stats.orphans + stats.rowsUpdated
                && stats.sourcesDeleted == stats.skipped + stats.rowsUpdated
      ensures !dryRun && end == Completed && stats.failed == 0 ==>
                AllFinished(setting, old(Now()), Now(), FileKeys(Flatten(pages)))
      ensures forall l :: l in Flatten(pages) && (l.key == "" || l.key[|l.key| - 1] == '/') ==>
                SameAt(old(Now()), Now(), l.key)
      ensures !dryRun && end == Completed && stats.failed == 0 ==>
                forall l :: l in Flatten(pages) && l.key != "" && l.key[|l.key| - 1] != '/' ==>
                  l.key in old(source) && Finished(setting, old(Now()), Now(), l.key)
      ensures !dryRun && n <= |Flatten(pages)| ==>
                CleanOnesFinished(setting, old(Now()), Now(), Flatten(pages), n, net)
      ensures n <= |Flatten(pages)| && stats.listed == Files(Flatten(pages)[..n])
      ensures end == LimitReached ==>
                && limit.Some? && limit.value <= stats.listed
                && n < |Flatten(pages)| && IsFile(Flatten(pages)[n])
      ensures end == Fatal ==> exists p :: 0 <= p < |pages| && pageFails(p)
      ensures n <= |Flatten(pages)| && (end == Completed ==> n == |Flatten(pages)|)
      ensures (Now(), stats) == Progressed(old(Now()), Flatten(pages), n, dryRun, net)
      ensures (forall n :: net(n).Clean()) ==> stats.failed == 0
    {
      hide Behaviour, FileKeys, SameOutside, AllFinished, ListingOf, Progressed;
      hide Finished, CleanOnesFinished, Files, SameAt, IsFile;
      stats := ZERO;
      ghost var start := Now();
      ghost var all := Flatten(pages);
      n := 0;
      var p := 0;
      assert all[..0] == [];
      NothingTaken(setting, start);
      NoProgress(start, all, dryRun, net);
      NoFilesYet(setting, start, net);
      while p < |pages|
        invariant Valid() && old(history) <= history && 0 <= p <= |pages|
        invariant dryRun ==> history == old(history)
        invariant n == |Flatten(pages[..p])| <= |all|
        invariant Progress(start, FileKeys(all[..n]), dryRun)
        invariant (Now(), stats) == Progressed(start, all, n, dryRun, net)
        invariant stats.listed == Files(all[..n])
        invariant !dryRun ==> CleanOnesFinished(setting, start, Now(), all, n, net)
        invariant limit.Some? && 0 <= limit.value ==> stats.listed <= limit.value
        invariant (forall m :: net(m).Clean()) ==> stats.failed == 0
      {
        if pageFails(p) {
          FileKeysGrow(all, n);
          SameOutsideMore(start, Now(), FileKeys(all[..n]), FileKeys(all));
          FoldersAreLeft(start, Now(), all);
          return Fatal, n;
        }
        FlattenAt(pages, p);
        var atLimit;
        atLimit, n := TakePage(pages[p], limit, dryRun, net, start, all, n);
        if atLimit {
          FileKeysGrow(all, n);
          SameOutsideMore(start, Now(), FileKeys(all[..n]), FileKeys(all));
          FoldersAreLeft(start, Now(), all);
          return LimitReached, n;
        }
        p := p + 1;
      }
      assert pages[..p] == pages && all[..n] == all;
      FoldersAreLeft(start, Now(), all);
      FilesAreFinished(setting, start, Now(), all);
      end := Completed;
    }
  }

  // ---------------------------------------------------------------------------
  // The failing campaigns are runs of the script
  // ---------------------------------------------------------------------------

  const CLEAN := Faults(false, false, Done, None, false, Done, Done)

  /** The listing of one object. */
  method RunOnOne(m: Migration, key: Key, size: Option<nat>, net: Faults)
    requires m.Valid() && key in m.source && IsFile(Listed(key, size))
    requires (size.Some? ==> size.value == |m.source[key]|) && (m.setting.sized ==> size.Some?)
    requires m.setting.faithful ==> net.garbled == None
    modifies m
    ensures m.Valid() && old(m.history) <= m.history
    ensures var (v, t, ok) := MigratedOne(old(m.Now()), ZERO.(listed := 1), key, size, false, net); m.Now() == v
  {
    hide Behaviour, MigratedOne;
    var page := [Listed(key, size)];
    ghost var start := m.Now();
    assert Flatten([page]) == page + Flatten([]) == page;
    var nets: nat -> Faults := _ => net;
    ghost var n;
    var end;
    ProgressedNext(start, page, 0, false, nets);
    end, n := m.Run([page], None, false, nets, _ => false);
  }

  /**
   Two processes of the script on a document that is not covered: the first, if there is no copy yet,
   leaves a wrong one behind and dies at the size check; the second deletes the original.
   */
  method LoseUncovered(ghost s: Setting, w: World, k: Key) returns (first: Migration, second: Migration)
    requires !Covered(s, w, k) && IsFile(Listed(k, None))
    ensures first.Valid() && second.Valid() && first.history[0] == w
    ensures Campaign(Steps(s), [first.history, second.history])
    ensures k in w.source && k !in second.source
    ensures !(k in second.kyc && Matches(s, second.kyc[k], w.source[k]))
  {
    hide Behaviour;
    var size := Some(|w.source[k]|);
    first := new Migration(s, w.source, w.kyc, w.rows);
    var wrong := if k in w.kyc then CLEAN.(findFails := true) else CLEAN.(garbled := Some(w.source[k] + [0]));
    RunOnOne(first, k, size, wrong);
    second := new Migration(s, first.source, first.kyc, first.rows);
    RunOnOne(second, k, size, CLEAN);
    assert first.Now() == World(first.source, first.kyc, first.rows);
  }

  /** And the campaign behind `WhatTheSizeCheckBuys`: one clean-looking process after which a row names other bytes. */
  method BadCopyRun(ghost s: Setting, written: Blob, size: Option<nat>) returns (m: Migration)
    requires !s.faithful && (s.sized ==> size.Some?) && (size.Some? ==> size.value == 1 == |written|)
    ensures m.Valid() && m.setting == s
    ensures Located(m.history[0], "a") == Some([1]) && Located(m.Now(), "a") == Some(written)
  {
    hide Behaviour;
    m := new Migration(s, map["a" := [1]], map[], map["a" := Reports]);
    RunOnOne(m, "a", size, CLEAN.(garbled := Some(written)));
  }

  /** Every document that was readable before the campaign is readable, and the listed ones are moved. */
  ghost predicate Recovered(s: Setting, w: World, now: World, keys: set<Key>) {
    forall k :: k in w.rows && Located(w, k).Some? ==>
      && Located(now, k).Some? && Matches(s, Located(now, k).value, Located(w, k).value)
      && (k in keys ==> now.rows[k] == Kyc && k in now.kyc && k !in now.source)
  }

  lemma AfterTheCampaign(s: Setting, runs: seq<seq<World>>, j: nat, run: seq<World>, keys: set<Key>)
    requires Campaign(Steps(s), runs) && j < |runs[|runs| - 1]|
    requires Behaviour(Steps(s), run) && run[0] == runs[|runs| - 1][j]
    requires AllFinished(s, run[0], run[|run| - 1], keys)
    ensures Campaign(Steps(s), runs + [run])
    ensures Recovered(s, runs[0][0], run[|run| - 1], keys)
  {
    hide Safe, Finished;
    assert 0 < |run|;
    var all := runs + [run];
    var (w, now) := (runs[0][0], run[|run| - 1]);
    assert all[0][0] == w && all[|runs|] == run;
    forall k | k in w.rows && Located(w, k).Some?
      ensures Located(now, k).Some? && Matches(s, Located(now, k).value, Located(w, k).value)
      ensures k in keys ==> now.rows[k] == Kyc && k in now.kyc && k !in now.source
    {
      CampaignIsSafe(s, all, |runs|, |run| - 1, k);
      CampaignIsSafe(s, all, |runs|, 0, k);
      SafeMeans(s, w, now, k);
      SafeMeans(s, w, run[0], k);
      if k in keys { FinishedMeans(s, run[0], now, k); }
    }
  }

  lemma SafeMeans(s: Setting, w: World, w': World, k: Key)
    requires Safe(s, w, w', k) && k in w.rows && Located(w, k).Some?
    ensures k in w'.rows && Located(w', k).Some? && Matches(s, Located(w', k).value, Located(w, k).value)
  {
  }

  lemma FinishedMeans(s: Setting, w: World, w': World, k: Key)
    requires k in w.source && Finished(s, w, w', k) && k in w.rows
    ensures k in w'.rows && w'.rows[k] == Kyc && k in w'.kyc && k !in w'.source
  {
  }

  /**
   Crash safety and convergence together: any number of runs, each cut off anywhere, and then one
   unlimited run without failures. Nothing that could be read at the very start is lost, and every
   listed document with a row has moved, with its bytes or its size.
   */
  method RunAfterCampaign(m: Migration, ghost runs: seq<seq<World>>, ghost j: nat, pages: seq<seq<Listed>>)
    requires m.Valid() && Campaign(Steps(m.setting), runs) && j < |runs[|runs| - 1]|
    requires m.history == [m.Now()] && m.Now() == runs[|runs| - 1][j]
    requires ListingOf(m.setting, m.Now(), Flatten(pages))
    modifies m
    ensures m.Valid() && Campaign(Steps(m.setting), runs + [m.history])
    ensures forall k :: k in runs[0][0].rows && Located(runs[0][0], k).Some? ==>
              && Located(m.Now(), k).Some?
              && Matches(m.setting, Located(m.Now(), k).value, Located(runs[0][0], k).value)
    ensures forall l :: l in Flatten(pages) && l.key != "" && l.key[|l.key| - 1] != '/' ==>
              l.key in runs[0][0].rows && Located(runs[0][0], l.key).Some? ==>
                l.key in m.rows && m.rows[l.key] == Kyc && l.key in m.kyc && l.key !in m.source
  {
    hide Behaviour, Campaign, AllFinished, ListingOf, Progressed, Located, CleanOnesFinished, Matches;
    ghost var n;
    var end;
    end, n := m.Run(pages, None, false, _ => CLEAN, _ => false);
    assert m.history[0] == old(m.history)[0];
    AfterTheCampaign(m.setting, runs, j, m.history, FileKeys(Flatten(pages)));
  }
}
