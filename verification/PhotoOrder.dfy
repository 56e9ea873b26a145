/** The order of inspection photos (src/catalog/catalog-photo-order.ts). */
module PhotoOrder {
  import opened Wrappers
  import opened Sorting

  datatype Group = Exterior | Wheel | Interior | Misc

  datatype Angle = Angle(id: string, group: Group, order: nat)

  const EXTERIOR := [
    "diag_front_left", "left", "diag_rear_left", "rear", "trunk_open", "trunk_left", "trunk_right",
    "trunk_tools", "front", "hood_open", "engine_bay", "hood_underside", "engine_bay_left",
    "engine_bay_right", "diag_front_right", "right", "diag_rear_right"]

  const INTERIOR := [
    "interior_front", "interior_door_trim_fl", "interior_rear", "interior_door_trim_rl",
    "interior_rear_armrest", "interior_dashboard", "interior_steering_wheel", "interior_head_unit",
    "interior_gear_selector", "interior_pedals", "interior_instrument_cluster",
    "interior_documents_keys", "interior_front_right", "interior_door_trim_fr",
    "interior_rear_right", "interior_door_trim_rr", "interior_boot"]

  const WHEELS := ["wheel_fl", "wheel_fr", "wheel_rl", "wheel_rr"]

  const MISC := ["odometer", "vin_plate"]

  function Numbered(ids: seq<string>, group: Group, first: nat): (r: seq<Angle>)
    ensures |r| == |ids| && forall i :: 0 <= i < |r| ==> r[i] == Angle(ids[i], group, first + i)
  {
    seq(|ids|, i requires 0 <= i < |ids| => Angle(ids[i], group, first + i))
  }

  /** The angles of the catalog with its group and `order` columns. */
  const ANGLES: seq<Angle> :=
    Numbered(EXTERIOR, Exterior, 1) + Numbered(INTERIOR, Interior, 18)
    + Numbered(WHEELS, Wheel, 35) + Numbered(MISC, Misc, 39)

  /** A `Map` built from the angle list: of equal ids the last one stays. */
  function FindAngle(angles: seq<Angle>, id: string): (r: Option<Angle>)
    ensures r.Some? ==> r.value in angles && r.value.id == id
  {
    if angles == [] then None
    else if angles[|angles| - 1].id == id then Some(angles[|angles| - 1])
    else FindAngle(angles[..|angles| - 1], id)
  }

  predicate IsAngleId(id: string) {
    FindAngle(ANGLES, id).Some?
  }

  const GROUP_PREFIXES := ["exterior-", "interior-", "wheel-"]

  /** The prefix loop: the first prefix that fits decides. */
  function AngleBehind(prefixes: seq<string>, kind: string): Option<string>
    requires forall i :: 0 <= i < |prefixes| ==> 0 < |prefixes[i]|
  {
    if prefixes == [] then None
    else if prefixes[0] <= kind then
      var p := prefixes[0];
      var rest := kind[|p|..];
      var joined := p[..|p| - 1] + "_" + rest;
      if IsAngleId(rest) then Some(rest) else if IsAngleId(joined) then Some(joined) else None
    else AngleBehind(prefixes[1..], kind)
  }

  function AngleForKind(kind: Option<string>): (angle: Option<string>)
    ensures angle.Some? ==> IsAngleId(angle.value)
  {
    if kind == None || kind.value == "" then None
    else if IsAngleId(kind.value) then kind
    else
      var r := AngleBehind(GROUP_PREFIXES, kind.value);
      AngleBehindIsAngle(GROUP_PREFIXES, kind.value);
      r
  }

  lemma {:induction false} AngleBehindIsAngle(prefixes: seq<string>, kind: string)
    requires forall i :: 0 <= i < |prefixes| ==> 0 < |prefixes[i]|
    ensures var r := AngleBehind(prefixes, kind); r.Some? ==> IsAngleId(r.value)
  {
    if prefixes != [] && !(prefixes[0] <= kind) { AngleBehindIsAngle(prefixes[1..], kind); }
  }

  function GroupRank(g: Group): nat {
    match g case Exterior => 0 case Wheel => 1 case Interior => 2 case Misc => 3
  }

  const NON_ANGLE_RANK: seq<(string, nat)> := [
    ("thickness-", 0), ("zeroproof", 1), ("obd", 2), ("service", 3),
    ("underbody-rust", 4), ("damage-", 5), ("repair-", 6), ("checklist-", 7)]

  const NON_ANGLE_BASE: nat := 4000

  const NON_ANGLE_FALLBACK: nat := NON_ANGLE_BASE + 100

  function RankByPrefix(table: seq<(string, nat)>, key: string): nat {
    if table == [] then NON_ANGLE_FALLBACK
    else if table[0].0 <= key then NON_ANGLE_BASE + table[0].1
    else RankByPrefix(table[1..], key)
  }

  function AngleOf(kind: Option<string>): Option<Angle> {
    var id := AngleForKind(kind);
    if id == None then None else FindAngle(ANGLES, id.value)
  }

  /** `String(kind ?? '')`. */
  function Text(kind: Option<string>): string {
    if kind == None then "" else kind.value
  }

  function PhotoSortRank(kind: Option<string>): nat {
    var angle := AngleOf(kind);
    if angle.Some? then GroupRank(angle.value.group) * 1000 + angle.value.order
    else RankByPrefix(NON_ANGLE_RANK, Text(kind))
  }

  function ComparePhotoKinds(lc: Collation, a: Option<string>, b: Option<string>): int {
    var byRank := PhotoSortRank(a) - PhotoSortRank(b);
    if byRank != 0 then byRank else lc(Text(a), Text(b))
  }

  function KindLeq(lc: Collation): (Option<string>, Option<string>) -> bool {
    (a, b) => ComparePhotoKinds(lc, a, b) <= 0
  }

  /** The comparator is a total preorder on all kinds, with signs that agree both ways. */
  lemma CompareIsPreorder(lc: Collation)
    requires IsCollation(lc)
    ensures Preorder(KindLeq(lc))
    ensures forall a, b :: ComparePhotoKinds(lc, a, b) <= 0 <==> 0 <= ComparePhotoKinds(lc, b, a)
  {
    hide PhotoSortRank;
  }

  lemma AnglesAreNumbered(i: nat)
    requires i < |ANGLES|
    ensures |ANGLES| == 40 && ANGLES[i].order == i + 1
  {
  }

  lemma {:induction false} NonAngleRankRange(table: seq<(string, nat)>, key: string)
    requires forall e :: e in table ==> e.1 < 100
    ensures NON_ANGLE_BASE <= RankByPrefix(table, key) <= NON_ANGLE_FALLBACK
  {
    if table != [] && !(table[0].0 <= key) { NonAngleRankRange(table[1..], key); }
  }

  lemma RankRange(kind: Option<string>)
    ensures if AngleOf(kind).Some? then PhotoSortRank(kind) < NON_ANGLE_BASE
            else NON_ANGLE_BASE <= PhotoSortRank(kind)
  {
    var angle := AngleOf(kind);
    if angle.Some? {
      var i :| 0 <= i < |ANGLES| && ANGLES[i] == angle.value;
      AnglesAreNumbered(i);
    } else {
      NonAngleRankRange(NON_ANGLE_RANK, Text(kind));
    }
  }

  /** Every photo of the car itself comes before every other photo. */
  lemma AnglesComeFirst(lc: Collation, a: Option<string>, b: Option<string>)
    requires AngleOf(a).Some? && AngleOf(b) == None
    ensures ComparePhotoKinds(lc, a, b) < 0 < ComparePhotoKinds(lc, b, a)
  {
    RankRange(a);
    RankRange(b);
  }

  /** Angles go by group, then by catalog order; only photos of one angle are left to the text. */
  lemma AnglesByGroupThenOrder(lc: Collation, a: Option<string>, b: Option<string>)
    requires AngleOf(a).Some? && AngleOf(b).Some?
    ensures var (x, y) := (AngleOf(a).value, AngleOf(b).value);
            ComparePhotoKinds(lc, a, b) < 0 <==>
              || GroupRank(x.group) < GroupRank(y.group)
              || (x.group == y.group && x.order < y.order)
              || (x == y && lc(Text(a), Text(b)) < 0)
  {
    hide AngleOf, RankByPrefix;
    var (x, y) := (AngleOf(a).value, AngleOf(b).value);
    AngleIsListed(a);
    AngleIsListed(b);
    var i :| 0 <= i < |ANGLES| && ANGLES[i] == x;
    var j :| 0 <= j < |ANGLES| && ANGLES[j] == y;
    AnglesAreNumbered(i);
    AnglesAreNumbered(j);
  }

  /**
   The walk-around written out: the car outside, its wheels, its cabin, the rest of the catalog, each
   in catalog order, and then the photos that show no catalog angle, by what their kind begins with.
   */
  ghost function Place(kind: Option<string>): (nat, nat) {
    match AngleOf(kind)
    case Some(a) => (match a.group case Exterior => 0 case Wheel => 1 case Interior => 2 case Misc => 3, a.order)
    case None =>
      var key := if kind == None then "" else kind.value;
      (4, if "thickness-" <= key then 0
          else if "zeroproof" <= key then 1
          else if "obd" <= key then 2
          else if "service" <= key then 3
          else if "underbody-rust" <= key then 4
          else if "damage-" <= key then 5
          else if "repair-" <= key then 6
          else if "checklist-" <= key then 7
          else 8)
  }

  /** Photos compare by their place in the walk-around, and at one place by the text of their kinds. */
  lemma PhotosGoByPlace(lc: Collation, a: Option<string>, b: Option<string>)
    ensures var (p, q) := (Place(a), Place(b));
            && (ComparePhotoKinds(lc, a, b) < 0 <==>
                  p.0 < q.0 || (p.0 == q.0 && p.1 < q.1)
                  || (p == q && lc(if a == None then "" else a.value, if b == None then "" else b.value) < 0))
            && (ComparePhotoKinds(lc, a, b) == 0 <==>
                  p == q && lc(if a == None then "" else a.value, if b == None then "" else b.value) == 0)
  {
    hide AngleOf, PhotoSortRank;
    RankByPlace(a);
    RankByPlace(b);
  }

  lemma RankByPlace(kind: Option<string>)
    ensures var (group, order) := Place(kind);
            && PhotoSortRank(kind) == (if group == 4 && order == 8 then 4100 else 1000 * group + order)
            && group <= 4 && order < 1000
  {
    hide AngleOf, RankByPrefix;
    match AngleOf(kind) {
      case Some(a) =>
        AngleIsListed(kind);
        var i :| 0 <= i < |ANGLES| && ANGLES[i] == a;
        AnglesAreNumbered(i);
      case None =>
        RankOfPrefix(Text(kind));
    }
  }

  lemma RankOfPrefix(key: string)
    ensures RankByPrefix(NON_ANGLE_RANK, key) ==
              if "thickness-" <= key then 4000
              else if "zeroproof" <= key then 4001
              else if "obd" <= key then 4002
              else if "service" <= key then 4003
              else if "underbody-rust" <= key then 4004
              else if "damage-" <= key then 4005
              else if "repair-" <= key then 4006
              else if "checklist-" <= key then 4007
              else 4100
  {
    var t7: seq<(string, nat)> := [("checklist-", 7)];
    var t6 := [("repair-", 6)] + t7;
    var t5 := [("damage-", 5)] + t6;
    var t4 := [("underbody-rust", 4)] + t5;
    var t3 := [("service", 3)] + t4;
    var t2 := [("obd", 2)] + t3;
    var t1 := [("zeroproof", 1)] + t2;
    assert NON_ANGLE_RANK == [("thickness-", 0)] + t1 && t7 == [("checklist-", 7)] + [];
    assert RankByPrefix([], key) == NON_ANGLE_FALLBACK;
    hide RankByPrefix, NON_ANGLE_RANK;
    OneRank("checklist-", 7, [], key);
    OneRank("repair-", 6, t7, key);
    OneRank("damage-", 5, t6, key);
    OneRank("underbody-rust", 4, t5, key);
    OneRank("service", 3, t4, key);
    OneRank("obd", 2, t3, key);
    OneRank("zeroproof", 1, t2, key);
    OneRank("thickness-", 0, t1, key);
  }

  lemma OneRank(p: string, r: nat, rest: seq<(string, nat)>, key: string)
    ensures RankByPrefix([(p, r)] + rest, key) == if p <= key then NON_ANGLE_BASE + r else RankByPrefix(rest, key)
  {
    assert ([(p, r)] + rest)[1..] == rest;
  }

  lemma AngleIsListed(kind: Option<string>)
    requires AngleOf(kind).Some?
    ensures AngleOf(kind).value in ANGLES
  {
  }

  /** No catalog id contains the hyphen that ends a slot prefix. */
  lemma NoHyphens(id: string)
    requires id in EXTERIOR || id in INTERIOR || id in WHEELS || id in MISC
    ensures '-' !in id
  {
    if id in EXTERIOR { NoHyphensOutside(id); }
    else if id in INTERIOR { NoHyphensInside(id); }
  }

  lemma NoHyphensOutside(id: string)
    requires id in EXTERIOR
    ensures '-' !in id
  {
  }

  lemma NoHyphensInside(id: string)
    requires id in INTERIOR
    ensures '-' !in id
  {
  }

  lemma {:induction false} FindAngleFinds(angles: seq<Angle>, id: string)
    ensures FindAngle(angles, id).Some? <==> exists a :: a in angles && a.id == id
  {
    if angles != [] {
      var front := angles[..|angles| - 1];
      FindAngleFinds(front, id);
      assert angles == front + [angles[|angles| - 1]];
    }
  }

  lemma AngleIdLaws(id: string)
    requires IsAngleId(id)
    ensures '-' !in id && 4 <= |id|
  {
    var a := FindAngle(ANGLES, id).value;
    NoHyphens(a.id);
    IdsAreWords(a.id);
  }

  lemma IdsAreWords(id: string)
    requires id in EXTERIOR || id in INTERIOR || id in WHEELS || id in MISC
    ensures 4 <= |id|
    ensures id in WHEELS ==> |id| == 8 && id[..6] == "wheel_"
  {
  }

  /** The slot key the mobile app writes for an angle. */
  function SlotKey(a: Angle): string
    requires a in ANGLES
  {
    match a.group
    case Exterior => "exterior-" + a.id
    case Interior => "interior-" + a.id
    case Misc => a.id
    case Wheel => IdsAreWords(a.id); "wheel-" + a.id[6..]
  }

  /** Every catalog angle is recovered from its slot key. */
  lemma SlotKeyResolves(a: Angle)
    requires a in ANGLES
    ensures AngleForKind(Some(SlotKey(a))) == Some(a.id)
  {
    AnglesAreIds(a);
    IdsAreWords(a.id);
    hide IsAngleId, ANGLES;
    match a.group {
      case Misc =>
      case Exterior =>
        ResolvesBehind(0, "exterior-", a.id, a.id);
      case Interior =>
        ResolvesBehind(1, "interior-", a.id, a.id);
      case Wheel =>
        var rest := a.id[6..];
        if IsAngleId(rest) { AngleIdLaws(rest); }
        assert "wheel-"[..5] + "_" + rest == a.id[..6] + rest == a.id;
        ResolvesBehind(2, "wheel-", rest, a.id);
    }
  }

  lemma AnglesAreIds(a: Angle)
    requires a in ANGLES
    ensures IsAngleId(a.id)
    ensures match a.group
            case Exterior => a.id in EXTERIOR
            case Interior => a.id in INTERIOR
            case Wheel => a.id in WHEELS
            case Misc => a.id in MISC
  {
    FindAngleFinds(ANGLES, a.id);
  }

  /** A slot key whose text behind the n-th prefix, as it is or joined, is the angle `id`. */
  lemma ResolvesBehind(n: nat, prefix: string, rest: string, id: string)
    requires n < 3 && GROUP_PREFIXES[n] == prefix && IsAngleId(id)
    requires rest == id || (!IsAngleId(rest) && prefix[..|prefix| - 1] + "_" + rest == id)
    ensures AngleForKind(Some(prefix + rest)) == Some(id)
  {
    hide IsAngleId;
    var kind := prefix + rest;
    assert kind[|prefix| - 1] == '-' && kind[|prefix|..] == rest;
    NotAnId(kind);
    assert kind[0] == prefix[0];
    PrefixSteps(kind, n);
    assert GROUP_PREFIXES[n..][0] == prefix;
  }

  lemma NotAnId(kind: string)
    requires '-' in kind
    ensures !IsAngleId(kind)
  {
    if IsAngleId(kind) { AngleIdLaws(kind); }
  }

  /** The prefixes before the fitting one do not match. */
  lemma PrefixSteps(kind: string, n: nat)
    requires n < 3 && kind != ""
    requires 0 < n ==> kind[0] != 'e'
    requires 1 < n ==> kind[0] != 'i'
    ensures AngleBehind(GROUP_PREFIXES, kind) == AngleBehind(GROUP_PREFIXES[n..], kind)
  {
    assert GROUP_PREFIXES[1..][1..] == GROUP_PREFIXES[2..];
  }

  /** `kind` is the n-th prefix and `rest`, and the angle is `rest` or, failing that, the joined word. */
  ghost predicate NamesBehind(kind: string, n: nat, rest: string, id: string) {
    && n < 3 && kind == GROUP_PREFIXES[n] + rest
    && (rest == id || (!IsAngleId(rest) && GROUP_PREFIXES[n][..|GROUP_PREFIXES[n]| - 1] + "_" + rest == id))
  }

  lemma {:induction false} BehindNames(n: nat, kind: string) returns (k: nat, rest: string)
    requires n <= 3 && AngleBehind(GROUP_PREFIXES[n..], kind).Some?
    ensures NamesBehind(kind, k, rest, AngleBehind(GROUP_PREFIXES[n..], kind).value)
    decreases 3 - n
  {
    hide IsAngleId;
    assert n < 3;
    var p := GROUP_PREFIXES[n..][0];
    assert p == GROUP_PREFIXES[n];
    if p <= kind {
      k, rest := n, kind[|p|..];
    } else {
      assert GROUP_PREFIXES[n..][1..] == GROUP_PREFIXES[n + 1..];
      k, rest := BehindNames(n + 1, kind);
    }
  }

  /** Which kinds name which angle: the id itself, and what the three prefixes make of it. */
  lemma AngleForKindExactly(kind: string, id: string)
    ensures AngleForKind(Some(kind)) == Some(id) <==>
              IsAngleId(id) && (kind == id || exists n: nat, rest: string :: NamesBehind(kind, n, rest, id))
  {
    hide IsAngleId;
    if AngleForKind(Some(kind)) == Some(id) && kind != id {
      assert GROUP_PREFIXES[0..] == GROUP_PREFIXES;
      var n, rest := BehindNames(0, kind);
    }
    if IsAngleId(id) && kind == id { AngleIdLaws(id); }
    if n: nat, rest: string :| IsAngleId(id) && NamesBehind(kind, n, rest, id) {
      ResolvesBehind(n, GROUP_PREFIXES[n], rest, id);
    }
  }
}
