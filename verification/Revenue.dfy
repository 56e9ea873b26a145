/**
 Revenue over a window of time (src/admin/revenue-window.ts) and the finance summary
 (src/admin/admin-finance.service.ts, `summary`). Times are in milliseconds, money in cents.
 */
module Revenue {
  import opened Wrappers
  import opened Sorting

  datatype Payment = Payment(purpose: string, cents: int, status: string, capturedAt: Option<int>, createdAt: int)

  /** A refund or a payout. */
  datatype Transfer = Transfer(cents: int, status: string, createdAt: int)

  datatype Window = Window(gte: int, lte: int)

  predicate Within(w: Window, t: int) {
    w.gte <= t <= w.lte
  }

  /** `revenueInWindow`: the filter as the query states it. */
  predicate RevenueInWindow(w: Window, p: Payment) {
    && p.status == "succeeded"
    && (|| (p.capturedAt.Some? && Within(w, p.capturedAt.value))
        || (p.capturedAt == None && Within(w, p.createdAt)))
  }

  /** The moment the money was taken. */
  function EffectiveAt(p: Payment): int {
    match p.capturedAt
    case Some(t) => t
    case None => p.createdAt
  }

  function InWindow(w: Window): Payment -> bool {
    (p: Payment) => RevenueInWindow(w, p)
  }

  function Settled(status: string, w: Window): Transfer -> bool {
    (t: Transfer) => t.status == status && Within(w, t.createdAt)
  }

  datatype Tally = Tally(count: nat, cents: int)

  function Payments(ps: seq<Payment>): Tally {
    if ps == [] then Tally(0, 0)
    else
      var rest := Payments(ps[1..]);
      Tally(rest.count + 1, rest.cents + ps[0].cents)
  }

  function Transfers(ts: seq<Transfer>): Tally {
    if ts == [] then Tally(0, 0)
    else
      var rest := Transfers(ts[1..]);
      Tally(rest.count + 1, rest.cents + ts[0].cents)
  }

  function Plus(a: Tally, b: Tally): Tally {
    Tally(a.count + b.count, a.cents + b.cents)
  }

  const PURPOSES := ["order", "ppv", "gold", "vin_history"]

  function For(purpose: string): Payment -> bool {
    (p: Payment) => p.purpose == purpose
  }

  /** Payments of any other purpose, such as `order_counter_offer`: in the total, in no bucket. */
  function Unlisted(p: Payment): bool {
    p.purpose !in PURPOSES
  }

  // ---------------------------------------------------------------------------
  // The summary
  // ---------------------------------------------------------------------------

  const THIRTY_DAYS := 30 * 86_400_000

  /** The window of a request; without a start it reaches thirty days back from its end. */
  function WindowOf(from: Option<int>, to: Option<int>, now: int): Window {
    var end := if to.Some? then to.value else now;
    Window(if from.Some? then from.value else end - THIRTY_DAYS, end)
  }

  datatype Summary = Summary(
    window: Window, payments: Tally, byPurpose: map<string, Tally>,
    refunds: Tally, payouts: Tally, platformNetCents: int)

  function Gross(payments: seq<Payment>, w: Window): Tally {
    Payments(Filter(InWindow(w), payments))
  }

  function Moved(transfers: seq<Transfer>, status: string, w: Window): Tally {
    Transfers(Filter(Settled(status, w), transfers))
  }

  /** The payments that succeeded and whose money was taken from `lo` to `hi`, of one purpose or of all. */
  ghost function Took(payments: seq<Payment>, lo: int, hi: int, purpose: Option<string>): Tally {
    if payments == [] then Tally(0, 0)
    else
      var (p, rest) := (payments[0], Took(payments[1..], lo, hi, purpose));
      var when := if p.capturedAt == None then p.createdAt else p.capturedAt.value;
      if p.status == "succeeded" && lo <= when <= hi && (purpose == None || purpose == Some(p.purpose)) then
        Tally(rest.count + 1, rest.cents + p.cents)
      else rest
  }

  /** The refunds or payouts of this status from `lo` to `hi`. */
  ghost function Went(transfers: seq<Transfer>, status: string, lo: int, hi: int): Tally {
    if transfers == [] then Tally(0, 0)
    else
      var (t, rest) := (transfers[0], Went(transfers[1..], status, lo, hi));
      if t.status == status && lo <= t.createdAt <= hi then Tally(rest.count + 1, rest.cents + t.cents) else rest
  }

  lemma {:induction false} GrossIsTook(payments: seq<Payment>, w: Window)
    ensures Gross(payments, w) == Took(payments, w.gte, w.lte, None)
  {
    if payments == [] {
      NoGross();
    } else {
      GrossIsTook(payments[1..], w);
      OneMore(payments, InWindow(w));
      hide Filter, Payments;
    }
  }

  lemma {:induction false} BucketIsTook(payments: seq<Payment>, w: Window, purpose: string)
    ensures Payments(Filter(For(purpose), Filter(InWindow(w), payments)))
            == Took(payments, w.gte, w.lte, Some(purpose))
  {
    if payments != [] {
      BucketIsTook(payments[1..], w, purpose);
      var rest := Filter(InWindow(w), payments[1..]);
      if InWindow(w)(payments[0]) {
        assert Filter(InWindow(w), payments) == [payments[0]] + rest && ([payments[0]] + rest)[1..] == rest;
        OneMore([payments[0]] + rest, For(purpose));
      }
      hide Filter, Payments;
    }
  }

  lemma {:induction false} MovedIsWent(transfers: seq<Transfer>, status: string, w: Window)
    ensures Moved(transfers, status, w) == Went(transfers, status, w.gte, w.lte)
  {
    if transfers != [] {
      MovedIsWent(transfers[1..], status, w);
      var rest := Filter(Settled(status, w), transfers[1..]);
      assert ([transfers[0]] + rest)[1..] == rest;
    }
  }

  lemma {:induction false} FilterAppend<T>(p: T -> bool, s: seq<T>, x: T)
    ensures Filter(p, s + [x]) == Filter(p, s) + if p(x) then [x] else []
  {
    if s == [] {
      assert s + [x] == [x] && [x][1..] == [];
    } else {
      FilterAppend(p, s[1..], x);
      assert (s + [x])[1..] == s[1..] + [x];
    }
  }

  lemma {:induction false} PaymentsAppend(s: seq<Payment>, p: Payment)
    ensures Payments(s + [p]) == Plus(Payments(s), Tally(1, p.cents))
  {
    if s == [] {
      assert s + [p] == [p] && [p][1..] == [];
    } else {
      PaymentsAppend(s[1..], p);
      assert (s + [p])[1..] == s[1..] + [p];
    }
  }

  method Summarize(payments: seq<Payment>, refunds: seq<Transfer>, payouts: seq<Transfer>,
                   from: Option<int>, to: Option<int>, now: int) returns (r: Summary)
    ensures r.window == WindowOf(from, to, now)
    ensures r.window.lte == (if to == None then now else to.value)
    ensures r.window.gte == (if from == None then r.window.lte - 30 * 24 * 60 * 60 * 1000 else from.value)
    ensures var (lo, hi) := (r.window.gte, r.window.lte);
            && r.payments == Took(payments, lo, hi, None)
            && r.byPurpose == map["order" := Took(payments, lo, hi, Some("order")),
                                  "ppv" := Took(payments, lo, hi, Some("ppv")),
                                  "gold" := Took(payments, lo, hi, Some("gold")),
                                  "vin_history" := Took(payments, lo, hi, Some("vin_history"))]
            && r.refunds == Went(refunds, "succeeded", lo, hi) && r.payouts == Went(payouts, "paid", lo, hi)
    ensures r.platformNetCents == r.payments.cents - r.refunds.cents - r.payouts.cents
    ensures r.payments == Gross(payments, r.window)
    ensures r.byPurpose.Keys == (set k | k in PURPOSES)
    ensures forall k :: k in PURPOSES ==>
              r.byPurpose[k] == Payments(Filter(For(k), Filter(InWindow(r.window), payments)))
    ensures r.refunds == Moved(refunds, "succeeded", r.window) && r.payouts == Moved(payouts, "paid", r.window)
    ensures r.platformNetCents == Net(payments, refunds, payouts, r.window)
  {
    hide Filter, Payments, Took, Went;
    Empty();
    var w := WindowOf(from, to, now);
    var succeeded := Filter(InWindow(w), payments);
    var gross := 0;
    var byPurpose := map[
      "order" := Tally(0, 0), "ppv" := Tally(0, 0), "gold" := Tally(0, 0), "vin_history" := Tally(0, 0)];
    for i := 0 to |succeeded|
      invariant Payments(succeeded[..i]) == Tally(i, gross)
      invariant byPurpose.Keys == set k | k in PURPOSES
      invariant forall k :: k in PURPOSES ==> byPurpose[k] == Payments(Filter(For(k), succeeded[..i]))
    {
      var p := succeeded[i];
      assert succeeded[..i + 1] == succeeded[..i] + [p];
      PaymentsAppend(succeeded[..i], p);
      forall k | k in PURPOSES
        ensures Payments(Filter(For(k), succeeded[..i + 1]))
                == if k == p.purpose then Plus(byPurpose[k], Tally(1, p.cents)) else byPurpose[k]
      {
        FilterAppend(For(k), succeeded[..i], p);
        PaymentsAppend(Filter(For(k), succeeded[..i]), p);
        assert Filter(For(k), succeeded[..i]) + [] == Filter(For(k), succeeded[..i]);
      }
      gross := gross + p.cents;
      if p.purpose in byPurpose {
        byPurpose := byPurpose[p.purpose := Plus(byPurpose[p.purpose], Tally(1, p.cents))];
      }
    }
    assert succeeded[..|succeeded|] == succeeded;
    var back := Moved(refunds, "succeeded", w);
    var out := Moved(payouts, "paid", w);
    r := Summary(w, Tally(|succeeded|, gross), byPurpose, back, out, gross - back.cents - out.cents);
    SummaryMeans(payments, refunds, payouts, r);
  }

  /** What the tables of a summary hold, in the terms of the rows. */
  lemma SummaryMeans(payments: seq<Payment>, refunds: seq<Transfer>, payouts: seq<Transfer>, r: Summary)
    requires r.payments == Gross(payments, r.window) && r.byPurpose.Keys == (set k | k in PURPOSES)
    requires forall k :: k in PURPOSES ==>
               r.byPurpose[k] == Payments(Filter(For(k), Filter(InWindow(r.window), payments)))
    requires r.refunds == Moved(refunds, "succeeded", r.window) && r.payouts == Moved(payouts, "paid", r.window)
    ensures var (lo, hi) := (r.window.gte, r.window.lte);
            && r.payments == Took(payments, lo, hi, None)
            && r.byPurpose == map["order" := Took(payments, lo, hi, Some("order")),
                                  "ppv" := Took(payments, lo, hi, Some("ppv")),
                                  "gold" := Took(payments, lo, hi, Some("gold")),
                                  "vin_history" := Took(payments, lo, hi, Some("vin_history"))]
            && r.refunds == Went(refunds, "succeeded", lo, hi) && r.payouts == Went(payouts, "paid", lo, hi)
  {
    hide Took, Went, Gross, Moved, Payments, Filter;
    GrossIsTook(payments, r.window);
    forall k | k in PURPOSES
      ensures r.byPurpose[k] == Took(payments, r.window.gte, r.window.lte, Some(k))
    {
      BucketIsTook(payments, r.window, k);
    }
    assert "order" in PURPOSES && "ppv" in PURPOSES && "gold" in PURPOSES && "vin_history" in PURPOSES;
    MovedIsWent(refunds, "succeeded", r.window);
    MovedIsWent(payouts, "paid", r.window);
  }

  lemma Empty()
    ensures Payments([]) == Tally(0, 0) && forall q: Payment -> bool :: Filter(q, []) == []
  {
  }

  /** What the platform keeps. */
  function Net(payments: seq<Payment>, refunds: seq<Transfer>, payouts: seq<Transfer>, w: Window): int {
    Gross(payments, w).cents - Moved(refunds, "succeeded", w).cents - Moved(payouts, "paid", w).cents
  }

  // ---------------------------------------------------------------------------
  // Conservation
  // ---------------------------------------------------------------------------

  /** The two branches of the filter are one test of the moment the money was taken. */
  lemma WindowTestsTheCapture(w: Window, p: Payment)
    ensures RevenueInWindow(w, p) <==> p.status == "succeeded" && Within(w, EffectiveAt(p))
  {
  }

  function Bucket(ps: seq<Payment>, purpose: string): Tally {
    Payments(Filter(For(purpose), ps))
  }

  lemma PaymentsCons(ps: seq<Payment>)
    requires ps != []
    ensures Payments(ps) == Plus(Tally(1, ps[0].cents), Payments(ps[1..]))
  {
  }

  lemma OneMore(ps: seq<Payment>, q: Payment -> bool)
    requires ps != []
    ensures Payments(Filter(q, ps))
            == if q(ps[0]) then Plus(Tally(1, ps[0].cents), Payments(Filter(q, ps[1..])))
               else Payments(Filter(q, ps[1..]))
  {
    if q(ps[0]) { PaymentsCons(Filter(q, ps)); }
  }

  function Not(q: Payment -> bool): Payment -> bool {
    (p: Payment) => !q(p)
  }

  /** Two parts and a whole, component by component. */
  ghost predicate AddUp(whole: Tally, a: Tally, b: Tally) {
    whole.count == a.count + b.count && whole.cents == a.cents + b.cents
  }

  /** A test and its complement split the payments in two. */
  lemma {:induction false} SplitByTest(ps: seq<Payment>, q: Payment -> bool)
    ensures AddUp(Payments(ps), Payments(Filter(q, ps)), Payments(Filter(Not(q), ps)))
  {
    Empty();
    hide Filter, Payments;
    if ps != [] {
      SplitByTest(ps[1..], q);
      PaymentsCons(ps);
      OneMore(ps, q);
      OneMore(ps, Not(q));
    }
  }

  lemma {:induction false} FilterTwice(ps: seq<Payment>, p: Payment -> bool, q: Payment -> bool, both: Payment -> bool)
    requires forall x :: both(x) <==> p(x) && q(x)
    ensures Filter(q, Filter(p, ps)) == Filter(both, ps)
  {
    if ps != [] {
      FilterTwice(ps[1..], p, q, both);
      var rest := Filter(p, ps[1..]);
      assert ([ps[0]] + rest)[1..] == rest;
    }
  }

  /** What is left once the payments of `names` are taken out. */
  function NoneOf(names: seq<string>): Payment -> bool {
    (p: Payment) => p.purpose !in names
  }

  lemma OneBucketMore(ps: seq<Payment>, names: seq<string>, name: string)
    requires name !in names
    ensures AddUp(Payments(Filter(NoneOf(names), ps)),
                  Bucket(ps, name), Payments(Filter(NoneOf(names + [name]), ps)))
  {
    hide Filter, Payments, AddUp;
    var rest := Filter(NoneOf(names), ps);
    SplitByTest(rest, For(name));
    FilterTwice(ps, NoneOf(names), For(name), For(name));
    FilterTwice(ps, NoneOf(names), Not(For(name)), NoneOf(names + [name]));
  }

  lemma {:induction false} FilterAll(ps: seq<Payment>)
    ensures Filter(NoneOf([]), ps) == ps
  {
    if ps != [] { FilterAll(ps[1..]); }
  }

  /** The four buckets and the payments of no bucket add up to the whole. */
  lemma BucketsAddUp(ps: seq<Payment>)
    ensures Payments(ps) == Plus(Plus(Plus(Bucket(ps, "order"), Bucket(ps, "ppv")),
                                      Plus(Bucket(ps, "gold"), Bucket(ps, "vin_history"))),
                                 Payments(Filter(Unlisted, ps)))
  {
    UnlistedIsNone(ps);
    FilterAll(ps);
    FourNames();
    hide Filter, Payments, Bucket, Unlisted, NoneOf;
    OneBucketMore(ps, [], "order");
    OneBucketMore(ps, ["order"], "ppv");
    OneBucketMore(ps, ["order", "ppv"], "gold");
    OneBucketMore(ps, ["order", "ppv", "gold"], "vin_history");
  }

  lemma FourNames()
    ensures "ppv" !in ["order"] && "gold" !in ["order", "ppv"] && "vin_history" !in ["order", "ppv", "gold"]
    ensures [] + ["order"] == ["order"] && ["order"] + ["ppv"] == ["order", "ppv"]
    ensures ["order", "ppv"] + ["gold"] == ["order", "ppv", "gold"]
    ensures ["order", "ppv", "gold"] + ["vin_history"] == ["order", "ppv", "gold", "vin_history"]
  {
    assert |"order"| == 5 && |"ppv"| == 3 && |"gold"| == 4 && |"vin_history"| == 11;
  }

  lemma {:induction false} UnlistedIsNone(ps: seq<Payment>)
    ensures Filter(Unlisted, ps) == Filter(NoneOf(["order", "ppv", "gold", "vin_history"]), ps)
  {
    if ps != [] { UnlistedIsNone(ps[1..]); }
  }

  function At(t: int): Window {
    Window(t, t)
  }

  lemma GrossCons(payments: seq<Payment>, w: Window)
    requires payments != []
    ensures Gross(payments, w) == Plus(Share(payments[0], w), Gross(payments[1..], w))
  {
    OneMore(payments, InWindow(w));
    WindowTestsTheCapture(w, payments[0]);
  }

  function Share(p: Payment, w: Window): Tally {
    if p.status == "succeeded" && Within(w, EffectiveAt(p)) then Tally(1, p.cents) else Tally(0, 0)
  }

  lemma NoGross()
    ensures forall w :: Gross([], w) == Tally(0, 0)
  {
  }

  /** Windows that meet at one moment count what is effective then twice, and nothing else. */
  lemma {:induction false} GrossMeets(payments: seq<Payment>, a: int, b: int, c: int)
    requires a <= b <= c
    ensures Plus(Gross(payments, Window(a, b)), Gross(payments, Window(b, c)))
            == Plus(Gross(payments, Window(a, c)), Gross(payments, At(b)))
  {
    hide Gross, EffectiveAt;
    NoGross();
    if payments != [] {
      GrossMeets(payments[1..], a, b, c);
      GrossCons(payments, Window(a, b));
      GrossCons(payments, Window(b, c));
      GrossCons(payments, Window(a, c));
      GrossCons(payments, At(b));
    }
  }

  lemma OneTransferMore(ts: seq<Transfer>, q: Transfer -> bool)
    requires ts != []
    ensures Transfers(Filter(q, ts)).cents
            == (if q(ts[0]) then ts[0].cents else 0) + Transfers(Filter(q, ts[1..])).cents
  {
    if q(ts[0]) {
      var rest := Filter(q, ts[1..]);
      assert ([ts[0]] + rest)[1..] == rest;
    }
  }

  lemma {:induction false} MovedMeets(transfers: seq<Transfer>, status: string, a: int, b: int, c: int)
    requires a <= b <= c
    ensures Moved(transfers, status, Window(a, b)).cents + Moved(transfers, status, Window(b, c)).cents
            == Moved(transfers, status, Window(a, c)).cents + Moved(transfers, status, At(b)).cents
  {
    if transfers != [] {
      MovedMeets(transfers[1..], status, a, b, c);
      hide Filter, Transfers;
      OneTransferMore(transfers, Settled(status, Window(a, b)));
      OneTransferMore(transfers, Settled(status, Window(b, c)));
      OneTransferMore(transfers, Settled(status, Window(a, c)));
      OneTransferMore(transfers, Settled(status, At(b)));
    }
  }

  /** The same for what the platform keeps, so the summaries of a partition add up to the whole. */
  lemma NetMeets(payments: seq<Payment>, refunds: seq<Transfer>, payouts: seq<Transfer>, a: int, b: int, c: int)
    requires a <= b <= c
    ensures Net(payments, refunds, payouts, Window(a, b)) + Net(payments, refunds, payouts, Window(b, c))
            == Net(payments, refunds, payouts, Window(a, c)) + Net(payments, refunds, payouts, At(b))
  {
    hide Filter, Payments, Transfers, Gross, Moved;
    GrossMeets(payments, a, b, c);
    MovedMeets(refunds, "succeeded", a, b, c);
    MovedMeets(payouts, "paid", a, b, c);
  }

  /** Windows a millisecond apart share nothing: their nets add up exactly. */
  lemma NetOfAPartition(payments: seq<Payment>, refunds: seq<Transfer>, payouts: seq<Transfer>, a: int, b: int, c: int)
    requires a <= b < c
    ensures Net(payments, refunds, payouts, Window(a, b)) + Net(payments, refunds, payouts, Window(b + 1, c))
            == Net(payments, refunds, payouts, Window(a, c))
  {
    hide Filter, Payments, Transfers, Gross, Moved, Net;
    NetMeets(payments, refunds, payouts, a, b, c);
    NetMeets(payments, refunds, payouts, b, b + 1, c);
    NetOfAStep(payments, refunds, payouts, b);
  }

  lemma NetOfAStep(payments: seq<Payment>, refunds: seq<Transfer>, payouts: seq<Transfer>, b: int)
    ensures Net(payments, refunds, payouts, Window(b, b + 1))
            == Net(payments, refunds, payouts, At(b)) + Net(payments, refunds, payouts, At(b + 1))
  {
    GrossOfAStep(payments, b);
    MovedOfAStep(refunds, "succeeded", b);
    MovedOfAStep(payouts, "paid", b);
  }

  lemma {:induction false} GrossOfAStep(payments: seq<Payment>, b: int)
    ensures Gross(payments, Window(b, b + 1)).cents == Gross(payments, At(b)).cents + Gross(payments, At(b + 1)).cents
  {
    hide Gross, EffectiveAt;
    NoGross();
    if payments != [] {
      GrossOfAStep(payments[1..], b);
      GrossCons(payments, Window(b, b + 1));
      GrossCons(payments, At(b));
      GrossCons(payments, At(b + 1));
    }
  }

  lemma {:induction false} MovedOfAStep(transfers: seq<Transfer>, status: string, b: int)
    ensures Moved(transfers, status, Window(b, b + 1)).cents
            == Moved(transfers, status, At(b)).cents + Moved(transfers, status, At(b + 1)).cents
  {
    if transfers != [] {
      MovedOfAStep(transfers[1..], status, b);
      hide Filter, Transfers;
      OneTransferMore(transfers, Settled(status, Window(b, b + 1)));
      OneTransferMore(transfers, Settled(status, At(b)));
      OneTransferMore(transfers, Settled(status, At(b + 1)));
    }
  }
}
