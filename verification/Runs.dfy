/**
 Runs of a program as sequences of worlds, one effect apart, and campaigns of runs in which
 every run starts where the one before it happened to stop.
 */
module Runs {

  ghost predicate Behaviour<W(!new)>(step: (W, W) -> bool, ws: seq<W>) {
    && 0 < |ws|
    && (1 < |ws| ==> Behaviour(step, ws[..|ws| - 1]) && step(ws[|ws| - 2], ws[|ws| - 1]))
  }

  /** Any number of runs, each started in some world of the run before it: the world it died in. */
  ghost predicate Campaign<W(!new)>(step: (W, W) -> bool, runs: seq<seq<W>>) {
    && 0 < |runs|
    && (forall i :: 0 <= i < |runs| ==> Behaviour(step, runs[i]))
    && (forall i :: 0 < i < |runs| ==> runs[i][0] in runs[i - 1])
  }

  /** A reflexive and transitive relation that every effect keeps. */
  ghost predicate KeptBy<W(!new)>(step: (W, W) -> bool, keeps: (W, W) -> bool) {
    && (forall w :: keeps(w, w))
    && (forall u, v, w :: keeps(u, v) && keeps(v, w) ==> keeps(u, w))
    && (forall v, w :: step(v, w) ==> keeps(v, w))
  }

  lemma Extend<W(!new)>(step: (W, W) -> bool, ws: seq<W>, w: W)
    requires Behaviour(step, ws) && step(ws[|ws| - 1], w)
    ensures Behaviour(step, ws + [w])
  {
    assert (ws + [w])[..|ws|] == ws;
  }

  lemma {:induction false} BehaviourKeeps<W(!new)>(step: (W, W) -> bool, keeps: (W, W) -> bool, ws: seq<W>, i: nat)
    requires Behaviour(step, ws) && KeptBy(step, keeps) && i < |ws|
    ensures keeps(ws[0], ws[i])
    decreases |ws|
  {
    if i < |ws| - 1 {
      BehaviourKeeps(step, keeps, ws[..|ws| - 1], i);
    } else if i != 0 {
      BehaviourKeeps(step, keeps, ws[..|ws| - 1], i - 1);
      assert step(ws[i - 1], ws[i]);
    }
  }

  /** What every effect keeps holds between the first world and every world of a campaign. */
  lemma {:induction false} CampaignKeeps<W(!new)>(step: (W, W) -> bool, keeps: (W, W) -> bool,
                                                  runs: seq<seq<W>>, i: nat, j: nat)
    requires Campaign(step, runs) && KeptBy(step, keeps) && i < |runs| && j < |runs[i]|
    ensures keeps(runs[0][0], runs[i][j])
  {
    if i == 0 {
      BehaviourKeeps(step, keeps, runs[0], j);
    } else {
      var cut :| 0 <= cut < |runs[i - 1]| && runs[i - 1][cut] == runs[i][0];
      CampaignKeeps(step, keeps, runs, i - 1, cut);
      BehaviourKeeps(step, keeps, runs[i], j);
    }
  }
}
