/** What the accumulators of the builder mean, in terms of the set of judged submissions alone. */
module AccumTheorems {
  import opened Types
  import opened Collections
  import opened ScoreboardSpec

  // ---- The verdict used for a submission ----

  /** `j` decides the verdict of submission `sid`: no judgement with a verdict on it ended later. */
  ghost predicate IsLatest(judgements: seq<ContestObject>, sid: string, j: ContestObject) {
    && j in judgements && HasVerdict(j) && j.body.submissionId.value == sid
    && (forall i | i in judgements && HasVerdict(i) && i.body.submissionId.value == sid :: EndsNoLater(i, j))
  }

  /** A submission is judged exactly if some judgement has a verdict on it, and the verdict is a latest one. */
  lemma {:induction false} VerdictIsLatest(judgements: seq<ContestObject>, sid: string)
    ensures sid in Best(judgements) <==>
            exists j | j in judgements :: HasVerdict(j) && j.body.submissionId.value == sid
    ensures sid in Best(judgements) ==>
            exists j | j in judgements ::
              && IsLatest(judgements, sid, j) && SummaryOf(j) == Best(judgements)[sid]
              && j.body.judgementTypeId == Some(Best(judgements)[sid].verdict)
  {
    if judgements != [] {
      var last := |judgements| - 1;
      var j := judgements[last];
      assert judgements == judgements[..last] + [j];
      VerdictIsLatest(judgements[..last], sid);
      if sid in Best(judgements) {
        if sid in Best(judgements[..last]) {
          var i :| i in judgements[..last] && IsLatest(judgements[..last], sid, i)
                   && SummaryOf(i) == Best(judgements[..last])[sid];
          var later := HasVerdict(j) && j.body.submissionId.value == sid && EndMs(i) < EndMs(j);
          assert IsLatest(judgements, sid, if later then j else i);
        } else {
          assert IsLatest(judgements, sid, j);
        }
      }
    }
  }

  // ---- Submissions of one team on one problem ----

  /** The judged submissions of team `t` on problem `p`. */
  ghost function Of(tb: Tables, t: string, p: string): set<Judged>
    requires tb.Typed()
  {
    set j | j in JudgedSet(tb) && j.team == t && j.problem == p
  }

  lemma {:induction false} ProjectKeepsAll(order: seq<Judged>, t: string, p: string)
    ensures forall j | j in order && j.team == t && j.problem == p :: j in Project(order, t, p)
  {
    if order != [] {
      var last := |order| - 1;
      assert order == order[..last] + [order[last]];
      ProjectKeepsAll(order[..last], t, p);
    }
  }

  lemma {:induction false} ProjectKeepsOrder(order: seq<Judged>, t: string, p: string)
    requires NoDuplicates(order) && Sorted(order, Earlier)
    ensures NoDuplicates(Project(order, t, p)) && Sorted(Project(order, t, p), Earlier)
  {
    if order != [] {
      var last := |order| - 1;
      ProjectKeepsOrder(order[..last], t, p);
      var r := Project(order[..last], t, p);
      forall i | 0 <= i < |r|
        ensures r[i] != order[last] && !Earlier(order[last], r[i])
      {
        assert r[i] in order[..last];
      }
    }
  }

  lemma ProjectEnumerates(tb: Tables, order: seq<Judged>, t: string, p: string)
    requires tb.Typed() && IsOrder(tb, order)
    ensures Enumerates(Project(order, t, p), Of(tb, t, p)) && Sorted(Project(order, t, p), Earlier)
  {
    ProjectKeepsOrder(order, t, p);
    ProjectKeepsAll(order, t, p);
  }

  /** Solved exactly if an accepted submission that counts exists, and then at the least time of those. */
  lemma SolvedAtEarliestAccept(tb: Tables, order: seq<Judged>, t: string, p: string)
    requires tb.Typed() && IsOrder(tb, order) && t !in tb.hidden
    ensures
      var a := Outcome(tb, order, t, p);
      && (a.solved <==> exists j | j in Of(tb, t, p) :: Accepts(tb, j.verdict))
      && (a.solved ==> exists j | j in Of(tb, t, p) :: Accepts(tb, j.verdict) && j.timeMs == a.acceptTimeMs)
      && (a.solved ==> forall j | j in Of(tb, t, p) && Accepts(tb, j.verdict) :: a.acceptTimeMs <= j.timeMs)
  {
    hide IsOrder, Project, Of, PenaltyRejects;
    ProjectEnumerates(tb, order, t, p);
    var js := Project(order, t, p);
    var k := FirstAccept(tb, js);
    if k < |js| {
      assert js[k] in Of(tb, t, p);
      forall j | j in Of(tb, t, p) && Accepts(tb, j.verdict)
        ensures js[k].timeMs <= j.timeMs
      {
        var i :| 0 <= i < |js| && js[i] == j;
        assert i == k || !Earlier(js[i], js[k]);
      }
    }
  }

  ghost predicate IsEarliestAccept(tb: Tables, t: string, p: string, j: Judged)
    requires tb.Typed()
  {
    && j in Of(tb, t, p) && Accepts(tb, j.verdict)
    && (forall i | i in Of(tb, t, p) && Accepts(tb, i.verdict) :: j.timeMs <= i.timeMs)
  }

  /** No rejected submission of the team on the problem shares the contest time of its earliest accept. */
  ghost predicate NoRejectAtAccept(tb: Tables, t: string, p: string)
    requires tb.Typed()
  {
    forall i, j | IsEarliestAccept(tb, t, p, i) && j in Of(tb, t, p) && !Accepts(tb, j.verdict) :: i.timeMs != j.timeMs
  }

  ghost predicate IsPenaltyReject(tb: Tables, j: Judged)
    requires tb.Typed()
  {
    Penalizes(tb, j.verdict) && !Accepts(tb, j.verdict)
  }

  ghost function PenaltyRejectSet(tb: Tables, js: seq<Judged>): set<Judged>
    requires tb.Typed()
  {
    set j | j in js && IsPenaltyReject(tb, j)
  }

  lemma {:induction false} PenaltyRejectsIsCardinality(tb: Tables, js: seq<Judged>)
    requires tb.Typed() && NoDuplicates(js)
    ensures PenaltyRejects(tb, js) == |PenaltyRejectSet(tb, js)|
  {
    if js == [] {
      assert PenaltyRejectSet(tb, js) == {};
    } else {
      var last := |js| - 1;
      PenaltyRejectsIsCardinality(tb, js[..last]);
      PenaltyRejectSetStep(tb, js[..last], js[last]);
      assert js == js[..last] + [js[last]];
    }
  }

  lemma PenaltyRejectSetStep(tb: Tables, js: seq<Judged>, j: Judged)
    requires tb.Typed() && j !in js
    ensures |PenaltyRejectSet(tb, js + [j])| == |PenaltyRejectSet(tb, js)| + if IsPenaltyReject(tb, j) then 1 else 0
  {
    assert PenaltyRejectSet(tb, js + [j]) ==
           PenaltyRejectSet(tb, js) + if IsPenaltyReject(tb, j) then {j} else {};
  }

  /** No rejected submission that carries a penalty shares the contest time of the earliest accept. */
  ghost predicate NoPenaltyAtAccept(tb: Tables, t: string, p: string)
    requires tb.Typed()
  {
    forall i, j | IsEarliestAccept(tb, t, p, i) && j in Of(tb, t, p) && IsPenaltyReject(tb, j) :: i.timeMs != j.timeMs
  }

  /** The accept that decides a solved cell, in the listing of the team on the problem. */
  lemma UsedAcceptIsEarliest(tb: Tables, order: seq<Judged>, t: string, p: string)
    requires tb.Typed() && IsOrder(tb, order) && t !in tb.hidden && Outcome(tb, order, t, p).solved
    ensures
      var js := Project(order, t, p);
      var k := FirstAccept(tb, js);
      && k < |js| && IsEarliestAccept(tb, t, p, js[k]) && js[k].timeMs == Outcome(tb, order, t, p).acceptTimeMs
      && Enumerates(js, Of(tb, t, p)) && Sorted(js, Earlier)
  {
    hide IsOrder, PenaltyRejects, Project, Of;
    SolvedAtEarliestAccept(tb, order, t, p);
    ProjectEnumerates(tb, order, t, p);
    var js := Project(order, t, p);
    assert js[FirstAccept(tb, js)] in js;
  }

  /** The part of a chronological listing before the first accept, by times, when no reject has the time of the
      accept. */
  lemma PrefixByTime(tb: Tables, js: seq<Judged>, k: nat)
    requires tb.Typed() && k == FirstAccept(tb, js) < |js| && NoDuplicates(js) && Sorted(js, Earlier)
    requires forall j | j in js && !Accepts(tb, j.verdict) :: j.timeMs != js[k].timeMs
    ensures Enumerates(js[..k], set j | j in js && j.timeMs < js[k].timeMs)
  {
    forall i | 0 <= i < |js|
      ensures i < k <==> js[i].timeMs < js[k].timeMs
    {
      assert i < k ==> !Earlier(js[k], js[i]) && js[i].timeMs != js[k].timeMs;
      assert k < i ==> !Earlier(js[i], js[k]);
    }
  }

  /** The penalized rejects before the first accept, by times, when none of them has the time of the accept. */
  lemma PenaltiesByTime(tb: Tables, js: seq<Judged>, k: nat, all: set<Judged>)
    requires tb.Typed() && k == FirstAccept(tb, js) < |js| && Enumerates(js, all) && Sorted(js, Earlier)
    requires forall j | j in all && IsPenaltyReject(tb, j) :: j.timeMs != js[k].timeMs
    ensures PenaltyRejectSet(tb, js[..k]) == set j | j in all && IsPenaltyReject(tb, j) && j.timeMs < js[k].timeMs
  {
    hide FirstAccept, IsPenaltyReject;
    forall i | 0 <= i < |js| && IsPenaltyReject(tb, js[i])
      ensures i < k <==> js[i].timeMs < js[k].timeMs
    {
      assert js[i] in all;
      assert i < k ==> !Earlier(js[k], js[i]);
      assert k < i ==> !Earlier(js[i], js[k]);
    }
    assert forall j | j in js[..k] :: j in js;
  }

  /** If no penalized reject ties with the accept, the penalty attempts of a solved cell, less the accept, are the
      penalized rejects strictly before it. */
  lemma SolvedPenalties(tb: Tables, order: seq<Judged>, t: string, p: string)
    requires tb.Typed() && IsOrder(tb, order) && t !in tb.hidden && NoPenaltyAtAccept(tb, t, p)
    requires Outcome(tb, order, t, p).solved
    ensures
      var a := Outcome(tb, order, t, p);
      a.penaltyAttempts - 1 ==
        |set j | j in Of(tb, t, p) && IsPenaltyReject(tb, j) && j.timeMs < a.acceptTimeMs|
  {
    hide IsOrder, PenaltyRejects, Project, Of, IsEarliestAccept, IsPenaltyReject;
    UsedAcceptIsEarliest(tb, order, t, p);
    var js := Project(order, t, p);
    var k := FirstAccept(tb, js);
    PenaltyRejectsIsCardinality(tb, js[..k]);
    PenaltiesByTime(tb, js, k, Of(tb, t, p));
  }

  /** If no reject at all ties with the accept, the attempts are the accept and everything strictly before it. */
  lemma SolvedCounts(tb: Tables, order: seq<Judged>, t: string, p: string)
    requires tb.Typed() && IsOrder(tb, order) && t !in tb.hidden && NoRejectAtAccept(tb, t, p)
    requires Outcome(tb, order, t, p).solved
    ensures
      var a := Outcome(tb, order, t, p);
      && a.numJudged == 1 + |set j | j in Of(tb, t, p) && j.timeMs < a.acceptTimeMs|
      && a.penaltyAttempts - 1 ==
         |set j | j in Of(tb, t, p) && IsPenaltyReject(tb, j) && j.timeMs < a.acceptTimeMs|
  {
    hide IsOrder, PenaltyRejects, Project, Of, IsEarliestAccept;
    UsedAcceptIsEarliest(tb, order, t, p);
    var js := Project(order, t, p);
    var k := FirstAccept(tb, js);
    PrefixByTime(tb, js, k);
    var before := set j | j in js && j.timeMs < js[k].timeMs;
    EnumerationSize(js[..k], before);
    assert before == set j | j in Of(tb, t, p) && j.timeMs < js[k].timeMs;
    SolvedPenalties(tb, order, t, p);
  }

  /** An unsolved cell counts every judged submission, whatever the times. */
  lemma UnsolvedCounts(tb: Tables, order: seq<Judged>, t: string, p: string)
    requires tb.Typed() && IsOrder(tb, order) && t !in tb.hidden
    requires !Outcome(tb, order, t, p).solved
    ensures Outcome(tb, order, t, p).numJudged == |Of(tb, t, p)|
    ensures Outcome(tb, order, t, p).penaltyAttempts == |set j | j in Of(tb, t, p) && IsPenaltyReject(tb, j)|
  {
    ProjectEnumerates(tb, order, t, p);
    var js := Project(order, t, p);
    EnumerationSize(js, Of(tb, t, p));
    PenaltyRejectsIsCardinality(tb, js);
    assert PenaltyRejectSet(tb, js) == set j | j in Of(tb, t, p) && IsPenaltyReject(tb, j);
  }

  // ---- Ties ----

  lemma {:induction false} ProjectOfParts(a: seq<Judged>, b: seq<Judged>, t: string, p: string)
    ensures Project(a + b, t, p) == Project(a, t, p) + Project(b, t, p)
  {
    if b == [] {
      assert a + b == a;
    } else {
      var last := |b| - 1;
      assert (a + b)[..|a + b| - 1] == a + b[..last];
      ProjectOfParts(a, b[..last], t, p);
    }
  }

  /** A submission at the time of the earliest accept, and another arrangement of the listing with the two exchanged. */
  lemma ExchangeKeepsOrder(tb: Tables, order: seq<Judged>, m: nat, n: nat)
    requires tb.Typed() && IsOrder(tb, order) && m < n < |order| && order[m].timeMs == order[n].timeMs
    ensures IsOrder(tb, order[m := order[n]][n := order[m]])
  {
    var order' := order[m := order[n]][n := order[m]];
    assert multiset(order') == multiset(order);
    ReorderedEnumerates(order, order', JudgedSet(tb));
    forall i, j | 0 <= i < j < |order'|
      ensures !Earlier(order'[j], order'[i])
    {
      var i', j' := if i == m then n else if i == n then m else i, if j == m then n else if j == n then m else j;
      assert order'[i] == order[i'] && order'[j] == order[j'];
      assert !Earlier(order[j], order[i]);
      assert order'[i].timeMs == order[i].timeMs && order'[j].timeMs == order[j].timeMs;
    }
  }

  /** The submissions of a team on a problem around one of them. */
  lemma ProjectAround(before: seq<Judged>, j: Judged, after: seq<Judged>)
    ensures Project(before + ([j] + after), j.team, j.problem) ==
            Project(before, j.team, j.problem) + ([j] + Project(after, j.team, j.problem))
  {
    hide Project;
    ProjectOfParts(before, [j] + after, j.team, j.problem);
    ProjectOfParts([j], after, j.team, j.problem);
    ProjectOfOne(j);
  }

  lemma ProjectOfOne(j: Judged)
    ensures Project([j], j.team, j.problem) == [j]
  {
    assert [j][..0] == [];
  }

  lemma SplitAt<T>(s: seq<T>, m: nat)
    requires m < |s|
    ensures s == s[..m] + ([s[m]] + s[m + 1..])
  {
  }

  lemma {:induction false} PenaltyRejectsGrow(tb: Tables, js: seq<Judged>, n: nat)
    requires tb.Typed() && n <= |js|
    ensures PenaltyRejects(tb, js[..n]) <= PenaltyRejects(tb, js)
  {
    if n == |js| {
      assert js[..n] == js;
    } else {
      assert js[..|js| - 1][..n] == js[..n];
      PenaltyRejectsGrow(tb, js[..|js| - 1], n);
    }
  }

  /** Attempts, when `before` has no accept: an accept at once, or a reject first. */
  lemma AttemptsAfter(tb: Tables, before: seq<Judged>, j: Judged, rest: seq<Judged>)
    requires tb.Typed() && FirstAccept(tb, before) == |before|
    ensures
      var a := AccumOf(tb, before + ([j] + rest));
      if Accepts(tb, j.verdict) then a.numJudged == |before| + 1 else a.solved ==> a.numJudged > |before| + 1
    ensures
      var a, n := AccumOf(tb, before + ([j] + rest)), PenaltyRejects(tb, before) + 1;
      && (Accepts(tb, j.verdict) ==> a.penaltyAttempts == n)
      && (IsPenaltyReject(tb, j) && a.solved ==> a.penaltyAttempts > n)
  {
    hide PenaltyRejects, Accepts, Penalizes;
    var all, n := before + ([j] + rest), |before|;
    var k := FirstAccept(tb, all);
    assert forall i | 0 <= i < n :: all[i] == before[i];
    assert all[n] == j && all[..n] == before;
    assert n <= k;
    if Accepts(tb, j.verdict) {
      FirstAcceptIsLeast(tb, all, n);
    } else if k < |all| {
      assert all[..k][..n + 1] == all[..n + 1] == before + [j];
      PenaltyRejectsGrow(tb, all[..k], n + 1);
      if IsPenaltyReject(tb, j) {
        OneMorePenalty(tb, before, j);
      }
    }
  }

  lemma OneMorePenalty(tb: Tables, js: seq<Judged>, j: Judged)
    requires tb.Typed() && IsPenaltyReject(tb, j)
    ensures PenaltyRejects(tb, js + [j]) == PenaltyRejects(tb, js) + 1
  {
    assert (js + [j])[..|js|] == js;
  }

  /** Nothing listed before the earliest submission of an exchanged pair is accepted. */
  lemma NoAcceptBefore(tb: Tables, order: seq<Judged>, m: nat, k: nat, t: string, p: string)
    requires tb.Typed() && NoDuplicates(order) && m <= k < |order|
    requires
      var js := Project(order, t, p);
      FirstAccept(tb, js) < |js| && js[FirstAccept(tb, js)] == order[k]
    ensures FirstAccept(tb, Project(order[..m], t, p)) == |Project(order[..m], t, p)|
  {
    hide Project, FirstAccept;
    var before, rest := Project(order[..m], t, p), Project(order[m..], t, p);
    assert order == order[..m] + order[m..];
    ProjectOfParts(order[..m], order[m..], t, p);
    NotInPrefix(order, m, k);
    AcceptInRest(tb, before, rest, order[k]);
  }

  lemma NotInPrefix<T>(s: seq<T>, m: nat, k: nat)
    requires NoDuplicates(s) && m <= k < |s|
    ensures s[k] !in s[..m]
  {
  }

  lemma AcceptInRest(tb: Tables, before: seq<Judged>, rest: seq<Judged>, x: Judged)
    requires tb.Typed() && x !in before
    requires
      var k := FirstAccept(tb, before + rest);
      k < |before + rest| && (before + rest)[k] == x
    ensures FirstAccept(tb, before) == |before|
  {
    var js := before + rest;
    assert forall i | 0 <= i < |before| :: js[i] == before[i];
    assert |before| <= FirstAccept(tb, js);
  }

  lemma FirstAcceptIsLeast(tb: Tables, js: seq<Judged>, n: nat)
    requires tb.Typed() && n < |js| && Accepts(tb, js[n].verdict)
    ensures FirstAccept(tb, js) <= n
  {
  }

  /** Attempts of the listing, when nothing before position m is an accept of the team on the problem: fewer if the
      submission at m is accepted than if it is rejected. */
  lemma AttemptsFrom(tb: Tables, order: seq<Judged>, m: nat, t: string, p: string)
    requires tb.Typed() && m < |order| && order[m].team == t && order[m].problem == p && t !in tb.hidden
    requires FirstAccept(tb, Project(order[..m], t, p)) == |Project(order[..m], t, p)|
    ensures
      var a, n := Outcome(tb, order, t, p), |Project(order[..m], t, p)| + 1;
      if Accepts(tb, order[m].verdict) then a.numJudged == n else a.solved ==> a.numJudged > n
    ensures
      var a, n := Outcome(tb, order, t, p), PenaltyRejects(tb, Project(order[..m], t, p)) + 1;
      && (Accepts(tb, order[m].verdict) ==> a.penaltyAttempts == n)
      && (IsPenaltyReject(tb, order[m]) && a.solved ==> a.penaltyAttempts > n)
  {
    hide Project, AccumOf, FirstAccept, Accepts, Penalizes, PenaltyRejects;
    SplitAt(order, m);
    ProjectAround(order[..m], order[m], order[m + 1..]);
    AttemptsAfter(tb, Project(order[..m], t, p), order[m], Project(order[m + 1..], t, p));
  }

  /** The submission whose accept is used, among all submissions of the team on the problem. */
  lemma UsedAccept(tb: Tables, order: seq<Judged>, t: string, p: string) returns (k: nat)
    requires tb.Typed() && IsOrder(tb, order) && t !in tb.hidden && Outcome(tb, order, t, p).solved
    ensures k < |order| && order[k] in Of(tb, t, p) && Accepts(tb, order[k].verdict)
    ensures
      var js := Project(order, t, p);
      && FirstAccept(tb, js) < |js| && js[FirstAccept(tb, js)] == order[k]
      && order[k].timeMs == Outcome(tb, order, t, p).acceptTimeMs
  {
    ProjectEnumerates(tb, order, t, p);
    var js := Project(order, t, p);
    var first := js[FirstAccept(tb, js)];
    assert first in js;
    k :| 0 <= k < |order| && order[k] == first;
  }

  /** A reject at the time of the accept makes the attempts depend on how the listing breaks the tie, and the penalty
      attempts too if it carries a penalty. */
  lemma RejectAtAcceptMatters(tb: Tables, order: seq<Judged>, t: string, p: string, x: Judged, y: Judged)
    returns (order': seq<Judged>)
    requires tb.Typed() && IsOrder(tb, order) && t !in tb.hidden
    requires IsEarliestAccept(tb, t, p, x) && y in Of(tb, t, p) && !Accepts(tb, y.verdict) && x.timeMs == y.timeMs
    ensures IsOrder(tb, order') && Outcome(tb, order', t, p).numJudged != Outcome(tb, order, t, p).numJudged
    ensures IsPenaltyReject(tb, y) ==>
            Outcome(tb, order', t, p).penaltyAttempts != Outcome(tb, order, t, p).penaltyAttempts
  {
    hide Outcome, Project, FirstAccept, Accepts, Penalizes, PenaltyRejects;
    SolvedAtEarliestAccept(tb, order, t, p);
    var k := UsedAccept(tb, order, t, p);
    var l :| 0 <= l < |order| && order[l] == y;
    assert order[k].timeMs == order[l].timeMs;
    var m, n := if k < l then k else l, if k < l then l else k;
    ExchangeKeepsOrder(tb, order, m, n);
    order' := order[m := order[n]][n := order[m]];
    NoAcceptBefore(tb, order, m, k, t, p);
    SolvedAtEarliestAccept(tb, order', t, p);
    assert order'[..m] == order[..m];
    AttemptsFrom(tb, order, m, t, p);
    AttemptsFrom(tb, order', m, t, p);
  }
}
