/** Report histories of operators and the run of consecutive failures at their end. */
module FailStreaks {
  import opened Operators

  const BLACKLIST_THRESHOLD: nat := 5

  /** The outcomes reported for one operator, oldest first. */
  function Outcomes(history: seq<Report>, id: OperatorId): seq<bool> {
    if |history| == 0 then []
    else
      var last := history[|history| - 1];
      Outcomes(history[..|history| - 1], id) + if last.id == id then [last.success] else []
  }

  /** Length of the run of failures that ends the list. */
  function TrailingFailures(outcomes: seq<bool>): nat {
    if |outcomes| == 0 || outcomes[|outcomes| - 1] then 0
    else 1 + TrailingFailures(outcomes[..|outcomes| - 1])
  }

  predicate EndsWithFailures(outcomes: seq<bool>, k: nat) {
    k <= |outcomes| && forall i :: |outcomes| - k <= i < |outcomes| ==> !outcomes[i]
  }

  /** Reading of the failCount map: a missing key is zero. */
  function FailCount(counts: map<OperatorId, nat>, id: OperatorId): nat {
    if id in counts then counts[id] else 0
  }

  /** The map update of one report. */
  function Counted(counts: map<OperatorId, nat>, r: Report): map<OperatorId, nat> {
    if r.success then counts - {r.id} else counts[r.id := FailCount(counts, r.id) + 1]
  }

  /** `counts` tells, for every operator, the failures since its last success. */
  ghost predicate CountsStreaks(counts: map<OperatorId, nat>, history: seq<Report>) {
    && (forall id :: FailCount(counts, id) == TrailingFailures(Outcomes(history, id)))
    && (forall id :: id in counts ==> counts[id] > 0)
  }

  ghost function ReportedIds(history: seq<Report>): set<OperatorId> {
    set i: nat | i < |history| :: history[i].id
  }

  /** The streak is the longest run of failures at the end. */
  lemma {:induction false} StreakIsMaximal(outcomes: seq<bool>, k: nat)
    ensures TrailingFailures(outcomes) >= k <==> EndsWithFailures(outcomes, k)
    decreases |outcomes|
  {
    var n := |outcomes|;
    if n > 0 && k > 0 {
      StreakIsMaximal(outcomes[..n - 1], k - 1);
      if !outcomes[n - 1] && EndsWithFailures(outcomes[..n - 1], k - 1) {
        assert forall i :: n - k <= i < n - 1 ==> outcomes[i] == outcomes[..n - 1][i];
      }
      if EndsWithFailures(outcomes, k) {
        assert EndsWithFailures(outcomes[..n - 1], k - 1);
      }
    }
  }

  lemma OutcomesSnoc(history: seq<Report>, r: Report, id: OperatorId)
    ensures Outcomes(history + [r], id)
         == if r.id == id then Outcomes(history, id) + [r.success] else Outcomes(history, id)
  {
    assert (history + [r])[..|history|] == history;
  }

  lemma {:induction false} OutcomesConcat(a: seq<Report>, b: seq<Report>, id: OperatorId)
    ensures Outcomes(a + b, id) == Outcomes(a, id) + Outcomes(b, id)
    decreases |b|
  {
    if |b| == 0 {
      assert a + b == a;
    } else {
      var front, last := b[..|b| - 1], b[|b| - 1];
      var tail := if last.id == id then [last.success] else [];
      calc {
        Outcomes(a + b, id);
        { assert a + b == (a + front) + [last]; OutcomesSnoc(a + front, last, id); }
        Outcomes(a + front, id) + tail;
        { OutcomesConcat(a, front, id); }
        Outcomes(a, id) + Outcomes(front, id) + tail;
        Outcomes(a, id) + (Outcomes(front, id) + tail);
        Outcomes(a, id) + Outcomes(b, id);
      }
    }
  }

  lemma TrailingSnoc(outcomes: seq<bool>, success: bool)
    ensures TrailingFailures(outcomes + [success]) == if success then 0 else TrailingFailures(outcomes) + 1
  {
    assert (outcomes + [success])[..|outcomes|] == outcomes;
  }

  /** One report keeps the counters equal to the streaks. */
  lemma CountedKeepsStreaks(counts: map<OperatorId, nat>, history: seq<Report>, r: Report)
    requires CountsStreaks(counts, history)
    ensures CountsStreaks(Counted(counts, r), history + [r])
  {
    var counts' := Counted(counts, r);
    forall id ensures FailCount(counts', id) == TrailingFailures(Outcomes(history + [r], id)) {
      OutcomesSnoc(history, r, id);
      if id == r.id {
        TrailingSnoc(Outcomes(history, id), r.success);
      } else {
        assert FailCount(counts', id) == FailCount(counts, id);
      }
    }
  }

  /** Operators without reports have an empty history, and conversely. */
  lemma {:induction false} UnreportedIsEmpty(history: seq<Report>, id: OperatorId)
    ensures id !in ReportedIds(history) <==> Outcomes(history, id) == []
  {
    if |history| > 0 {
      var n := |history| - 1;
      UnreportedIsEmpty(history[..n], id);
      assert ReportedIds(history) == ReportedIds(history[..n]) + {history[n].id} by {
        assert forall i: nat :: i < n ==> history[..n][i] == history[i];
        assert forall x :: x in ReportedIds(history) ==> x in ReportedIds(history[..n]) + {history[n].id} by {
          forall x | x in ReportedIds(history) ensures x in ReportedIds(history[..n]) + {history[n].id} {
            var i: nat :| i < |history| && history[i].id == x;
            if i < n { assert history[..n][i].id == x; }
          }
        }
      }
    }
  }
}
