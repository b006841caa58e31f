/** Which recorded frames the echo suppressor blends: the three that match best, kept in three slots in place. */
module BestMatch {

  const SLOTS: nat := 3
  const ECHO_REFERENCE_MIN_ENERGY: int := 8_000_000

  /** A recorded frame with the figures that a scan works out for it. */
  datatype Reference = Reference(frame: nat, energy: int, corr: real, gain: real, score: real)

  datatype EchoMatch = EchoMatch(frame: nat, corr: real, gain: real, score: real, valid: bool)

  const NO_MATCH := EchoMatch(0, 0.0, 0.0, 0.0, false)

  predicate Qualifies(r: Reference, threshold: real) {
    r.energy >= ECHO_REFERENCE_MIN_ENERGY && r.corr >= threshold * 0.72
  }

  function MatchOf(r: Reference): EchoMatch {
    EchoMatch(r.frame, r.corr, r.gain, r.score, true)
  }

  // ---------------------------------------------------------------- what the slots should hold

  /** Reference `i` goes before reference `j`: a better score, or the same score and recorded earlier. */
  predicate Before(refs: seq<Reference>, i: nat, j: nat)
    requires i < |refs| && j < |refs|
  {
    refs[i].score > refs[j].score || (refs[i].score == refs[j].score && i < j)
  }

  ghost predicate Positions(ws: seq<nat>, n: nat) {
    forall i :: 0 <= i < |ws| ==> ws[i] < n
  }

  /** The first slot that is empty or holds a lower score. */
  ghost function Slot(refs: seq<Reference>, ws: seq<nat>, j: nat): (k: nat)
    requires j < |refs| && Positions(ws, |refs|)
    ensures k <= |ws|
    ensures forall i :: 0 <= i < k ==> refs[ws[i]].score >= refs[j].score
    ensures k < |ws| ==> refs[ws[k]].score < refs[j].score
    decreases |ws|
  {
    if ws == [] then 0
    else
      var k := Slot(refs, ws[..|ws| - 1], j);
      if k < |ws| - 1 || refs[ws[k]].score < refs[j].score then k else |ws|
  }

  ghost function Wide(refs: seq<Reference>, ws: seq<nat>, j: nat): (wide: seq<nat>)
    requires j < |refs| && Positions(ws, |refs|)
    ensures |wide| == |ws| + 1 && Positions(wide, |refs|)
  {
    var k := Slot(refs, ws, j);
    ws[..k] + [j] + ws[k..]
  }

  ghost function Enter(refs: seq<Reference>, ws: seq<nat>, j: nat): (kept: seq<nat>)
    requires j < |refs| && Positions(ws, |refs|)
    ensures |kept| <= SLOTS && Positions(kept, |refs|)
  {
    var wide := Wide(refs, ws, j);
    if |wide| <= SLOTS then wide else wide[..SLOTS]
  }

  /** The positions of the kept references after the first `n` were looked at. */
  ghost function Winners(refs: seq<Reference>, threshold: real, n: nat): (ws: seq<nat>)
    requires n <= |refs|
    ensures |ws| <= SLOTS && Positions(ws, |refs|)
  {
    if n == 0 then []
    else
      var ws := Winners(refs, threshold, n - 1);
      if Qualifies(refs[n - 1], threshold) then Enter(refs, ws, n - 1) else ws
  }

  ghost function Qualified(refs: seq<Reference>, threshold: real, n: nat): set<nat>
    requires n <= |refs|
  {
    set i | 0 <= i < n && Qualifies(refs[i], threshold)
  }

  ghost predicate InOrder(refs: seq<Reference>, ws: seq<nat>)
    requires Positions(ws, |refs|)
  {
    forall i, j :: 0 <= i < j < |ws| ==> Before(refs, ws[i], ws[j])
  }

  /** Every one in `ws` comes before `q`. */
  ghost predicate AllBefore(refs: seq<Reference>, ws: seq<nat>, q: nat)
    requires Positions(ws, |refs|) && q < |refs|
  {
    forall i :: 0 <= i < |ws| ==> Before(refs, ws[i], q)
  }

  /** The kept ones stand in order, and every other qualifying one comes behind all three of them. */
  ghost predicate TopThree(refs: seq<Reference>, threshold: real, n: nat, ws: seq<nat>)
    requires n <= |refs|
  {
    && |ws| <= SLOTS && Positions(ws, n)
    && (forall i :: 0 <= i < |ws| ==> ws[i] in Qualified(refs, threshold, n))
    && InOrder(refs, ws)
    && (forall q :: q in Qualified(refs, threshold, n) && q !in ws ==> |ws| == SLOTS && AllBefore(refs, ws, q))
  }

  lemma WideIsInOrder(refs: seq<Reference>, n: nat, ws: seq<nat>)
    requires n < |refs| && Positions(ws, n) && InOrder(refs, ws)
    ensures InOrder(refs, Wide(refs, ws, n))
  {
  }

  lemma WideHolds(refs: seq<Reference>, ws: seq<nat>, n: nat)
    requires n < |refs| && Positions(ws, |refs|)
    ensures forall w :: w in Wide(refs, ws, n) <==> w in ws || w == n
  {
  }

  /** A reference that stayed behind three kept ones stays behind when a better one enters. */
  lemma StillBehind(refs: seq<Reference>, ws: seq<nat>, n: nat, q: nat)
    requires n < |refs| && Positions(ws, n) && q < n && |ws| == SLOTS && AllBefore(refs, ws, q)
    ensures AllBefore(refs, Enter(refs, ws, n), q)
  {
  }

  lemma EnterKeepsTopThree(refs: seq<Reference>, threshold: real, n: nat, ws: seq<nat>)
    requires n < |refs| && Qualifies(refs[n], threshold)
    requires TopThree(refs, threshold, n, ws)
    ensures TopThree(refs, threshold, n + 1, Enter(refs, ws, n))
  {
    var wide, kept := Wide(refs, ws, n), Enter(refs, ws, n);
    WideIsInOrder(refs, n, ws);
    WideHolds(refs, ws, n);
    forall i | 0 <= i < |kept| ensures kept[i] in Qualified(refs, threshold, n + 1) {
      assert kept[i] == wide[i] && wide[i] in wide;
    }
    forall q | q in Qualified(refs, threshold, n + 1) && q !in kept
      ensures |kept| == SLOTS && AllBefore(refs, kept, q)
    {
      if q in wide {
        assert forall i :: 0 <= i < |kept| ==> kept[i] == wide[i] && kept[i] in kept;
        var m :| 0 <= m < |wide| && wide[m] == q;
      } else {
        assert q in Qualified(refs, threshold, n);
        StillBehind(refs, ws, n, q);
      }
    }
  }

  lemma SkipKeepsTopThree(refs: seq<Reference>, threshold: real, n: nat, ws: seq<nat>)
    requires n < |refs| && !Qualifies(refs[n], threshold) && TopThree(refs, threshold, n, ws)
    ensures TopThree(refs, threshold, n + 1, ws)
  {
  }

  lemma NoneAreTopThree(refs: seq<Reference>, threshold: real)
    ensures TopThree(refs, threshold, 0, [])
  {
  }

  /** The scan keeps the three best, or all of them if there are fewer, best first, earlier ones winning ties. */
  lemma {:induction false} WinnersAreTopThree(refs: seq<Reference>, threshold: real, n: nat)
    requires n <= |refs|
    ensures TopThree(refs, threshold, n, Winners(refs, threshold, n))
  {
    if n == 0 {
      NoneAreTopThree(refs, threshold);
    } else {
      hide TopThree, Enter, Qualifies;
      var ws := Winners(refs, threshold, n - 1);
      WinnersAreTopThree(refs, threshold, n - 1);
      if Qualifies(refs[n - 1], threshold) {
        EnterKeepsTopThree(refs, threshold, n - 1, ws);
        assert Winners(refs, threshold, n) == Enter(refs, ws, n - 1);
      } else {
        SkipKeepsTopThree(refs, threshold, n - 1, ws);
        assert Winners(refs, threshold, n) == ws;
      }
    }
  }

  function Elements(ws: seq<nat>): set<nat> {
    set w | w in ws
  }

  lemma CountTopThree(refs: seq<Reference>, threshold: real, n: nat, ws: seq<nat>)
    requires n <= |refs| && TopThree(refs, threshold, n, ws)
    ensures |ws| == if |Qualified(refs, threshold, n)| < SLOTS then |Qualified(refs, threshold, n)| else SLOTS
  {
    var all, kept := Qualified(refs, threshold, n), Elements(ws);
    forall i, j | 0 <= i < j < |ws| ensures ws[i] != ws[j] {
      assert Before(refs, ws[i], ws[j]);
    }
    DistinctSize(ws);
    assert all == kept + (all - kept);
    if all - kept != {} {
      var q :| q in all - kept;
      assert |ws| == SLOTS;
    }
  }

  lemma {:induction false} DistinctSize(ws: seq<nat>)
    requires forall i, j :: 0 <= i < j < |ws| ==> ws[i] != ws[j]
    ensures |Elements(ws)| == |ws|
  {
    if ws != [] {
      DistinctSize(ws[1..]);
      assert Elements(ws) == {ws[0]} + Elements(ws[1..]);
    }
  }

  /** Nothing else satisfies that description, so it fixes the outcome. */
  lemma TopThreeIsUnique(refs: seq<Reference>, threshold: real, n: nat, ws: seq<nat>, vs: seq<nat>)
    requires n <= |refs| && TopThree(refs, threshold, n, ws) && TopThree(refs, threshold, n, vs)
    ensures ws == vs
  {
    CountTopThree(refs, threshold, n, ws);
    CountTopThree(refs, threshold, n, vs);
    forall k | 0 <= k < |ws| ensures ws[k] == vs[k] {
      SameUpTo(refs, threshold, n, ws, vs, k);
    }
  }

  lemma {:induction false} SameUpTo(refs: seq<Reference>, threshold: real, n: nat, ws: seq<nat>, vs: seq<nat>, k: nat)
    requires n <= |refs| && TopThree(refs, threshold, n, ws) && TopThree(refs, threshold, n, vs)
    requires k < |ws| == |vs|
    ensures forall i :: 0 <= i <= k ==> ws[i] == vs[i]
  {
    if k > 0 {
      SameUpTo(refs, threshold, n, ws, vs, k - 1);
    }
    if ws[k] != vs[k] {
      NotAhead(refs, threshold, n, ws, vs, k);
      NotAhead(refs, threshold, n, vs, ws, k);
    }
  }

  /** Two such lists can differ at `k` only with each one's entry standing before the other's. */
  lemma NotAhead(refs: seq<Reference>, threshold: real, n: nat, ws: seq<nat>, vs: seq<nat>, k: nat)
    requires n <= |refs| && TopThree(refs, threshold, n, ws) && TopThree(refs, threshold, n, vs)
    requires k < |ws| == |vs| && forall i :: 0 <= i < k ==> ws[i] == vs[i]
    ensures ws[k] == vs[k] || Before(refs, ws[k], vs[k])
  {
    var q := vs[k];
    if q !in ws {
      assert q in Qualified(refs, threshold, n) && AllBefore(refs, ws, q);
    } else {
      assert forall m :: 0 <= m < k ==> Before(refs, vs[m], q);
      var i :| 0 <= i < |ws| && ws[i] == q;
    }
  }

  // ---------------------------------------------------------------- the scan in place

  ghost function SlotAt(refs: seq<Reference>, ws: seq<nat>, k: nat): EchoMatch
    requires Positions(ws, |refs|)
  {
    if k < |ws| then MatchOf(refs[ws[k]]) else NO_MATCH
  }

  ghost function Slots(refs: seq<Reference>, ws: seq<nat>): (s: seq<EchoMatch>)
    requires Positions(ws, |refs|)
    ensures |s| == SLOTS
  {
    [SlotAt(refs, ws, 0), SlotAt(refs, ws, 1), SlotAt(refs, ws, 2)]
  }

  /** One reference goes to the first slot that is empty or worse; what is there moves back by one. */
  method Place(best: array<EchoMatch>, refs: seq<Reference>, j: nat, ghost ws: seq<nat>)
    requires best.Length == SLOTS && j < |refs| && |ws| <= SLOTS
    requires Positions(ws, |refs|)
    requires best[..] == Slots(refs, ws)
    modifies best
    ensures best[..] == Slots(refs, Enter(refs, ws, j))
  {
    var slot := FindSlot(best, refs, j, ws);
    if slot == best.Length {
      return;
    }
    EnteredSlots(refs, ws, j);
    ShiftBack(best, slot);
    best[slot] := MatchOf(refs[j]);
  }

  /** The first slot that is empty or holds a lower score, or their number. */
  method FindSlot(best: array<EchoMatch>, refs: seq<Reference>, j: nat, ghost ws: seq<nat>) returns (slot: nat)
    requires best.Length == SLOTS && j < |refs| && |ws| <= SLOTS
    requires Positions(ws, |refs|) && best[..] == Slots(refs, ws)
    ensures slot == Slot(refs, ws, j)
  {
    slot := 0;
    while slot < best.Length && best[slot].valid && refs[j].score <= best[slot].score
      invariant slot <= best.Length && slot <= |ws|
      invariant forall i :: 0 <= i < slot ==> refs[ws[i]].score >= refs[j].score
    {
      slot := slot + 1;
    }
    SlotIs(refs, ws, j, slot);
  }

  lemma EnteredSlot(refs: seq<Reference>, ws: seq<nat>, j: nat, i: nat)
    requires j < |refs| && |ws| <= SLOTS && Positions(ws, |refs|) && i < SLOTS
    ensures var k := Slot(refs, ws, j);
      SlotAt(refs, Enter(refs, ws, j), i)
        == if i < k then SlotAt(refs, ws, i) else if i == k then MatchOf(refs[j]) else SlotAt(refs, ws, i - 1)
  {
  }

  lemma EnteredSlots(refs: seq<Reference>, ws: seq<nat>, j: nat)
    requires j < |refs| && |ws| <= SLOTS && Positions(ws, |refs|)
    ensures var k, was, now := Slot(refs, ws, j), Slots(refs, ws), Slots(refs, Enter(refs, ws, j));
      if k == SLOTS then now == was else now == was[..k] + [MatchOf(refs[j])] + was[k..SLOTS - 1]
  {
    EnteredSlot(refs, ws, j, 0);
    EnteredSlot(refs, ws, j, 1);
    EnteredSlot(refs, ws, j, 2);
    MovedBack(Slots(refs, Enter(refs, ws, j)), Slots(refs, ws), Slot(refs, ws, j), MatchOf(refs[j]));
  }

  lemma MovedBack(now: seq<EchoMatch>, was: seq<EchoMatch>, k: nat, m: EchoMatch)
    requires |now| == SLOTS == |was| && k <= SLOTS
    requires now[0] == if 0 < k then was[0] else m
    requires now[1] == if 1 < k then was[1] else if 1 == k then m else was[0]
    requires now[2] == if 2 < k then was[2] else if 2 == k then m else was[1]
    ensures if k == SLOTS then now == was else now == was[..k] + [m] + was[k..SLOTS - 1]
  {
  }

  method ShiftBack(best: array<EchoMatch>, slot: nat)
    requires slot < best.Length
    modifies best
    ensures best[..] == old(best[..slot]) + [old(best[slot])] + old(best[slot..best.Length - 1])
  {
    var shift := best.Length - 1;
    while shift > slot
      invariant slot <= shift < best.Length
      invariant best[..] == old(best[..shift]) + [old(best[shift])] + old(best[shift..best.Length - 1])
    {
      best[shift] := best[shift - 1];
      shift := shift - 1;
    }
  }

  lemma {:induction false} SlotIs(refs: seq<Reference>, ws: seq<nat>, j: nat, k: nat)
    requires j < |refs| && Positions(ws, |refs|)
    requires k <= |ws|
    requires forall i :: 0 <= i < k ==> refs[ws[i]].score >= refs[j].score
    requires k < |ws| ==> refs[ws[k]].score < refs[j].score
    ensures Slot(refs, ws, j) == k
  {
  }

  method FindBestMatches(refs: seq<Reference>, threshold: real) returns (best: array<EchoMatch>)
    ensures fresh(best) && best[..] == Slots(refs, Winners(refs, threshold, |refs|))
    ensures TopThree(refs, threshold, |refs|, Winners(refs, threshold, |refs|))
  {
    best := new EchoMatch[SLOTS](k => NO_MATCH);
    for n := 0 to |refs|
      invariant best[..] == Slots(refs, Winners(refs, threshold, n))
    {
      if refs[n].energy < ECHO_REFERENCE_MIN_ENERGY {
        continue;
      }
      if refs[n].corr < threshold * 0.72 {
        continue;
      }
      Place(best, refs, n, Winners(refs, threshold, n));
    }
    WinnersAreTopThree(refs, threshold, |refs|);
  }

  /** The slot carries the figures of a reference that is loud and similar enough. */
  ghost predicate Carries(m: EchoMatch, r: Reference, threshold: real) {
    && m.valid && m.frame == r.frame && m.corr == r.corr && m.gain == r.gain && m.score == r.score
    && r.energy >= 8_000_000 && r.corr >= threshold * 0.72
  }

  ghost predicate InSomeSlot(best: seq<EchoMatch>, r: Reference, threshold: real) {
    exists k :: 0 <= k < |best| && Carries(best[k], r, threshold)
  }

  /**
   * What the three slots hold after the scan: figures of references that are loud and similar enough, the valid ones in
   * front by falling score; and any other such reference finds all three slots taken by scores at least as high.
   */
  lemma BestMatchesAre(refs: seq<Reference>, threshold: real)
    ensures var best := Slots(refs, Winners(refs, threshold, |refs|));
      && |best| == 3
      && (forall k :: 0 <= k < 3 && best[k].valid ==>
            exists i :: 0 <= i < |refs| && Carries(best[k], refs[i], threshold))
      && (forall j, k :: 0 <= j < k < 3 && best[k].valid ==> best[j].valid && best[j].score >= best[k].score)
      && (forall i :: 0 <= i < |refs| && refs[i].energy >= 8_000_000 && refs[i].corr >= threshold * 0.72 ==>
            InSomeSlot(best, refs[i], threshold)
            || (forall k :: 0 <= k < 3 ==> best[k].valid && best[k].score >= refs[i].score))
  {
    var ws := Winners(refs, threshold, |refs|);
    var best := Slots(refs, ws);
    WinnersAreTopThree(refs, threshold, |refs|);
    forall k | 0 <= k < 3
      ensures best[k].valid <==> k < |ws|
      ensures k < |ws| ==> Carries(best[k], refs[ws[k]], threshold)
    {
      SlotCarries(refs, threshold, ws, k);
    }
    forall i | 0 <= i < |refs| && refs[i].energy >= 8_000_000 && refs[i].corr >= threshold * 0.72
      ensures InSomeSlot(best, refs[i], threshold)
              || (forall k :: 0 <= k < 3 ==> best[k].valid && best[k].score >= refs[i].score)
    {
      assert i in Qualified(refs, threshold, |refs|);
      if i in ws {
        var k :| 0 <= k < |ws| && ws[k] == i;
        assert Carries(best[k], refs[i], threshold);
      }
    }
  }

  lemma SlotCarries(refs: seq<Reference>, threshold: real, ws: seq<nat>, k: nat)
    requires TopThree(refs, threshold, |refs|, ws) && k < 3
    ensures var m := Slots(refs, ws)[k];
      (m.valid <==> k < |ws|) && (k < |ws| ==> Carries(m, refs[ws[k]], threshold))
  {
    assert Slots(refs, ws)[k] == SlotAt(refs, ws, k);
    if k < |ws| {
      assert ws[k] in Qualified(refs, threshold, |refs|);
    }
  }
}
