/** Candidates, candidate pairs, their ranking, and how the pairs are formed. */
module IcePairs {
  import opened Wrappers
  import opened Bytes
  import Decimal

  datatype CandidateType = Host | ServerReflexive

  /** `addr` is what the address parser makes of `ip`; no `sock` stands for an invalid socket. */
  datatype Candidate = Candidate(
    kind: CandidateType, ip: string, addr: Option<nat>, port: nat, sock: Option<nat>,
    relatedIp: string, relatedPort: nat)

  datatype PairState = Waiting | InProgress | Succeeded | Failed

  /** `id` is the identity of the pair object; pairs formed later never get an earlier one's. */
  datatype Pair = Pair(
    id: nat, local: Candidate, remote: Candidate, socket: Option<nat>, state: PairState, priority: nat,
    lastSent: int, retryCount: nat, tid: Option<nat>)

  // ---------------------------------------------------------------- ranking

  predicate SameSubnet(a: nat, b: nat) {
    a / 0x100 == b / 0x100
  }

  predicate PrivateOrShared(a: nat) {
    a / 0x100_0000 == 0x0A || a / 0x10_0000 == 0xAC1 || a / 0x1_0000 == 0xC0A8 || a / 0x40_0000 == 0x191
  }

  predicate LinkLocal(a: nat) {
    a / 0x1_0000 == 0xA9FE
  }

  predicate OnSameSubnet(l: Candidate, r: Candidate) {
    l.addr.Some? && r.addr.Some? && SameSubnet(l.addr.value, r.addr.value)
  }

  function Major(l: Candidate, r: Candidate): nat {
    if l.kind == Host && r.kind == Host then
      if l.addr.Some? && r.addr.Some? then
        if OnSameSubnet(l, r) then 360
        else if PrivateOrShared(l.addr.value) && PrivateOrShared(r.addr.value) then 330
        else if LinkLocal(l.addr.value) || LinkLocal(r.addr.value) then 180
        else 280
      else 280
    else if l.kind == ServerReflexive && r.kind == ServerReflexive then 340
    else 220
  }

  function Minor(l: Candidate, r: Candidate): nat {
    (if l.kind == Host then 20 else 10) + (if r.kind == Host then 10 else 5) + (if OnSameSubnet(l, r) then 40 else 0)
  }

  function Priority(l: Candidate, r: Candidate): nat {
    Major(l, r) * TWO32 + Minor(l, r)
  }

  // The ranges of section 3 of RFC 1918, of section 7 of RFC 6598 and of section 2.1 of RFC 3927.
  predicate InPrivateRange(a: nat) {
    || 0x0A00_0000 <= a <= 0x0AFF_FFFF  // 10.0.0.0 to 10.255.255.255
    || 0xAC10_0000 <= a <= 0xAC1F_FFFF  // 172.16.0.0 to 172.31.255.255
    || 0xC0A8_0000 <= a <= 0xC0A8_FFFF  // 192.168.0.0 to 192.168.255.255
    || 0x6440_0000 <= a <= 0x647F_FFFF  // 100.64.0.0 to 100.127.255.255
  }

  predicate InLinkLocalRange(a: nat) {
    0xA9FE_0000 <= a <= 0xA9FE_FFFF  // 169.254.0.0 to 169.254.255.255
  }

  /** The first three bytes agree. */
  predicate OnOneNet(l: Candidate, r: Candidate) {
    l.addr.Some? && r.addr.Some? && l.addr.value - l.addr.value % 256 == r.addr.value - r.addr.value % 256
  }

  /** The order in which pairs are tried: hosts on one net; two reflexive candidates; hosts with private addresses;
    * other hosts; a host and a reflexive candidate; hosts of which one has only a link-local address. */
  function Place(l: Candidate, r: Candidate): nat {
    if l.kind == ServerReflexive && r.kind == ServerReflexive then 1
    else if l.kind == ServerReflexive || r.kind == ServerReflexive then 4
    else if OnOneNet(l, r) then 0
    else if l.addr.None? || r.addr.None? then 3
    else if InPrivateRange(l.addr.value) && InPrivateRange(r.addr.value) then 2
    else if InLinkLocalRange(l.addr.value) || InLinkLocalRange(r.addr.value) then 5
    else 3
  }

  /** Among pairs of one place, those on one net come first, and then those with a local host. */
  predicate Closer(l: Candidate, r: Candidate, m: Candidate, s: Candidate) {
    || (OnOneNet(l, r) && !OnOneNet(m, s))
    || (OnOneNet(l, r) == OnOneNet(m, s) && l.kind == Host && m.kind == ServerReflexive)
  }

  lemma RangesAgree(a: nat)
    ensures PrivateOrShared(a) <==> InPrivateRange(a)
    ensures LinkLocal(a) <==> InLinkLocalRange(a)
  {
  }

  lemma NetsAgree(l: Candidate, r: Candidate)
    ensures OnSameSubnet(l, r) <==> OnOneNet(l, r)
    ensures OnOneNet(l, r) ==> l.addr.Some? && r.addr.Some?
  {
  }

  lemma MajorIsPlace(l: Candidate, r: Candidate)
    ensures Place(l, r) <= 5 && Major(l, r) == [360, 340, 330, 280, 220, 180][Place(l, r)]
  {
    hide PrivateOrShared, InPrivateRange, LinkLocal, InLinkLocalRange, OnSameSubnet, OnOneNet;
    NetsAgree(l, r);
    if l.addr.Some? {
      RangesAgree(l.addr.value);
    }
    if r.addr.Some? {
      RangesAgree(r.addr.value);
    }
  }

  lemma MinorIsCloser(l: Candidate, r: Candidate, m: Candidate, s: Candidate)
    requires Place(l, r) == Place(m, s)
    ensures Minor(l, r) > Minor(m, s) <==> Closer(l, r, m, s)
  {
    hide PrivateOrShared, InPrivateRange, LinkLocal, InLinkLocalRange, OnSameSubnet, OnOneNet;
    NetsAgree(l, r);
    NetsAgree(m, s);
  }

  /** The 64-bit priority puts pairs in exactly that order. */
  lemma RankedByPlace(l: Candidate, r: Candidate, m: Candidate, s: Candidate)
    ensures Priority(l, r) > Priority(m, s) <==>
      Place(l, r) < Place(m, s) || (Place(l, r) == Place(m, s) && Closer(l, r, m, s))
    ensures Priority(l, r) < 0x1_0000_0000_0000_0000
  {
    MajorIsPlace(l, r);
    MajorIsPlace(m, s);
    if Place(l, r) == Place(m, s) {
      MinorIsCloser(l, r, m, s);
    }
    hide Major, Place, Closer;
  }

  // ---------------------------------------------------------------- keys

  function CandidateKey(c: Candidate): string {
    c.ip + ":" + Decimal.ToText(c.port)
  }

  function PairKey(l: Candidate, r: Candidate): string {
    CandidateKey(l) + "|" + CandidateKey(r)
  }

  function KeyOf(p: Pair): string {
    PairKey(p.local, p.remote)
  }

  predicate ColonFree(ip: string) {
    ':' !in ip
  }

  lemma SplitAtFirst(a: string, x: string, b: string, y: string, sep: char)
    requires sep !in a && sep !in b && a + [sep] + x == b + [sep] + y
    ensures a == b && x == y
  {
    var whole := a + [sep] + x;
    assert whole[|a|] == sep && whole[|b|] == sep;
    if |a| < |b| {
      assert false;
    } else if |b| < |a| {
      assert false;
    }
    assert a == whole[..|a|] && b == whole[..|b|];
    assert x == whole[|a| + 1..] && y == whole[|b| + 1..];
  }

  /** Addresses without a colon make the pair key unambiguous. */
  lemma PairKeyInjective(l: Candidate, r: Candidate, m: Candidate, s: Candidate)
    requires ColonFree(l.ip) && ColonFree(r.ip) && ColonFree(m.ip) && ColonFree(s.ip)
    requires PairKey(l, r) == PairKey(m, s)
    ensures l.ip == m.ip && l.port == m.port && r.ip == s.ip && r.port == s.port
  {
    var lp, mp := Decimal.ToText(l.port), Decimal.ToText(m.port);
    Decimal.TextIsDigits(l.port);
    Decimal.TextIsDigits(m.port);
    var lRest, mRest := lp + ['|'] + CandidateKey(r), mp + ['|'] + CandidateKey(s);
    assert PairKey(l, r) == l.ip + [':'] + lRest && PairKey(m, s) == m.ip + [':'] + mRest;
    SplitAtFirst(l.ip, lRest, m.ip, mRest, ':');
    SplitAtFirst(lp, CandidateKey(r), mp, CandidateKey(s), '|');
    Decimal.TextInjective(l.port, m.port);
    assert CandidateKey(r) == r.ip + [':'] + Decimal.ToText(r.port);
    assert CandidateKey(s) == s.ip + [':'] + Decimal.ToText(s.port);
    SplitAtFirst(r.ip, Decimal.ToText(r.port), s.ip, Decimal.ToText(s.port), ':');
    Decimal.TextInjective(r.port, s.port);
  }

  // ---------------------------------------------------------------- forming pairs

  function Keys(ps: seq<Pair>): set<string> {
    set p | p in ps :: KeyOf(p)
  }

  function Ids(ps: seq<Pair>): set<nat> {
    set p | p in ps :: p.id
  }

  function NewPair(id: nat, l: Candidate, r: Candidate): Pair {
    Pair(id, l, r, l.sock, Waiting, Priority(l, r), 0, 0, None)
  }

  /** One round of the inner loop: a combination whose key is already there is skipped. */
  function AddPair(ps: seq<Pair>, l: Candidate, r: Candidate, base: nat): seq<Pair> {
    if PairKey(l, r) in Keys(ps) then ps else ps + [NewPair(base + |ps|, l, r)]
  }

  function PairRow(ps: seq<Pair>, l: Candidate, remotes: seq<Candidate>, base: nat): seq<Pair> {
    if remotes == [] then ps
    else AddPair(PairRow(ps, l, remotes[..|remotes| - 1], base), l, remotes[|remotes| - 1], base)
  }

  /** Every local candidate with every remote one, in order, skipping the keys already there. */
  function PairUp(ps: seq<Pair>, locals: seq<Candidate>, remotes: seq<Candidate>, base: nat): seq<Pair> {
    if locals == [] then ps
    else PairRow(PairUp(ps, locals[..|locals| - 1], remotes, base), locals[|locals| - 1], remotes, base)
  }

  ghost predicate FormedFrom(p: Pair, locals: seq<Candidate>, remotes: seq<Candidate>) {
    && p.local in locals && p.remote in remotes
    && p.socket == p.local.sock && p.priority == Priority(p.local, p.remote)
  }

  ghost predicate AllFormed(ps: seq<Pair>, locals: seq<Candidate>, remotes: seq<Candidate>) {
    forall p :: p in ps ==> FormedFrom(p, locals, remotes)
  }

  /** No key and no identity twice. */
  ghost predicate Distinct(ps: seq<Pair>) {
    |Keys(ps)| == |ps| == |Ids(ps)|
  }

  ghost predicate IdsBelow(ps: seq<Pair>, bound: nat) {
    forall p :: p in ps ==> p.id < bound
  }

  ghost predicate AllKeys(ps: seq<Pair>, locals: seq<Candidate>, remotes: seq<Candidate>) {
    forall l, r :: l in locals && r in remotes ==> PairKey(l, r) in Keys(ps)
  }

  lemma AppendKeys(ps: seq<Pair>, p: Pair)
    ensures Keys(ps + [p]) == Keys(ps) + {KeyOf(p)}
    ensures Ids(ps + [p]) == Ids(ps) + {p.id}
  {
  }

  lemma AppendFresh(ps: seq<Pair>, p: Pair)
    requires Distinct(ps) && KeyOf(p) !in Keys(ps) && p.id !in Ids(ps)
    ensures Distinct(ps + [p])
  {
    AppendKeys(ps, p);
  }

  lemma AddedPairAdds(ps: seq<Pair>, p: Pair)
    requires Distinct(ps) && IdsBelow(ps, p.id) && KeyOf(p) !in Keys(ps)
    ensures Distinct(ps + [p]) && IdsBelow(ps + [p], p.id + 1) && Keys(ps + [p]) == Keys(ps) + {KeyOf(p)}
    ensures forall q :: q in ps + [p] <==> q in ps || q == p
  {
    AppendKeys(ps, p);
    assert p.id !in Ids(ps);
    AppendFresh(ps, p);
  }

  lemma AddPairAdds(ps: seq<Pair>, l: Candidate, r: Candidate, base: nat)
    requires Distinct(ps) && IdsBelow(ps, base + |ps|)
    ensures var qs := AddPair(ps, l, r, base);
      && Distinct(qs) && IdsBelow(qs, base + |qs|) && ps <= qs
      && Keys(qs) == Keys(ps) + {PairKey(l, r)}
      && (forall q :: q in qs ==> q in ps || (q.local == l && q.remote == r && q == NewPair(q.id, l, r)))
  {
    hide Distinct;
    if PairKey(l, r) in Keys(ps) {
      assert Keys(ps) == Keys(ps) + {PairKey(l, r)};
    } else {
      AddedPairAdds(ps, NewPair(base + |ps|, l, r));
    }
  }

  lemma {:induction false} PairRowAdds(ps: seq<Pair>, l: Candidate, remotes: seq<Candidate>, base: nat)
    requires Distinct(ps) && IdsBelow(ps, base + |ps|)
    ensures var qs := PairRow(ps, l, remotes, base);
      && Distinct(qs) && IdsBelow(qs, base + |qs|) && ps <= qs && Keys(ps) <= Keys(qs)
      && (forall r :: r in remotes ==> PairKey(l, r) in Keys(qs))
      && (forall q :: q in qs ==> q in ps || (q.local == l && q.remote in remotes && q == NewPair(q.id, l, q.remote)))
  {
    if remotes != [] {
      var init, last := remotes[..|remotes| - 1], remotes[|remotes| - 1];
      PairRowAdds(ps, l, init, base);
      AddPairAdds(PairRow(ps, l, init, base), l, last, base);
      assert forall r :: r in remotes ==> r in init || r == last;
    }
  }

  /** Pairing up adds exactly the missing combinations behind the pairs that are there. */
  lemma {:induction false} PairUpAdds(ps: seq<Pair>, locals: seq<Candidate>, remotes: seq<Candidate>, base: nat)
    requires Distinct(ps) && IdsBelow(ps, base + |ps|)
    ensures var qs := PairUp(ps, locals, remotes, base);
      && Distinct(qs) && IdsBelow(qs, base + |qs|) && ps <= qs && Keys(ps) <= Keys(qs)
      && AllKeys(qs, locals, remotes)
      && (forall q :: q in qs ==>
            q in ps || (q.local in locals && q.remote in remotes && q == NewPair(q.id, q.local, q.remote)))
  {
    if locals != [] {
      var init, last := locals[..|locals| - 1], locals[|locals| - 1];
      PairUpAdds(ps, init, remotes, base);
      PairRowAdds(PairUp(ps, init, remotes, base), last, remotes, base);
      assert forall l :: l in locals ==> l in init || l == last;
    }
  }

  // ---------------------------------------------------------------- sorting

  predicate Descending(ps: seq<Pair>) {
    forall i, j :: 0 <= i < j < |ps| ==> ps[i].priority >= ps[j].priority
  }

  /** What a sort by descending priority may return. */
  ghost predicate SortOf(qs: seq<Pair>, ps: seq<Pair>) {
    multiset(qs) == multiset(ps) && Descending(qs)
  }

  lemma PermutationKeeps(ps: seq<Pair>, qs: seq<Pair>)
    requires multiset(qs) == multiset(ps)
    ensures |qs| == |ps| && Keys(qs) == Keys(ps) && Ids(qs) == Ids(ps)
    ensures forall p :: p in qs <==> p in ps
  {
    assert |multiset(qs)| == |qs| && |multiset(ps)| == |ps|;
    forall p ensures p in qs <==> p in ps {
      assert p in qs <==> p in multiset(qs);
      assert p in ps <==> p in multiset(ps);
    }
  }

  /** Where a stable sort puts one more element: behind everything not ranked below it. */
  function InsertStable(ps: seq<Pair>, p: Pair): seq<Pair> {
    if ps == [] || ps[|ps| - 1].priority >= p.priority then ps + [p]
    else InsertStable(ps[..|ps| - 1], p) + [ps[|ps| - 1]]
  }

  function StableSort(ps: seq<Pair>): seq<Pair> {
    if ps == [] then [] else InsertStable(StableSort(ps[..|ps| - 1]), ps[|ps| - 1])
  }

  lemma {:induction false} InsertStableAdds(ps: seq<Pair>, p: Pair)
    ensures multiset(InsertStable(ps, p)) == multiset(ps) + multiset{p}
    ensures forall q :: q in InsertStable(ps, p) <==> q in ps || q == p
  {
    var qs := InsertStable(ps, p);
    if ps != [] && ps[|ps| - 1].priority < p.priority {
      var init, last := ps[..|ps| - 1], ps[|ps| - 1];
      InsertStableAdds(init, p);
      assert ps == init + [last];
      assert qs == InsertStable(init, p) + [last];
    } else {
      assert qs == ps + [p];
    }
  }

  lemma {:induction false} InsertStableSorts(ps: seq<Pair>, p: Pair)
    requires Descending(ps)
    ensures Descending(InsertStable(ps, p))
  {
    if ps != [] && ps[|ps| - 1].priority < p.priority {
      var init, last := ps[..|ps| - 1], ps[|ps| - 1];
      InsertStableSorts(init, p);
      InsertStableAdds(init, p);
      assert InsertStable(ps, p) == InsertStable(init, p) + [last];
      forall i | 0 <= i < |InsertStable(init, p)| ensures InsertStable(init, p)[i].priority >= last.priority {
        assert InsertStable(init, p)[i] in InsertStable(init, p);
      }
    } else {
      assert InsertStable(ps, p) == ps + [p];
    }
  }

  lemma {:induction false} StableSortSorts(ps: seq<Pair>)
    ensures SortOf(StableSort(ps), ps)
  {
    if ps != [] {
      StableSortSorts(ps[..|ps| - 1]);
      InsertStableSorts(StableSort(ps[..|ps| - 1]), ps[|ps| - 1]);
      InsertStableAdds(StableSort(ps[..|ps| - 1]), ps[|ps| - 1]);
      assert ps == ps[..|ps| - 1] + [ps[|ps| - 1]];
    }
  }

  // ---------------------------------------------------------------- forming again and forming more

  function Priorities(ps: seq<Pair>): seq<nat> {
    seq(|ps|, i requires 0 <= i < |ps| => ps[i].priority)
  }

  /** Candidates whose key is the same are ranked the same; so it is where addresses are told apart. */
  ghost predicate RankedByKey(ps: seq<Pair>, qs: seq<Pair>) {
    forall p, q :: p in ps && q in qs && KeyOf(p) == KeyOf(q) ==> p.priority == q.priority
  }

  lemma {:induction false} CardinalityAtMost(ps: seq<Pair>)
    ensures |Keys(ps)| <= |ps| && |Ids(ps)| <= |ps|
  {
    if ps != [] {
      var init, last := ps[..|ps| - 1], ps[|ps| - 1];
      CardinalityAtMost(init);
      assert ps == init + [last];
      AppendKeys(init, last);
    }
  }

  lemma SubsetSize<T>(a: set<T>, b: set<T>)
    requires a <= b
    ensures |a| <= |b|
  {
    assert b == a + (b - a);
  }

  lemma PrefixDistinct(ps: seq<Pair>, k: nat)
    requires Distinct(ps) && k <= |ps|
    ensures |Keys(ps[..k])| == k
  {
    assert forall p :: p in ps <==> p in ps[..k] || p in ps[k..] by {
      assert ps == ps[..k] + ps[k..];
    }
    assert Keys(ps) == Keys(ps[..k]) + Keys(ps[k..]);
    CardinalityAtMost(ps[..k]);
    CardinalityAtMost(ps[k..]);
  }

  /** Ranked above qs[k], the first k + 1 of `ps` have their keys among the first k of `qs`. */
  lemma KeysRankedAbove(ps: seq<Pair>, qs: seq<Pair>, k: nat)
    requires Keys(ps) == Keys(qs) && Descending(ps) && Descending(qs) && RankedByKey(ps, qs)
    requires k < |ps| == |qs| && ps[k].priority > qs[k].priority
    ensures Keys(ps[..k + 1]) <= Keys(qs[..k])
  {
    forall key | key in Keys(ps[..k + 1]) ensures key in Keys(qs[..k]) {
      var i :| 0 <= i <= k && KeyOf(ps[i]) == key;
      assert KeyOf(ps[i]) in Keys(qs);
      var j :| 0 <= j < |qs| && KeyOf(qs[j]) == key;
      assert ps[i] in ps && qs[j] in qs;
      assert j < k;
      assert qs[j] in qs[..k];
    }
  }

  /** Were ps[k] ranked above qs[k], k + 1 keys would have to fit in the first k places of qs. */
  lemma NotRankedAbove(ps: seq<Pair>, qs: seq<Pair>, k: nat)
    requires Distinct(ps) && Distinct(qs) && Keys(ps) == Keys(qs)
    requires Descending(ps) && Descending(qs) && RankedByKey(ps, qs)
    requires k < |ps|
    ensures k < |qs| && ps[k].priority <= qs[k].priority
  {
    if ps[k].priority > qs[k].priority {
      KeysRankedAbove(ps, qs, k);
      PrefixDistinct(ps, k + 1);
      CardinalityAtMost(qs[..k]);
      SubsetSize(Keys(ps[..k + 1]), Keys(qs[..k]));
    }
  }

  /** Two sorted lists of pairs over the same keys list the same priorities in the same order. */
  lemma SameKeysSamePriorities(ps: seq<Pair>, qs: seq<Pair>)
    requires Distinct(ps) && Distinct(qs) && Keys(ps) == Keys(qs)
    requires Descending(ps) && Descending(qs) && RankedByKey(ps, qs)
    ensures Priorities(ps) == Priorities(qs)
  {
    forall k | 0 <= k < |ps| ensures ps[k].priority == qs[k].priority {
      NotRankedAbove(ps, qs, k);
      NotRankedAbove(qs, ps, k);
    }
  }
}
