/** The planner of boot-time auto-reconnect with rotating addresses. */
module Reconnect {
  import opened Types
  import opened Scanner

  const MAX_CONNECTIONS: nat := 2
  const CLAIM_BITS: nat := 32

  /** `scanned` is the scan result to connect to; without one, the stored address is used. */
  datatype Target = Target(peer: nat, scanned: Option<nat>)

  /** Whether scan result `scanned` is stored peer `peer`. */
  type Matches = (nat, nat) -> bool

  function Min(a: nat, b: nat): nat {
    if a < b then a else b
  }

  // ─── The greedy plan ───────────────────────────────────────────────────────

  /** The least unclaimed match of `peer` from `s` on, below `count`. */
  function Choice(peer: nat, s: nat, count: nat, matches: Matches, claimed: set<nat>): (r: Option<nat>)
    ensures r.Some? ==> s <= r.value < count && r.value !in claimed && matches(peer, r.value)
    ensures forall e: nat | s <= e < (if r.Some? then r.value else count) :: matches(peer, e) ==> e in claimed
    decreases count - s
  {
    if s >= count then None
    else if s !in claimed && matches(peer, s) then Some(s)
    else Choice(peer, s + 1, count, matches, claimed)
  }

  function WithChoice(claimed: set<nat>, choice: Option<nat>): set<nat> {
    if choice.Some? then claimed + {choice.value} else claimed
  }

  /** The targets of peers `peer` to `end`, when `claimed` is taken already. */
  function PlanFrom(peer: nat, end: nat, count: nat, matches: Matches, claimed: set<nat>): seq<Target>
    decreases end - peer
  {
    if peer >= end then [] else
    var choice := Choice(peer, 0, count, matches, claimed);
    [Target(peer, choice)] + PlanFrom(peer + 1, end, count, matches, WithChoice(claimed, choice))
  }

  function Plan(peerCount: nat, scannedCount: nat, matches: Matches): seq<Target> {
    PlanFrom(0, Min(peerCount, MAX_CONNECTIONS), Min(scannedCount, CLAIM_BITS), matches, {})
  }

  /** Scan result `s` went to one of the first `n` targets. */
  ghost predicate Taken(targets: seq<Target>, n: nat, s: nat) {
    exists k | 0 <= k < n && k < |targets| :: targets[k].scanned == Some(s)
  }

  lemma {:induction false} PlanFromMeaning(
      peer: nat, end: nat, count: nat, matches: Matches, claimed: set<nat>, k: nat)
    requires peer + k < end
    ensures var plan := PlanFrom(peer, end, count, matches, claimed);
            && |plan| == end - peer && plan[k].peer == peer + k
            && match plan[k].scanned
               case Some(s) =>
                 && s < count && s !in claimed && !Taken(plan, k, s) && matches(peer + k, s)
                 && forall e: nat | e < s && matches(peer + k, e) :: e in claimed || Taken(plan, k, e)
               case None =>
                 forall s: nat | s < count && matches(peer + k, s) :: s in claimed || Taken(plan, k, s)
    decreases end - peer
  {
    var plan := PlanFrom(peer, end, count, matches, claimed);
    var choice := Choice(peer, 0, count, matches, claimed);
    var rest := PlanFrom(peer + 1, end, count, matches, WithChoice(claimed, choice));
    assert plan == [Target(peer, choice)] + rest;
    if k == 0 {
      if peer + 1 < end {
        PlanFromMeaning(peer + 1, end, count, matches, WithChoice(claimed, choice), 0);
      }
    } else {
      PlanFromMeaning(peer + 1, end, count, matches, WithChoice(claimed, choice), k - 1);
      forall s: nat
        ensures Taken(plan, k, s) <==> choice == Some(s) || Taken(rest, k - 1, s)
      {
        TakenStep(plan, rest, k, s);
      }
    }
  }

  lemma TakenStep(plan: seq<Target>, rest: seq<Target>, k: nat, s: nat)
    requires plan != [] && rest == plan[1..] && 0 < k <= |plan|
    ensures Taken(plan, k, s) <==> plan[0].scanned == Some(s) || Taken(rest, k - 1, s)
  {
    if Taken(plan, k, s) && plan[0].scanned != Some(s) {
      var i :| 0 <= i < k && i < |plan| && plan[i].scanned == Some(s);
      assert rest[i - 1].scanned == Some(s);
    }
    if Taken(rest, k - 1, s) {
      var i :| 0 <= i < k - 1 && i < |rest| && rest[i].scanned == Some(s);
      assert plan[i + 1].scanned == Some(s);
    }
  }

  /**
   Target k is peer k, there is one per peer up to two; each takes its least match that no
   earlier target took, and goes without only if earlier targets took all of its matches.
   */
  lemma PlanMeaning(peerCount: nat, scannedCount: nat, matches: Matches, k: nat)
    requires k < Min(peerCount, 2)
    ensures var plan := Plan(peerCount, scannedCount, matches);
            && |plan| == Min(peerCount, 2) && plan[k].peer == k
            && match plan[k].scanned
               case Some(s) =>
                 && s < Min(scannedCount, 32) && !Taken(plan, k, s) && matches(k, s)
                 && forall e: nat | e < s && matches(k, e) :: Taken(plan, k, e)
               case None =>
                 forall s: nat | s < Min(scannedCount, 32) && matches(k, s) :: Taken(plan, k, s)
  {
    PlanFromMeaning(0, Min(peerCount, MAX_CONNECTIONS), Min(scannedCount, CLAIM_BITS), matches, {}, k);
  }

  // ─── The bitset ────────────────────────────────────────────────────────────

  /** `bits & (1 << i) != 0`, on the binary digits of an unsigned number. */
  predicate HasBit(bits: nat, i: nat) {
    if i == 0 then bits % 2 == 1 else HasBit(bits / 2, i - 1)
  }

  /** `bits | (1 << i)`. */
  function WithBit(bits: nat, i: nat): nat {
    if i == 0 then bits - bits % 2 + 1 else 2 * WithBit(bits / 2, i - 1) + bits % 2
  }

  function Pow2(n: nat): nat {
    if n == 0 then 1 else 2 * Pow2(n - 1)
  }

  /** `bits` is a word of 32 bits and has exactly the bits of `claimed` set. */
  ghost predicate Represents(bits: nat, claimed: set<nat>) {
    bits < Pow2(CLAIM_BITS) && forall i: nat | i < CLAIM_BITS :: i in claimed <==> HasBit(bits, i)
  }

  lemma {:induction false} SetBit(bits: nat, i: nat, j: nat)
    ensures HasBit(WithBit(bits, i), j) <==> i == j || HasBit(bits, j)
    decreases i
  {
    if i > 0 && j > 0 {
      SetBit(bits / 2, i - 1, j - 1);
    }
  }

  lemma {:induction false} SetBitFits(bits: nat, i: nat, n: nat)
    requires i < n && bits < Pow2(n)
    ensures WithBit(bits, i) < Pow2(n)
    decreases i
  {
    var q, r, half := bits / 2, bits % 2, Pow2(n - 1);
    assert bits == 2 * q + r && Pow2(n) == 2 * half;
    assert q < half;
    if i == 0 {
      assert WithBit(bits, i) == 2 * q + 1;
    } else {
      SetBitFits(q, i - 1, n - 1);
      assert WithBit(bits, i) == 2 * WithBit(q, i - 1) + r;
    }
  }

  lemma {:induction false} NoBits(i: nat)
    ensures !HasBit(0, i)
    decreases i
  {
    if i > 0 {
      NoBits(i - 1);
    }
  }

  lemma {:induction false} Pow2Positive(n: nat)
    ensures Pow2(n) > 0
  {
    if n > 0 {
      Pow2Positive(n - 1);
    }
  }

  /** Setting a bit is adding a member. */
  lemma ClaimBit(bits: nat, claimed: set<nat>, i: nat)
    requires i < CLAIM_BITS && Represents(bits, claimed)
    ensures Represents(WithBit(bits, i), claimed + {i})
  {
    SetBitFits(bits, i, CLAIM_BITS);
    forall j: nat | j < CLAIM_BITS
      ensures j in claimed + {i} <==> HasBit(WithBit(bits, i), j)
    {
      SetBit(bits, i, j);
    }
  }

  lemma EmptyBits()
    ensures Represents(0, {})
  {
    Pow2Positive(CLAIM_BITS);
    forall i: nat {
      NoBits(i);
    }
  }

  /** The inner loop: the least unclaimed match of `peer`, claimed by setting its bit. */
  method ClaimScan(peer: nat, count: nat, matches: Matches, claimed: nat, ghost taken: set<nat>)
      returns (scanned: Option<nat>, claimed': nat)
    requires count <= CLAIM_BITS && Represents(claimed, taken)
    ensures scanned == Choice(peer, 0, count, matches, taken)
    ensures Represents(claimed', WithChoice(taken, scanned))
  {
    for s := 0 to count
      invariant Choice(peer, 0, count, matches, taken) == Choice(peer, s, count, matches, taken)
    {
      if !HasBit(claimed, s) && matches(peer, s) {
        ClaimBit(claimed, taken, s);
        return Some(s), WithBit(claimed, s);
      }
    }
    return None, claimed;
  }

  /** `resolve_reconnect_targets`: the bitset loop computes the greedy plan. */
  method ResolveReconnectTargets(peerCount: nat, scannedCount: nat, matches: Matches) returns (targets: seq<Target>)
    ensures targets == Plan(peerCount, scannedCount, matches)
  {
    targets := [];
    var claimed := 0;
    ghost var taken: set<nat> := {};
    var count := Min(scannedCount, CLAIM_BITS);
    ghost var end := Min(peerCount, MAX_CONNECTIONS);
    EmptyBits();
    for peer := 0 to peerCount
      invariant |targets| == peer <= MAX_CONNECTIONS && Represents(claimed, taken)
      invariant targets + PlanFrom(peer, end, count, matches, taken) == Plan(peerCount, scannedCount, matches)
    {
      if |targets| == MAX_CONNECTIONS {
        break;
      }
      var scanned;
      scanned, claimed := ClaimScan(peer, count, matches, claimed, taken);
      taken := WithChoice(taken, scanned);
      targets := targets + [Target(peer, scanned)];
    }
  }

  // ─── The devices that boot connects to ─────────────────────────────────────

  /** A scan result is a peer if its IRK resolves the address or the addresses are equal. */
  predicate IsPeer(peers: seq<Device>, scanned: seq<Device>, resolved: set<(int, int)>, p: int, s: int) {
    && 0 <= p < |peers| && 0 <= s < |scanned|
    && ((p, s) in resolved || peers[p].address == scanned[s].address)
  }

  /** The device reserved for a target: the live address under the stored name, or the stored device. */
  function TargetDevice(peers: seq<Device>, scanned: seq<Device>, t: Target): Device
    requires t.peer < |peers| && (t.scanned.Some? ==> t.scanned.value < |scanned|)
  {
    match t.scanned
    case Some(i) => Device(scanned[i].address, peers[t.peer].name, scanned[i].rssi)
    case None => peers[t.peer]
  }

  function BootMatches(peers: seq<Device>, scanned: seq<Device>, resolved: set<(int, int)>): Matches {
    (p: nat, s: nat) => IsPeer(peers, scanned, resolved, p, s)
  }

  function BootPlan(peers: seq<Device>, scanned: seq<Device>, resolved: set<(int, int)>): (plan: seq<Target>)
    ensures |plan| == Min(|peers|, MAX_CONNECTIONS)
    ensures forall k | 0 <= k < |plan| ::
              plan[k].peer == k && (plan[k].scanned.Some? ==> plan[k].scanned.value < |scanned|)
  {
    var matches := BootMatches(peers, scanned, resolved);
    var plan := Plan(|peers|, |scanned|, matches);
    assert forall k: nat | k < Min(|peers|, MAX_CONNECTIONS) ::
        && |plan| == Min(|peers|, MAX_CONNECTIONS)
        && plan[k].peer == k && (plan[k].scanned.Some? ==> plan[k].scanned.value < |scanned|)
    by {
      forall k: nat | k < Min(|peers|, MAX_CONNECTIONS) {
        PlanMeaning(|peers|, |scanned|, matches, k);
      }
    }
    plan
  }

  /** What boot reserves, slot by slot. */
  function BootDevices(peers: seq<Device>, scanned: seq<Device>, resolved: set<(int, int)>): (ds: seq<Device>)
    ensures |ds| == Min(|peers|, MAX_CONNECTIONS)
  {
    var plan := BootPlan(peers, scanned, resolved);
    seq(|plan|, k requires 0 <= k < |plan| => TargetDevice(peers, scanned, plan[k]))
  }

  /**
   Slot k is reserved for peer k under its stored name: at the live address and signal of its
   least match that no earlier peer took, or exactly as stored if earlier peers took them all.
   */
  lemma BootDevicesMeaning(peers: seq<Device>, scanned: seq<Device>, resolved: set<(int, int)>, k: nat)
    requires k < Min(|peers|, MAX_CONNECTIONS) && |scanned| <= CLAIM_BITS
    ensures var plan, d := BootPlan(peers, scanned, resolved), BootDevices(peers, scanned, resolved)[k];
            && d.name == peers[k].name
            && match plan[k].scanned
               case Some(s) =>
                 && s < |scanned| && IsPeer(peers, scanned, resolved, k, s) && !Taken(plan, k, s)
                 && (forall e: nat | e < s && IsPeer(peers, scanned, resolved, k, e) :: Taken(plan, k, e))
                 && d.address == scanned[s].address && d.rssi == scanned[s].rssi
               case None =>
                 && d == peers[k]
                 && forall s: nat | IsPeer(peers, scanned, resolved, k, s) :: Taken(plan, k, s)
  {
    var matches := BootMatches(peers, scanned, resolved);
    PlanMeaning(|peers|, |scanned|, matches, k);
    assert forall s: nat :: matches(k, s) == IsPeer(peers, scanned, resolved, k, s);
  }

  /**
   The first peer's choice is advertised at the second peer's stored address, and the second
   peer has no other match.
   */
  predicate BootClash(peers: seq<Device>, scanned: seq<Device>, resolved: set<(int, int)>)
    requires |peers| == 2
  {
    exists i | 0 <= i < |scanned| ::
      && IsPeer(peers, scanned, resolved, 0, i)
      && (forall j | 0 <= j < i :: !IsPeer(peers, scanned, resolved, 0, j))
      && scanned[i].address == peers[1].address
      && forall j | 0 <= j < |scanned| && j != i :: !IsPeer(peers, scanned, resolved, 1, j)
  }

  lemma TakenByFirst(plan: seq<Target>, s: nat)
    requires plan != []
    ensures !Taken(plan, 0, s)
    ensures Taken(plan, 1, s) <==> plan[0].scanned == Some(s)
  {}

  /** The two targets of boot, in terms of the matches alone. */
  lemma TwoTargets(peers: seq<Device>, scanned: seq<Device>, resolved: set<(int, int)>)
    requires |peers| == 2 && |scanned| <= CLAIM_BITS
    ensures var plan := BootPlan(peers, scanned, resolved);
            && (forall i | plan[0].scanned == Some(i) ::
                  && IsPeer(peers, scanned, resolved, 0, i)
                  && forall j | 0 <= j < i :: !IsPeer(peers, scanned, resolved, 0, j))
            && (plan[0].scanned.None? ==> forall j :: !IsPeer(peers, scanned, resolved, 0, j))
            && (forall i | plan[1].scanned == Some(i) ::
                  IsPeer(peers, scanned, resolved, 1, i) && plan[0].scanned != Some(i))
            && (plan[1].scanned.None? ==>
                  forall j: nat | IsPeer(peers, scanned, resolved, 1, j) :: plan[0].scanned == Some(j))
  {
    var matches := BootMatches(peers, scanned, resolved);
    var plan := BootPlan(peers, scanned, resolved);
    PlanMeaning(2, |scanned|, matches, 0);
    PlanMeaning(2, |scanned|, matches, 1);
    forall s: nat {
      TakenByFirst(plan, s);
    }
    forall p: nat, j: nat
      ensures matches(p, j) == IsPeer(peers, scanned, resolved, p, j)
    {
    }
  }

  /**
   Boot reserves the same address for both slots exactly in the clash case, given distinct
   stored addresses and a deduplicated scan that fits the bitset.
   */
  lemma BootCollidesIff(peers: seq<Device>, scanned: seq<Device>, resolved: set<(int, int)>)
    requires |peers| == 2 && DistinctDevices(peers)
    requires DistinctDevices(scanned) && |scanned| <= CLAIM_BITS
    ensures DistinctDevices(BootDevices(peers, scanned, resolved)) <==> !BootClash(peers, scanned, resolved)
  {
    TwoTargets(peers, scanned, resolved);
    var plan, ds := BootPlan(peers, scanned, resolved), BootDevices(peers, scanned, resolved);
    assert ds[0] == TargetDevice(peers, scanned, plan[0]) && ds[1] == TargetDevice(peers, scanned, plan[1]);
    if ds[0].address == ds[1].address {
      if plan[1].scanned.Some? {
        var s := plan[1].scanned.value;
        assert plan[0].scanned.None? ==> IsPeer(peers, scanned, resolved, 0, s);
      } else {
        assert plan[0].scanned.Some?;
        var i := plan[0].scanned.value;
        assert IsPeer(peers, scanned, resolved, 0, i) && scanned[i].address == peers[1].address;
      }
    }
  }

  /** When no scan result is more than one stored peer, boot reserves distinct addresses. */
  lemma UnambiguousBootIsDistinct(peers: seq<Device>, scanned: seq<Device>, resolved: set<(int, int)>)
    requires |peers| == 2 && DistinctDevices(peers)
    requires DistinctDevices(scanned) && |scanned| <= CLAIM_BITS
    requires forall s | 0 <= s < |scanned| ::
               !(IsPeer(peers, scanned, resolved, 0, s) && IsPeer(peers, scanned, resolved, 1, s))
    ensures DistinctDevices(BootDevices(peers, scanned, resolved))
  {
    BootCollidesIff(peers, scanned, resolved);
  }

  /** The clash happens: one advertisement, resolved to peer 0, at the stored address of peer 1. */
  lemma BootCanCollide(a: Address, b: Address)
    requires a != b
    ensures var peers := [Device(a, "", 0), Device(b, "", 0)];
            !DistinctDevices(BootDevices(peers, [Device(b, "", -60)], {(0, 0)}))
  {
    var peers := [Device(a, "", 0), Device(b, "", 0)];
    var scanned := [Device(b, "", -60)];
    assert IsPeer(peers, scanned, {(0, 0)}, 0, 0) && scanned[0].address == peers[1].address;
    BootCollidesIff(peers, scanned, {(0, 0)});
  }
}
