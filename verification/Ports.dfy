/** Gateway port allocation. */
module Ports {
  import opened Text
  import opened State
  import opened Identity

  datatype PortError = BadStart | BadStep

  /** The settings used when there are none. */
  const DEFAULTS := OverlayConfig("", "openclaw", "", "", 18789, 20)

  function Settings(cfg: MaybeConfig): OverlayConfig {
    if cfg.Some? then cfg.value else DEFAULTS
  }

  function UsedPorts(users: set<User>): set<int> {
    set u | u in users && u.port > 0 :: u.port
  }

  function PortAt(cfg: OverlayConfig, k: int): int { cfg.portRangeStart + k * cfg.portRangeStep }

  predicate GoodRange(cfg: OverlayConfig) { cfg.portRangeStart > 0 && cfg.portRangeStep >= 20 }

  predicate AllUsed(cfg: OverlayConfig, used: set<int>, k: nat) {
    forall i :: 0 <= i < k ==> PortAt(cfg, i) in used
  }

  function Rungs(cfg: OverlayConfig, k: nat): set<int> {
    set i | 0 <= i < k :: PortAt(cfg, i)
  }

  lemma {:induction false} RungsAreDistinct(cfg: OverlayConfig, k: nat)
    requires GoodRange(cfg)
    ensures |Rungs(cfg, k)| == k
  {
    if k > 0 {
      RungsAreDistinct(cfg, k - 1);
      var last := PortAt(cfg, k - 1);
      assert last !in Rungs(cfg, k - 1) by {
        if last in Rungs(cfg, k - 1) {
          var i :| 0 <= i < k - 1 && PortAt(cfg, i) == last;
          RungsGrow(cfg, i, k - 1);
        }
      }
      assert Rungs(cfg, k) == Rungs(cfg, k - 1) + {last};
    }
  }

  lemma NextRung(start: int, step: int, j: int)
    ensures start + j * step == start + (j - 1) * step + step
  {}

  /** Higher rungs are at least 20 apart. */
  lemma {:induction false} RungsGrow(cfg: OverlayConfig, i: int, j: int)
    requires GoodRange(cfg) && i < j
    ensures PortAt(cfg, i) + 20 <= PortAt(cfg, j)
    decreases j - i
  {
    NextRung(cfg.portRangeStart, cfg.portRangeStep, j);
    assert PortAt(cfg, j) == PortAt(cfg, j - 1) + cfg.portRangeStep;
    hide PortAt;
    if i < j - 1 { RungsGrow(cfg, i, j - 1); }
  }

  lemma {:induction false} Smaller<T>(a: set<T>, b: set<T>)
    requires a <= b
    ensures |a| <= |b|
  {
    if a != {} {
      var x :| x in a;
      Smaller(a - {x}, b - {x});
    }
  }

  /** The pigeonhole: no more consecutive ports are taken than there are used ports. */
  lemma Pigeonhole(cfg: OverlayConfig, used: set<int>, k: nat)
    requires GoodRange(cfg) && AllUsed(cfg, used, k)
    ensures k <= |used|
  {
    RungsAreDistinct(cfg, k);
    Smaller(Rungs(cfg, k), used);
  }

  /** The first free position of the ladder at or above `k`. */
  function FreeFrom(cfg: OverlayConfig, used: set<int>, k: nat): (r: nat)
    requires GoodRange(cfg) && AllUsed(cfg, used, k)
    ensures AllUsed(cfg, used, r) && PortAt(cfg, r) !in used
    decreases |used| - k
  {
    Pigeonhole(cfg, used, k);
    if PortAt(cfg, k) !in used then k
    else
      Pigeonhole(cfg, used, k + 1);
      FreeFrom(cfg, used, k + 1)
  }

  /** The position and the port that allocation finds. */
  function FreeIndex(cfg: OverlayConfig, used: set<int>): (k: nat)
    requires GoodRange(cfg)
    ensures AllUsed(cfg, used, k) && PortAt(cfg, k) !in used
  {
    FreeFrom(cfg, used, 0)
  }

  function Allocated(cfg: MaybeConfig, used: set<int>): Result<int, PortError> {
    var c := Settings(cfg);
    if c.portRangeStart <= 0 then Err(BadStart)
    else if c.portRangeStep < 20 then Err(BadStep)
    else Ok(PortAt(c, FreeIndex(c, used)))
  }

  /** Rung `k` is free, every lower one is taken, and it is no higher than the number of used ports. */
  predicate IsLowestFree(cfg: OverlayConfig, used: set<int>, k: int) {
    0 <= k <= |used| && PortAt(cfg, k) !in used && AllUsed(cfg, used, k)
  }

  /** The search ends, with the lowest free port of the ladder, after at most as many steps as
      there are distinct used ports; so the port is within range whenever that rung is. */
  lemma AllocationIsTight(cfg: MaybeConfig, used: set<int>)
    ensures Allocated(cfg, used).Ok? <==> GoodRange(Settings(cfg))
    ensures Allocated(cfg, used).Ok? ==>
      exists k :: IsLowestFree(Settings(cfg), used, k) && Allocated(cfg, used) == Ok(PortAt(Settings(cfg), k))
    ensures cfg.None? ==> exists k :: IsLowestFree(Settings(cfg), used, k) && Allocated(cfg, used) == Ok(18789 + k * 20)
    ensures Allocated(cfg, used).Ok? && PortAt(Settings(cfg), |used|) <= 65535 ==>
      0 < Allocated(cfg, used).value <= 65535
  {
    var c := Settings(cfg);
    if GoodRange(c) {
      var k := FreeIndex(c, used);
      Pigeonhole(c, used, k);
      if k < |used| { RungsGrow(c, k, |used|); }
      if 0 < k { RungsGrow(c, 0, k); }
      assert Allocated(cfg, used) == Ok(PortAt(c, k));
    }
  }

  /** The lowest free position is unique. */
  lemma FreeIndexIsUnique(cfg: OverlayConfig, used: set<int>, k: nat)
    requires GoodRange(cfg) && AllUsed(cfg, used, k) && PortAt(cfg, k) !in used
    ensures k == FreeIndex(cfg, used)
  {
    var r := FreeIndex(cfg, used);
    assert r < k ==> PortAt(cfg, r) in used;
    assert k < r ==> PortAt(cfg, k) in used;
  }

  /** The allocator: the search loop has no bound of its own. */
  method AllocateGatewayPort(cfg: MaybeConfig, existing: seq<User>) returns (r: Result<int, PortError>)
    ensures r == Allocated(cfg, UsedPorts(set u | u in existing))
  {
    var c := Settings(cfg);
    if c.portRangeStart <= 0 { return Err(BadStart); }
    if c.portRangeStep < 20 { return Err(BadStep); }
    var used: set<int> := {};
    for i := 0 to |existing|
      invariant forall p :: p in used <==> p > 0 && exists j :: 0 <= j < i && existing[j].port == p
    {
      if existing[i].port > 0 { used := used + {existing[i].port}; }
    }
    UsedPortsOf(existing, used);
    var port := c.portRangeStart;
    ghost var k: nat := 0;
    while port in used
      invariant port == PortAt(c, k) && AllUsed(c, used, k)
      decreases |used| - k
    {
      assert AllUsed(c, used, k + 1);
      Pigeonhole(c, used, k + 1);
      port := port + c.portRangeStep;
      k := k + 1;
    }
    FreeIndexIsUnique(c, used, k);
    return Ok(port);
  }

  lemma UsedPortsOf(existing: seq<User>, used: set<int>)
    requires forall p :: p in used <==> p > 0 && exists j :: 0 <= j < |existing| && existing[j].port == p
    ensures used == UsedPorts(set u | u in existing)
  {
    var all := set u | u in existing;
    forall p | p in used ensures p in UsedPorts(all) {
      var j :| 0 <= j < |existing| && existing[j].port == p;
      assert existing[j] in all;
    }
  }
}
