/** Properties of sequences of registry operations: what many registrations
    hand out, and what many updates add up to. Each run applies the
    operations of `Profiling` one after the other, which is also what any
    interleaving of them by concurrent callers amounts to once each operation
    is taken as atomic. */
module Runs {
  import opened Unsigned
  import CString
  import opened Profiling

  /** A registration from call site `site` (an index into the latches). */
  datatype Call = Call(site: nat, name: seq<bv8>)

  /** The outcome of a run of registrations: final state, final latches and
      the index each call returned, in order. */
  datatype Run = Run(state: State, latches: seq<u32>, indices: seq<u32>)

  predicate SitesExist(latches: seq<u32>, calls: seq<Call>)
  {
    forall k :: 0 <= k < |calls| ==> calls[k].site < |latches|
  }

  /** Performs `calls` in order against `s`, each with its site's latch. */
  function RegisterAll(s: State, latches: seq<u32>, calls: seq<Call>): (r: Run)
    requires WellFormed(s)
    requires s.regionCount + |calls| <= U32_MAX
    requires SitesExist(latches, calls)
    ensures WellFormed(r.state)
    ensures r.state.table.Mapped? == s.table.Mapped?
    ensures |r.latches| == |latches| && |r.indices| == |calls|
    ensures s.regionCount <= r.state.regionCount <= s.regionCount + |calls|
    decreases |calls|
  {
    if calls == [] then Run(s, latches, [])
    else
      var c := calls[0];
      var reg := Register(s, latches[c.site], c.name);
      var rest := RegisterAll(reg.state, latches[c.site := reg.latch], calls[1..]);
      Run(rest.state, rest.latches, [reg.index] + rest.indices)
  }

  /** Every latch holds 0 or a claimed slot, and no two latches hold the same
      slot. */
  predicate LatchesValid(s: State, latches: seq<u32>)
  {
    (forall i :: 0 <= i < |latches| ==> LatchValid(s, latches[i])) &&
    (forall i, j :: 0 <= i < |latches| && 0 <= j < |latches| && i != j && latches[i] != 0 ==>
       latches[i] != latches[j])
  }

  /** One registration keeps the latches valid, and sets no latch but its own. */
  lemma RegisterKeepsLatchesValid(s: State, latches: seq<u32>, site: nat, name: seq<bv8>)
    requires WellFormed(s) && s.regionCount < U32_MAX
    requires site < |latches| && LatchesValid(s, latches)
    ensures var reg := Register(s, latches[site], name);
      LatchesValid(reg.state, latches[site := reg.latch])
  {
    var reg := Register(s, latches[site], name);
    var after := latches[site := reg.latch];
    forall i, j | 0 <= i < |after| && 0 <= j < |after| && i != j && after[i] != 0
      ensures after[i] != after[j]
    {
      if reg.latch != latches[site] {
        // a fresh slot was claimed: it lies above every slot already held
        assert reg.latch as int == s.regionCount + 1;
        assert LatchValid(s, latches[i]) && LatchValid(s, latches[j]);
      }
    }
  }

  /** Over any run of registrations: latches stay valid (so no two call sites
      share a slot), a resolved latch never changes, every call that returns
      a slot returns its site's final latch, two calls from one site that both
      get a slot get the same one, and calls from different sites never get
      the same slot. */
  lemma {:induction false} RegisterAllSlotsDistinct(s: State, latches: seq<u32>, calls: seq<Call>)
    requires WellFormed(s) && s.regionCount + |calls| <= U32_MAX && SitesExist(latches, calls)
    requires LatchesValid(s, latches)
    ensures var r := RegisterAll(s, latches, calls);
      && LatchesValid(r.state, r.latches)
      && (forall i :: 0 <= i < |latches| && latches[i] != 0 ==> r.latches[i] == latches[i])
      && (forall k :: 0 <= k < |calls| && r.indices[k] != 0 ==> r.indices[k] == r.latches[calls[k].site])
      && (forall k1, k2 ::
            (0 <= k1 < |calls| && 0 <= k2 < |calls| && calls[k1].site == calls[k2].site &&
             r.indices[k1] != 0 && r.indices[k2] != 0) ==>
            r.indices[k1] == r.indices[k2])
      && (forall k1, k2 ::
            (0 <= k1 < |calls| && 0 <= k2 < |calls| && calls[k1].site != calls[k2].site &&
             r.indices[k1] != 0) ==>
            r.indices[k1] != r.indices[k2])
    decreases |calls|
  {
    if calls != [] {
      var c := calls[0];
      var reg := Register(s, latches[c.site], c.name);
      var next := latches[c.site := reg.latch];
      RegisterKeepsLatchesValid(s, latches, c.site, c.name);
      assert SitesExist(next, calls[1..]);
      RegisterAllSlotsDistinct(reg.state, next, calls[1..]);
      var r := RegisterAll(s, latches, calls);
      assert r.indices[0] == reg.index;
      assert forall k :: 1 <= k < |calls| ==> r.indices[k] == RegisterAll(reg.state, next, calls[1..]).indices[k - 1];
    }
  }

  /** Once the table is exhausted, registrations change nothing but the
      count: unresolved latches stay 0 and get 0, resolved ones get their
      slot. */
  lemma {:induction false} ExhaustionIsSticky(s: State, latches: seq<u32>, calls: seq<Call>)
    requires WellFormed(s) && s.regionCount + |calls| <= U32_MAX && SitesExist(latches, calls)
    requires s.table.Mapped? && s.regionCount >= MAX_REGIONS
    ensures var r := RegisterAll(s, latches, calls);
      && r.state.table == s.table
      && r.state.regionCount >= MAX_REGIONS
      && r.latches == latches
      && (forall k :: 0 <= k < |calls| ==> r.indices[k] == latches[calls[k].site])
    decreases |calls|
  {
    if calls != [] {
      var c := calls[0];
      var reg := Register(s, latches[c.site], c.name);
      assert latches[c.site := reg.latch] == latches;
      ExhaustionIsSticky(reg.state, latches, calls[1..]);
    }
  }

  /** Call sites pairwise distinct, each with an unresolved latch. */
  predicate FreshSites(latches: seq<u32>, calls: seq<Call>)
    requires SitesExist(latches, calls)
  {
    (forall k :: 0 <= k < |calls| ==> latches[calls[k].site] == 0) &&
    (forall k1, k2 :: 0 <= k1 < k2 < |calls| ==> calls[k1].site != calls[k2].site)
  }

  /** Fresh call sites get consecutive slots after those already claimed,
      until the table is full, and 0 from then on. */
  lemma {:induction false} FreshSitesGetConsecutiveSlots(s: State, latches: seq<u32>, calls: seq<Call>)
    requires WellFormed(s) && s.regionCount + |calls| <= U32_MAX && SitesExist(latches, calls)
    requires s.table.Mapped? && FreshSites(latches, calls)
    ensures var r := RegisterAll(s, latches, calls);
      && r.state.regionCount == s.regionCount + |calls|
      && forall k :: 0 <= k < |calls| ==>
           r.indices[k] as int == if s.regionCount + k + 1 <= MAX_REGIONS then s.regionCount + k + 1 else 0
    decreases |calls|
  {
    if calls != [] {
      var c := calls[0];
      var reg := Register(s, latches[c.site], c.name);
      var next := latches[c.site := reg.latch];
      assert SitesExist(next, calls[1..]);
      assert FreshSites(next, calls[1..]) by {
        forall k | 0 <= k < |calls[1..]| ensures next[calls[1..][k].site] == 0 {
          assert calls[1..][k] == calls[k + 1];
          assert calls[0].site != calls[k + 1].site;
        }
      }
      FreshSitesGetConsecutiveSlots(reg.state, next, calls[1..]);
      var r := RegisterAll(s, latches, calls);
      assert forall k :: 1 <= k < |calls| ==> r.indices[k] == RegisterAll(reg.state, next, calls[1..]).indices[k - 1];
    }
  }

  /** With profiling disabled, registrations change nothing and return 0. */
  lemma {:induction false} DisabledRegistrationIsNoop(s: State, latches: seq<u32>, calls: seq<Call>)
    requires WellFormed(s) && s.regionCount + |calls| <= U32_MAX && SitesExist(latches, calls)
    requires s.table.Unmapped?
    ensures var r := RegisterAll(s, latches, calls);
      r.state == s && r.latches == latches && forall k :: 0 <= k < |calls| ==> r.indices[k] == 0
    decreases |calls|
  {
    if calls != [] {
      var c := calls[0];
      assert latches[c.site := latches[c.site]] == latches;
      DisabledRegistrationIsNoop(s, latches, calls[1..]);
    }
  }

  /** One timed piece of work, as passed to `Notify`. */
  datatype Work = Work(startTicks: u64, endTicks: u64, iterationCount: u32)

  /** Reports every piece of work in `works` for region `index`, in order. */
  function NotifyAll(s: State, index: u32, works: seq<Work>): (t: State)
    requires WellFormed(s)
    ensures WellFormed(t)
    ensures t.regionCount == s.regionCount && t.table.Mapped? == s.table.Mapped?
    decreases |works|
  {
    if works == [] then s
    else
      var w := works[0];
      NotifyAll(Notify(s, index, w.startTicks, w.endTicks, w.iterationCount), index, works[1..])
  }

  /** Exact total of the iteration counts. */
  function IterationSum(works: seq<Work>): nat
  {
    if works == [] then 0 else works[0].iterationCount as nat + IterationSum(works[1..])
  }

  /** Exact total of the elapsed ticks, each taken modulo 2^64 as the
      unsigned subtraction gives it. */
  function TickSum(works: seq<Work>): nat
  {
    if works == [] then 0
    else (works[0].endTicks as int - works[0].startTicks as int) % TWO_64 + TickSum(works[1..])
  }

  /** No update is lost: after any number of reports for a valid index, the
      block's accumulators hold the exact totals (modulo 2^64), its name is
      kept, and no other block has changed. */
  lemma {:induction false} NotifyAllAccumulates(s: State, index: u32, works: seq<Work>)
    requires WellFormed(s) && Accepts(s, index)
    ensures var t := NotifyAll(s, index, works);
      var k := index as int - 1;
      var before, after := s.table.blocks, t.table.blocks;
      && |after| == |before|
      && (forall j :: 0 <= j < |before| && j != k ==> after[j] == before[j])
      && after[k].name == before[k].name
      && after[k].iterationTotal as int == (before[k].iterationTotal as int + IterationSum(works)) % TWO_64
      && after[k].ticksTotal as int == (before[k].ticksTotal as int + TickSum(works)) % TWO_64
    decreases |works|
  {
    if works != [] {
      var w := works[0];
      var s1 := Notify(s, index, w.startTicks, w.endTicks, w.iterationCount);
      NotifyAllAccumulates(s1, index, works[1..]);
      var k := index as int - 1;
      var b, b1 := s.table.blocks[k], s1.table.blocks[k];
      AddModLeft(b.iterationTotal as int + w.iterationCount as int, IterationSum(works[1..]));
      AddModLeft(b.ticksTotal as int + (w.endTicks as int - w.startTicks as int) % TWO_64, TickSum(works[1..]));
    }
  }

  /** With an index `Notify` ignores, any number of reports change nothing. */
  lemma {:induction false} NotifyAllIgnoresRejected(s: State, index: u32, works: seq<Work>)
    requires WellFormed(s) && !Accepts(s, index)
    ensures NotifyAll(s, index, works) == s
    decreases |works|
  {
    if works != [] {
      NotifyAllIgnoresRejected(s, index, works[1..]);
    }
  }

  /** Two reports give the same state in either order, so concurrent
      updates need no ordering between them. */
  lemma NotifyCommutes(s: State, i: u32, v: Work, j: u32, w: Work)
    requires WellFormed(s)
    ensures var s1 := Notify(s, i, v.startTicks, v.endTicks, v.iterationCount);
      var s2 := Notify(s, j, w.startTicks, w.endTicks, w.iterationCount);
      Notify(s1, j, w.startTicks, w.endTicks, w.iterationCount) ==
      Notify(s2, i, v.startTicks, v.endTicks, v.iterationCount)
  {
    if Accepts(s, i) && Accepts(s, j) {
      var blocks: seq<Block> := s.table.blocks;
      var ki: int, kj: int := i as int - 1, j as int - 1;
      if i == j {
        AddWorkCommutes(blocks[ki], v, w);
      } else {
        var vi: Block := AddWork(blocks[ki], v.startTicks, v.endTicks, v.iterationCount);
        var wj: Block := AddWork(blocks[kj], w.startTicks, w.endTicks, w.iterationCount);
        assert blocks[ki := vi][kj := wj] == blocks[kj := wj][ki := vi];
      }
    }
  }

  /** Two reports into one block give the same block in either order. */
  lemma AddWorkCommutes(b: Block, v: Work, w: Work)
    ensures AddWork(AddWork(b, v.startTicks, v.endTicks, v.iterationCount), w.startTicks, w.endTicks, w.iterationCount)
         == AddWork(AddWork(b, w.startTicks, w.endTicks, w.iterationCount), v.startTicks, v.endTicks, v.iterationCount)
  {
    var x, y := v.iterationCount as int, w.iterationCount as int;
    AddModLeft(b.iterationTotal as int + x, y);
    AddModLeft(b.iterationTotal as int + y, x);
    var dv := (v.endTicks as int - v.startTicks as int) % TWO_64;
    var dw := (w.endTicks as int - w.startTicks as int) % TWO_64;
    AddModLeft(b.ticksTotal as int + dv, dw);
    AddModLeft(b.ticksTotal as int + dw, dv);
  }

  /** A registration and a report commute: a report only touches
      accumulators and a registration only a name and the count, so the
      registration also returns the same index and latch either way. */
  lemma RegisterCommutesWithNotify(s: State, latch: u32, name: seq<bv8>, index: u32, w: Work)
    requires WellFormed(s) && s.regionCount < U32_MAX
    ensures var reg := Register(s, latch, name);
      var n := Notify(s, index, w.startTicks, w.endTicks, w.iterationCount);
      Register(n, latch, name) == reg.(state := Notify(reg.state, index, w.startTicks, w.endTicks, w.iterationCount))
  {
  }
}
