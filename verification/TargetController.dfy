/**
 The additive-increase / multiplicative-decrease controller that both the primary
 (server-lib/memory-coordinator.js) and an uncoordinated worker
 (server-lib/memory-governor.js) run once a second.
 */
module TargetController {
  import opened Integers
  import opened MemoryPlan

  const HEALTHY_SAMPLES: nat := 10

  /** `level` is the primary's target, or the worker's limit; `ceiling` is fixed at start. */
  datatype Controller = Controller(ceiling: int, level: int, healthy: int, lastSwapIO: nat)
  {
    predicate Valid() {
      0 <= level <= ceiling && 0 <= healthy < HEALTHY_SAMPLES
    }
  }

  function Step(c: Controller): int {
    Max(MIB, c.ceiling / 100)
  }

  function SafeLevel(c: Controller, inUse: int, headroom: int): int {
    Min(c.ceiling, inUse + headroom)
  }

  predicate Pressure(c: Controller, s: ResourceSnapshot) {
    s.UnderPressure() || s.SwapIO() > c.lastSwapIO
  }

  /** One sample. `inUse` is added back because it is already part of the occupied memory. */
  function Adjust(c: Controller, inUse: int, headroom: int, s: ResourceSnapshot): Controller
  {
    var safe := SafeLevel(c, inUse, headroom);
    var seen := c.(lastSwapIO := s.SwapIO());
    if Pressure(c, s) || safe < c.level then
      seen.(level := if Pressure(c, s) then Min(safe, c.level * 4 / 5) else safe, healthy := 0)
    else if c.healthy + 1 >= HEALTHY_SAMPLES then
      seen.(level := Min(safe, c.level + Step(c)), healthy := 0)
    else
      seen.(healthy := c.healthy + 1)
  }

  /** The level stays within its ceiling and is covered by what is in use plus the free room. */
  lemma AdjustStaysSafe(c: Controller, inUse: int, headroom: int, s: ResourceSnapshot)
    requires c.Valid() && 0 <= inUse && 0 <= headroom
    ensures
      var d := Adjust(c, inUse, headroom, s);
      && d.Valid()
      && d.ceiling == c.ceiling
      && d.level <= SafeLevel(c, inUse, headroom)
      && (Pressure(c, s) ==> 5 * d.level <= 4 * c.level)
      && (!Pressure(c, s) && c.level <= SafeLevel(c, inUse, headroom) ==> c.level <= d.level)
  {
  }

  /** What one sample does: pressure takes a fifth, or what is not safe if that is more; too little room takes what
      is not safe; and only the tenth calm sample in a row adds one step, or what is left up to the safe level. */
  lemma OneSampleMovesTheLevel(c: Controller, inUse: int, headroom: int, s: ResourceSnapshot)
    requires c.Valid() && 0 <= inUse && 0 <= headroom
    ensures
      var d := Adjust(c, inUse, headroom, s);
      var safe := if inUse + headroom < c.ceiling then inUse + headroom else c.ceiling;
      var pressure := (s.memoryPressure.Some? && s.memoryPressure.value >= 1.0) || s.SwapIO() > c.lastSwapIO;
      && d.lastSwapIO == s.SwapIO() && d.ceiling == c.ceiling && d.level <= safe
      && (pressure ==>
            d.healthy == 0 && 5 * d.level <= 4 * c.level && (d.level == safe || 4 * c.level < 5 * d.level + 5))
      && (!pressure && safe < c.level ==> d.healthy == 0 && d.level == safe)
      && (!pressure && c.level <= safe && c.healthy < 9 ==> d.healthy == c.healthy + 1 && d.level == c.level)
      && (!pressure && c.level <= safe && c.healthy == 9 ==>
            && d.healthy == 0 && 0 <= d.level - c.level <= Max(MIB, c.ceiling / 100)
            && (d.level == safe || d.level - c.level == Max(MIB, c.ceiling / 100)))
  {
  }

  datatype Sample = Sample(inUse: int, headroom: int, snapshot: ResourceSnapshot)

  function AdjustAll(c: Controller, samples: seq<Sample>): Controller
    decreases |samples|
  {
    if samples == [] then c
    else AdjustAll(Adjust(c, samples[0].inUse, samples[0].headroom, samples[0].snapshot), samples[1..])
  }

  /** No sample reports pressure and every sample leaves room for at least `floor` bytes. */
  ghost predicate Calm(c: Controller, samples: seq<Sample>, floor: int)
    decreases |samples|
  {
    samples != [] ==>
      && 0 <= samples[0].inUse && 0 <= samples[0].headroom
      && !Pressure(c, samples[0].snapshot)
      && floor <= SafeLevel(c, samples[0].inUse, samples[0].headroom)
      && Calm(Adjust(c, samples[0].inUse, samples[0].headroom, samples[0].snapshot), samples[1..], floor)
  }

  /** Ten calm samples buy one step, counting the healthy samples already banked. */
  lemma {:induction false} CalmSamplesClimb(c: Controller, samples: seq<Sample>, floor: int, steps: nat)
    requires c.Valid() && Calm(c, samples, floor)
    requires steps * HEALTHY_SAMPLES <= c.healthy + |samples|
    ensures AdjustAll(c, samples).level >= Min(floor, c.level + steps * Step(c))
    decreases |samples|
  {
    if samples == [] {
      assert steps == 0;
    } else {
      var first := samples[0];
      var next := Adjust(c, first.inUse, first.headroom, first.snapshot);
      AdjustStaysSafe(c, first.inUse, first.headroom, first.snapshot);
      assert Step(next) == Step(c);
      if next.level >= floor {
        CalmSamplesClimb(next, samples[1..], floor, 0);
      } else if next.healthy == 0 && steps > 0 {
        assert next.level == c.level + Step(c);
        CalmSamplesClimb(next, samples[1..], floor, steps - 1);
        assert (steps - 1) * Step(c) + Step(c) == steps * Step(c);
      } else {
        CalmSamplesClimb(next, samples[1..], floor, steps);
      }
    }
  }

  /** Nor does the level ever climb faster: n samples of any kind buy at most one step for every ten of them. */
  lemma {:induction false} ClimbsAreSlow(c: Controller, samples: seq<Sample>)
    requires c.Valid() && forall i :: 0 <= i < |samples| ==> 0 <= samples[i].inUse && 0 <= samples[i].headroom
    ensures AdjustAll(c, samples).level <= c.level + (c.healthy + |samples|) / HEALTHY_SAMPLES * Step(c)
    decreases |samples|
  {
    if samples != [] {
      var first := samples[0];
      var next := Adjust(c, first.inUse, first.headroom, first.snapshot);
      AdjustStaysSafe(c, first.inUse, first.headroom, first.snapshot);
      OneSampleMovesTheLevel(c, first.inUse, first.headroom, first.snapshot);
      hide Adjust;
      ClimbsAreSlow(next, samples[1..]);
      assert Step(next) == Step(c);
      assert next.level <= c.level
          || (next.level <= c.level + Step(c) && next.healthy == 0 && c.healthy == HEALTHY_SAMPLES - 1);
      hide Step;
      ClimbBounded(c.level, next.level, c.healthy, next.healthy, |samples|, Step(c), AdjustAll(c, samples).level);
    }
  }

  lemma ClimbBounded(level: int, next: int, healthy: int, nextHealthy: int, n: int, step: int, last: int)
    requires n > 0 && step >= 0 && 0 <= healthy && 0 <= nextHealthy <= healthy + 1
    requires next <= level || (next <= level + step && nextHealthy == 0 && healthy == HEALTHY_SAMPLES - 1)
    requires last <= next + (nextHealthy + n - 1) / HEALTHY_SAMPLES * step
    ensures last <= level + (healthy + n) / HEALTHY_SAMPLES * step
  {
    var (later, now) := ((nextHealthy + n - 1) / HEALTHY_SAMPLES, (healthy + n) / HEALTHY_SAMPLES);
    assert later <= now;
    if next > level {
      assert later + 1 == now;
    }
    StepsAddUp(later, now, step);
  }

  lemma TimesStep(n: int, step: int)
    requires n >= 0 && step >= 0
    ensures n * step >= 0
  {
  }

  lemma StepsAddUp(few: int, many: int, step: int)
    requires step >= 0
    ensures few <= many ==> few * step <= many * step
    ensures few + 1 <= many ==> few * step + step <= many * step
  {
    if few < many {
      TimesStep(many - few - 1, step);
      assert (few + 1 + (many - few - 1)) * step == few * step + step + (many - few - 1) * step;
    }
  }

  /** Recovery: after 1010 calm samples the level is back to whatever the samples allow. */
  lemma RecoversWithin1010Samples(c: Controller, samples: seq<Sample>, floor: int)
    requires c.Valid() && Calm(c, samples, floor) && |samples| >= 1010
    ensures AdjustAll(c, samples).level >= floor
  {
    CalmSamplesClimb(c, samples, floor, 101);
    assert 101 * Step(c) >= c.ceiling;
  }
}
