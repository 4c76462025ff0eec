/** Budget arithmetic of scripts/install_availability_release.py: derive_slice_capacity. */
module Capacity {
  const MIB: int := 1024 * 1024
  const GIB: int := 1024 * MIB
  const KIB: int := 1024

  datatype Budgets = Budgets(
    osReserve: int, controlLow: int, backgroundHigh: int, backgroundMax: int,
    projectHigh: int, projectMax: int, cpuQuota: int)

  datatype Result = Ok(budgets: Budgets) | MemoryTooSmall | InvalidCpus | NoRoomForProjects | Contradictory

  function Max(a: int, b: int): int { if a < b then b else a }
  function Min(a: int, b: int): int { if a < b then a else b }

  function OsReserve(total: int): int { Max(512 * MIB, total / 10) }
  function ControlLow(total: int): int { Max(512 * MIB, Min(2 * GIB, total / 10)) }
  function Allocatable(total: int): int { total - OsReserve(total) - ControlLow(total) }
  function BackgroundMax(total: int): int { Max(512 * MIB, Min(8 * GIB, Allocatable(total) / 5)) }
  function ProjectMax(total: int): int { Allocatable(total) - BackgroundMax(total) }

  /** derive_slice_capacity, with both of its later checks. */
  function Derive(total: int, cpus: int): Result {
    if total < 3 * GIB then MemoryTooSmall
    else if cpus <= 0 || cpus > 4096 then InvalidCpus
    else if ProjectMax(total) < GIB then NoRoomForProjects
    else
      var backgroundHigh := Max(256 * MIB, BackgroundMax(total) * 4 / 5);
      var projectHigh := Max(768 * MIB, ProjectMax(total) * 9 / 10);
      if !(0 < backgroundHigh < BackgroundMax(total) && 0 < projectHigh < ProjectMax(total)
           && OsReserve(total) + ControlLow(total) + BackgroundMax(total) + ProjectMax(total) == total)
      then Contradictory
      else Ok(Budgets(OsReserve(total), ControlLow(total), backgroundHigh, BackgroundMax(total),
                      projectHigh, ProjectMax(total), cpus * 100))
  }

  /** Only the two argument checks can refuse, and the four reservations use up the host exactly. */
  lemma OnlyArgumentsAreRefused(total: int, cpus: int)
    ensures Derive(total, cpus).Ok? <==> total >= 3 * GIB && 0 < cpus <= 4096
    ensures Derive(total, cpus) != NoRoomForProjects && Derive(total, cpus) != Contradictory
    ensures Derive(total, cpus).Ok? ==>
              var b := Derive(total, cpus).budgets;
              && b.osReserve + b.controlLow + b.backgroundMax + b.projectMax == total
              && 512 * MIB <= b.osReserve && 512 * MIB <= b.controlLow <= 2 * GIB
              && 256 * MIB <= b.backgroundHigh < b.backgroundMax <= 8 * GIB
              && 768 * MIB <= b.projectHigh < b.projectMax && GIB <= b.projectMax
  {
  }

  /** The pressure thresholds are four fifths and nine tenths of their limits: the floors
      written beside them never take effect.  Every CPU counts for 100 percent. */
  lemma FloorsNeverBind(total: int, cpus: int)
    requires Derive(total, cpus).Ok?
    ensures var b := Derive(total, cpus).budgets;
            && b.backgroundHigh * 5 <= b.backgroundMax * 4 < (b.backgroundHigh + 1) * 5
            && b.projectHigh * 10 <= b.projectMax * 9 < (b.projectHigh + 1) * 10
            && b.cpuQuota == cpus * 100
  {
    OnlyArgumentsAreRefused(total, cpus);
  }

  /** The limits themselves: a tenth of the host twice and a fifth of the rest, within bounds. */
  lemma LimitsAreShares(total: int, cpus: int)
    requires Derive(total, cpus).Ok?
    ensures var b := Derive(total, cpus).budgets;
            && (b.osReserve == 512 * MIB || b.osReserve * 10 <= total < (b.osReserve + 1) * 10)
            && (b.controlLow == b.osReserve || (b.controlLow == 2 * GIB && total >= 20 * GIB))
            && (b.backgroundMax == 512 * MIB || b.backgroundMax == 8 * GIB
                || b.backgroundMax * 4 <= b.projectMax < b.backgroundMax * 4 + 5)
  {
  }

  ghost predicate NoLess(a: Budgets, b: Budgets) {
    && a.osReserve <= b.osReserve && a.controlLow <= b.controlLow
    && a.backgroundHigh <= b.backgroundHigh && a.backgroundMax <= b.backgroundMax
    && a.projectHigh <= b.projectHigh && a.projectMax <= b.projectMax
  }

  /** More memory in whole KiB, which is how the host reports it, never shrinks a budget. */
  lemma MonotoneInKib(small: int, large: int, cpus: int)
    requires 3 * GIB <= small <= large && 0 < cpus <= 4096
    requires small % KIB == 0 && large % KIB == 0
    ensures NoLess(Derive(small, cpus).budgets, Derive(large, cpus).budgets)
  {
    OnlyArgumentsAreRefused(small, cpus);
    OnlyArgumentsAreRefused(large, cpus);
    TenthsGrowSlowly(small, large);
    AllocatableGrows(small, large);
  }

  lemma TenthsGrowSlowly(small: int, large: int)
    requires 0 <= small <= large && small % KIB == 0 && large % KIB == 0
    ensures 0 <= large / 10 - small / 10 && 2 * (large / 10 - small / 10) <= large - small
  {
    if small < large {
      assert large - small >= KIB;
    }
  }

  lemma AllocatableGrows(small: int, large: int)
    requires 0 <= small <= large && small % KIB == 0 && large % KIB == 0
    ensures Allocatable(small) <= Allocatable(large)
  {
    TenthsGrowSlowly(small, large);
  }

  /** One byte more shrinks what can be allocated exactly when both tenths step at once. */
  lemma WhenOneByteShrinks(total: int)
    requires total >= 3 * GIB
    ensures Allocatable(total + 1) < Allocatable(total) <==>
            ((total + 1) % 10 == 0 && 5120 * MIB < total + 1 <= 20 * GIB)
  {
  }

  lemma LimitsStep(total: int)
    requires total >= 3 * GIB
    ensures OsReserve(total) <= OsReserve(total + 1) && ControlLow(total) <= ControlLow(total + 1)
    ensures (BackgroundMax(total) <= BackgroundMax(total + 1) && ProjectMax(total) <= ProjectMax(total + 1))
            <==> Allocatable(total) <= Allocatable(total + 1)
  {
  }

  lemma ThresholdsFollow(small: int, large: int, cpus: int)
    requires Derive(small, cpus).Ok? && Derive(large, cpus).Ok?
    ensures NoLess(Derive(small, cpus).budgets, Derive(large, cpus).budgets) <==>
            (&& OsReserve(small) <= OsReserve(large) && ControlLow(small) <= ControlLow(large)
             && BackgroundMax(small) <= BackgroundMax(large) && ProjectMax(small) <= ProjectMax(large))
  {
  }

  /** Some budget shrinks with one byte more exactly when both tenths step at once. */
  lemma WhenOneByteShrinksABudget(total: int, cpus: int)
    requires total >= 3 * GIB && 0 < cpus <= 4096
    ensures NoLess(Derive(total, cpus).budgets, Derive(total + 1, cpus).budgets) <==>
            !((total + 1) % 10 == 0 && 5120 * MIB < total + 1 <= 20 * GIB)
  {
    OnlyArgumentsAreRefused(total, cpus);
    OnlyArgumentsAreRefused(total + 1, cpus);
    ThresholdsFollow(total, total + 1, cpus);
    LimitsStep(total);
    WhenOneByteShrinks(total);
  }

  /** So at byte granularity the project budget is not monotone. */
  lemma NotMonotoneInBytes()
    ensures ProjectMax(6 * GIB + 6) < ProjectMax(6 * GIB + 5)
  {
  }
}
