/** The infection decision: a host is challenged by one pathogen and loses
    `host_fitness_increment` of fitness when either of its alleles lies
    strictly within distance 200 of the pathogen's haplotype. Coordinates are
    integers, so the test on the Euclidean distance is made on its square. */
module Infection {
  import opened Population

  /** The literal distance below which an infection succeeds. */
  const INFECTION_DISTANCE: int := 200

  /** `eucDist` without the final square root: dX*dX + dY*dY. */
  function EucDistSq(x0: int, y0: int, x1: int, y1: int): (d: int)
    ensures d >= 0
    ensures d == 0 <==> x0 == x1 && y0 == y1
  {
    var dX := x1 - x0;
    var dY := y1 - y0;
    assert dX * dX >= 0 && dY * dY >= 0;
    assert dX != 0 ==> dX * dX > 0;
    assert dY != 0 ==> dY * dY > 0;
    dX * dX + dY * dY
  }

  /** The distance does not depend on which point comes first. */
  lemma EucDistSqSymmetric(x0: int, y0: int, x1: int, y1: int)
    ensures EucDistSq(x0, y0, x1, y1) == EucDistSq(x1, y1, x0, y0)
  {
    assert (x1 - x0) * (x1 - x0) == (x0 - x1) * (x0 - x1);
    assert (y1 - y0) * (y1 - y0) == (y0 - y1) * (y0 - y1);
  }

  /** The square root is monotone: for the non-negative root r of d,
      `r < 200` holds exactly when `d < 200 * 200`. This is what lets the
      model compare squared distances instead of `np.sqrt` values. */
  lemma RootBelowDistance(d: int, r: real)
    requires r >= 0.0 && r * r == d as real
    ensures r < INFECTION_DISTANCE as real <==> d < INFECTION_DISTANCE * INFECTION_DISTANCE
  {
    var t := INFECTION_DISTANCE as real;
    if r < t {
      assert r * r <= r * t < t * t;
    } else {
      assert r * r >= r * t >= t * t;
    }
  }

  /** For the roots r1, r2 of the two squared distances, `np.min` of the two
      distances is below 200 exactly when one squared distance is below
      200 * 200. */
  lemma MinRootBelowDistance(d1: int, d2: int, r1: real, r2: real)
    requires r1 >= 0.0 && r1 * r1 == d1 as real
    requires r2 >= 0.0 && r2 * r2 == d2 as real
    ensures (if r1 <= r2 then r1 else r2) < INFECTION_DISTANCE as real <==>
      d1 < INFECTION_DISTANCE * INFECTION_DISTANCE || d2 < INFECTION_DISTANCE * INFECTION_DISTANCE
  {
    RootBelowDistance(d1, r1);
    RootBelowDistance(d2, r2);
  }

  /** Allele a lies strictly within the infection distance of p's haplotype. */
  predicate Close(a: Allele, p: Pathogen)
  {
    EucDistSq(a.x, a.y, p.haplotypeX, p.haplotypeY) < INFECTION_DISTANCE * INFECTION_DISTANCE
  }

  /** `infect(host)` with the sampled pathogen given: the smaller of the two
      allele distances decides. The host is penalised when either allele is
      close, and keeps its fitness otherwise; nothing else is returned or
      changed. */
  function Infect(host: Host, pathogen: Pathogen, increment: real): (f: real)
    ensures Close(host.Allele1(), pathogen) || Close(host.Allele2(), pathogen) ==>
      f == host.fitness - increment
    ensures !Close(host.Allele1(), pathogen) && !Close(host.Allele2(), pathogen) ==>
      f == host.fitness
    ensures increment >= 0.0 ==> host.fitness - increment <= f <= host.fitness
  {
    var dist1 := EucDistSq(host.allele1X, host.allele1Y, pathogen.haplotypeX, pathogen.haplotypeY);
    var dist2 := EucDistSq(host.allele2X, host.allele2Y, pathogen.haplotypeX, pathogen.haplotypeY);
    var minDist := if dist1 <= dist2 then dist1 else dist2;
    if minDist < INFECTION_DISTANCE * INFECTION_DISTANCE then host.fitness - increment else host.fitness
  }

  /** `infect` as the script writes it: for the non-negative roots r1, r2 of
      the two squared distances, the host is penalised exactly when the
      smaller root is below 200. */
  lemma InfectByRoots(host: Host, pathogen: Pathogen, increment: real, r1: real, r2: real)
    requires r1 >= 0.0 && r1 * r1 == EucDistSq(host.allele1X, host.allele1Y, pathogen.haplotypeX, pathogen.haplotypeY) as real
    requires r2 >= 0.0 && r2 * r2 == EucDistSq(host.allele2X, host.allele2Y, pathogen.haplotypeX, pathogen.haplotypeY) as real
    ensures Infect(host, pathogen, increment) ==
      if (if r1 <= r2 then r1 else r2) < INFECTION_DISTANCE as real then host.fitness - increment else host.fitness
  {
    MinRootBelowDistance(
      EucDistSq(host.allele1X, host.allele1Y, pathogen.haplotypeX, pathogen.haplotypeY),
      EucDistSq(host.allele2X, host.allele2Y, pathogen.haplotypeX, pathogen.haplotypeY), r1, r2);
  }

  /** `infect(host)` with `pathogens.sample()` made explicit: the pathogen at
      the index raw selects challenges the host. Sampling an empty population
      raises ValueError. */
  function Challenge(host: Host, pathogens: seq<Pathogen>, increment: real, raw: nat): (r: Result<real>)
    ensures r.Ok? <==> |pathogens| > 0
    ensures !r.Ok? ==> r.error == ValueError
    ensures r.Ok? ==> exists k :: 0 <= k < |pathogens| && r.value == Infect(host, pathogens[k], increment)
  {
    if |pathogens| == 0 then Err(ValueError)
    else
      var k := raw % |pathogens|;
      Ok(Infect(host, pathogens[k], increment))
  }

  /** Every pathogen of a non-empty population is a possible challenger:
      the draw k selects pathogen k. */
  lemma ChallengeReachesEveryPathogen(host: Host, pathogens: seq<Pathogen>, increment: real, k: nat)
    requires k < |pathogens|
    ensures Challenge(host, pathogens, increment, k) == Ok(Infect(host, pathogens[k], increment))
  {
    assert k % |pathogens| == k;
  }

  /** With the script's configuration an infection costs a host 0.2 of
      fitness, `host_fitness_increment`, and a miss costs nothing. */
  lemma ReferencePenalty(host: Host, pathogen: Pathogen)
    ensures Close(host.Allele1(), pathogen) || Close(host.Allele2(), pathogen) ==>
      Infect(host, pathogen, REFERENCE.hostFitnessIncrement) == host.fitness - 0.2
    ensures !Close(host.Allele1(), pathogen) && !Close(host.Allele2(), pathogen) ==>
      Infect(host, pathogen, REFERENCE.hostFitnessIncrement) == host.fitness
  {
  }

  /** A host with alleles at (100, 100) and (900, 900), challenged by a
      haplotype at (150, 150): the first allele is about 70.7 away, so the
      fitness drops from 1 to 0.8. */
  lemma NearHaplotypeInfects()
    ensures Infect(Host(0, 1.0, 0, 100, 100, 1, 900, 900), Pathogen(0, 1.0, 2, 150, 150), 0.2) == 0.8
  {
    assert Close(Allele(0, 100, 100), Pathogen(0, 1.0, 2, 150, 150));
  }

  /** The same host against a haplotype at (500, 500): both alleles are about
      565.7 away, so the fitness stays 1. */
  lemma FarHaplotypeSpares()
    ensures Infect(Host(0, 1.0, 0, 100, 100, 1, 900, 900), Pathogen(0, 1.0, 2, 500, 500), 0.2) == 1.0
  {
    assert !Close(Allele(0, 100, 100), Pathogen(0, 1.0, 2, 500, 500));
    assert !Close(Allele(1, 900, 900), Pathogen(0, 1.0, 2, 500, 500));
  }
}
