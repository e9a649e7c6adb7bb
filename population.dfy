/** The allele and haplotype pools and the host and pathogen populations that
    the simulation script builds at start-up. Every random choice becomes a
    parameter: a `Stream` hands out raw numbers, one per draw, and each draw
    is mapped into the range the library call promises. `uuid.uuid4()` becomes
    a counter, so ids are dense naturals that are never issued twice. */
module Population {

  /** The exceptions the script's start-up code can raise. */
  datatype Error =
    | ValueError  // rng.integers with high <= low
    | IndexError  // random.choice on an empty sequence, or a species with no pool

  datatype Result<T> = Ok(value: T) | Err(error: Error)

  /** Draw k of a random source is the k-th raw number it hands out. */
  type Stream = nat -> nat

  /** `rng.integers(low=low, high=high)`: an integer in [low, high), the one
      the generator picked being determined by raw. */
  function Integers(low: int, high: int, raw: nat): (r: Result<int>)
    ensures r.Ok? <==> low < high
    ensures r.Ok? ==> low <= r.value < high
    ensures !r.Ok? ==> r.error == ValueError
  {
    if low < high then Ok(low + raw % (high - low)) else Err(ValueError)
  }

  /** Every integer of the range is a possible outcome of `Integers`. */
  lemma IntegersReachesEveryValue(low: int, high: int, v: int)
    requires low <= v < high
    ensures Integers(low, high, v - low) == Ok(v)
  {
    assert (v - low) % (high - low) == v - low;
  }

  /** `random.choice` over a sequence of length n: the index it picks. */
  function Choice(n: nat, raw: nat): (r: Result<nat>)
    ensures r.Ok? <==> n > 0
    ensures r.Ok? ==> r.value < n
    ensures !r.Ok? ==> r.error == IndexError
  {
    if n > 0 then Ok(raw % n) else Err(IndexError)
  }

  /** Every index of a non-empty sequence is a possible outcome of `Choice`. */
  lemma ChoiceReachesEveryIndex(n: nat, i: nat)
    requires i < n
    ensures Choice(n, i) == Ok(i)
  {
    assert i % n == i;
  }

  /** A point of shape space with its identifier. */
  datatype Allele = Allele(id: nat, x: int, y: int)

  /** Both coordinates lie in [1, spaceLength). */
  predicate InSpace(a: Allele, spaceLength: int)
  {
    1 <= a.x < spaceLength && 1 <= a.y < spaceLength
  }

  /** `randomPSallele(peptide_space_length)`: x is drawn first, then y, then
      the fresh id is attached. */
  function RandomPSAllele(spaceLength: int, rawX: nat, rawY: nat, id: nat): (r: Result<Allele>)
    ensures r.Ok? <==> spaceLength > 1
    ensures !r.Ok? ==> r.error == ValueError
    ensures r.Ok? ==> r.value.id == id && InSpace(r.value, spaceLength)
  {
    match Integers(1, spaceLength, rawX)
    case Err(e) => Err(e)
    case Ok(x) =>
      match Integers(1, spaceLength, rawY)
      case Err(e) => Err(e)
      case Ok(y) => Ok(Allele(id, x, y))
  }

  /** One list of alleles per species. */
  type Pool = seq<seq<Allele>>

  /** The pool has speciesN species of perSpecies entries each. */
  predicate Shaped(pool: Pool, speciesN: nat, perSpecies: nat)
  {
    |pool| == speciesN && forall s :: 0 <= s < speciesN ==> |pool[s]| == perSpecies
  }

  /** Every entry of the pool lies in [1, spaceLength). */
  predicate PoolInSpace(pool: Pool, spaceLength: int)
  {
    forall s, j :: 0 <= s < |pool| && 0 <= j < |pool[s]| ==> InSpace(pool[s][j], spaceLength)
  }

  /** No two positions of the pool carry the same id. */
  predicate IdsDistinct(pool: Pool)
  {
    forall s, j, s', j' ::
      (0 <= s < |pool| && 0 <= j < |pool[s]| && 0 <= s' < |pool| && 0 <= j' < |pool[s']| &&
       (s, j) != (s', j')) ==> pool[s][j].id != pool[s'][j'].id
  }

  /** Every id of the pool lies in [lo, hi). */
  predicate IdsWithin(pool: Pool, lo: nat, hi: nat)
  {
    forall s, j :: 0 <= s < |pool| && 0 <= j < |pool[s]| ==> lo <= pool[s][j].id < hi
  }

  /** Entry t of a pool in building order (species by species): it takes the
      numpy draws offset + 2t (x) and offset + 2t + 1 (y) and id idBase + t. */
  function PoolEntry(spaceLength: int, draw: Stream, offset: nat, idBase: nat, t: nat): (a: Allele)
    requires spaceLength > 1
    ensures a.id == idBase + t && InSpace(a, spaceLength)
  {
    RandomPSAllele(spaceLength, draw(offset + 2 * t), draw(offset + 2 * t + 1), idBase + t).value
  }

  /** The nested comprehension that builds `host_allele_pool` and
      `pathogen_haplotype_pool`. The first draw fails when the space is too
      small; with no entries to build, nothing is drawn and nothing fails. */
  function BuildPool(spaceLength: int, speciesN: nat, perSpecies: nat, draw: Stream, offset: nat, idBase: nat): (r: Result<Pool>)
    ensures r.Ok? <==> (spaceLength > 1 || speciesN == 0 || perSpecies == 0)
    ensures !r.Ok? ==> r.error == ValueError
    ensures r.Ok? ==> Shaped(r.value, speciesN, perSpecies)
    ensures r.Ok? ==> forall s, j :: 0 <= s < speciesN && 0 <= j < perSpecies ==>
      InSpace(r.value[s][j], spaceLength) && r.value[s][j].id == idBase + s * perSpecies + j
  {
    if speciesN > 0 && perSpecies > 0 && spaceLength <= 1 then Err(ValueError)
    else
      var pool := seq(speciesN, s requires 0 <= s < speciesN =>
                    seq(perSpecies, j requires 0 <= j < perSpecies =>
                      PoolEntry(spaceLength, draw, offset, idBase, s * perSpecies + j)));
      assert forall s, j :: 0 <= s < speciesN && 0 <= j < perSpecies ==>
        pool[s][j] == PoolEntry(spaceLength, draw, offset, idBase, s * perSpecies + j);
      Ok(pool)
  }

  /** Position (s, j) of a pool with p entries per species is entry s*p + j,
      and distinct positions are distinct entries. */
  lemma PositionInjective(p: nat, s: nat, j: nat, s': nat, j': nat)
    requires j < p && j' < p && (s, j) != (s', j')
    ensures s * p + j != s' * p + j'
  {
    if s < s' {
      assert s * p + j < (s + 1) * p <= s' * p;
    } else if s' < s {
      assert s' * p + j' < (s' + 1) * p <= s * p;
    }
  }

  /** Entry s*p + j of a pool of speciesN*p entries is below the total. */
  lemma PositionBelowTotal(p: nat, speciesN: nat, s: nat, j: nat)
    requires s < speciesN && j < p
    ensures s * p + j < speciesN * p
  {
    assert s * p + j < (s + 1) * p <= speciesN * p;
  }

  /** A built pool issues speciesN * perSpecies pairwise distinct ids, all in
      [idBase, idBase + speciesN * perSpecies). */
  lemma BuildPoolIds(spaceLength: int, speciesN: nat, perSpecies: nat, draw: Stream, offset: nat, idBase: nat)
    requires BuildPool(spaceLength, speciesN, perSpecies, draw, offset, idBase).Ok?
    ensures IdsDistinct(BuildPool(spaceLength, speciesN, perSpecies, draw, offset, idBase).value)
    ensures IdsWithin(BuildPool(spaceLength, speciesN, perSpecies, draw, offset, idBase).value,
                      idBase, idBase + speciesN * perSpecies)
  {
    var pool: Pool := BuildPool(spaceLength, speciesN, perSpecies, draw, offset, idBase).value;
    forall s: int, j: int, s': int, j': int |
      0 <= s < |pool| && 0 <= j < |pool[s]| && 0 <= s' < |pool| && 0 <= j' < |pool[s']| &&
      (s, j) != (s', j')
      ensures pool[s][j].id != pool[s'][j'].id
    {
      PositionInjective(perSpecies, s, j, s', j');
    }
    forall s: int, j: int | 0 <= s < |pool| && 0 <= j < |pool[s]|
      ensures idBase <= pool[s][j].id < idBase + speciesN * perSpecies
    {
      PositionBelowTotal(perSpecies, speciesN, s, j);
    }
  }

  /** A host record as `generateHost` returns it: the species, the fitness,
      and id and coordinates of each of the two alleles. */
  datatype Host = Host(species: nat, fitness: real,
                       allele1Id: nat, allele1X: int, allele1Y: int,
                       allele2Id: nat, allele2X: int, allele2Y: int)
  {
    function Allele1(): Allele { Allele(allele1Id, allele1X, allele1Y) }
    function Allele2(): Allele { Allele(allele2Id, allele2X, allele2Y) }
  }

  /** A pathogen record as `generatePathogen` returns it. */
  datatype Pathogen = Pathogen(species: nat, fitness: real,
                               haplotypeId: nat, haplotypeX: int, haplotypeY: int)
  {
    function Haplotype(): Allele { Allele(haplotypeId, haplotypeX, haplotypeY) }
  }

  /** h belongs to one of the speciesN species of the pool, starts at fitness
      `fitness`, and each of its alleles is one whole entry (id and both
      coordinates together) of its species' pool. */
  predicate HostOf(h: Host, pool: Pool, speciesN: nat, fitness: real)
  {
    h.species < speciesN && h.species < |pool| && h.fitness == fitness &&
    h.Allele1() in pool[h.species] && h.Allele2() in pool[h.species]
  }

  /** The same for a pathogen and its one haplotype. */
  predicate PathogenOf(p: Pathogen, pool: Pool, speciesN: nat, fitness: real)
  {
    p.species < speciesN && p.species < |pool| && p.fitness == fitness &&
    p.Haplotype() in pool[p.species]
  }

  /** `generateHost()`: a species, then two independent choices, with
      replacement, from that species' pool. */
  function GenerateHost(pool: Pool, speciesN: nat, fitness: real, rawSpecies: nat, raw1: nat, raw2: nat): (r: Result<Host>)
    ensures r.Ok? ==> HostOf(r.value, pool, speciesN, fitness)
    ensures !r.Ok? ==> r.error == IndexError
    ensures speciesN == 0 ==> !r.Ok?
    ensures forall perSpecies: nat :: Shaped(pool, speciesN, perSpecies) && speciesN > 0 && perSpecies > 0 ==> r.Ok?
  {
    match Choice(speciesN, rawSpecies)
    case Err(e) => Err(e)
    case Ok(species) =>
      if species >= |pool| then Err(IndexError)
      else
        match Choice(|pool[species]|, raw1)
        case Err(e) => Err(e)
        case Ok(i) =>
          match Choice(|pool[species]|, raw2)
          case Err(e) => Err(e)
          case Ok(j) =>
            var a1 := pool[species][i];
            var a2 := pool[species][j];
            Ok(Host(species, fitness, a1.id, a1.x, a1.y, a2.id, a2.x, a2.y))
  }

  /** Every species and every pair of pool entries, the same one twice
      included, is a possible outcome of `generateHost`, and the host then
      copies exactly those two entries. */
  lemma GenerateHostPicks(pool: Pool, speciesN: nat, fitness: real, s: nat, i: nat, j: nat)
    requires s < speciesN && s < |pool| && i < |pool[s]| && j < |pool[s]|
    ensures GenerateHost(pool, speciesN, fitness, s, i, j).Ok?
    ensures GenerateHost(pool, speciesN, fitness, s, i, j).value ==
      Host(s, fitness, pool[s][i].id, pool[s][i].x, pool[s][i].y, pool[s][j].id, pool[s][j].x, pool[s][j].y)
  {
    ChoiceReachesEveryIndex(speciesN, s);
    ChoiceReachesEveryIndex(|pool[s]|, i);
    ChoiceReachesEveryIndex(|pool[s]|, j);
  }

  /** `generatePathogen()`: a species, then one choice from its pool. */
  function GeneratePathogen(pool: Pool, speciesN: nat, fitness: real, rawSpecies: nat, raw: nat): (r: Result<Pathogen>)
    ensures r.Ok? ==> PathogenOf(r.value, pool, speciesN, fitness)
    ensures !r.Ok? ==> r.error == IndexError
    ensures speciesN == 0 ==> !r.Ok?
    ensures forall perSpecies: nat :: Shaped(pool, speciesN, perSpecies) && speciesN > 0 && perSpecies > 0 ==> r.Ok?
  {
    match Choice(speciesN, rawSpecies)
    case Err(e) => Err(e)
    case Ok(species) =>
      if species >= |pool| then Err(IndexError)
      else
        match Choice(|pool[species]|, raw)
        case Err(e) => Err(e)
        case Ok(k) =>
          var h := pool[species][k];
          Ok(Pathogen(species, fitness, h.id, h.x, h.y))
  }

  /** Every species and every entry of its pool is a possible outcome of
      `generatePathogen`, and the pathogen then copies exactly that entry. */
  lemma GeneratePathogenPicks(pool: Pool, speciesN: nat, fitness: real, s: nat, k: nat)
    requires s < speciesN && s < |pool| && k < |pool[s]|
    ensures GeneratePathogen(pool, speciesN, fitness, s, k) ==
      Ok(Pathogen(s, fitness, pool[s][k].id, pool[s][k].x, pool[s][k].y))
  {
    ChoiceReachesEveryIndex(speciesN, s);
    ChoiceReachesEveryIndex(|pool[s]|, k);
  }

  /** Host t of the population: it takes the draws offset + 3t (species),
      offset + 3t + 1 and offset + 3t + 2 (the two alleles). */
  function NthHost(pool: Pool, speciesN: nat, fitness: real, draw: Stream, offset: nat, t: nat): Result<Host>
  {
    GenerateHost(pool, speciesN, fitness, draw(offset + 3 * t), draw(offset + 3 * t + 1), draw(offset + 3 * t + 2))
  }

  /** `[generateHost() for _ in range(host_n)]`: n hosts in order; the first
      host that fails aborts the comprehension. */
  function GenerateHosts(pool: Pool, speciesN: nat, fitness: real, draw: Stream, offset: nat, n: nat): (r: Result<seq<Host>>)
    ensures r.Ok? <==> forall t :: 0 <= t < n ==> NthHost(pool, speciesN, fitness, draw, offset, t).Ok?
    ensures !r.Ok? ==> r.error == IndexError
    ensures r.Ok? ==> |r.value| == n
    ensures r.Ok? ==> forall t :: 0 <= t < n ==> NthHost(pool, speciesN, fitness, draw, offset, t) == Ok(r.value[t])
    ensures r.Ok? ==> forall t :: 0 <= t < n ==> HostOf(r.value[t], pool, speciesN, fitness)
    decreases n
  {
    if n == 0 then Ok([])
    else
      match GenerateHosts(pool, speciesN, fitness, draw, offset, n - 1)
      case Err(e) => Err(e)
      case Ok(hs) =>
        match NthHost(pool, speciesN, fitness, draw, offset, n - 1)
        case Err(e) => Err(e)
        case Ok(h) => Ok(hs + [h])
  }

  /** Pathogen t of the population: draws offset + 2t (species) and
      offset + 2t + 1 (haplotype). */
  function NthPathogen(pool: Pool, speciesN: nat, fitness: real, draw: Stream, offset: nat, t: nat): Result<Pathogen>
  {
    GeneratePathogen(pool, speciesN, fitness, draw(offset + 2 * t), draw(offset + 2 * t + 1))
  }

  /** `[generatePathogen() for _ in range(pathogen_n)]`. */
  function GeneratePathogens(pool: Pool, speciesN: nat, fitness: real, draw: Stream, offset: nat, n: nat): (r: Result<seq<Pathogen>>)
    ensures r.Ok? <==> forall t :: 0 <= t < n ==> NthPathogen(pool, speciesN, fitness, draw, offset, t).Ok?
    ensures !r.Ok? ==> r.error == IndexError
    ensures r.Ok? ==> |r.value| == n
    ensures r.Ok? ==> forall t :: 0 <= t < n ==> NthPathogen(pool, speciesN, fitness, draw, offset, t) == Ok(r.value[t])
    ensures r.Ok? ==> forall t :: 0 <= t < n ==> PathogenOf(r.value[t], pool, speciesN, fitness)
    decreases n
  {
    if n == 0 then Ok([])
    else
      match GeneratePathogens(pool, speciesN, fitness, draw, offset, n - 1)
      case Err(e) => Err(e)
      case Ok(ps) =>
        match NthPathogen(pool, speciesN, fitness, draw, offset, n - 1)
        case Err(e) => Err(e)
        case Ok(p) => Ok(ps + [p])
  }

  /** The script's configuration constants that the start-up code reads. */
  datatype Config = Config(
    peptideSpaceLength: int,
    hostN: nat, hostAlleleInitialN: nat, hostSpeciesN: nat, hostFitnessInitial: real,
    hostFitnessIncrement: real,
    pathogenN: nat, pathogenHaplotypeInitialN: nat, pathogenSpeciesN: nat, pathogenFitnessInitial: real)

  /** The values the script sets. */
  const REFERENCE: Config := Config(1000, 10000, 150, 1, 1.0, 0.2, 100000, 400, 1, 1.0)

  /** Everything the start-up code builds. */
  datatype World = World(hostPool: Pool, hosts: seq<Host>, pathogenPool: Pool, pathogens: seq<Pathogen>)

  /** The host half of start-up: `host_allele_pool`, then `host_data`.
      The pool takes the first numpy draws and the first ids; the hosts take
      the first `random` draws. */
  function HostSide(cfg: Config, np: Stream, py: Stream): (r: Result<(Pool, seq<Host>)>)
    ensures r.Ok? ==> Shaped(r.value.0, cfg.hostSpeciesN, cfg.hostAlleleInitialN)
    ensures r.Ok? ==> PoolInSpace(r.value.0, cfg.peptideSpaceLength)
    ensures r.Ok? ==> |r.value.1| == cfg.hostN
    ensures r.Ok? ==> forall t :: 0 <= t < cfg.hostN ==>
      HostOf(r.value.1[t], r.value.0, cfg.hostSpeciesN, cfg.hostFitnessInitial)
  {
    match BuildPool(cfg.peptideSpaceLength, cfg.hostSpeciesN, cfg.hostAlleleInitialN, np, 0, 0)
    case Err(e) => Err(e)
    case Ok(pool) =>
      match GenerateHosts(pool, cfg.hostSpeciesN, cfg.hostFitnessInitial, py, 0, cfg.hostN)
      case Err(e) => Err(e)
      case Ok(hosts) => Ok((pool, hosts))
  }

  /** The number of entries of the host pool, which is also the number of
      numpy draw pairs and ids the host half uses. */
  function HostAlleleCount(cfg: Config): nat
  {
    cfg.hostSpeciesN * cfg.hostAlleleInitialN
  }

  /** The pathogen half: `pathogen_haplotype_pool`, then `pathogen_data`. The
      pool continues the numpy draws and the id counter where the host pool
      stopped; the pathogens continue the `random` draws after the hosts. */
  function PathogenSide(cfg: Config, np: Stream, py: Stream): (r: Result<(Pool, seq<Pathogen>)>)
    ensures r.Ok? ==> Shaped(r.value.0, cfg.pathogenSpeciesN, cfg.pathogenHaplotypeInitialN)
    ensures r.Ok? ==> PoolInSpace(r.value.0, cfg.peptideSpaceLength)
    ensures r.Ok? ==> |r.value.1| == cfg.pathogenN
    ensures r.Ok? ==> forall t :: 0 <= t < cfg.pathogenN ==>
      PathogenOf(r.value.1[t], r.value.0, cfg.pathogenSpeciesN, cfg.pathogenFitnessInitial)
  {
    match BuildPool(cfg.peptideSpaceLength, cfg.pathogenSpeciesN, cfg.pathogenHaplotypeInitialN,
                    np, 2 * HostAlleleCount(cfg), HostAlleleCount(cfg))
    case Err(e) => Err(e)
    case Ok(pool) =>
      match GeneratePathogens(pool, cfg.pathogenSpeciesN, cfg.pathogenFitnessInitial,
                              py, 3 * cfg.hostN, cfg.pathogenN)
      case Err(e) => Err(e)
      case Ok(pathogens) => Ok((pool, pathogens))
  }

  /** The module-level start-up sequence: host pool, hosts, pathogen pool,
      pathogens, in that order; `np` feeds `rng.integers` and `py` feeds
      `random.choice`. */
  function Setup(cfg: Config, np: Stream, py: Stream): (r: Result<World>)
    ensures r.Ok? <==> HostSide(cfg, np, py).Ok? && PathogenSide(cfg, np, py).Ok?
    ensures r.Ok? ==> Shaped(r.value.hostPool, cfg.hostSpeciesN, cfg.hostAlleleInitialN)
    ensures r.Ok? ==> Shaped(r.value.pathogenPool, cfg.pathogenSpeciesN, cfg.pathogenHaplotypeInitialN)
    ensures r.Ok? ==> PoolInSpace(r.value.hostPool, cfg.peptideSpaceLength)
    ensures r.Ok? ==> PoolInSpace(r.value.pathogenPool, cfg.peptideSpaceLength)
    ensures r.Ok? ==> |r.value.hosts| == cfg.hostN && |r.value.pathogens| == cfg.pathogenN
    ensures r.Ok? ==> forall t :: 0 <= t < cfg.hostN ==>
      HostOf(r.value.hosts[t], r.value.hostPool, cfg.hostSpeciesN, cfg.hostFitnessInitial)
    ensures r.Ok? ==> forall t :: 0 <= t < cfg.pathogenN ==>
      PathogenOf(r.value.pathogens[t], r.value.pathogenPool, cfg.pathogenSpeciesN, cfg.pathogenFitnessInitial)
  {
    match HostSide(cfg, np, py)
    case Err(e) => Err(e)
    case Ok(h) =>
      match PathogenSide(cfg, np, py)
      case Err(e) => Err(e)
      case Ok(p) => Ok(World(h.0, h.1, p.0, p.1))
  }

  /** A configuration whose space has room for a coordinate and whose species
      and pools are all non-empty. */
  predicate SoundConfig(cfg: Config)
  {
    cfg.peptideSpaceLength > 1 &&
    cfg.hostSpeciesN > 0 && cfg.hostAlleleInitialN > 0 &&
    cfg.pathogenSpeciesN > 0 && cfg.pathogenHaplotypeInitialN > 0
  }

  /** A sound configuration builds every host and every pathogen. */
  lemma SoundConfigSetsUp(cfg: Config, np: Stream, py: Stream)
    requires SoundConfig(cfg)
    ensures Setup(cfg, np, py).Ok?
  {
    var hostPool := BuildPool(cfg.peptideSpaceLength, cfg.hostSpeciesN, cfg.hostAlleleInitialN, np, 0, 0).value;
    forall t | 0 <= t < cfg.hostN
      ensures NthHost(hostPool, cfg.hostSpeciesN, cfg.hostFitnessInitial, py, 0, t).Ok?
    {
      assert Shaped(hostPool, cfg.hostSpeciesN, cfg.hostAlleleInitialN);
    }
    var pathogenPool := BuildPool(cfg.peptideSpaceLength, cfg.pathogenSpeciesN, cfg.pathogenHaplotypeInitialN,
                                  np, 2 * HostAlleleCount(cfg), HostAlleleCount(cfg)).value;
    forall t | 0 <= t < cfg.pathogenN
      ensures NthPathogen(pathogenPool, cfg.pathogenSpeciesN, cfg.pathogenFitnessInitial, py, 3 * cfg.hostN, t).Ok?
    {
      assert Shaped(pathogenPool, cfg.pathogenSpeciesN, cfg.pathogenHaplotypeInitialN);
    }
  }

  /** A space with no room for a coordinate fails at the first host allele
      with ValueError, before anything else is built. */
  lemma NoRoomFails(cfg: Config, np: Stream, py: Stream)
    requires cfg.peptideSpaceLength <= 1 && cfg.hostSpeciesN > 0 && cfg.hostAlleleInitialN > 0
    ensures Setup(cfg, np, py) == Err(ValueError)
  {
  }

  /** With no host species, the first host's choice of species raises
      IndexError. */
  lemma NoHostSpeciesFails(cfg: Config, np: Stream, py: Stream)
    requires cfg.hostSpeciesN == 0 && cfg.hostN > 0
    ensures Setup(cfg, np, py) == Err(IndexError)
  {
    var hostPool := BuildPool(cfg.peptideSpaceLength, cfg.hostSpeciesN, cfg.hostAlleleInitialN, np, 0, 0).value;
    assert !NthHost(hostPool, cfg.hostSpeciesN, cfg.hostFitnessInitial, py, 0, 0).Ok?;
  }

  /** With the script's own constants, set-up always succeeds and yields 10000
      hosts and 100000 pathogens, whatever the random draws. */
  lemma ReferenceSetup(np: Stream, py: Stream)
    ensures Setup(REFERENCE, np, py).Ok?
    ensures |Setup(REFERENCE, np, py).value.hosts| == 10000
    ensures |Setup(REFERENCE, np, py).value.pathogens| == 100000
  {
    SoundConfigSetsUp(REFERENCE, np, py);
  }

  /** The host pool's ids are distinct and lie below the host pool's size. */
  lemma HostSideIds(cfg: Config, np: Stream, py: Stream)
    requires HostSide(cfg, np, py).Ok?
    ensures IdsDistinct(HostSide(cfg, np, py).value.0)
    ensures IdsWithin(HostSide(cfg, np, py).value.0, 0, HostAlleleCount(cfg))
  {
    BuildPoolIds(cfg.peptideSpaceLength, cfg.hostSpeciesN, cfg.hostAlleleInitialN, np, 0, 0);
  }

  /** The pathogen pool's ids are distinct and come after the host pool's. */
  lemma PathogenSideIds(cfg: Config, np: Stream, py: Stream)
    requires PathogenSide(cfg, np, py).Ok?
    ensures IdsDistinct(PathogenSide(cfg, np, py).value.0)
    ensures IdsWithin(PathogenSide(cfg, np, py).value.0, HostAlleleCount(cfg),
                      HostAlleleCount(cfg) + cfg.pathogenSpeciesN * cfg.pathogenHaplotypeInitialN)
  {
    BuildPoolIds(cfg.peptideSpaceLength, cfg.pathogenSpeciesN, cfg.pathogenHaplotypeInitialN,
                 np, 2 * HostAlleleCount(cfg), HostAlleleCount(cfg));
  }

  /** No id is shared within either pool or between the two: the pathogen
      pool's counter starts where the host pool's stopped. */
  lemma SetupIdsDistinct(cfg: Config, np: Stream, py: Stream)
    requires Setup(cfg, np, py).Ok?
    ensures IdsDistinct(Setup(cfg, np, py).value.hostPool)
    ensures IdsDistinct(Setup(cfg, np, py).value.pathogenPool)
    ensures forall s, j, s', j' ::
      (0 <= s < |Setup(cfg, np, py).value.hostPool| && 0 <= j < |Setup(cfg, np, py).value.hostPool[s]| &&
       0 <= s' < |Setup(cfg, np, py).value.pathogenPool| && 0 <= j' < |Setup(cfg, np, py).value.pathogenPool[s']|) ==>
      Setup(cfg, np, py).value.hostPool[s][j].id != Setup(cfg, np, py).value.pathogenPool[s'][j'].id
  {
    var w := Setup(cfg, np, py).value;
    assert w.hostPool == HostSide(cfg, np, py).value.0;
    assert w.pathogenPool == PathogenSide(cfg, np, py).value.0;
    HostSideIds(cfg, np, py);
    PathogenSideIds(cfg, np, py);
  }

  /** Every coordinate start-up produces lies in [1, peptide_space_length):
      both alleles of every host and the haplotype of every pathogen. */
  lemma SetupInSpace(cfg: Config, np: Stream, py: Stream)
    requires Setup(cfg, np, py).Ok?
    ensures forall t :: 0 <= t < |Setup(cfg, np, py).value.hosts| ==>
      InSpace(Setup(cfg, np, py).value.hosts[t].Allele1(), cfg.peptideSpaceLength) &&
      InSpace(Setup(cfg, np, py).value.hosts[t].Allele2(), cfg.peptideSpaceLength)
    ensures forall t :: 0 <= t < |Setup(cfg, np, py).value.pathogens| ==>
      InSpace(Setup(cfg, np, py).value.pathogens[t].Haplotype(), cfg.peptideSpaceLength)
  {
    var w := Setup(cfg, np, py).value;
    forall t | 0 <= t < |w.hosts|
      ensures InSpace(w.hosts[t].Allele1(), cfg.peptideSpaceLength)
      ensures InSpace(w.hosts[t].Allele2(), cfg.peptideSpaceLength)
    {
      var h := w.hosts[t];
      assert HostOf(h, w.hostPool, cfg.hostSpeciesN, cfg.hostFitnessInitial);
      var i :| 0 <= i < |w.hostPool[h.species]| && w.hostPool[h.species][i] == h.Allele1();
      var j :| 0 <= j < |w.hostPool[h.species]| && w.hostPool[h.species][j] == h.Allele2();
    }
    forall t | 0 <= t < |w.pathogens|
      ensures InSpace(w.pathogens[t].Haplotype(), cfg.peptideSpaceLength)
    {
      var p := w.pathogens[t];
      assert PathogenOf(p, w.pathogenPool, cfg.pathogenSpeciesN, cfg.pathogenFitnessInitial);
      var k :| 0 <= k < |w.pathogenPool[p.species]| && w.pathogenPool[p.species][k] == p.Haplotype();
    }
  }
}
