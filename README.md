# Host–pathogen shape-space start-up, modelled in Dafny

The script `src/perftest.py` sets up a host–pathogen coevolution model in a
two-dimensional "shape space". It does four things:

- It builds a pool of alleles for each host species and a pool of haplotypes
  for each pathogen species. Each pool entry is a point with integer
  coordinates in `[1, peptide_space_length)` and a fresh id.
- It builds the host population and the pathogen population. Each host takes
  two pool entries, drawn with replacement. Each pathogen takes one.
- It decides whether an infection succeeds. A host loses
  `host_fitness_increment` of fitness when one of its alleles lies strictly
  within distance 200 of the challenging pathogen's haplotype.
- It has two sliding-window generators over sequences.

The project has three modules, one per part of the script:

- `windows.dfy` (module `SlidingWindows`) covers `sliding_window_iter` and
  `window`. Each generator is a method whose loop collects the value yielded
  at every `yield`. Both methods are proved equal to the functional
  specification `Windows`, which says window k is `s[k..k+w]`.
  `sliding_window_iter` is proved against the windows of its input, and
  `window` against the windows of its input padded with `None` up to length
  n. `window`'s bounded deque is the class `BoundedDeque`, which is updated
  in place. The deque's loop is the method `Feed`.
- `population.dfy` (module `Population`) covers `randomPSallele`, the two
  pool comprehensions, `generateHost`, `generatePathogen`, the two
  population comprehensions and the start-up order that links them.
- `infection.dfy` (module `Infection`) covers `eucDist` and `infect`.

Randomness is passed in as parameters:

- A `Stream` (`nat -> nat`) supplies raw numbers, one per draw.
- `rng.integers(low, high)` becomes `Integers`: `low + raw % (high - low)`,
  or `ValueError` when `high <= low`.
- `random.choice` over n items becomes `Choice`: `raw % n`, or `IndexError`
  when `n == 0`.
- `pathogens.sample()` in `infect` becomes the draw of `Challenge`:
  pathogen `raw % |pathogens|`, or `ValueError` when there are no pathogens.
- Lemmas show that every value in range can come out of each draw. So fixing
  the draws as parameters rules out no outcome the library could produce.
- numpy's generator and Python's `random` module are two separate streams,
  `np` and `py`.
- `uuid.uuid4()` becomes a counter. Pool entry t gets id `idBase + t`. The
  pathogen pool's counter continues where the host pool's stopped.

Where the model departs from a plain reading of the script:

- Coordinates are integers, because `rng.integers` returns integers. So
  `sqrt(d) < 200` is the same test as `d < 40000`. The model compares
  squared distances, and `RootBelowDistance` proves that the two tests
  agree.
- The script has no configuration validation. A bad configuration fails only
  where a library call fails:
  - `rng.integers(1, L)` with `L <= 1` raises `ValueError`, but only if some
    entry is actually drawn;
  - `random.choice` on an empty range or an empty pool raises `IndexError`.

  The model follows the code here.
- The generation loop and the diversity count exist only in a commented-out
  block. The model does not include them; see "Left out".
- Fitness values are `real`s. `host_fitness_initial = 1` is the Python
  integer 1, modelled as `1.0`.

## Model

| member | source | states |
|---|---|---|
| `SlidingWindows.Windows` | src/perftest.py:46-53 | With `w` elements per window there are `|s| - w + 1` windows when `|s| >= w` and none otherwise. Every window has length `w`. |
| `SlidingWindows.WindowsOfExactLength` | src/perftest.py:48-50 | An input exactly `w` long has itself as its only window: the single full first tuple. |
| `SlidingWindows.WindowsSnoc` | src/perftest.py:51-53 | One more input element adds exactly one window, the one ending with that element. |
| `SlidingWindows.Drop1` | src/perftest.py:52 | The slice `t[1:]`: one element shorter than `t`, shifted left by one, and empty when `t` is empty. |
| `SlidingWindows.WindowsShift` | src/perftest.py:51-53 | Window k+1 is window k without its first element, with element `k + w` of the input appended. This is the update the loop performs. It is a stand-alone statement of the update; the loop proof goes through `SlidingShift`. |
| `SlidingWindows.SlidingStart` | src/perftest.py:48-50 | When the input has at least `w` elements, the first tuple is `s[..w]` and the windows yielded so far are all windows of `s[..w]`. |
| `SlidingWindows.SlidingShift` | src/perftest.py:51-53 | The update `result[1:] + (elem,)` turns window `s[i-w..i]` into `s[i-w+1..i+1]`, and yielding it gives all windows of `s[..i+1]`. |
| `SlidingWindows.SlidingDone` | src/perftest.py:51-53 | Once every element is consumed, the yielded tuples are all windows of the input. |
| `SlidingWindows.ZeroWidthShift` | src/perftest.py:51-53 | With width 0, each element consumed is yielded as a 1-tuple. |
| `SlidingWindows.ZeroWidthDone` | src/perftest.py:46-53 | With width 0 the generator yields `()` and then every element as a 1-tuple. |
| `SlidingWindows.SlidingWindowIter` | src/perftest.py:46-53 | For `width >= 1` the yielded tuples are exactly `Windows(s, width)`: `|s| - width + 1` tuples, the k-th being `s[k..k+width]`, and none when `|s| < width`. For `width == 0` it yields `()` and then each element as a 1-tuple. |
| `SlidingWindows.LastN` | src/perftest.py:60 | What a deque with `maxlen = n` keeps: `min(|t|, n)` items. |
| `SlidingWindows.LastNSuffix` | src/perftest.py:60-63 | The items a bounded deque keeps are a suffix of what went in: only leftmost items are dropped. |
| `SlidingWindows.BoundedDeque.constructor` | src/perftest.py:60 | `deque(init, maxlen=n)` holds the last `n` items of `init`, and never more than `n` items. |
| `SlidingWindows.BoundedDeque.Append` | src/perftest.py:62-64 | After `append(x)` the deque holds the last `maxlen` items of its old contents followed by `x`. Its length stays at most `maxlen`. |
| `SlidingWindows.FirstFill` | src/perftest.py:60 | `n` calls of `next(it, None)` give `n` values: element k of the input where it exists, `None` after that. |
| `SlidingWindows.Lift` | src/perftest.py:63-64 | The input as the deque receives it: element k becomes `Some(s[k])`, the length is unchanged. |
| `SlidingWindows.Nones` | src/perftest.py:60 | The padding that `next(it, None)` produces: `m` values, all `None`. |
| `SlidingWindows.Padded` | src/perftest.py:58-64 | Everything the deque receives in order: element k is `Some(s[k])` below `|s|` and `None` beyond, with length `max(|s|, n)`. |
| `SlidingWindows.LastNSlide` | src/perftest.py:63-64 | Appending the next element to a full deque holding window `t[i-n..i]` gives window `t[i-n+1..i+1]`. |
| `SlidingWindows.DequeStep` | src/perftest.py:63-65 | Appending the next element to a deque holding the current window, then yielding it, gives all windows one element further on. |
| `SlidingWindows.WindowStart` | src/perftest.py:60-61 | The first deque holds the first `n` items of the padded input. It is the first window, and the windows yielded so far are all windows of that prefix. |
| `SlidingWindows.PaddedTail` | src/perftest.py:60-63 | The elements the loop still has to append after the first fill are those of the padded input after position `n`. |
| `SlidingWindows.PaddedWindows` | src/perftest.py:58-65 | The windows of the padded input are the windows of the input when it has at least `n` elements. Otherwise there is one window: the input followed by `n - |s|` `None`s. |
| `SlidingWindows.Feed` | src/perftest.py:62-65 | The `for e in it` loop appends each remaining element to the deque in place and yields it. It ends with all windows of the padded input yielded. The deque then holds the last `n` items of the padded input, still within `maxlen`. |
| `SlidingWindows.Window` | src/perftest.py:58-65 | The yielded snapshots are exactly the windows of width `n` over the padded input. With `PaddedWindows`: when `|s| >= n`, there are `|s| - n + 1` snapshots and snapshot k is `s[k..k+n]`. When `|s| < n`, there is one snapshot, the elements of `s` followed by `n - |s|` `None`s. Every snapshot has `n` items. |
| `SlidingWindows.WindowAgreesWithSlidingWindowIter` | src/perftest.py:46-65 | On an input at least `n` long, what `window` yields, the windows of the padded input, matches the windows of the input, up to `window`'s `Some` wrapping. For `n >= 1` those are what `sliding_window_iter` yields, so the two generators agree. For `n == 0` `window` yields empty deques only, unlike `sliding_window_iter`. |
| `Population.Integers` | src/perftest.py:40-41 | `rng.integers(low, high)` gives a value in `[low, high)`. It raises `ValueError` exactly when `high <= low`. |
| `Population.IntegersReachesEveryValue` | src/perftest.py:40-41 | Every integer in `[low, high)` is a possible draw. |
| `Population.Choice` | src/perftest.py:97-99 | `random.choice` over `n` items picks an index below `n`. It raises `IndexError` exactly when `n == 0`. |
| `Population.ChoiceReachesEveryIndex` | src/perftest.py:97-99 | Every index below `n` is a possible choice. |
| `Population.RandomPSAllele` | src/perftest.py:38-43 | The allele carries the id it is given, and both coordinates lie in `[1, L)`. It fails with `ValueError` exactly when `L <= 1`. |
| `Population.PoolEntry` | src/perftest.py:39-42 | Pool entry t has id `idBase + t` and lies in the space. |
| `Population.BuildPool` | src/perftest.py:92-93 | The pool holds `speciesN` lists of `perSpecies` alleles each. Every allele lies in `[1, L)`, and entry (s, j) has id `idBase + s*perSpecies + j`. It fails with `ValueError` exactly when something has to be drawn and `L <= 1`. |
| `Population.PositionInjective` | src/perftest.py:92-93 | Distinct pool positions (s, j) get distinct entry numbers. |
| `Population.PositionBelowTotal` | src/perftest.py:92-93 | Every pool position's entry number is below the number of entries. |
| `Population.BuildPoolIds` | src/perftest.py:92-93 | A built pool's ids are pairwise distinct. They all lie in `[idBase, idBase + speciesN*perSpecies)`. |
| `Population.GenerateHost` | src/perftest.py:96-109 | A host has a species below `host_species_n` that has a pool, and fitness `host_fitness_initial`. Each allele's id and coordinates together are one entry of that species' pool. It fails with `IndexError`, always when there are no species, and never on a well-shaped, non-empty pool. |
| `Population.GenerateHostPicks` | src/perftest.py:96-109 | For every species `s` and every pair of entries `i`, `j` (including `i == j`), some draw gives a host whose `allele_1_*` fields copy `pool[s][i]` and whose `allele_2_*` fields copy `pool[s][j]`. |
| `Population.GeneratePathogen` | src/perftest.py:120-129 | A pathogen has a species with a pool, and fitness `pathogen_fitness_initial`. Its haplotype id and coordinates are one entry of that pool. It fails only with `IndexError`, and never on a well-shaped, non-empty pool. |
| `Population.GeneratePathogenPicks` | src/perftest.py:120-129 | For every species `s` and entry `k`, some draw gives a pathogen whose `haplotype_*` fields copy `pool[s][k]`. |
| `Population.GenerateHosts` | src/perftest.py:112 | The comprehension works exactly when every one of the `n` hosts works. It then holds `n` hosts, host t taking its own three draws, and each comes from the pool. |
| `Population.GeneratePathogens` | src/perftest.py:132 | The same for `pathogen_n` pathogens, two draws each. |
| `Population.HostSide` | src/perftest.py:92-112 | Builds the host pool with shape `host_species_n` × `host_allele_initial_n`, every entry in `[1, L)`, then `host_n` hosts drawn from it. |
| `Population.PathogenSide` | src/perftest.py:116-132 | Builds the pathogen pool with shape `pathogen_species_n` × `pathogen_haplotype_initial_n`, every entry in `[1, L)`, then `pathogen_n` pathogens drawn from it. |
| `Population.Setup` | src/perftest.py:92-132 | Start-up works exactly when both halves do. It yields shaped pools whose entries all lie in `[1, L)`, exactly `host_n` hosts and `pathogen_n` pathogens, and every individual is drawn from its own pool with its initial fitness. |
| `Population.SetupInSpace` | src/perftest.py:38-132 | After start-up, both alleles of every host and the haplotype of every pathogen have coordinates in `[1, L)`. |
| `Population.SoundConfigSetsUp` | src/perftest.py:92-132 | With `L > 1` and non-empty species and pools, start-up works for every choice of draws. |
| `Population.NoRoomFails` | src/perftest.py:38-43 | With `L <= 1` and a non-empty host pool, start-up fails with `ValueError`. |
| `Population.NoHostSpeciesFails` | src/perftest.py:96-99 | With no host species and at least one host, start-up fails with `IndexError`. |
| `Population.ReferenceSetup` | src/perftest.py:71-132 | With the script's constants, start-up works for all draws and gives 10000 hosts and 100000 pathogens. |
| `Population.HostSideIds` | src/perftest.py:92-93 | Host pool ids are distinct and lie below the host pool's size. |
| `Population.PathogenSideIds` | src/perftest.py:116-117 | Pathogen pool ids are distinct and lie just after the host pool's ids. |
| `Population.SetupIdsDistinct` | src/perftest.py:38-117 | No id appears twice in either pool, or in both: the property `uuid4` provides. |
| `Infection.EucDistSq` | src/perftest.py:166-169 | The squared distance is never negative, and it is 0 exactly when the two points coincide. |
| `Infection.EucDistSqSymmetric` | src/perftest.py:166-169 | The distance is symmetric in its two points. |
| `Infection.RootBelowDistance` | src/perftest.py:169-180 | For the non-negative root `r` of `d`, `r < 200` holds exactly when `d < 40000`. |
| `Infection.MinRootBelowDistance` | src/perftest.py:174-180 | `np.min` of the two root distances is below 200 exactly when one squared distance is below 40000. |
| `Infection.Infect` | src/perftest.py:172-183 | The result is `fitness - host_fitness_increment` when either allele is strictly within 200 of the haplotype, and `fitness` otherwise. For a non-negative increment it lies between those two values. |
| `Infection.InfectByRoots` | src/perftest.py:166-183 | With the square roots `r1`, `r2` of the two squared distances, `Infect` penalises the host exactly when `np.min(r1, r2) < 200`, the test the script makes. |
| `Infection.Challenge` | src/perftest.py:172-173 | Sampling an empty pathogen population fails with `ValueError`. Otherwise the result is `Infect` against one pathogen of the population. |
| `Infection.ChallengeReachesEveryPathogen` | src/perftest.py:173 | Every pathogen of a non-empty population can be the one `pathogens.sample()` picks: draw k selects pathogen k. |
| `Infection.ReferencePenalty` | src/perftest.py:78 | With the configured `host_fitness_increment` of 0.2, an infected host loses 0.2 of fitness and a spared host keeps it. |
| `Infection.NearHaplotypeInfects` | src/perftest.py:172-183 | Host alleles at (100,100) and (900,900) with a haplotype at (150,150): fitness goes from 1 to 0.8. |
| `Infection.FarHaplotypeSpares` | src/perftest.py:172-183 | The same host with a haplotype at (500,500): fitness stays 1. |

## Left out

- Randomness itself (`rng.integers`, `random.choice`, `uuid.uuid4`, `pathogens.sample()`): the draws are parameters, not distributions. Uniformity and uuid collision odds are not modelled. `random.choice` is modelled as one raw number per call, whatever number of underlying random bits Python uses.
- `Population.Choice`: only the range of the index and the empty-sequence error are captured, not the library's exact mapping from random bits to an index, so it is weaker than the real generator. `Population.Integers` is weaker in the same way.
- pandas DataFrames (`hosts`, `pathogens`): the model uses sequences of records. A sampled pathogen is one record, not a one-row frame.
- The imports of matplotlib and Bio.Seq, and the unused helpers `randomDNAseq`, `randomASseq` and `randomBitseq`: wrappers over libraries and `random.choice` that nothing calls.
- Floating point: `np.sqrt` is replaced by the squared-distance comparison, which `RootBelowDistance` justifies. Fitness is an unbounded `real`, so `1 - 0.2` is exactly `0.8`. IEEE rounding is not modelled.
- The timing calls and the `print` diagnostics, including the count of distinct `allele_1_id` values: these are I/O.
- The `uniqueAlleleCount` stub and the two commented-out blocks: the diversity count and the generation loop that would apply `infect` to every host. They are not live code, so no generation loop and no diversity reporter are modelled.
- `host_allele_length`, `pathogen_haplotype_length`, `pathogen_fitness_increment`, `sim_gen_n`, `sim_logging_interval` and `sim_allele_subsample_n`: no live code reads them.
- Negative start-up counts: the configuration counts are `nat`. Python treats `range(n)` with `n < 0` as empty, which for the model is the same as 0. This holds for the `range` calls of start-up only, not for the two window widths below.
- `SlidingWindows.SlidingWindowIter`: `width` is a `nat`, so the `ValueError` that `itertools.islice` raises for a negative width is not modelled.
- `SlidingWindows.Window`: `n` is a `nat`, so the `ValueError` that `deque` raises for a negative `maxlen` is not modelled. The default argument `n=2` is not modelled either: every call passes `n` explicitly.
- `Population.Integers`: integers are unbounded, so numpy's int64 limit is not modelled. `rng.integers` also raises `ValueError` when a bound does not fit in int64, for example `peptide_space_length > 2**63`, and there the model returns `Ok`. "Exactly when `high <= low`" holds only for bounds that fit in int64.
- `Infection.EucDistSq`: the arithmetic is unbounded. numpy's int64 `dX*dX + dY*dY` wraps once the sum passes `2**63 - 1`, which happens from coordinate differences of about 2.1e9 in both axes. A wrapped sum can be negative. `d >= 0` and the distance test hold only below that bound. The script's space length of 1000 is far inside it.
- `SlidingWindows.Window`: the generator yields the same deque object every time. The model records the deque's contents at each `yield`, not the aliasing a caller would see if it kept the yielded objects.
- Python's iterator protocol and laziness: each generator is modelled as running to completion over a finite sequence.
