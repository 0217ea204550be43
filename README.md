# Surface-slab generation in surfaxe, modelled in Dafny

This project models the slab pipeline of surfaxe's `surfaxe/generation.py`.
It covers the two drivers `get_one_hkl_slabs` and `get_all_slabs`, and the
helper `oxidation_states`. A driver takes a bulk structure file, one Miller
index or a maximum Miller index, a list of slab thicknesses and a list of
vacuum thicknesses, and does the following:

1. It checks its required arguments, but as written it rejects the call only
   when none of them is supplied: one truthy argument gets past the check.
2. It reads the bulk structure, names the bulk after its formula with the
   spaces removed, and decorates it with oxidation states.
3. For every vacuum (outer loop) and every thickness (inner loop) it asks the
   external slab generator for slabs. It keeps each slab that is not polar
   and, when `is_symmetric` is set, is also symmetric. Each kept slab becomes
   a record tagged `hkl`, `slab_t`, `vac_t` and `s_index`.
4. It deduplicates the records in one scan under the external geometric
   equality. The first record of each class is kept. Every later one is
   reported as a repeat, and kept slabs with more than `max_size` atoms are
   reported as large.
5. It issues a warning naming the repeats and a warning naming the large
   slabs.
6. It writes one output per kept record. In folder mode the output is a
   folder `hkl/slabT_vacT_index` holding a POSCAR or a VASP input set. In
   flat mode it is a file `bulk/POSCAR_hkl_slabT_vacT_index.vasp`.

The model follows the form of the source:

- The loops (enumeration, the deduplication scan with its `x in list`
  search, the writing loops) are methods with loop invariants. Each is proved
  against a specification function on sequences.
- `oxidation_states` decorates a `Structure` object in place and returns that
  same object.
- Everything a driver cannot see is a parameter: reading the structure file,
  the slab generator, and slab equality.
- The files and folders written are a list of artifacts.

Modules:

- `Wrappers` holds `Option` and `Result`.
- `Naming` holds the strings: `str` of an integer, the Miller string, the
  identifiers, the paths and `', '.join`.
- `Oxidation` holds the structure and `oxidation_states`.
- `Slabs` holds the enumeration and the selection test.
- `Dedup` holds the scan and the warnings.
- `Generation` holds the argument guard, the errors, the writing loops and
  the two drivers.

The model follows the code as written, also where it departs from what the
code itself announces (the `ValueError` message at generation.py:93-94, the
placement of the comment at generation.py:310) or from what a reader would
expect:

- A repeat warning names only the later record of each equal pair, never the
  kept one.
- The argument guard raises only when all four required arguments are
  missing (see Findings).
- `get_all_slabs` issues its warnings inside the scan, after every record,
  not once after the full pass (see Findings).
- A generator that returns no slab, or no slab that passes the test, is not
  an error. The run simply keeps nothing.

## Model

| member | source | states |
|---|---|---|
| Naming.NatToString | surfaxe/generation.py:139-140 | `str` of a non-negative integer is a non-empty string of decimal digits with no leading zero |
| Naming.ParseNatToString | surfaxe/generation.py:139-140 | the decimal text of a number reads back as that number |
| Naming.NatToStringInjective | surfaxe/generation.py:139-140 | two numbers get the same decimal text exactly when they are equal |
| Naming.HklString | surfaxe/generation.py:114 | the hkl string contains only digits and '-' (its value is fixed by `HklStringSingle` and `HklStringConcat`) |
| Naming.HklStringSingle | surfaxe/generation.py:114 | one Miller integer is written as its `str` |
| Naming.HklStringConcat | surfaxe/generation.py:114 | the hkl string of a concatenation is the concatenation of the hkl strings: the integers' `str` joined in order with no separator |
| Naming.HklStringNotInjective | surfaxe/generation.py:114 | joining the indices without a separator conflates different Miller indices: (1,11,0) and (11,1,0) both give "1110" |
| Naming.RemoveSpaces | surfaxe/generation.py:99 | the bulk name holds exactly the characters of the formula other than spaces, and is no longer than the formula (order and repeats are fixed by `RemoveSpacesChar` and `RemoveSpacesConcat`) |
| Naming.RemoveSpacesChar | surfaxe/generation.py:99 | a single character is dropped exactly when it is a space |
| Naming.RemoveSpacesConcat | surfaxe/generation.py:99 | removing spaces works piece by piece, so the bulk name is the formula's non-space characters in their order |
| Naming.RemoveSpacesIdempotent | surfaxe/generation.py:99 | removing spaces from a bulk name a second time changes nothing |
| Naming.Join | surfaxe/generation.py:152 | `', '.join` of no identifiers is empty, and of one identifier is that identifier |
| Naming.JoinConcat | surfaxe/generation.py:152 | joining two non-empty lists puts exactly one separator between their joins, so neighbouring identifiers are separated by `', '` |
| Naming.TagsSplit | surfaxe/generation.py:163-164 | `slab_t_vac_t_index` splits at '_' back into its three numbers |
| Naming.TagsInjective | surfaxe/generation.py:163-164 | equal `slab_t_vac_t_index` texts have equal thicknesses and index |
| Naming.SlabIdSplit | surfaxe/generation.py:144-145 | an identifier `hkl_slab_t_vac_t_index` splits at '_' into its four fields when hkl holds no '_' |
| Naming.SlabIdInjective | surfaxe/generation.py:144-145 | two identifiers with '_'-free hkl strings are equal exactly when all four fields are equal |
| Naming.FolderPathInjective | surfaxe/generation.py:163-164 | two folders `hkl/slab_t_vac_t_index` with '/'-free hkl strings are equal exactly when all four fields are equal |
| Naming.FlatPathInjective | surfaxe/generation.py:191-193 | inside one bulk folder, two flat POSCAR names are equal exactly when their identifiers are equal |
| Oxidation.Structure.constructor | surfaxe/generation.py:98 | a structure read from a file carries the file's formula and no oxidation states |
| Oxidation.DecorationFor | surfaxe/generation.py:366-371 | a dict assigns states by element and a list by site, each with the given values; anything else, `None` included, assigns them by guess over all sites (`max_sites=-1`); exactly one branch applies |
| Oxidation.OxidationStates | surfaxe/generation.py:356-373 | decorates the given structure in place as `DecorationFor` selects, keeps its formula, and returns the same object |
| Slabs.Keep | surfaxe/generation.py:112-127 | a slab is kept exactly when it is not polar and, with `is_symmetric` set, also symmetric; `get_all_slabs` applies the same test at lines 271-286 |
| Slabs.AppendBatch | surfaxe/generation.py:110-127 | the loop over one generated batch appends exactly `Batch` of that batch to `provisional` |
| Slabs.AppendRow | surfaxe/generation.py:105-127 | the thickness loop appends exactly `Row` for the vacuum |
| Slabs.Enumerate | surfaxe/generation.py:103-127 | the double loop builds exactly `Provisional` (vacuum-major, then thickness, then generator order) |
| Slabs.BatchMembership | surfaxe/generation.py:110-127 | a record is in a batch exactly when the slab at some position `i` passes the test and the record is that slab tagged with the thicknesses and `s_index = i` |
| Slabs.RowMembership | surfaxe/generation.py:105-127 | a record is in a vacuum's row exactly when some thickness of the list produces it |
| Slabs.ProvisionalMembership | surfaxe/generation.py:103-127 | a record is in `provisional` exactly when some vacuum and some thickness of the lists make the generator return, at position `i`, a kept slab, and the record carries that slab, those thicknesses and `i` |
| Slabs.NoSymmetricSlabsNoCandidates | surfaxe/generation.py:112-118 | with `is_symmetric` set and a generator that never returns a symmetric slab, `provisional` is empty |
| Slabs.BatchAllKept | surfaxe/generation.py:110-118 | when every slab of a batch passes, the batch is the slabs tagged with their positions, in order |
| Slabs.RowLength | surfaxe/generation.py:105-118 | when every thickness yields `n` kept slabs, a row holds n records per thickness |
| Slabs.ProvisionalLength | surfaxe/generation.py:103-118 | when every pair yields `n` kept slabs, `provisional` holds n records per (vacuum, thickness) pair, vacuums times thicknesses times n in all |
| Slabs.ProvisionalAt | surfaxe/generation.py:103-118 | in that case, the record at position (a * T + b) * n + i, with T the number of thicknesses, comes from the i-th slab of the b-th thickness and a-th vacuum |
| Slabs.BatchDistinct | surfaxe/generation.py:110-127 | the records of one batch have distinct `s_index`, all below the batch size, and carry the batch's thicknesses |
| Slabs.RowDistinct | surfaxe/generation.py:105-127 | with no repeated thickness, no two records of a row share (`slab_t`, `vac_t`, `s_index`) |
| Slabs.ProvisionalDistinct | surfaxe/generation.py:103-127 | with no repeated thickness or vacuum, no two records of `provisional` share (`slab_t`, `vac_t`, `s_index`) |
| Dedup.Contains | surfaxe/generation.py:133 | the linear search `x in unique_list` finds `x` exactly when some element is equal to it |
| Dedup.OversizeMembers | surfaxe/generation.py:137-140 | a record is large exactly when it is among the records and has strictly more than `max_size` atoms (exactly `max_size` is not large) |
| Dedup.Ids | surfaxe/generation.py:139-140 | the identifier list has one `hkl_slab_t_vac_t_index` per record, in order |
| Dedup.SlabsOf | surfaxe/generation.py:134 | `unique_list` holds the slab of each kept record, in order |
| Dedup.ScanRecord | surfaxe/generation.py:133-145 | one pass of the loop body advances the four lists as the scan specification advances |
| Dedup.Deduplicate | surfaxe/generation.py:130-157 | the loop leaves the unique records, their slabs, the repeat identifiers and the large identifiers of the scan; the warnings are the block after the loop, or, with the block inside the loop as at lines 289-320, one block per record |
| Dedup.DedupPartition | surfaxe/generation.py:132-145 | every record lands in exactly one of the unique list and the repeat list, so the two together are a permutation of `provisional` |
| Dedup.UniqueHasNoEqualPair | surfaxe/generation.py:132-135 | no kept slab equals a slab kept after it |
| Dedup.UniqueGrows | surfaxe/generation.py:132-135 | the unique list of a prefix of `provisional` is a prefix of the final unique list |
| Dedup.RepeatsAreCovered | surfaxe/generation.py:143-145 | every repeat equals some kept slab, so every record is either kept or matched by a kept one |
| Dedup.DedupKeepsOrder | surfaxe/generation.py:132-145 | the unique list and the repeat list are each subsequences of `provisional` |
| Dedup.SeenIffEarlier | surfaxe/generation.py:133 | for a transitive equality, the kept slabs match a slab exactly when some scanned record does |
| Dedup.UniqueIsFirstOccurrences | surfaxe/generation.py:132-135 | for a transitive equality, the scan keeps exactly the first record of each equality class (an independent reference definition) |
| Dedup.DedupOfDistinct | surfaxe/generation.py:132-145 | records with no equal pair are all kept and none is reported as a repeat |
| Dedup.DedupIdempotent | surfaxe/generation.py:132-145 | deduplicating the unique list again changes nothing and reports no repeat |
| Dedup.FinalWarningCounts | surfaxe/generation.py:147-157 | the block after the loop issues one repeat warning exactly when there is a repeat and one large warning exactly when there is a large slab, each carrying the whole list, and nothing else |
| Dedup.RepeatsGrow | surfaxe/generation.py:143-145 | the repeat list never shrinks as the scan goes on |
| Dedup.BlockWarnsOnce | surfaxe/generation.py:148-152 | with a repeat on record, the warning block issues exactly one repeat warning |
| Dedup.RepeatWarningsStep | surfaxe/generation.py:310-315 | with the block inside the loop, each record scanned after a repeat adds one more repeat warning |
| Dedup.RepeatWarningEveryRecord | surfaxe/generation.py:291-320 | with the block inside the loop, a repeat among the first `k` records leads to at least N - k + 1 repeat warnings for N records, where the block after the loop issues one |
| Dedup.StepWarningsExample | surfaxe/generation.py:291-320 | three equal records: the block inside the loop warns twice, first about one repeat and then about both, where the block after the loop warns once about both |
| Generation.OneHklGuard | surfaxe/generation.py:92-94 | `get_one_hkl_slabs` raises `ValueError`, with its message, exactly when all four required arguments are falsy |
| Generation.AllSlabsGuard | surfaxe/generation.py:249-251 | `get_all_slabs` raises `ValueError`, with its message, exactly when all four are falsy (`max_index` 0 counts as missing) |
| Generation.GuardLetsMissingArgumentsThrough | surfaxe/generation.py:92-104 | with only the structure given, both drivers pass the guard although three arguments are missing, and then fail iterating over `None` |
| Generation.CorrectedGuard | surfaxe/generation.py:92-94 | with the guard the message describes, `ValueError` is raised exactly when some argument is missing, and otherwise the only error left is an unreadable structure |
| Generation.Prepare | surfaxe/generation.py:96-109 | the steps after the guard fail exactly as `LateError` says; on success the bulk is the read formula with the decoration `oxidation_states` selects |
| Generation.Emit | surfaxe/generation.py:159-193 | the writing loops produce exactly the artifacts of the mode `make_fols or make_input_files` selects |
| Generation.FolderOutputs | surfaxe/generation.py:161-184 | in folder mode the outputs are the input set folder, or the POSCAR inside it, of each record in order |
| Generation.FlatOutputs | surfaxe/generation.py:186-193 | in flat mode the outputs are `bulk/POSCAR_<id>.vasp` for each record in order |
| Generation.OneOutputPerRecord | surfaxe/generation.py:159-193 | every kept record gets exactly one output, in order, at the path its mode prescribes |
| Generation.OutputPathInjective | surfaxe/generation.py:159-193 | two records with numeral hkl strings that write to the same path agree on hkl, thicknesses and index |
| Generation.DistinctOutputs | surfaxe/generation.py:159-193 | records that differ in (`slab_t`, `vac_t`, `s_index`) never write to the same path |
| Generation.ProvisionalHkl | surfaxe/generation.py:114 | every record of `provisional` carries the hkl string of its own slab's Miller index |
| Generation.Pipeline | surfaxe/generation.py:102-193 | enumeration, deduplication, warnings and writing produce exactly the run that `RunOf` specifies |
| Generation.GetOneHklSlabs | surfaxe/generation.py:41-193 | `get_one_hkl_slabs` fails exactly as `OneHklError` says; otherwise it performs the run for the given Miller index with the warnings after the scan |
| Generation.GetAllSlabs | surfaxe/generation.py:196-354 | `get_all_slabs` fails exactly as `AllSlabsError` says; otherwise it performs the run for all indices up to `max_index` with the warnings after every record |
| Generation.RunOutputsDistinct | surfaxe/generation.py:103-193 | when neither list repeats a value, a run writes one output per kept record and no two outputs to the same path |
| Generation.RunWithoutSymmetricSlabs | surfaxe/generation.py:110-193 | asking for symmetric slabs when none exist is not an error: nothing is kept, no warning is issued and no slab file is written |
| Generation.ExampleNames | surfaxe/generation.py:114 | the (001) index is written "001", and thickness 10, vacuum 15 and index 0 are written "10_15_0" |
| Generation.FlatNameExample | surfaxe/generation.py:190-193 | that slab is written to `bulk/POSCAR_001_10_15_0.vasp` in flat mode |
| Generation.FolderNameExample | surfaxe/generation.py:180-184 | that slab is written to `001/10_15_0/POSCAR` in folder mode |

## Left out

- The structure library is not part of this model: slab cutting, the polarity and symmetry tests, the geometric equality, atom counts, `Structure.from_file`, and the oxidation-state assignment routines themselves. The generator, the equality and the file loader are parameters; a slab carries the answers of its tests and an opaque geometry.
- The arguments `lll_reduce`, `center_slab` and `**kwargs` only change what the external generator returns, so they are not arguments of the model.
- Thicknesses, vacuums and `max_size` are numbers in the source (floats are accepted). The model uses natural numbers for the thicknesses and vacuums, and an integer for `max_size`. As a result, `str` of a float (`10.0`) is not modelled.
- File I/O is not modelled. The written files are a list of artifacts (folder, POSCAR, input set) with their paths relative to the working directory. `os.makedirs(..., exist_ok=True)`, overwriting existing files, joining with `os.getcwd()`, and I/O errors are not modelled.
- The contents of the files are not modelled: the POSCAR text, and the INCAR/KPOINTS/POTCAR written by `DictSet`. The `PBEsol_slab_config` constant, `potcar_functional` and the `update_*` overrides only feed `DictSet`.
- Warnings are modelled as the calls to `warnings.warn`, each with the identifiers it lists. `Dedup.Warning.Message` gives the text.
- The `custom_formatwarning` override of the process-wide warning formatter is not modelled.
- Python's warning filter is not modelled. By default it hides a warning whose text was already shown from the same line.
- Dedup.RepeatWarningEveryRecord: counts calls to `warnings.warn`, not warnings shown. Python's default filter hides a repeated identical text, so fewer warnings may be shown than issued.
- Dedup.Contains: Python's `in` first tests identity (`is`) and only then `==`. The model applies the equality to every element, which gives the same answer for any reflexive equality.
- The errors raised by external code on `None` arguments are modelled as error values. These are `Structure.from_file(None)`, a `for` loop over `None`, and the generator called with a missing Miller index. The messages of those errors, and any other exception an external call may raise, are not modelled.
- Generation.GetOneHklSlabs: when `hkl` is `None`, the Miller specification in its success contract is a placeholder, because a run that succeeds then never calls the generator. Likewise, a missing `thicknesses` list is read as empty when `vacuums` is empty.
- Truthiness is modelled only for the types the drivers expect. A string or list is false when empty, and an integer when 0. `hkl` given as a tuple is modelled as a sequence.
- Default argument values (`make_fols=False`, `make_input_files=False`, `max_size=500`, `ox_states=None`, `is_symmetric=True`, `lll_reduce=True`, `center_slab=True`) are not modelled: `Generation.GetOneHklSlabs` and `Generation.GetAllSlabs` take every argument explicitly, and a caller passes the default value to get the default behaviour.
- `convergence.py` and `setup.py` are not part of this model.

## Findings

| source | as written | input that shows it | evidently intended | confidence | as-written member | corrected member |
|---|---|---|---|---|---|---|
| surfaxe/generation.py:92 | `if not any([structure, hkl, thicknesses, vacuums])` raises only when every required argument is missing | `get_one_hkl_slabs(structure='bulk.vasp')`: passes the guard, then fails with a `TypeError` iterating over `vacuums=None` instead of the `ValueError` naming the missing arguments; the same holds at line 249 | `not all(...)`, as the message "One or more of the required arguments ... were not supplied" says | not executed; high (the message describes the other guard) | Generation.GuardLetsMissingArgumentsThrough | Generation.CorrectedGuard |
| surfaxe/generation.py:310-320 | the repeat and large warning block is indented into the `for slab in provisional` loop of `get_all_slabs` | three generated records holding one slab: two repeat warnings are issued, the first listing one repeat and the second both, while `get_one_hkl_slabs` issues one warning listing both | one warning block after the loop, as in `get_one_hkl_slabs` (lines 147-157) | not executed; medium (the two drivers are otherwise line-for-line alike) | Dedup.StepWarningsExample | Dedup.FinalWarningCounts |
