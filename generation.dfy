/** The two drivers `get_one_hkl_slabs` and `get_all_slabs`: the argument
    guard, the errors raised before any slab is written, the enumeration and
    deduplication of the records, and the files and folders written for the
    unique slabs. */
module Generation {
  import opened Wrappers
  import opened Naming
  import opened Oxidation
  import opened Slabs
  import opened Dedup

  // ---------------------------------------------------------------------------
  // Arguments and errors
  // ---------------------------------------------------------------------------

  /** `Structure.from_file`: the formula of the structure read from a file, or
      `None` when reading fails. */
  type Loader = string -> Option<string>

  /** What a driver raises before it writes anything. */
  datatype Error =
    | ValueError(message: string)
    | LoadFailed                       // `Structure.from_file` raises
    | NotIterable(argument: string)    // a `for` loop over `None`
    | GeneratorFailed                  // the generator is called with `None`

  const OneHklMessage: string :=
    "One or more of the required arguments (structure, hkl, thicknesses, vacuums) were not supplied."
  const AllSlabsMessage: string :=
    "One or more of the required arguments (structure, max_index, thicknesses, vacuums) were not supplied."

  /** Python truthiness of the required arguments: `None` is false, a string
      or a list is true when it is not empty, an integer when it is not 0. */
  predicate TruthyText(s: Option<string>) { s.Some? && s.value != [] }
  predicate TruthyList<T>(s: Option<seq<T>>) { s.Some? && s.value != [] }
  predicate TruthyInt(n: Option<int>) { n.Some? && n.value != 0 }

  function OneHklSupplied(structure: Option<string>, hkl: Option<seq<int>>,
                          thicknesses: Option<seq<nat>>, vacuums: Option<seq<nat>>): seq<bool>
  {
    [TruthyText(structure), TruthyList(hkl), TruthyList(thicknesses), TruthyList(vacuums)]
  }

  function AllSlabsSupplied(structure: Option<string>, maxIndex: Option<int>,
                            thicknesses: Option<seq<nat>>, vacuums: Option<seq<nat>>): seq<bool>
  {
    [TruthyText(structure), TruthyInt(maxIndex), TruthyList(thicknesses), TruthyList(vacuums)]
  }

  /** `not any([...])`: the guard as written rejects the call only when no
      required argument is truthy. */
  predicate ArgumentsRejected(supplied: seq<bool>)
  {
    true !in supplied
  }

  /** The guard its message describes, `not all([...])`: the call is rejected
      as soon as one required argument is missing. */
  predicate MissingArguments(supplied: seq<bool>)
  {
    false in supplied
  }

  /** The errors that can follow the guard, in the order the driver meets
      them: reading the structure, iterating over `vacuums`, iterating over
      `thicknesses` (only reached when `vacuums` is not empty), and calling
      the generator with a missing Miller argument (only reached when some
      (vacuum, thickness) pair is enumerated). */
  function LateError(structure: Option<string>, load: Loader, millerGiven: bool,
                     thicknesses: Option<seq<nat>>, vacuums: Option<seq<nat>>): Option<Error>
  {
    if structure.None? || load(structure.value).None? then Some(LoadFailed)
    else if vacuums.None? then Some(NotIterable("vacuums"))
    else if vacuums.value != [] && thicknesses.None? then Some(NotIterable("thicknesses"))
    else if vacuums.value != [] && thicknesses.value != [] && !millerGiven then Some(GeneratorFailed)
    else None
  }

  /** The error `get_one_hkl_slabs` raises, if any. */
  function OneHklError(structure: Option<string>, hkl: Option<seq<int>>, thicknesses: Option<seq<nat>>,
                       vacuums: Option<seq<nat>>, load: Loader): Option<Error>
  {
    if ArgumentsRejected(OneHklSupplied(structure, hkl, thicknesses, vacuums)) then Some(ValueError(OneHklMessage))
    else LateError(structure, load, hkl.Some?, thicknesses, vacuums)
  }

  /** The error `get_all_slabs` raises, if any. */
  function AllSlabsError(structure: Option<string>, maxIndex: Option<int>, thicknesses: Option<seq<nat>>,
                         vacuums: Option<seq<nat>>, load: Loader): Option<Error>
  {
    if ArgumentsRejected(AllSlabsSupplied(structure, maxIndex, thicknesses, vacuums)) then Some(ValueError(AllSlabsMessage))
    else LateError(structure, load, maxIndex.Some?, thicknesses, vacuums)
  }

  /** `get_one_hkl_slabs` raises `ValueError` exactly when all four required
      arguments are falsy; supplying any one of them gets past the guard. */
  lemma OneHklGuard(structure: Option<string>, hkl: Option<seq<int>>, thicknesses: Option<seq<nat>>,
                    vacuums: Option<seq<nat>>, load: Loader)
    ensures (var e := OneHklError(structure, hkl, thicknesses, vacuums, load);
             e.Some? && e.value.ValueError?)
        <==> !TruthyText(structure) && !TruthyList(hkl) && !TruthyList(thicknesses) && !TruthyList(vacuums)
    ensures (var e := OneHklError(structure, hkl, thicknesses, vacuums, load);
             e.Some? && e.value.ValueError? ==> e.value.message == OneHklMessage)
  {
    var s := OneHklSupplied(structure, hkl, thicknesses, vacuums);
    assert s[0] == TruthyText(structure) && s[1] == TruthyList(hkl);
    assert s[2] == TruthyList(thicknesses) && s[3] == TruthyList(vacuums);
  }

  /** The same for `get_all_slabs`, where a `max_index` of 0 counts as missing. */
  lemma AllSlabsGuard(structure: Option<string>, maxIndex: Option<int>, thicknesses: Option<seq<nat>>,
                      vacuums: Option<seq<nat>>, load: Loader)
    ensures (var e := AllSlabsError(structure, maxIndex, thicknesses, vacuums, load);
             e.Some? && e.value.ValueError?)
        <==> !TruthyText(structure) && !TruthyInt(maxIndex) && !TruthyList(thicknesses) && !TruthyList(vacuums)
    ensures (var e := AllSlabsError(structure, maxIndex, thicknesses, vacuums, load);
             e.Some? && e.value.ValueError? ==> e.value.message == AllSlabsMessage)
  {
    var s := AllSlabsSupplied(structure, maxIndex, thicknesses, vacuums);
    assert s[0] == TruthyText(structure) && s[1] == TruthyInt(maxIndex);
    assert s[2] == TruthyList(thicknesses) && s[3] == TruthyList(vacuums);
  }

  /** With only a structure file given, the guard as written lets the call
      through although three arguments are missing, and the driver then fails
      on the first `for` loop instead of reporting the missing arguments. */
  lemma GuardLetsMissingArgumentsThrough(load: Loader)
    requires load("bulk.vasp").Some?
    ensures MissingArguments(OneHklSupplied(Some("bulk.vasp"), None, None, None))
    ensures OneHklError(Some("bulk.vasp"), None, None, None, load) == Some(NotIterable("vacuums"))
    ensures MissingArguments(AllSlabsSupplied(Some("bulk.vasp"), None, None, None))
    ensures AllSlabsError(Some("bulk.vasp"), None, None, None, load) == Some(NotIterable("vacuums"))
  {
    assert OneHklSupplied(Some("bulk.vasp"), None, None, None) == [true, false, false, false];
    assert AllSlabsSupplied(Some("bulk.vasp"), None, None, None) == [true, false, false, false];
  }

  /** The error `get_one_hkl_slabs` would raise with the guard its message
      describes. */
  function CorrectedOneHklError(structure: Option<string>, hkl: Option<seq<int>>, thicknesses: Option<seq<nat>>,
                                vacuums: Option<seq<nat>>, load: Loader): Option<Error>
  {
    if MissingArguments(OneHklSupplied(structure, hkl, thicknesses, vacuums)) then Some(ValueError(OneHklMessage))
    else LateError(structure, load, hkl.Some?, thicknesses, vacuums)
  }

  /** With the corrected guard a missing argument is always reported as such,
      and once all four are supplied the only error left is a structure file
      that cannot be read. */
  lemma CorrectedGuard(structure: Option<string>, hkl: Option<seq<int>>, thicknesses: Option<seq<nat>>,
                       vacuums: Option<seq<nat>>, load: Loader)
    ensures (var e := CorrectedOneHklError(structure, hkl, thicknesses, vacuums, load);
             e.Some? && e.value.ValueError?)
        <==> !TruthyText(structure) || !TruthyList(hkl) || !TruthyList(thicknesses) || !TruthyList(vacuums)
    ensures (var e := CorrectedOneHklError(structure, hkl, thicknesses, vacuums, load);
             e.Some? && !e.value.ValueError? ==> e.value == LoadFailed)
  {
    var s := OneHklSupplied(structure, hkl, thicknesses, vacuums);
    assert s[0] == TruthyText(structure) && s[1] == TruthyList(hkl);
    assert s[2] == TruthyList(thicknesses) && s[3] == TruthyList(vacuums);
  }

  // ---------------------------------------------------------------------------
  // Files and folders written
  // ---------------------------------------------------------------------------

  /** What the drivers create, as paths relative to the working directory: a
      folder, a POSCAR file, or the VASP input set written into a folder. */
  datatype Artifact = Directory(path: string) | PoscarFile(path: string) | InputSet(path: string)

  /** Folder mode is chosen by either flag. */
  predicate UsesFolders(makeFols: bool, makeInputFiles: bool)
  {
    makeFols || makeInputFiles
  }

  /** Folder mode, for one record: its folder, then either the input set or a
      POSCAR inside it. */
  function SlabArtifacts(c: Candidate, makeInputFiles: bool): seq<Artifact>
  {
    var dir := FolderPath(c.hkl, c.slabT, c.vacT, c.sIndex);
    [Directory(dir), if makeInputFiles then InputSet(dir) else PoscarFile(dir + "/POSCAR")]
  }

  function FolderArtifacts(unique: seq<Candidate>, makeInputFiles: bool): seq<Artifact>
  {
    if unique == [] then []
    else FolderArtifacts(unique[..|unique| - 1], makeInputFiles) + SlabArtifacts(unique[|unique| - 1], makeInputFiles)
  }

  /** Flat mode: one POSCAR per record inside the bulk folder. */
  function FlatFiles(bulkName: string, unique: seq<Candidate>): seq<Artifact>
  {
    if unique == [] then []
    else FlatFiles(bulkName, unique[..|unique| - 1]) + [PoscarFile(FlatPath(bulkName, unique[|unique| - 1].Id()))]
  }

  /** Everything written for the unique records, in order. */
  function Artifacts(bulkName: string, unique: seq<Candidate>, makeFols: bool, makeInputFiles: bool): seq<Artifact>
  {
    if UsesFolders(makeFols, makeInputFiles) then FolderArtifacts(unique, makeInputFiles)
    else [Directory(bulkName)] + FlatFiles(bulkName, unique)
  }

  /** The per-slab outputs among the artifacts: every file or input set, but
      not the folders. */
  function Outputs(artifacts: seq<Artifact>): seq<string>
  {
    if artifacts == [] then []
    else
      var last := artifacts[|artifacts| - 1];
      Outputs(artifacts[..|artifacts| - 1]) + (if last.Directory? then [] else [last.path])
  }

  /** The output of one record in folder mode: the input set is written into
      its folder, a lone POSCAR inside it. */
  function FolderOutput(c: Candidate, makeInputFiles: bool): string
  {
    var dir := FolderPath(c.hkl, c.slabT, c.vacT, c.sIndex);
    if makeInputFiles then dir else dir + "/POSCAR"
  }

  /** Where the output of one record goes. */
  function OutputPath(bulkName: string, c: Candidate, makeFols: bool, makeInputFiles: bool): string
  {
    if UsesFolders(makeFols, makeInputFiles) then FolderOutput(c, makeInputFiles)
    else FlatPath(bulkName, c.Id())
  }

  /** The writing loops at the end of both drivers. */
  method Emit(bulkName: string, unique: seq<Candidate>, makeFols: bool, makeInputFiles: bool)
    returns (artifacts: seq<Artifact>)
    ensures artifacts == Artifacts(bulkName, unique, makeFols, makeInputFiles)
  {
    if makeFols || makeInputFiles {
      artifacts := [];
      for k := 0 to |unique|
        invariant artifacts == FolderArtifacts(unique[..k], makeInputFiles)
      {
        var c := unique[k];
        var dir := FolderPath(c.hkl, c.slabT, c.vacT, c.sIndex);
        artifacts := artifacts + [Directory(dir)];
        if makeInputFiles {
          artifacts := artifacts + [InputSet(dir)];
        } else {
          artifacts := artifacts + [PoscarFile(dir + "/POSCAR")];
        }
        assert unique[..k + 1][..k] == unique[..k];
      }
    } else {
      artifacts := [Directory(bulkName)];
      for k := 0 to |unique|
        invariant artifacts == [Directory(bulkName)] + FlatFiles(bulkName, unique[..k])
      {
        artifacts := artifacts + [PoscarFile(FlatPath(bulkName, unique[k].Id()))];
        assert unique[..k + 1][..k] == unique[..k];
      }
    }
    assert unique[..|unique|] == unique;
  }

  lemma {:induction false} OutputsConcat(xs: seq<Artifact>, ys: seq<Artifact>)
    ensures Outputs(xs + ys) == Outputs(xs) + Outputs(ys)
  {
    if ys == [] {
      assert xs + ys == xs;
    } else {
      var n := |ys| - 1;
      OutputsConcat(xs, ys[..n]);
      assert (xs + ys)[..|xs + ys| - 1] == xs + ys[..n];
      assert (xs + ys)[|xs + ys| - 1] == ys[n];
    }
  }

  /** The one output among the artifacts of a record in folder mode. */
  lemma SlabOutputs(c: Candidate, makeInputFiles: bool)
    ensures Outputs(SlabArtifacts(c, makeInputFiles)) == [FolderOutput(c, makeInputFiles)]
  {
    var s := SlabArtifacts(c, makeInputFiles);
    assert s[..1][..0] == [] && s[..1] == [s[0]];
    assert Outputs(s[..1]) == [];
  }

  /** The outputs of the records in folder mode, in order. */
  function FolderOutputList(unique: seq<Candidate>, makeInputFiles: bool): seq<string>
  {
    if unique == [] then []
    else FolderOutputList(unique[..|unique| - 1], makeInputFiles) + [FolderOutput(unique[|unique| - 1], makeInputFiles)]
  }

  lemma {:induction false} FolderOutputListAt(unique: seq<Candidate>, makeInputFiles: bool)
    ensures |FolderOutputList(unique, makeInputFiles)| == |unique|
    ensures forall k :: 0 <= k < |unique| ==>
      FolderOutputList(unique, makeInputFiles)[k] == FolderOutput(unique[k], makeInputFiles)
  {
    if unique != [] {
      var n := |unique| - 1;
      FolderOutputListAt(unique[..n], makeInputFiles);
      var outs := FolderOutputList(unique, makeInputFiles);
      forall k | 0 <= k < |unique| ensures outs[k] == FolderOutput(unique[k], makeInputFiles) {
        if k < n {
          assert unique[k] == unique[..n][k];
        }
      }
    }
  }

  /** Outputs of folder mode: the input set or the POSCAR of each record. */
  lemma {:induction false} FolderOutputs(unique: seq<Candidate>, makeInputFiles: bool)
    ensures Outputs(FolderArtifacts(unique, makeInputFiles)) == FolderOutputList(unique, makeInputFiles)
  {
    if unique != [] {
      var n := |unique| - 1;
      FolderOutputs(unique[..n], makeInputFiles);
      SlabOutputs(unique[n], makeInputFiles);
      OutputsConcat(FolderArtifacts(unique[..n], makeInputFiles), SlabArtifacts(unique[n], makeInputFiles));
    }
  }

  /** Outputs of flat mode: the POSCAR of each record in the bulk folder. */
  lemma {:induction false} FlatOutputs(bulkName: string, unique: seq<Candidate>)
    ensures |Outputs(FlatFiles(bulkName, unique))| == |unique|
    ensures forall k :: 0 <= k < |unique| ==>
      Outputs(FlatFiles(bulkName, unique))[k] == FlatPath(bulkName, unique[k].Id())
  {
    if unique != [] {
      var n := |unique| - 1;
      var f := [PoscarFile(FlatPath(bulkName, unique[n].Id()))];
      FlatOutputs(bulkName, unique[..n]);
      OutputsConcat(FlatFiles(bulkName, unique[..n]), f);
      assert f[..0] == [];
      var outs := Outputs(FlatFiles(bulkName, unique));
      forall k | 0 <= k < |unique| ensures outs[k] == FlatPath(bulkName, unique[k].Id()) {
        if k < n {
          assert unique[k] == unique[..n][k];
        }
      }
    }
  }

  /** Every unique record gets exactly one output, in the order of the
      records, at the path its mode prescribes. */
  lemma OneOutputPerRecord(bulkName: string, unique: seq<Candidate>, makeFols: bool, makeInputFiles: bool)
    ensures |Outputs(Artifacts(bulkName, unique, makeFols, makeInputFiles))| == |unique|
    ensures forall k :: 0 <= k < |unique| ==>
      Outputs(Artifacts(bulkName, unique, makeFols, makeInputFiles))[k] == OutputPath(bulkName, unique[k], makeFols, makeInputFiles)
  {
    if UsesFolders(makeFols, makeInputFiles) {
      FolderOutputs(unique, makeInputFiles);
      FolderOutputListAt(unique, makeInputFiles);
    } else {
      FlatOutputs(bulkName, unique);
      OutputsConcat([Directory(bulkName)], FlatFiles(bulkName, unique));
      assert [Directory(bulkName)][..0] == [];
    }
  }

  /** An hkl string holds neither separator of the paths. */
  predicate NumeralHkl(c: Candidate)
  {
    forall k :: 0 <= k < |c.hkl| ==> NumeralChar(c.hkl[k])
  }

  /** Two records with numeral hkl strings and the same output path have the
      same hkl, thicknesses and index. */
  lemma OutputPathInjective(bulkName: string, c1: Candidate, c2: Candidate, makeFols: bool, makeInputFiles: bool)
    requires NumeralHkl(c1) && NumeralHkl(c2)
    requires OutputPath(bulkName, c1, makeFols, makeInputFiles) == OutputPath(bulkName, c2, makeFols, makeInputFiles)
    ensures c1.hkl == c2.hkl && Tagline(c1) == Tagline(c2)
  {
    NumeralHasNoSeparator(c1.hkl, '_');
    NumeralHasNoSeparator(c2.hkl, '_');
    NumeralHasNoSeparator(c1.hkl, '/');
    NumeralHasNoSeparator(c2.hkl, '/');
    var d1 := FolderPath(c1.hkl, c1.slabT, c1.vacT, c1.sIndex);
    var d2 := FolderPath(c2.hkl, c2.slabT, c2.vacT, c2.sIndex);
    if UsesFolders(makeFols, makeInputFiles) {
      if !makeInputFiles {
        assert d1 + "/POSCAR" == d2 + "/POSCAR";
        assert |d1| == |d2|;
        assert d1 == (d1 + "/POSCAR")[..|d1|];
        assert d2 == (d2 + "/POSCAR")[..|d2|];
      }
      FolderPathInjective(c1.hkl, c1.slabT, c1.vacT, c1.sIndex, c2.hkl, c2.slabT, c2.vacT, c2.sIndex);
    } else {
      FlatPathInjective(bulkName, c1.Id(), c2.Id());
      SlabIdInjective(c1.hkl, c1.slabT, c1.vacT, c1.sIndex, c2.hkl, c2.slabT, c2.vacT, c2.sIndex);
    }
  }

  /** Records that differ in (slab_t, vac_t, s_index) never write to the same
      path, so no output overwrites another. */
  lemma DistinctOutputs(bulkName: string, unique: seq<Candidate>, makeFols: bool, makeInputFiles: bool)
    requires DistinctTaglines(unique)
    requires forall c :: c in unique ==> NumeralHkl(c)
    ensures NoDuplicates(Outputs(Artifacts(bulkName, unique, makeFols, makeInputFiles)))
  {
    var outs := Outputs(Artifacts(bulkName, unique, makeFols, makeInputFiles));
    OneOutputPerRecord(bulkName, unique, makeFols, makeInputFiles);
    forall j, k | 0 <= j < k < |outs| ensures outs[j] != outs[k] {
      if outs[j] == outs[k] {
        OutputPathInjective(bulkName, unique[j], unique[k], makeFols, makeInputFiles);
        assert false;
      }
    }
  }

  /** A subsequence keeps the distinct taglines of the sequence it is taken
      from, and its records are records of that sequence. */
  lemma SubsequenceDistinct(xs: seq<Candidate>, ys: seq<Candidate>)
    requires IsSubsequence(xs, ys) && DistinctTaglines(ys)
    ensures DistinctTaglines(xs)
    ensures forall x :: x in xs ==> x in ys
  {
    var idx :| Embeds(idx, xs, ys);
    forall j, k | 0 <= j < k < |xs| ensures Tagline(xs[j]) != Tagline(xs[k]) {
      assert xs[j] == ys[idx[j]] && xs[k] == ys[idx[k]] && idx[j] < idx[k];
    }
    forall x | x in xs ensures x in ys {
      var m :| 0 <= m < |xs| && xs[m] == x;
      assert ys[idx[m]] == x;
    }
  }

  /** Every provisional record carries the hkl string of its own slab. */
  lemma ProvisionalHkl(src: Source, vacuums: seq<nat>, thicknesses: seq<nat>, isSymmetric: bool, c: Candidate)
    requires c in Provisional(src, vacuums, thicknesses, isSymmetric)
    ensures c.hkl == HklString(c.slab.miller) && NumeralHkl(c)
  {
    ProvisionalMembership(src, vacuums, thicknesses, isSymmetric, c);
    var a, b, i :| 0 <= a < |vacuums| && 0 <= b < |thicknesses| && Produces(src, isSymmetric, thicknesses[b], vacuums[a], i, c);
  }

  // ---------------------------------------------------------------------------
  // The drivers
  // ---------------------------------------------------------------------------

  /** What a driver that returns normally has computed and written. */
  datatype Run = Run(
    bulkName: string,
    provisional: seq<Candidate>,
    unique: seq<Candidate>,
    repeat: seq<string>,
    large: seq<string>,
    warnings: seq<Warning>,
    artifacts: seq<Artifact>)

  /** The run of the pipeline for one bulk and Miller specification: the
      candidates in enumeration order, their first-occurrence deduplication,
      the repeat and large identifiers, the warnings (after the scan, or after
      every record when `warnEachRecord`), and the artifacts written. */
  ghost predicate RunOf(run: Run, src: Source, vacuums: seq<nat>, thicknesses: seq<nat>, isSymmetric: bool,
                        eq: Equality, maxSize: int, warnEachRecord: bool, makeFols: bool, makeInputFiles: bool)
  {
    && run.bulkName == RemoveSpaces(src.bulk.formula)
    && run.provisional == Provisional(src, vacuums, thicknesses, isSymmetric)
    && run.unique == Unique(eq, run.provisional)
    && run.repeat == Ids(Repeats(eq, run.provisional))
    && run.large == Ids(Oversize(run.unique, maxSize))
    && run.warnings == (if warnEachRecord then StepWarnings(eq, run.provisional, maxSize)
                        else FinalWarnings(run.repeat, run.large))
    && run.artifacts == Artifacts(run.bulkName, run.unique, makeFols, makeInputFiles)
  }

  /** Enumeration, deduplication and writing, shared by both drivers. */
  method Pipeline(src: Source, vacuums: seq<nat>, thicknesses: seq<nat>, isSymmetric: bool,
                  eq: Equality, maxSize: int, warnEachRecord: bool, makeFols: bool, makeInputFiles: bool)
    returns (run: Run)
    ensures RunOf(run, src, vacuums, thicknesses, isSymmetric, eq, maxSize, warnEachRecord, makeFols, makeInputFiles)
  {
    var bulkName := RemoveSpaces(src.bulk.formula);
    var provisional := Enumerate(src, vacuums, thicknesses, isSymmetric);
    var uniqueList, unique, repeat, large, warnings := Deduplicate(eq, provisional, maxSize, warnEachRecord);
    var artifacts := Emit(bulkName, unique, makeFols, makeInputFiles);
    run := Run(bulkName, provisional, unique, repeat, large, warnings, artifacts);
  }

  /** The Miller argument handed to `SlabGenerator`. When `hkl` is `None` a
      run that returns normally never calls the generator, so the value put in
      its place is never used. */
  function OneIndexOf(hkl: Option<seq<int>>): MillerSpec
  {
    OneIndex(if hkl.Some? then hkl.value else [])
  }

  function UpToIndexOf(maxIndex: Option<int>): MillerSpec
  {
    UpToIndex(if maxIndex.Some? then maxIndex.value else 0)
  }

  function ListOrEmpty(s: Option<seq<nat>>): seq<nat>
  {
    if s.Some? then s.value else []
  }

  /** The steps both drivers take between the guard and the pipeline: read
      the structure, name the bulk, decorate it, and meet the loops. */
  method Prepare(structure: Option<string>, millerGiven: bool, thicknesses: Option<seq<nat>>,
                 vacuums: Option<seq<nat>>, oxStates: OxStates, load: Loader)
    returns (r: Result<Bulk, Error>)
    ensures r.Failure? <==> LateError(structure, load, millerGiven, thicknesses, vacuums).Some?
    ensures r.Failure? ==> r.error == LateError(structure, load, millerGiven, thicknesses, vacuums).value
    ensures r.Success? ==> (structure.Some? && load(structure.value).Some?
      && r.value == Bulk(load(structure.value).value, DecorationFor(oxStates)))
  {
    if structure.None? {
      return Failure(LoadFailed);
    }
    var formula := load(structure.value);
    if formula.None? {
      return Failure(LoadFailed);
    }
    var struc := new Structure(formula.value);
    struc := OxidationStates(struc, oxStates);
    if vacuums.None? {
      return Failure(NotIterable("vacuums"));
    }
    if vacuums.value != [] && thicknesses.None? {
      return Failure(NotIterable("thicknesses"));
    }
    if vacuums.value != [] && thicknesses.value != [] && !millerGiven {
      return Failure(GeneratorFailed);
    }
    r := Success(struc.Value());
  }

  /** `get_one_hkl_slabs`: slabs of one Miller index, warnings issued once
      after the scan. */
  method GetOneHklSlabs(structure: Option<string>, hkl: Option<seq<int>>, thicknesses: Option<seq<nat>>,
                        vacuums: Option<seq<nat>>, makeFols: bool, makeInputFiles: bool, maxSize: int,
                        isSymmetric: bool, oxStates: OxStates, load: Loader, gen: Generator, eq: Equality)
    returns (r: Result<Run, Error>)
    ensures r.Failure? <==> OneHklError(structure, hkl, thicknesses, vacuums, load).Some?
    ensures r.Failure? ==> r.error == OneHklError(structure, hkl, thicknesses, vacuums, load).value
    ensures r.Success? ==> (structure.Some? && load(structure.value).Some? && vacuums.Some?
      && RunOf(r.value, Source(gen, Bulk(load(structure.value).value, DecorationFor(oxStates)), OneIndexOf(hkl)),
               vacuums.value, ListOrEmpty(thicknesses), isSymmetric, eq, maxSize, false, makeFols, makeInputFiles))
  {
    if ArgumentsRejected([TruthyText(structure), TruthyList(hkl), TruthyList(thicknesses), TruthyList(vacuums)]) {
      return Failure(ValueError(OneHklMessage));
    }
    var bulk := Prepare(structure, hkl.Some?, thicknesses, vacuums, oxStates, load);
    if bulk.Failure? {
      return Failure(bulk.error);
    }
    var run := Pipeline(Source(gen, bulk.value, OneIndexOf(hkl)), vacuums.value, ListOrEmpty(thicknesses),
                        isSymmetric, eq, maxSize, false, makeFols, makeInputFiles);
    r := Success(run);
  }

  /** `get_all_slabs`: slabs of every Miller index up to `max_index`, with the
      warnings issued after every scanned record. */
  method GetAllSlabs(structure: Option<string>, maxIndex: Option<int>, thicknesses: Option<seq<nat>>,
                     vacuums: Option<seq<nat>>, makeFols: bool, makeInputFiles: bool, maxSize: int,
                     isSymmetric: bool, oxStates: OxStates, load: Loader, gen: Generator, eq: Equality)
    returns (r: Result<Run, Error>)
    ensures r.Failure? <==> AllSlabsError(structure, maxIndex, thicknesses, vacuums, load).Some?
    ensures r.Failure? ==> r.error == AllSlabsError(structure, maxIndex, thicknesses, vacuums, load).value
    ensures r.Success? ==> (structure.Some? && load(structure.value).Some? && vacuums.Some?
      && RunOf(r.value, Source(gen, Bulk(load(structure.value).value, DecorationFor(oxStates)), UpToIndexOf(maxIndex)),
               vacuums.value, ListOrEmpty(thicknesses), isSymmetric, eq, maxSize, true, makeFols, makeInputFiles))
  {
    if ArgumentsRejected([TruthyText(structure), TruthyInt(maxIndex), TruthyList(thicknesses), TruthyList(vacuums)]) {
      return Failure(ValueError(AllSlabsMessage));
    }
    var bulk := Prepare(structure, maxIndex.Some?, thicknesses, vacuums, oxStates, load);
    if bulk.Failure? {
      return Failure(bulk.error);
    }
    var run := Pipeline(Source(gen, bulk.value, UpToIndexOf(maxIndex)), vacuums.value, ListOrEmpty(thicknesses),
                        isSymmetric, eq, maxSize, true, makeFols, makeInputFiles);
    r := Success(run);
  }

  // ---------------------------------------------------------------------------
  // Properties of a run
  // ---------------------------------------------------------------------------

  /** When neither list repeats a value, the run writes one output per unique
      record and no two of them to the same path. */
  lemma RunOutputsDistinct(run: Run, src: Source, vacuums: seq<nat>, thicknesses: seq<nat>, isSymmetric: bool,
                           eq: Equality, maxSize: int, warnEachRecord: bool, makeFols: bool, makeInputFiles: bool)
    requires RunOf(run, src, vacuums, thicknesses, isSymmetric, eq, maxSize, warnEachRecord, makeFols, makeInputFiles)
    requires NoDuplicates(vacuums) && NoDuplicates(thicknesses)
    ensures |Outputs(run.artifacts)| == |run.unique|
    ensures NoDuplicates(Outputs(run.artifacts))
  {
    ProvisionalDistinct(src, vacuums, thicknesses, isSymmetric);
    DedupKeepsOrder(eq, run.provisional);
    SubsequenceDistinct(run.unique, run.provisional);
    forall c | c in run.unique ensures NumeralHkl(c) {
      ProvisionalHkl(src, vacuums, thicknesses, isSymmetric, c);
    }
    OneOutputPerRecord(run.bulkName, run.unique, makeFols, makeInputFiles);
    DistinctOutputs(run.bulkName, run.unique, makeFols, makeInputFiles);
  }

  /** Asking for symmetric slabs when the generator yields none is not an
      error: nothing is kept, no warning is issued and no slab file is
      written. */
  lemma RunWithoutSymmetricSlabs(run: Run, src: Source, vacuums: seq<nat>, thicknesses: seq<nat>,
                                 eq: Equality, maxSize: int, warnEachRecord: bool, makeFols: bool, makeInputFiles: bool)
    requires RunOf(run, src, vacuums, thicknesses, true, eq, maxSize, warnEachRecord, makeFols, makeInputFiles)
    requires NoneSymmetric(src)
    ensures run.provisional == [] && run.unique == [] && run.repeat == [] && run.large == []
    ensures run.warnings == []
    ensures Outputs(run.artifacts) == []
  {
    NoSymmetricSlabsNoCandidates(src, vacuums, thicknesses);
    OneOutputPerRecord(run.bulkName, run.unique, makeFols, makeInputFiles);
  }

  /** The names of the (001) slab of 10 Angstrom with 15 Angstrom of vacuum,
      first in the generator's output. */
  lemma ExampleNames()
    ensures HklString([0, 0, 1]) == "001"
    ensures Tags(10, 15, 0) == "10_15_0"
  {
    assert [0, 0, 1][..2] == [0, 0] && [0, 0][..1] == [0] && [0][..0] == [];
    assert NatToString(1) == "1" && NatToString(0) == "0" && NatToString(5) == "5";
    assert NatToString(10) == "10";
    assert NatToString(15) == "15";
  }

  /** Its file name in flat mode. */
  lemma FlatNameExample(bulkName: string, slab: Slab)
    requires slab.miller == [0, 0, 1]
    ensures OutputPath(bulkName, Tag(slab, 10, 15, 0), false, false) == bulkName + "/POSCAR_001_10_15_0.vasp"
  {
    ExampleNames();
    var id := Tag(slab, 10, 15, 0).Id();
    assert id == "001_10_15_0";
    var tail := "/POSCAR_" + id + ".vasp";
    assert tail == "/POSCAR_001_10_15_0.vasp";
    assert FlatPath(bulkName, id) == bulkName + tail;
  }

  /** Its POSCAR in folder mode. */
  lemma FolderNameExample(bulkName: string, slab: Slab)
    requires slab.miller == [0, 0, 1]
    ensures OutputPath(bulkName, Tag(slab, 10, 15, 0), true, false) == "001/10_15_0/POSCAR"
  {
    ExampleNames();
    var dir := FolderPath("001", 10, 15, 0);
    assert dir == "001/10_15_0";
    assert dir + "/POSCAR" == "001/10_15_0/POSCAR";
  }
}
