/** Deduplication of the provisional records: a single scan in which each
    record either joins the unique lists (first occurrence wins) or is
    reported as a repeat, with oversize unique slabs reported as large, and
    the warnings the two drivers issue about them. */
module Dedup {
  import opened Naming
  import opened Slabs

  /** The external slab equality. Python's `x in unique_list` compares each
      list element with `x`, so it is applied as eq(element, x). */
  type Equality = (Slab, Slab) -> bool

  /** Some record of `unique` holds a slab equal to `slab`. */
  predicate SeenIn(eq: Equality, unique: seq<Candidate>, slab: Slab)
  {
    exists j :: 0 <= j < |unique| && eq(unique[j].slab, slab)
  }

  /** The two lists the scan builds: the records kept (`unique_list_of_dicts`)
      and the records reported as repeats. */
  datatype Outcome = Outcome(unique: seq<Candidate>, repeats: seq<Candidate>)

  /** One record scanned: kept when no kept slab equals it, else a repeat. */
  function Advance(eq: Equality, o: Outcome, c: Candidate): Outcome
  {
    if SeenIn(eq, o.unique, c.slab) then o.(repeats := o.repeats + [c])
    else o.(unique := o.unique + [c])
  }

  /** The outcome of scanning `ps` in order. */
  function Scan(eq: Equality, ps: seq<Candidate>): Outcome
  {
    if ps == [] then Outcome([], []) else Advance(eq, Scan(eq, ps[..|ps| - 1]), ps[|ps| - 1])
  }

  function Unique(eq: Equality, ps: seq<Candidate>): seq<Candidate>
  {
    Scan(eq, ps).unique
  }

  function Repeats(eq: Equality, ps: seq<Candidate>): seq<Candidate>
  {
    Scan(eq, ps).repeats
  }

  /** The records of `cs` with strictly more atoms than `maxSize`, in order. */
  function Oversize(cs: seq<Candidate>, maxSize: int): seq<Candidate>
  {
    if cs == [] then []
    else
      var last := cs[|cs| - 1];
      Oversize(cs[..|cs| - 1], maxSize) + (if last.slab.atoms > maxSize then [last] else [])
  }

  /** A record is reported as large exactly when it is among the records and
      has more atoms than the maximum: a slab of exactly `maxSize` atoms is
      not reported. */
  lemma {:induction false} OversizeMembers(cs: seq<Candidate>, maxSize: int)
    ensures forall c :: c in Oversize(cs, maxSize) <==> c in cs && c.slab.atoms > maxSize
    ensures |Oversize(cs, maxSize)| <= |cs|
  {
    if cs != [] {
      var init := cs[..|cs| - 1];
      OversizeMembers(init, maxSize);
      assert cs == init + [cs[|cs| - 1]];
    }
  }

  function Ids(cs: seq<Candidate>): (r: seq<string>)
    ensures |r| == |cs| && forall k {:trigger r[k]} :: 0 <= k < |cs| ==> r[k] == cs[k].Id()
  {
    if cs == [] then [] else Ids(cs[..|cs| - 1]) + [cs[|cs| - 1].Id()]
  }

  function SlabsOf(cs: seq<Candidate>): (r: seq<Slab>)
    ensures |r| == |cs| && forall k {:trigger r[k]} :: 0 <= k < |cs| ==> r[k] == cs[k].slab
  {
    if cs == [] then [] else SlabsOf(cs[..|cs| - 1]) + [cs[|cs| - 1].slab]
  }

  // ---------------------------------------------------------------------------
  // Warnings
  // ---------------------------------------------------------------------------

  /** A warning issued through `warnings.warn`, with the identifiers it lists. */
  datatype Warning = RepeatWarning(ids: seq<string>) | LargeWarning(ids: seq<string>)
  {
    /** The text of the warning. */
    function Message(): string
    {
      match this
      case RepeatWarning(ids) =>
        "Not all combinations of hkl or slab/vac thicknesses were generated because of repeat structures. "
        + "The repeat slabs are: " + Join(", ", ids)
      case LargeWarning(ids) =>
        "Some generated slabs exceed the max size specified. Slabs that exceed the max size are: "
        + Join(", ", ids)
    }
  }

  function CountRepeatWarnings(ws: seq<Warning>): nat
  {
    if ws == [] then 0
    else CountRepeatWarnings(ws[..|ws| - 1]) + (if ws[|ws| - 1].RepeatWarning? then 1 else 0)
  }

  function CountLargeWarnings(ws: seq<Warning>): nat
  {
    if ws == [] then 0
    else CountLargeWarnings(ws[..|ws| - 1]) + (if ws[|ws| - 1].LargeWarning? then 1 else 0)
  }

  lemma {:induction false} CountsOfConcat(xs: seq<Warning>, ys: seq<Warning>)
    ensures CountRepeatWarnings(xs + ys) == CountRepeatWarnings(xs) + CountRepeatWarnings(ys)
    ensures CountLargeWarnings(xs + ys) == CountLargeWarnings(xs) + CountLargeWarnings(ys)
    decreases |ys|
  {
    if ys == [] {
      assert xs + ys == xs;
    } else {
      var n := |ys| - 1;
      CountsOfConcat(xs, ys[..n]);
      assert (xs + ys)[..|xs + ys| - 1] == xs + ys[..n];
      assert (xs + ys)[|xs + ys| - 1] == ys[n];
    }
  }

  /** The warning block: a warning naming every repeat when there is one,
      then a warning naming every oversize slab when there is one. */
  function FinalWarnings(repeat: seq<string>, large: seq<string>): seq<Warning>
  {
    (if repeat != [] then [RepeatWarning(repeat)] else [])
      + (if large != [] then [LargeWarning(large)] else [])
  }

  /** The warning block issues at most one warning of each kind, and one
      exactly when its list is not empty, carrying the whole list. */
  lemma FinalWarningCounts(repeat: seq<string>, large: seq<string>)
    ensures CountRepeatWarnings(FinalWarnings(repeat, large)) == (if repeat == [] then 0 else 1)
    ensures CountLargeWarnings(FinalWarnings(repeat, large)) == (if large == [] then 0 else 1)
    ensures |FinalWarnings(repeat, large)|
      == CountRepeatWarnings(FinalWarnings(repeat, large)) + CountLargeWarnings(FinalWarnings(repeat, large))
    ensures repeat != [] ==> RepeatWarning(repeat) in FinalWarnings(repeat, large)
    ensures large != [] ==> LargeWarning(large) in FinalWarnings(repeat, large)
  {
    var r := if repeat != [] then [RepeatWarning(repeat)] else [];
    var l := if large != [] then [LargeWarning(large)] else [];
    CountsOfConcat(r, l);
    assert [] + r == r && [] + l == l;
  }

  /** The warning block run on the lists of an outcome. */
  function WarningBlock(o: Outcome, maxSize: int): seq<Warning>
  {
    FinalWarnings(Ids(o.repeats), Ids(Oversize(o.unique, maxSize)))
  }

  /** The warnings issued when the warning block sits inside the scan, as in
      `get_all_slabs`: after every record, the block runs on the lists as
      they stand. */
  function StepWarnings(eq: Equality, ps: seq<Candidate>, maxSize: int): seq<Warning>
  {
    if ps == [] then []
    else StepWarnings(eq, ps[..|ps| - 1], maxSize) + WarningBlock(Scan(eq, ps), maxSize)
  }

  // ---------------------------------------------------------------------------
  // The scan
  // ---------------------------------------------------------------------------

  /** Python's `x in list`: a linear search that stops at the first element
      equal to `x`. */
  method Contains(eq: Equality, list: seq<Slab>, x: Slab) returns (found: bool)
    ensures found <==> exists j :: 0 <= j < |list| && eq(list[j], x)
  {
    found := false;
    var j := 0;
    while j < |list| && !found
      invariant 0 <= j <= |list|
      invariant found <==> exists k :: 0 <= k < j && eq(list[k], x)
    {
      found := eq(list[j], x);
      j := j + 1;
    }
  }

  /** Scanning one more record advances the outcome. */
  lemma ScanStep(eq: Equality, ps: seq<Candidate>, k: nat)
    requires k < |ps|
    ensures Scan(eq, ps[..k + 1]) == Advance(eq, Scan(eq, ps[..k]), ps[k])
  {
    PrefixOfPrefix(ps, k + 1, k);
  }

  /** The warnings issued inside the scan gain one block per record. */
  lemma StepWarningsStep(eq: Equality, ps: seq<Candidate>, k: nat, maxSize: int)
    requires k < |ps|
    ensures StepWarnings(eq, ps[..k + 1], maxSize)
      == StepWarnings(eq, ps[..k], maxSize) + WarningBlock(Scan(eq, ps[..k + 1]), maxSize)
  {
    PrefixOfPrefix(ps, k + 1, k);
  }

  /** Appending one record to a list of records. */
  lemma RecordsSnoc(cs: seq<Candidate>, c: Candidate, maxSize: int)
    ensures Ids(cs + [c]) == Ids(cs) + [c.Id()]
    ensures SlabsOf(cs + [c]) == SlabsOf(cs) + [c.slab]
    ensures Oversize(cs + [c], maxSize) == Oversize(cs, maxSize) + (if c.slab.atoms > maxSize then [c] else [])
  {
    assert (cs + [c])[..|cs|] == cs;
  }

  /** Searching the slabs of the unique records is searching the records. */
  lemma SeenInSlabs(eq: Equality, us: seq<Candidate>, x: Slab)
    ensures SeenIn(eq, us, x) <==> exists j :: 0 <= j < |SlabsOf(us)| && eq(SlabsOf(us)[j], x)
  {
    var ss := SlabsOf(us);
    if SeenIn(eq, us, x) {
      var j :| 0 <= j < |us| && eq(us[j].slab, x);
      assert ss[j] == us[j].slab;
      assert eq(SlabsOf(us)[j], x);
    } else {
      forall j | 0 <= j < |ss| ensures !eq(ss[j], x) {
        assert ss[j] == us[j].slab;
      }
    }
  }

  /** The body of the deduplication loop for one record: a slab that no kept
      slab equals joins both unique lists, and the large list when it has
      more atoms than the maximum; any other adds its identifier to the
      repeats. The lists stay those of the advanced outcome. */
  method ScanRecord(eq: Equality, record: Candidate, maxSize: int, ghost before: Outcome,
                    uniqueList: seq<Slab>, uniqueListOfDicts: seq<Candidate>, repeat: seq<string>, large: seq<string>)
    returns (uniqueList': seq<Slab>, uniqueListOfDicts': seq<Candidate>, repeat': seq<string>, large': seq<string>)
    requires uniqueListOfDicts == before.unique && uniqueList == SlabsOf(before.unique)
    requires repeat == Ids(before.repeats) && large == Ids(Oversize(before.unique, maxSize))
    ensures var after := Advance(eq, before, record);
      && uniqueListOfDicts' == after.unique && uniqueList' == SlabsOf(after.unique)
      && repeat' == Ids(after.repeats) && large' == Ids(Oversize(after.unique, maxSize))
  {
    uniqueList', uniqueListOfDicts', repeat', large' := uniqueList, uniqueListOfDicts, repeat, large;
    var seen := Contains(eq, uniqueList, record.slab);
    SeenInSlabs(eq, uniqueListOfDicts, record.slab);
    if !seen {
      RecordsSnoc(uniqueListOfDicts, record, maxSize);
      uniqueList' := uniqueList + [record.slab];
      uniqueListOfDicts' := uniqueListOfDicts + [record];
      var atoms := record.slab.atoms;
      if atoms > maxSize {
        large' := large + [record.Id()];
      }
    } else {
      RecordsSnoc(before.repeats, record, maxSize);
      repeat' := repeat + [record.Id()];
    }
  }

  /** The deduplication loop and the warning block. `warnEachRecord` selects
      where the warning block runs: after the loop (`get_one_hkl_slabs`) or,
      as indented in `get_all_slabs`, inside it. */
  method Deduplicate(eq: Equality, provisional: seq<Candidate>, maxSize: int, warnEachRecord: bool)
    returns (uniqueList: seq<Slab>, uniqueListOfDicts: seq<Candidate>, repeat: seq<string>,
             large: seq<string>, warnings: seq<Warning>)
    ensures uniqueListOfDicts == Unique(eq, provisional)
    ensures uniqueList == SlabsOf(uniqueListOfDicts)
    ensures repeat == Ids(Repeats(eq, provisional))
    ensures large == Ids(Oversize(uniqueListOfDicts, maxSize))
    ensures warnings == if warnEachRecord then StepWarnings(eq, provisional, maxSize)
                        else FinalWarnings(repeat, large)
  {
    uniqueList, uniqueListOfDicts, repeat, large, warnings := [], [], [], [], [];
    ghost var o := Outcome([], []);
    var k := 0;
    while k < |provisional|
      invariant 0 <= k <= |provisional|
      invariant o == Scan(eq, provisional[..k])
      invariant uniqueListOfDicts == o.unique
      invariant uniqueList == SlabsOf(o.unique)
      invariant repeat == Ids(o.repeats)
      invariant large == Ids(Oversize(o.unique, maxSize))
      invariant warnings == if warnEachRecord then StepWarnings(eq, provisional[..k], maxSize) else []
    {
      ScanStep(eq, provisional, k);
      StepWarningsStep(eq, provisional, k, maxSize);
      uniqueList, uniqueListOfDicts, repeat, large :=
        ScanRecord(eq, provisional[k], maxSize, o, uniqueList, uniqueListOfDicts, repeat, large);
      o := Advance(eq, o, provisional[k]);
      if warnEachRecord {
        // the warning block, indented into the loop
        warnings := warnings + FinalWarnings(repeat, large);
      }
      k := k + 1;
    }
    assert provisional[..k] == provisional;
    if !warnEachRecord {
      warnings := FinalWarnings(repeat, large);
    }
  }

  // ---------------------------------------------------------------------------
  // What the scan guarantees
  // ---------------------------------------------------------------------------

  /** Every provisional record lands in exactly one of the unique list and the
      repeat list: the two together are a permutation of `provisional`. */
  lemma {:induction false} DedupPartition(eq: Equality, ps: seq<Candidate>)
    ensures multiset(Unique(eq, ps)) + multiset(Repeats(eq, ps)) == multiset(ps)
    ensures |Unique(eq, ps)| + |Repeats(eq, ps)| == |ps|
  {
    if ps != [] {
      var init := ps[..|ps| - 1];
      DedupPartition(eq, init);
      assert ps == init + [ps[|ps| - 1]];
    }
  }

  /** No slab of the unique list equals (under the external equality) a slab
      that comes after it in that list. */
  lemma {:induction false} UniqueHasNoEqualPair(eq: Equality, ps: seq<Candidate>)
    ensures forall i, j :: 0 <= i < j < |Unique(eq, ps)| ==> !eq(Unique(eq, ps)[i].slab, Unique(eq, ps)[j].slab)
  {
    if ps != [] {
      var init := ps[..|ps| - 1];
      UniqueHasNoEqualPair(eq, init);
      var u0, last := Unique(eq, init), ps[|ps| - 1];
      if !SeenIn(eq, u0, last.slab) {
        var u := u0 + [last];
        assert Unique(eq, ps) == u;
        forall i, j | 0 <= i < j < |u| ensures !eq(u[i].slab, u[j].slab) {
          if j < |u0| {
            assert u[i] == u0[i] && u[j] == u0[j];
          } else {
            assert u[i] == u0[i] && u[j] == last;
          }
        }
      }
    }
  }

  /** The unique list of a prefix is a prefix of the unique list. */
  lemma {:induction false} UniqueGrows(eq: Equality, ps: seq<Candidate>, k: nat)
    requires k <= |ps|
    ensures Unique(eq, ps[..k]) <= Unique(eq, ps)
    decreases |ps| - k
  {
    if k < |ps| {
      var init := ps[..|ps| - 1];
      assert init[..k] == ps[..k];
      UniqueGrows(eq, init, k);
    } else {
      assert ps[..k] == ps;
    }
  }

  /** Every repeat equals some slab kept in the unique list, and so every
      provisional record is either kept or matched by a kept one. */
  lemma {:induction false} RepeatsAreCovered(eq: Equality, ps: seq<Candidate>)
    ensures forall c :: c in Repeats(eq, ps) ==> SeenIn(eq, Unique(eq, ps), c.slab)
    ensures forall c :: c in ps ==> c in Unique(eq, ps) || SeenIn(eq, Unique(eq, ps), c.slab)
  {
    if ps != [] {
      var init := ps[..|ps| - 1];
      RepeatsAreCovered(eq, init);
      UniqueGrows(eq, ps, |ps| - 1);
      var u0, u := Unique(eq, init), Unique(eq, ps);
      forall c | c in Repeats(eq, ps) ensures SeenIn(eq, u, c.slab) {
        var j :| 0 <= j < |u0| && eq(u0[j].slab, c.slab);
        assert u[j] == u0[j];
      }
      DedupPartition(eq, ps);
      forall c | c in ps ensures c in u || SeenIn(eq, u, c.slab) {
        assert c in multiset(ps);
      }
    }
  }

  /** `xs` is `ys` with some records left out, in the same order: `idx` picks,
      in increasing order, the positions of `ys` that `xs` keeps. */
  ghost predicate Embeds(idx: seq<int>, xs: seq<Candidate>, ys: seq<Candidate>)
  {
    && |idx| == |xs|
    && (forall m :: 0 <= m < |idx| ==> 0 <= idx[m] < |ys| && xs[m] == ys[idx[m]])
    && (forall m, m' :: 0 <= m < m' < |idx| ==> idx[m] < idx[m'])
  }

  ghost predicate IsSubsequence(xs: seq<Candidate>, ys: seq<Candidate>)
  {
    exists idx :: Embeds(idx, xs, ys)
  }

  lemma SubsequenceSnoc(xs: seq<Candidate>, ys: seq<Candidate>, y: Candidate, keep: bool)
    requires IsSubsequence(xs, ys)
    ensures IsSubsequence(if keep then xs + [y] else xs, ys + [y])
  {
    var idx :| Embeds(idx, xs, ys);
    var ys' := ys + [y];
    forall m | 0 <= m < |idx| ensures 0 <= idx[m] < |ys'| && xs[m] == ys'[idx[m]] {
      assert ys'[idx[m]] == ys[idx[m]];
    }
    if keep {
      var idx', xs' := idx + [|ys|], xs + [y];
      forall m | 0 <= m < |idx'| ensures 0 <= idx'[m] < |ys'| && xs'[m] == ys'[idx'[m]] {
        if m < |idx| {
          assert idx'[m] == idx[m] && xs'[m] == xs[m];
        }
      }
      assert Embeds(idx', xs', ys');
    } else {
      assert Embeds(idx, xs, ys');
    }
  }

  /** The unique list and the repeat list each keep the order of
      `provisional`. */
  lemma {:induction false} DedupKeepsOrder(eq: Equality, ps: seq<Candidate>)
    ensures IsSubsequence(Unique(eq, ps), ps)
    ensures IsSubsequence(Repeats(eq, ps), ps)
  {
    if ps == [] {
      assert Embeds([], [], []);
    } else {
      var init := ps[..|ps| - 1];
      var last := ps[|ps| - 1];
      DedupKeepsOrder(eq, init);
      var seen := SeenIn(eq, Unique(eq, init), last.slab);
      assert ps == init + [last];
      assert Unique(eq, ps) == if seen then Unique(eq, init) else Unique(eq, init) + [last];
      assert Repeats(eq, ps) == if seen then Repeats(eq, init) + [last] else Repeats(eq, init);
      SubsequenceSnoc(Unique(eq, init), init, last, !seen);
      SubsequenceSnoc(Repeats(eq, init), init, last, seen);
    }
  }

  // ---------------------------------------------------------------------------
  // First occurrence wins
  // ---------------------------------------------------------------------------

  ghost predicate Transitive(eq: Equality)
  {
    forall a, b, c :: eq(a, b) && eq(b, c) ==> eq(a, c)
  }

  /** No earlier record of `ps` holds a slab equal to that of record `k`. */
  ghost predicate FirstOfItsClass(eq: Equality, ps: seq<Candidate>, k: nat)
    requires k < |ps|
  {
    forall j :: 0 <= j < k ==> !eq(ps[j].slab, ps[k].slab)
  }

  /** Reference definition: the records that no earlier record equals. */
  ghost function FirstOccurrences(eq: Equality, ps: seq<Candidate>): seq<Candidate>
  {
    if ps == [] then []
    else
      var n := |ps| - 1;
      FirstOccurrences(eq, ps[..n]) + (if FirstOfItsClass(eq, ps, n) then [ps[n]] else [])
  }

  /** A slab the unique list matches is matched by some scanned record. */
  lemma {:induction false} SeenInUniqueIsSeen(eq: Equality, ps: seq<Candidate>, x: Slab)
    requires SeenIn(eq, Unique(eq, ps), x)
    ensures SeenIn(eq, ps, x)
  {
    var n := |ps| - 1;
    var init, last := ps[..n], ps[n];
    var u0, u := Unique(eq, init), Unique(eq, ps);
    UniqueGrows(eq, ps, n);
    var j :| 0 <= j < |u| && eq(u[j].slab, x);
    if j < |u0| {
      assert u0[j] == u[j];
      SeenInUniqueIsSeen(eq, init, x);
      var i :| 0 <= i < |init| && eq(init[i].slab, x);
      assert ps[i] == init[i];
    } else {
      assert u[j] == last;
      assert eq(ps[n].slab, x);
    }
  }

  /** For a transitive equality, a slab matched by some scanned record is
      matched by the unique list. */
  lemma {:induction false} SeenIsSeenInUnique(eq: Equality, ps: seq<Candidate>, x: Slab)
    requires Transitive(eq) && SeenIn(eq, ps, x)
    ensures SeenIn(eq, Unique(eq, ps), x)
  {
    var n := |ps| - 1;
    var init, last := ps[..n], ps[n];
    var u0, u := Unique(eq, init), Unique(eq, ps);
    UniqueGrows(eq, ps, n);
    var j :| 0 <= j < |ps| && eq(ps[j].slab, x);
    if j < n {
      assert init[j] == ps[j];
      SeenIsSeenInUnique(eq, init, x);
      var i :| 0 <= i < |u0| && eq(u0[i].slab, x);
      assert u[i] == u0[i];
    } else if SeenIn(eq, u0, last.slab) {
      var i :| 0 <= i < |u0| && eq(u0[i].slab, last.slab);
      assert eq(u0[i].slab, x);
      assert u[i] == u0[i];
    } else {
      assert u[|u0|] == last;
    }
  }

  /** For a transitive equality, a slab is matched by the unique list exactly
      when it is matched by some record already scanned. */
  lemma SeenIffEarlier(eq: Equality, ps: seq<Candidate>, x: Slab)
    requires Transitive(eq)
    ensures SeenIn(eq, Unique(eq, ps), x) <==> SeenIn(eq, ps, x)
  {
    if SeenIn(eq, Unique(eq, ps), x) {
      SeenInUniqueIsSeen(eq, ps, x);
    }
    if SeenIn(eq, ps, x) {
      SeenIsSeenInUnique(eq, ps, x);
    }
  }

  /** When the equality is transitive (as geometric equality is), the scan
      keeps exactly the first record of each equality class: the unique list
      equals the reference definition. */
  lemma {:induction false} UniqueIsFirstOccurrences(eq: Equality, ps: seq<Candidate>)
    requires Transitive(eq)
    ensures Unique(eq, ps) == FirstOccurrences(eq, ps)
  {
    if ps != [] {
      var n := |ps| - 1;
      var init := ps[..n];
      UniqueIsFirstOccurrences(eq, init);
      SeenIffEarlier(eq, init, ps[n].slab);
      assert SeenIn(eq, init, ps[n].slab) <==> !FirstOfItsClass(eq, ps, n) by {
        assert forall j :: 0 <= j < n ==> init[j] == ps[j];
      }
    }
  }

  // ---------------------------------------------------------------------------
  // Idempotence
  // ---------------------------------------------------------------------------

  ghost predicate NoEqualPair(eq: Equality, cs: seq<Candidate>)
  {
    forall i, j :: 0 <= i < j < |cs| ==> !eq(cs[i].slab, cs[j].slab)
  }

  lemma {:induction false} DedupOfDistinct(eq: Equality, cs: seq<Candidate>)
    requires NoEqualPair(eq, cs)
    ensures Unique(eq, cs) == cs && Repeats(eq, cs) == []
  {
    if cs != [] {
      var n := |cs| - 1;
      var init := cs[..n];
      assert NoEqualPair(eq, init) by {
        forall i, j | 0 <= i < j < |init| ensures !eq(init[i].slab, init[j].slab) {
          assert init[i] == cs[i] && init[j] == cs[j];
        }
      }
      DedupOfDistinct(eq, init);
      assert !SeenIn(eq, init, cs[n].slab) by {
        forall j | 0 <= j < n ensures !eq(init[j].slab, cs[n].slab) {
          assert init[j] == cs[j];
        }
      }
      assert init + [cs[n]] == cs;
    }
  }

  /** Deduplicating the unique list again changes nothing and reports no
      repeat. */
  lemma DedupIdempotent(eq: Equality, ps: seq<Candidate>)
    ensures Unique(eq, Unique(eq, ps)) == Unique(eq, ps)
    ensures Repeats(eq, Unique(eq, ps)) == []
  {
    UniqueHasNoEqualPair(eq, ps);
    DedupOfDistinct(eq, Unique(eq, ps));
  }

  // ---------------------------------------------------------------------------
  // How often each driver warns
  // ---------------------------------------------------------------------------

  /** The repeats never shrink as the scan goes on. */
  lemma {:induction false} RepeatsGrow(eq: Equality, ps: seq<Candidate>, j: nat, n: nat)
    requires j <= n <= |ps|
    ensures |Repeats(eq, ps[..j])| <= |Repeats(eq, ps[..n])|
    decreases n - j
  {
    if j < n {
      PrefixOfPrefix(ps, j + 1, j);
      RepeatsGrow(eq, ps, j + 1, n);
    }
  }

  /** The warning block of an outcome with a repeat issues one repeat warning. */
  lemma BlockWarnsOnce(o: Outcome, maxSize: int)
    requires o.repeats != []
    ensures CountRepeatWarnings(WarningBlock(o, maxSize)) == 1
  {
    assert |Ids(o.repeats)| == |o.repeats|;
    FinalWarningCounts(Ids(o.repeats), Ids(Oversize(o.unique, maxSize)));
  }

  /** Appending the block of an outcome with a repeat adds one repeat warning. */
  lemma BlockAddsOne(ws: seq<Warning>, o: Outcome, maxSize: int)
    requires o.repeats != []
    ensures CountRepeatWarnings(ws + WarningBlock(o, maxSize)) == CountRepeatWarnings(ws) + 1
  {
    BlockWarnsOnce(o, maxSize);
    CountsOfConcat(ws, WarningBlock(o, maxSize));
  }

  /** Once the records scanned hold a repeat, the next warning block adds
      exactly one repeat warning to those issued so far. */
  lemma RepeatWarningsStep(eq: Equality, ps: seq<Candidate>, maxSize: int, n: nat)
    requires 1 <= n <= |ps| && Repeats(eq, ps[..n]) != []
    ensures CountRepeatWarnings(StepWarnings(eq, ps[..n], maxSize))
      == CountRepeatWarnings(StepWarnings(eq, ps[..n - 1], maxSize)) + 1
  {
    StepWarningsStep(eq, ps, n - 1, maxSize);
    BlockAddsOne(StepWarnings(eq, ps[..n - 1], maxSize), Scan(eq, ps[..n]), maxSize);
  }

  /** A count that grows by one at each of the steps k..n has grown by at
      least n - k + 1 by step n. */
  lemma {:induction false} GrowsByOne(counts: seq<int>, k: nat, n: nat)
    requires 1 <= k <= n < |counts| && counts[k - 1] >= 0
    requires forall i :: k <= i <= n ==> counts[i] == counts[i - 1] + 1
    ensures counts[n] >= n - k + 1
    decreases n
  {
    if k < n {
      GrowsByOne(counts, k, n - 1);
    }
  }

  /** With the warning block inside the scan, once the first `k` records hold
      a repeat, every later record issues the repeat warning again: at least
      |ps| - k + 1 repeat warnings in all, where the warning block after the
      scan issues exactly one. */
  lemma RepeatWarningEveryRecord(eq: Equality, ps: seq<Candidate>, maxSize: int, k: nat)
    requires 1 <= k <= |ps| && Repeats(eq, ps[..k]) != []
    ensures CountRepeatWarnings(StepWarnings(eq, ps, maxSize)) >= |ps| - k + 1
    ensures CountRepeatWarnings(WarningBlock(Scan(eq, ps), maxSize)) == 1
  {
    var counts := seq(|ps| + 1, i requires 0 <= i <= |ps| => CountRepeatWarnings(StepWarnings(eq, ps[..i], maxSize)));
    forall i | k <= i <= |ps|
      ensures counts[i] == counts[i - 1] + 1
    {
      RepeatsGrow(eq, ps, k, i);
      RepeatWarningsStep(eq, ps, maxSize, i);
    }
    GrowsByOne(counts, k, |ps|);
    assert ps[..|ps|] == ps;
    RepeatsGrow(eq, ps, k, |ps|);
    BlockWarnsOnce(Scan(eq, ps), maxSize);
  }

  /** A concrete case: three records holding the same slab (as when three
      thicknesses give the same termination), not oversize, under any
      equality that finds the slab equal to itself. With the warning block
      inside the scan two repeat warnings are issued, the second listing
      both repeats; the block after the scan issues only the second. */
  lemma StepWarningsExample(eq: Equality, x: Candidate, y: Candidate, z: Candidate, maxSize: int)
    requires x.slab == y.slab == z.slab && eq(x.slab, x.slab) && x.slab.atoms <= maxSize
    ensures StepWarnings(eq, [x, y, z], maxSize) == [RepeatWarning([y.Id()]), RepeatWarning([y.Id(), z.Id()])]
    ensures WarningBlock(Scan(eq, [x, y, z]), maxSize) == [RepeatWarning([y.Id(), z.Id()])]
  {
    var ps := [x, y, z];
    assert ps[..2] == [x, y] && [x, y][..1] == [x] && [x][..0] == [];
    assert !SeenIn(eq, [], x.slab);
    assert Scan(eq, [x]) == Outcome([x], []);
    assert eq([x][0].slab, y.slab) && eq([x][0].slab, z.slab);
    assert Scan(eq, [x, y]) == Outcome([x], [y]);
    assert Scan(eq, ps) == Outcome([x], [y, z]);
    assert Oversize([x], maxSize) == [] by {
      assert [x][..0] == [];
    }
    assert Ids([y, z]) == [y.Id(), z.Id()];
    assert WarningBlock(Outcome([x], []), maxSize) == [];
    assert Ids([y]) == [y.Id()] by {
      assert [y][..0] == [];
    }
    assert WarningBlock(Outcome([x], [y]), maxSize) == [RepeatWarning([y.Id()])];
    assert StepWarnings(eq, [x], maxSize) == [];
    assert StepWarnings(eq, [x, y], maxSize) == [RepeatWarning([y.Id()])];
  }
}
