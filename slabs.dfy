/** Enumeration and filtering of candidate slabs: for every vacuum (outer loop)
    and every slab thickness (inner loop) the external generator returns a
    sequence of slabs, and each slab that passes the polarity / symmetry test
    becomes a record tagged with its hkl string, thicknesses and its position
    in that sequence. */
module Slabs {
  import opened Naming
  import opened Oxidation

  /** A slab as the pipeline sees it. Its geometry is opaque: `geometry`
      stands for the lattice and sites that the external equality compares,
      and `polar`, `symmetric` are the answers of `is_polar()` and
      `is_symmetric()`. `atoms` is `len(slab.atomic_numbers)`. */
  datatype Slab = Slab(miller: seq<int>, atoms: nat, polar: bool, symmetric: bool, geometry: nat)

  /** The record `{hkl, slab_t, vac_t, s_index, slab}` kept for a slab. */
  datatype Candidate = Candidate(hkl: string, slabT: nat, vacT: nat, sIndex: nat, slab: Slab)
  {
    /** The identifier used in warnings and in flat-mode file names. */
    function Id(): string
    {
      SlabId(hkl, slabT, vacT, sIndex)
    }
  }

  /** Which Miller indices to cut: one given index (`SlabGenerator`) or all
      indices up to a maximum (`generate_all_slabs`). */
  datatype MillerSpec = OneIndex(hkl: seq<int>) | UpToIndex(maxIndex: int)

  /** The external slab generator: bulk, Miller specification, minimum slab
      thickness and minimum vacuum thickness to the slabs it returns. */
  type Generator = (Bulk, MillerSpec, nat, nat) -> seq<Slab>

  /** The generator applied to one bulk and one Miller specification. */
  datatype Source = Source(gen: Generator, bulk: Bulk, miller: MillerSpec)
  {
    function Generated(thickness: nat, vacuum: nat): seq<Slab>
    {
      gen(bulk, miller, thickness, vacuum)
    }
  }

  /** The selection test: with `is_symmetric` set a slab must be symmetric and
      not polar, otherwise only not polar. */
  function Keep(slab: Slab, isSymmetric: bool): (kept: bool)
    ensures kept <==> !slab.polar && (slab.symmetric || !isSymmetric)
  {
    if isSymmetric then slab.symmetric && !slab.polar else !slab.polar
  }

  /** The record made for the slab at position `sIndex` of the batch generated
      for (`slabT`, `vacT`). */
  function Tag(slab: Slab, slabT: nat, vacT: nat, sIndex: nat): Candidate
  {
    Candidate(HklString(slab.miller), slabT, vacT, sIndex, slab)
  }

  /** The records appended while scanning one generated batch. */
  function Batch(slabs: seq<Slab>, slabT: nat, vacT: nat, isSymmetric: bool): seq<Candidate>
  {
    if slabs == [] then []
    else
      var n := |slabs| - 1;
      Batch(slabs[..n], slabT, vacT, isSymmetric)
        + (if Keep(slabs[n], isSymmetric) then [Tag(slabs[n], slabT, vacT, n)] else [])
  }

  /** The records appended for one vacuum, over the given thicknesses. */
  function Row(src: Source, vacuum: nat, thicknesses: seq<nat>, isSymmetric: bool): seq<Candidate>
  {
    if thicknesses == [] then []
    else
      var t := thicknesses[|thicknesses| - 1];
      Row(src, vacuum, thicknesses[..|thicknesses| - 1], isSymmetric)
        + Batch(src.Generated(t, vacuum), t, vacuum, isSymmetric)
  }

  /** The `provisional` list: vacuum-major, then thickness, then generator
      order. */
  function Provisional(src: Source, vacuums: seq<nat>, thicknesses: seq<nat>, isSymmetric: bool): seq<Candidate>
  {
    if vacuums == [] then []
    else
      Provisional(src, vacuums[..|vacuums| - 1], thicknesses, isSymmetric)
        + Row(src, vacuums[|vacuums| - 1], thicknesses, isSymmetric)
  }

  /** The innermost loop: scans one generated batch and appends a record for
      each slab that passes the selection test. */
  method AppendBatch(provisional: seq<Candidate>, slabs: seq<Slab>, thickness: nat, vacuum: nat, isSymmetric: bool)
    returns (provisional': seq<Candidate>)
    ensures provisional' == provisional + Batch(slabs, thickness, vacuum, isSymmetric)
  {
    provisional' := provisional;
    var i := 0;
    while i < |slabs|
      invariant 0 <= i <= |slabs|
      invariant provisional' == provisional + Batch(slabs[..i], thickness, vacuum, isSymmetric)
    {
      var slab := slabs[i];
      assert Batch(slabs[..i + 1], thickness, vacuum, isSymmetric)
          == Batch(slabs[..i], thickness, vacuum, isSymmetric)
             + (if Keep(slab, isSymmetric) then [Tag(slab, thickness, vacuum, i)] else []) by {
        assert slabs[..i + 1][..i] == slabs[..i];
      }
      if isSymmetric {
        if slab.symmetric && !slab.polar {
          provisional' := provisional' + [Candidate(HklString(slab.miller), thickness, vacuum, i, slab)];
        }
      } else {
        if !slab.polar {
          provisional' := provisional' + [Candidate(HklString(slab.miller), thickness, vacuum, i, slab)];
        }
      }
      i := i + 1;
    }
    assert slabs[..i] == slabs;
  }

  /** The middle loop: for each thickness, generates the batch for
      (thickness, `vacuum`) and selects from it. */
  method AppendRow(provisional: seq<Candidate>, src: Source, vacuum: nat, thicknesses: seq<nat>, isSymmetric: bool)
    returns (provisional': seq<Candidate>)
    ensures provisional' == provisional + Row(src, vacuum, thicknesses, isSymmetric)
  {
    provisional' := provisional;
    var b := 0;
    while b < |thicknesses|
      invariant 0 <= b <= |thicknesses|
      invariant provisional' == provisional + Row(src, vacuum, thicknesses[..b], isSymmetric)
    {
      var thickness := thicknesses[b];
      var slabs := src.gen(src.bulk, src.miller, thickness, vacuum);
      assert Row(src, vacuum, thicknesses[..b + 1], isSymmetric)
          == Row(src, vacuum, thicknesses[..b], isSymmetric) + Batch(slabs, thickness, vacuum, isSymmetric) by {
        assert thicknesses[..b + 1][..b] == thicknesses[..b];
      }
      provisional' := AppendBatch(provisional', slabs, thickness, vacuum, isSymmetric);
      b := b + 1;
    }
    assert thicknesses[..b] == thicknesses;
  }

  /** The outer loop that builds `provisional`: vacuum-major, then
      thickness, then generator order. */
  method Enumerate(src: Source, vacuums: seq<nat>, thicknesses: seq<nat>, isSymmetric: bool)
    returns (provisional: seq<Candidate>)
    ensures provisional == Provisional(src, vacuums, thicknesses, isSymmetric)
  {
    provisional := [];
    var a := 0;
    while a < |vacuums|
      invariant 0 <= a <= |vacuums|
      invariant provisional == Provisional(src, vacuums[..a], thicknesses, isSymmetric)
    {
      var vacuum := vacuums[a];
      assert Provisional(src, vacuums[..a + 1], thicknesses, isSymmetric)
          == Provisional(src, vacuums[..a], thicknesses, isSymmetric) + Row(src, vacuum, thicknesses, isSymmetric) by {
        assert vacuums[..a + 1][..a] == vacuums[..a];
      }
      provisional := AppendRow(provisional, src, vacuum, thicknesses, isSymmetric);
      a := a + 1;
    }
    assert vacuums[..a] == vacuums;
  }

  // ---------------------------------------------------------------------------
  // Which records enter `provisional`
  // ---------------------------------------------------------------------------

  /** The slab at position `i` of a batch passes the test and `c` is the
      record made from it. */
  predicate Yields(slabs: seq<Slab>, slabT: nat, vacT: nat, isSymmetric: bool, i: nat, c: Candidate)
  {
    i < |slabs| && Keep(slabs[i], isSymmetric) && c == Tag(slabs[i], slabT, vacT, i)
  }

  /** The generator's slab at position `i` for (`thickness`, `vacuum`) passes
      the test and `c` is the record made from it. */
  predicate Produces(src: Source, isSymmetric: bool, thickness: nat, vacuum: nat, i: nat, c: Candidate)
  {
    Yields(src.Generated(thickness, vacuum), thickness, vacuum, isSymmetric, i, c)
  }

  /** A record is in a batch exactly when some slab of the batch passes the
      test and the record is made from it, tagged with its position. */
  lemma BatchMembership(slabs: seq<Slab>, slabT: nat, vacT: nat, isSymmetric: bool, c: Candidate)
    ensures c in Batch(slabs, slabT, vacT, isSymmetric) <==> exists i: nat :: Yields(slabs, slabT, vacT, isSymmetric, i, c)
  {
    if c in Batch(slabs, slabT, vacT, isSymmetric) {
      BatchSound(slabs, slabT, vacT, isSymmetric, c);
    }
    if exists i: nat :: Yields(slabs, slabT, vacT, isSymmetric, i, c) {
      var i: nat :| Yields(slabs, slabT, vacT, isSymmetric, i, c);
      BatchComplete(slabs, slabT, vacT, isSymmetric, c, i);
    }
  }

  lemma {:induction false} BatchSound(slabs: seq<Slab>, slabT: nat, vacT: nat, isSymmetric: bool, c: Candidate)
    requires c in Batch(slabs, slabT, vacT, isSymmetric)
    ensures exists i: nat :: Yields(slabs, slabT, vacT, isSymmetric, i, c)
  {
    assert slabs != [];
    var n := |slabs| - 1;
    var init := slabs[..n];
    if c in Batch(init, slabT, vacT, isSymmetric) {
      BatchSound(init, slabT, vacT, isSymmetric, c);
      var i: nat :| Yields(init, slabT, vacT, isSymmetric, i, c);
      assert slabs[i] == init[i];
      assert Yields(slabs, slabT, vacT, isSymmetric, i, c);
    } else {
      assert Yields(slabs, slabT, vacT, isSymmetric, n, c);
    }
  }

  lemma {:induction false} BatchComplete(slabs: seq<Slab>, slabT: nat, vacT: nat, isSymmetric: bool, c: Candidate, i: nat)
    requires Yields(slabs, slabT, vacT, isSymmetric, i, c)
    ensures c in Batch(slabs, slabT, vacT, isSymmetric)
  {
    var n := |slabs| - 1;
    var init := slabs[..n];
    if i < n {
      assert init[i] == slabs[i];
      BatchComplete(init, slabT, vacT, isSymmetric, c, i);
    }
  }

  lemma RowMembership(src: Source, vacuum: nat, thicknesses: seq<nat>, isSymmetric: bool, c: Candidate)
    ensures c in Row(src, vacuum, thicknesses, isSymmetric)
        <==> exists b, i :: 0 <= b < |thicknesses| && Produces(src, isSymmetric, thicknesses[b], vacuum, i, c)
  {
    if c in Row(src, vacuum, thicknesses, isSymmetric) {
      RowSound(src, vacuum, thicknesses, isSymmetric, c);
    }
    if exists b, i :: 0 <= b < |thicknesses| && Produces(src, isSymmetric, thicknesses[b], vacuum, i, c) {
      var b, i :| 0 <= b < |thicknesses| && Produces(src, isSymmetric, thicknesses[b], vacuum, i, c);
      RowComplete(src, vacuum, thicknesses, isSymmetric, c, b, i);
    }
  }

  lemma {:induction false} RowSound(src: Source, vacuum: nat, thicknesses: seq<nat>, isSymmetric: bool, c: Candidate)
    requires c in Row(src, vacuum, thicknesses, isSymmetric)
    ensures exists b, i :: 0 <= b < |thicknesses| && Produces(src, isSymmetric, thicknesses[b], vacuum, i, c)
  {
    var m := |thicknesses| - 1;
    var init := thicknesses[..m];
    var t := thicknesses[m];
    if c in Row(src, vacuum, init, isSymmetric) {
      RowSound(src, vacuum, init, isSymmetric, c);
      var b, i :| 0 <= b < |init| && Produces(src, isSymmetric, init[b], vacuum, i, c);
      assert thicknesses[b] == init[b];
    } else {
      BatchSound(src.Generated(t, vacuum), t, vacuum, isSymmetric, c);
      var i: nat :| Yields(src.Generated(t, vacuum), t, vacuum, isSymmetric, i, c);
      assert Produces(src, isSymmetric, thicknesses[m], vacuum, i, c);
    }
  }

  lemma {:induction false} RowComplete(src: Source, vacuum: nat, thicknesses: seq<nat>, isSymmetric: bool, c: Candidate,
                                       b: nat, i: nat)
    requires b < |thicknesses| && Produces(src, isSymmetric, thicknesses[b], vacuum, i, c)
    ensures c in Row(src, vacuum, thicknesses, isSymmetric)
  {
    var m := |thicknesses| - 1;
    var init := thicknesses[..m];
    var t := thicknesses[m];
    if b < m {
      assert init[b] == thicknesses[b];
      RowComplete(src, vacuum, init, isSymmetric, c, b, i);
    } else {
      BatchComplete(src.Generated(t, vacuum), t, vacuum, isSymmetric, c, i);
    }
  }

  /** A record is in `provisional` exactly when some vacuum and thickness of
      the input lists make the generator return, at position `i`, a slab that
      passes the test, and the record carries that slab, those thicknesses
      and `i` as its `s_index`. */
  lemma ProvisionalMembership(src: Source, vacuums: seq<nat>, thicknesses: seq<nat>, isSymmetric: bool, c: Candidate)
    ensures c in Provisional(src, vacuums, thicknesses, isSymmetric)
        <==> exists a, b, i :: 0 <= a < |vacuums| && 0 <= b < |thicknesses|
                            && Produces(src, isSymmetric, thicknesses[b], vacuums[a], i, c)
  {
    if c in Provisional(src, vacuums, thicknesses, isSymmetric) {
      ProvisionalSound(src, vacuums, thicknesses, isSymmetric, c);
    }
    if exists a, b, i :: 0 <= a < |vacuums| && 0 <= b < |thicknesses| && Produces(src, isSymmetric, thicknesses[b], vacuums[a], i, c) {
      var a, b, i :| 0 <= a < |vacuums| && 0 <= b < |thicknesses| && Produces(src, isSymmetric, thicknesses[b], vacuums[a], i, c);
      ProvisionalComplete(src, vacuums, thicknesses, isSymmetric, c, a, b, i);
    }
  }

  lemma {:induction false} ProvisionalSound(src: Source, vacuums: seq<nat>, thicknesses: seq<nat>, isSymmetric: bool, c: Candidate)
    requires c in Provisional(src, vacuums, thicknesses, isSymmetric)
    ensures exists a, b, i :: 0 <= a < |vacuums| && 0 <= b < |thicknesses|
                            && Produces(src, isSymmetric, thicknesses[b], vacuums[a], i, c)
  {
    var m := |vacuums| - 1;
    var init := vacuums[..m];
    if c in Provisional(src, init, thicknesses, isSymmetric) {
      ProvisionalSound(src, init, thicknesses, isSymmetric, c);
      var a, b, i :| 0 <= a < |init| && 0 <= b < |thicknesses| && Produces(src, isSymmetric, thicknesses[b], init[a], i, c);
      assert vacuums[a] == init[a];
    } else {
      RowSound(src, vacuums[m], thicknesses, isSymmetric, c);
      var b, i :| 0 <= b < |thicknesses| && Produces(src, isSymmetric, thicknesses[b], vacuums[m], i, c);
      assert 0 <= m < |vacuums|;
    }
  }

  lemma {:induction false} ProvisionalComplete(src: Source, vacuums: seq<nat>, thicknesses: seq<nat>, isSymmetric: bool, c: Candidate,
                                               a: nat, b: nat, i: nat)
    requires a < |vacuums| && b < |thicknesses| && Produces(src, isSymmetric, thicknesses[b], vacuums[a], i, c)
    ensures c in Provisional(src, vacuums, thicknesses, isSymmetric)
  {
    var m := |vacuums| - 1;
    var init := vacuums[..m];
    if a < m {
      assert init[a] == vacuums[a];
      ProvisionalComplete(src, init, thicknesses, isSymmetric, c, a, b, i);
    } else {
      RowComplete(src, vacuums[m], thicknesses, isSymmetric, c, b, i);
    }
  }

  /** No slab of any batch is symmetric. */
  ghost predicate NoneSymmetric(src: Source)
  {
    forall t, v, i :: 0 <= i < |src.Generated(t, v)| ==> !src.Generated(t, v)[i].symmetric
  }

  lemma {:induction false} BatchWithoutSymmetric(slabs: seq<Slab>, slabT: nat, vacT: nat)
    requires forall i :: 0 <= i < |slabs| ==> !slabs[i].symmetric
    ensures Batch(slabs, slabT, vacT, true) == []
  {
    if slabs != [] {
      var n := |slabs| - 1;
      BatchWithoutSymmetric(slabs[..n], slabT, vacT);
    }
  }

  lemma {:induction false} RowWithoutSymmetric(src: Source, vacuum: nat, thicknesses: seq<nat>)
    requires NoneSymmetric(src)
    ensures Row(src, vacuum, thicknesses, true) == []
  {
    if thicknesses != [] {
      var m := |thicknesses| - 1;
      RowWithoutSymmetric(src, vacuum, thicknesses[..m]);
      BatchWithoutSymmetric(src.Generated(thicknesses[m], vacuum), thicknesses[m], vacuum);
    }
  }

  /** Requiring symmetry when the generator never returns a symmetric slab
      leaves `provisional` empty; no error is raised on that path. */
  lemma {:induction false} NoSymmetricSlabsNoCandidates(src: Source, vacuums: seq<nat>, thicknesses: seq<nat>)
    requires NoneSymmetric(src)
    ensures Provisional(src, vacuums, thicknesses, true) == []
  {
    if vacuums != [] {
      var m := |vacuums| - 1;
      NoSymmetricSlabsNoCandidates(src, vacuums[..m], thicknesses);
      RowWithoutSymmetric(src, vacuums[m], thicknesses);
    }
  }

  // ---------------------------------------------------------------------------
  // Order and count of `provisional` when every slab is kept
  // ---------------------------------------------------------------------------

  /** The pair (`thickness`, `vacuum`) yields `n` slabs and all of them pass
      the test. */
  ghost predicate PairAllKept(src: Source, thickness: nat, vacuum: nat, isSymmetric: bool, n: nat)
  {
    && |src.Generated(thickness, vacuum)| == n
    && forall i :: 0 <= i < n ==> Keep(src.Generated(thickness, vacuum)[i], isSymmetric)
  }

  /** Every thickness, with this vacuum, yields `n` slabs that all pass. */
  ghost predicate RowUniform(src: Source, vacuum: nat, thicknesses: seq<nat>, isSymmetric: bool, n: nat)
  {
    forall b :: 0 <= b < |thicknesses| ==> PairAllKept(src, thicknesses[b], vacuum, isSymmetric, n)
  }

  /** Every pair of the grid yields `n` slabs and all of them pass the test. */
  ghost predicate UniformAllKept(src: Source, vacuums: seq<nat>, thicknesses: seq<nat>, isSymmetric: bool, n: nat)
  {
    forall a, b :: 0 <= a < |vacuums| && 0 <= b < |thicknesses| ==>
      PairAllKept(src, thicknesses[b], vacuums[a], isSymmetric, n)
  }

  /** `b` blocks of `n` records: the product b * n, written by repeated
      addition so that the order lemmas below need only linear arithmetic. */
  function Times(b: nat, n: nat): nat
  {
    if b == 0 then 0 else Times(b - 1, n) + n
  }

  lemma {:induction false} TimesIsProduct(b: nat, n: nat)
    ensures Times(b, n) == b * n
  {
    if b > 0 {
      TimesIsProduct(b - 1, n);
    }
  }

  lemma {:induction false} BatchAllKept(slabs: seq<Slab>, slabT: nat, vacT: nat, isSymmetric: bool)
    requires forall i :: 0 <= i < |slabs| ==> Keep(slabs[i], isSymmetric)
    ensures |Batch(slabs, slabT, vacT, isSymmetric)| == |slabs|
    ensures forall i :: 0 <= i < |slabs| ==> Batch(slabs, slabT, vacT, isSymmetric)[i] == Tag(slabs[i], slabT, vacT, i)
  {
    if slabs != [] {
      var n := |slabs| - 1;
      var init := slabs[..n];
      BatchAllKept(init, slabT, vacT, isSymmetric);
      var head := Batch(init, slabT, vacT, isSymmetric);
      assert Keep(slabs[n], isSymmetric);
      assert Batch(slabs, slabT, vacT, isSymmetric) == head + [Tag(slabs[n], slabT, vacT, n)];
      forall i | 0 <= i < |slabs|
        ensures Batch(slabs, slabT, vacT, isSymmetric)[i] == Tag(slabs[i], slabT, vacT, i)
      {
        if i < n {
          assert init[i] == slabs[i];
          assert head[i] == Tag(init[i], slabT, vacT, i);
        }
      }
    }
  }

  lemma {:induction false} RowLength(src: Source, vacuum: nat, thicknesses: seq<nat>, isSymmetric: bool, n: nat)
    requires RowUniform(src, vacuum, thicknesses, isSymmetric, n)
    ensures |Row(src, vacuum, thicknesses, isSymmetric)| == Times(|thicknesses|, n)
  {
    if thicknesses != [] {
      var m := |thicknesses| - 1;
      var init := thicknesses[..m];
      forall b | 0 <= b < m ensures PairAllKept(src, init[b], vacuum, isSymmetric, n) {
        assert init[b] == thicknesses[b];
      }
      RowLength(src, vacuum, init, isSymmetric, n);
      assert PairAllKept(src, thicknesses[m], vacuum, isSymmetric, n);
      BatchAllKept(src.Generated(thicknesses[m], vacuum), thicknesses[m], vacuum, isSymmetric);
    }
  }

  lemma {:induction false} RowAt(src: Source, vacuum: nat, thicknesses: seq<nat>, isSymmetric: bool, n: nat, b: nat, i: nat)
    requires RowUniform(src, vacuum, thicknesses, isSymmetric, n)
    requires b < |thicknesses| && i < n
    ensures i < |src.Generated(thicknesses[b], vacuum)|
    ensures Times(b, n) + i < |Row(src, vacuum, thicknesses, isSymmetric)|
    ensures Row(src, vacuum, thicknesses, isSymmetric)[Times(b, n) + i]
         == Tag(src.Generated(thicknesses[b], vacuum)[i], thicknesses[b], vacuum, i)
    decreases |thicknesses|, 1
  {
    if b < |thicknesses| - 1 {
      RowAtEarlier(src, vacuum, thicknesses, isSymmetric, n, b, i);
    } else {
      RowAtLast(src, vacuum, thicknesses, isSymmetric, n, i);
    }
  }

  lemma {:induction false} RowAtEarlier(src: Source, vacuum: nat, thicknesses: seq<nat>, isSymmetric: bool, n: nat, b: nat, i: nat)
    requires RowUniform(src, vacuum, thicknesses, isSymmetric, n)
    requires b < |thicknesses| - 1 && i < n
    ensures i < |src.Generated(thicknesses[b], vacuum)|
    ensures Times(b, n) + i < |Row(src, vacuum, thicknesses, isSymmetric)|
    ensures Row(src, vacuum, thicknesses, isSymmetric)[Times(b, n) + i]
         == Tag(src.Generated(thicknesses[b], vacuum)[i], thicknesses[b], vacuum, i)
    decreases |thicknesses|, 0
  {
    var m := |thicknesses| - 1;
    var init := thicknesses[..m];
    var t := thicknesses[m];
    var head := Row(src, vacuum, init, isSymmetric);
    var last := Batch(src.Generated(t, vacuum), t, vacuum, isSymmetric);
    assert Row(src, vacuum, thicknesses, isSymmetric) == head + last;
    assert init[b] == thicknesses[b];
    InitAllKept(src, vacuum, thicknesses, isSymmetric, n);
    RowAt(src, vacuum, init, isSymmetric, n, b, i);
  }

  lemma RowAtLast(src: Source, vacuum: nat, thicknesses: seq<nat>, isSymmetric: bool, n: nat, i: nat)
    requires RowUniform(src, vacuum, thicknesses, isSymmetric, n)
    requires thicknesses != [] && i < n
    ensures var m := |thicknesses| - 1;
      && i < |src.Generated(thicknesses[m], vacuum)|
      && Times(m, n) + i < |Row(src, vacuum, thicknesses, isSymmetric)|
      && Row(src, vacuum, thicknesses, isSymmetric)[Times(m, n) + i]
         == Tag(src.Generated(thicknesses[m], vacuum)[i], thicknesses[m], vacuum, i)
  {
    var m := |thicknesses| - 1;
    var t := thicknesses[m];
    assert PairAllKept(src, t, vacuum, isSymmetric, n);
    InitAllKept(src, vacuum, thicknesses, isSymmetric, n);
    RowLength(src, vacuum, thicknesses[..m], isSymmetric, n);
    BatchAllKept(src.Generated(t, vacuum), t, vacuum, isSymmetric);
  }

  lemma InitAllKept(src: Source, vacuum: nat, thicknesses: seq<nat>, isSymmetric: bool, n: nat)
    requires thicknesses != []
    requires RowUniform(src, vacuum, thicknesses, isSymmetric, n)
    ensures RowUniform(src, vacuum, thicknesses[..|thicknesses| - 1], isSymmetric, n)
  {
    var init := thicknesses[..|thicknesses| - 1];
    forall b | 0 <= b < |init| ensures PairAllKept(src, init[b], vacuum, isSymmetric, n) {
      assert init[b] == thicknesses[b];
    }
  }

  lemma {:induction false} ProvisionalLength(src: Source, vacuums: seq<nat>, thicknesses: seq<nat>, isSymmetric: bool, n: nat)
    requires UniformAllKept(src, vacuums, thicknesses, isSymmetric, n)
    ensures |Provisional(src, vacuums, thicknesses, isSymmetric)| == Times(|vacuums|, Times(|thicknesses|, n))
  {
    if vacuums != [] {
      var m := |vacuums| - 1;
      var init := vacuums[..m];
      forall a, b | 0 <= a < m && 0 <= b < |thicknesses|
        ensures PairAllKept(src, thicknesses[b], init[a], isSymmetric, n)
      {
        assert init[a] == vacuums[a];
      }
      ProvisionalLength(src, init, thicknesses, isSymmetric, n);
      forall b | 0 <= b < |thicknesses| ensures PairAllKept(src, thicknesses[b], vacuums[m], isSymmetric, n) {
        assert 0 <= m < |vacuums|;
      }
      RowLength(src, vacuums[m], thicknesses, isSymmetric, n);
    }
  }

  /** When every pair of the grid yields `n` slabs and all of them pass the
      test, the record at position (a * |thicknesses| + b) * n + i of
      `provisional` is made from the i-th slab generated for the b-th
      thickness and the a-th vacuum, with `s_index` = i: the list is
      vacuum-major, then thickness, then generator order, and it holds
      |vacuums| * |thicknesses| * n records (`ProvisionalLength`). */
  lemma {:induction false} ProvisionalAt(src: Source, vacuums: seq<nat>, thicknesses: seq<nat>, isSymmetric: bool, n: nat, a: nat, b: nat, i: nat)
    requires UniformAllKept(src, vacuums, thicknesses, isSymmetric, n)
    requires a < |vacuums| && b < |thicknesses| && i < n
    ensures i < |src.Generated(thicknesses[b], vacuums[a])|
    ensures Times(a, Times(|thicknesses|, n)) + Times(b, n) + i < |Provisional(src, vacuums, thicknesses, isSymmetric)|
    ensures Provisional(src, vacuums, thicknesses, isSymmetric)[Times(a, Times(|thicknesses|, n)) + Times(b, n) + i]
         == Tag(src.Generated(thicknesses[b], vacuums[a])[i], thicknesses[b], vacuums[a], i)
    decreases |vacuums|, 1
  {
    if a < |vacuums| - 1 {
      ProvisionalAtEarlier(src, vacuums, thicknesses, isSymmetric, n, a, b, i);
    } else {
      ProvisionalAtLast(src, vacuums, thicknesses, isSymmetric, n, b, i);
    }
  }

  lemma UniformInit(src: Source, vacuums: seq<nat>, thicknesses: seq<nat>, isSymmetric: bool, n: nat)
    requires vacuums != []
    requires UniformAllKept(src, vacuums, thicknesses, isSymmetric, n)
    ensures UniformAllKept(src, vacuums[..|vacuums| - 1], thicknesses, isSymmetric, n)
    ensures RowUniform(src, vacuums[|vacuums| - 1], thicknesses, isSymmetric, n)
  {
    var init := vacuums[..|vacuums| - 1];
    forall a, b | 0 <= a < |init| && 0 <= b < |thicknesses|
      ensures PairAllKept(src, thicknesses[b], init[a], isSymmetric, n)
    {
      assert init[a] == vacuums[a];
    }
  }

  lemma {:induction false} ProvisionalAtEarlier(src: Source, vacuums: seq<nat>, thicknesses: seq<nat>, isSymmetric: bool, n: nat, a: nat, b: nat, i: nat)
    requires UniformAllKept(src, vacuums, thicknesses, isSymmetric, n)
    requires a < |vacuums| - 1 && b < |thicknesses| && i < n
    ensures i < |src.Generated(thicknesses[b], vacuums[a])|
    ensures Times(a, Times(|thicknesses|, n)) + Times(b, n) + i < |Provisional(src, vacuums, thicknesses, isSymmetric)|
    ensures Provisional(src, vacuums, thicknesses, isSymmetric)[Times(a, Times(|thicknesses|, n)) + Times(b, n) + i]
         == Tag(src.Generated(thicknesses[b], vacuums[a])[i], thicknesses[b], vacuums[a], i)
    decreases |vacuums|, 0
  {
    var m := |vacuums| - 1;
    var init := vacuums[..m];
    var head := Provisional(src, init, thicknesses, isSymmetric);
    var row := Row(src, vacuums[m], thicknesses, isSymmetric);
    assert Provisional(src, vacuums, thicknesses, isSymmetric) == head + row;
    assert init[a] == vacuums[a];
    UniformInit(src, vacuums, thicknesses, isSymmetric, n);
    ProvisionalAt(src, init, thicknesses, isSymmetric, n, a, b, i);
  }

  lemma ProvisionalAtLast(src: Source, vacuums: seq<nat>, thicknesses: seq<nat>, isSymmetric: bool, n: nat, b: nat, i: nat)
    requires UniformAllKept(src, vacuums, thicknesses, isSymmetric, n)
    requires vacuums != [] && b < |thicknesses| && i < n
    ensures var m := |vacuums| - 1;
      && i < |src.Generated(thicknesses[b], vacuums[m])|
      && Times(m, Times(|thicknesses|, n)) + Times(b, n) + i < |Provisional(src, vacuums, thicknesses, isSymmetric)|
      && Provisional(src, vacuums, thicknesses, isSymmetric)[Times(m, Times(|thicknesses|, n)) + Times(b, n) + i]
         == Tag(src.Generated(thicknesses[b], vacuums[m])[i], thicknesses[b], vacuums[m], i)
  {
    var m := |vacuums| - 1;
    UniformInit(src, vacuums, thicknesses, isSymmetric, n);
    ProvisionalLength(src, vacuums[..m], thicknesses, isSymmetric, n);
    RowAt(src, vacuums[m], thicknesses, isSymmetric, n, b, i);
  }

  // ---------------------------------------------------------------------------
  // Distinct names
  // ---------------------------------------------------------------------------

  /** A prefix of a prefix is a prefix. */
  lemma PrefixOfPrefix<T>(s: seq<T>, n: nat, k: nat)
    requires k <= n <= |s|
    ensures s[..n][..k] == s[..k]
  {
  }

  predicate NoDuplicates<T(==)>(s: seq<T>)
  {
    forall j, k :: 0 <= j < k < |s| ==> s[j] != s[k]
  }

  /** The naming fields other than hkl. */
  function Tagline(c: Candidate): (nat, nat, nat)
  {
    (c.slabT, c.vacT, c.sIndex)
  }

  ghost predicate DistinctTaglines(cs: seq<Candidate>)
  {
    forall j, k :: 0 <= j < k < |cs| ==> Tagline(cs[j]) != Tagline(cs[k])
  }

  lemma DistinctTaglinesConcat(xs: seq<Candidate>, ys: seq<Candidate>)
    requires DistinctTaglines(xs) && DistinctTaglines(ys)
    requires forall x, y :: x in xs && y in ys ==> Tagline(x) != Tagline(y)
    ensures DistinctTaglines(xs + ys)
  {
    forall j, k | 0 <= j < k < |xs + ys|
      ensures Tagline((xs + ys)[j]) != Tagline((xs + ys)[k])
    {
      if k < |xs| {
      } else if j >= |xs| {
        assert (xs + ys)[j] == ys[j - |xs|] && (xs + ys)[k] == ys[k - |xs|];
      } else {
        assert (xs + ys)[j] in xs && (xs + ys)[k] in ys;
      }
    }
  }

  lemma {:induction false} BatchDistinct(slabs: seq<Slab>, slabT: nat, vacT: nat, isSymmetric: bool)
    ensures DistinctTaglines(Batch(slabs, slabT, vacT, isSymmetric))
    ensures forall c :: c in Batch(slabs, slabT, vacT, isSymmetric) ==>
      c.slabT == slabT && c.vacT == vacT && c.sIndex < |slabs|
  {
    if slabs != [] {
      var n := |slabs| - 1;
      BatchDistinct(slabs[..n], slabT, vacT, isSymmetric);
      DistinctTaglinesConcat(Batch(slabs[..n], slabT, vacT, isSymmetric),
        if Keep(slabs[n], isSymmetric) then [Tag(slabs[n], slabT, vacT, n)] else []);
    }
  }

  lemma {:induction false} RowDistinct(src: Source, vacuum: nat, thicknesses: seq<nat>, isSymmetric: bool)
    requires NoDuplicates(thicknesses)
    ensures DistinctTaglines(Row(src, vacuum, thicknesses, isSymmetric))
    ensures forall c :: c in Row(src, vacuum, thicknesses, isSymmetric) ==>
      c.vacT == vacuum && c.slabT in thicknesses
  {
    if thicknesses != [] {
      var m := |thicknesses| - 1;
      var init := thicknesses[..m];
      var t := thicknesses[m];
      RowDistinct(src, vacuum, init, isSymmetric);
      BatchDistinct(src.Generated(t, vacuum), t, vacuum, isSymmetric);
      forall j | 0 <= j < m ensures init[j] != t {
        assert init[j] == thicknesses[j];
      }
      DistinctTaglinesConcat(Row(src, vacuum, init, isSymmetric), Batch(src.Generated(t, vacuum), t, vacuum, isSymmetric));
      forall c | c in Row(src, vacuum, init, isSymmetric) ensures c.slabT in thicknesses {
        assert c.slabT in init;
      }
    }
  }

  /** When neither the thickness list nor the vacuum list repeats a value, no
      two records of `provisional` share (slab_t, vac_t, s_index), so no two of
      them get the same identifier or folder. */
  lemma {:induction false} ProvisionalDistinct(src: Source, vacuums: seq<nat>, thicknesses: seq<nat>, isSymmetric: bool)
    requires NoDuplicates(vacuums) && NoDuplicates(thicknesses)
    ensures DistinctTaglines(Provisional(src, vacuums, thicknesses, isSymmetric))
    ensures forall c :: c in Provisional(src, vacuums, thicknesses, isSymmetric) ==> c.vacT in vacuums
  {
    if vacuums != [] {
      var m := |vacuums| - 1;
      var init := vacuums[..m];
      var v := vacuums[m];
      ProvisionalDistinct(src, init, thicknesses, isSymmetric);
      RowDistinct(src, v, thicknesses, isSymmetric);
      forall j | 0 <= j < m ensures init[j] != v {
        assert init[j] == vacuums[j];
      }
      DistinctTaglinesConcat(Provisional(src, init, thicknesses, isSymmetric), Row(src, v, thicknesses, isSymmetric));
      forall c | c in Provisional(src, init, thicknesses, isSymmetric) ensures c.vacT in vacuums {
        assert c.vacT in init;
      }
    }
  }
}
