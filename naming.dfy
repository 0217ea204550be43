/** How generated slabs are named: the Miller-index string, the slab identifier
    `hkl_slabT_vacT_index`, the flat POSCAR path, the per-slab folder, the bulk
    folder name and the comma-joined lists in warning messages. Python's `str`
    of an integer is decimal, with a leading '-' for negatives. */
module Naming {

  // ---------------------------------------------------------------------------
  // Decimal rendering of integers (Python `str(n)`)
  // ---------------------------------------------------------------------------

  predicate IsDigit(c: char) { '0' <= c <= '9' }

  predicate AllDigits(s: string) { forall k :: 0 <= k < |s| ==> IsDigit(s[k]) }

  function DigitChar(d: nat): (c: char)
    requires d < 10
    ensures IsDigit(c) && c as int - '0' as int == d
  {
    (d + '0' as int) as char
  }

  /** `str(n)` for a non-negative integer: decimal digits, no leading zero. */
  function NatToString(n: nat): (s: string)
    ensures 1 <= |s| && AllDigits(s)
    ensures |s| > 1 ==> s[0] != '0'
    decreases n
  {
    if n < 10 then [DigitChar(n)] else NatToString(n / 10) + [DigitChar(n % 10)]
  }

  /** Reads a string of decimal digits back as a number. */
  function ParseNat(s: string): nat
    requires AllDigits(s)
  {
    if s == [] then 0
    else ParseNat(s[..|s| - 1]) * 10 + (s[|s| - 1] as int - '0' as int)
  }

  lemma {:induction false} ParseNatToString(n: nat)
    ensures ParseNat(NatToString(n)) == n
    decreases n
  {
    var s := NatToString(n);
    if n >= 10 {
      ParseNatToString(n / 10);
      assert s[..|s| - 1] == NatToString(n / 10);
    }
  }

  lemma NatToStringInjective(m: nat, n: nat)
    ensures NatToString(m) == NatToString(n) <==> m == n
  {
    ParseNatToString(m);
    ParseNatToString(n);
  }

  /** `str(i)` for any integer. */
  function IntToString(i: int): (s: string)
  {
    if i < 0 then "-" + NatToString(-i) else NatToString(i)
  }

  /** The characters `str` of an integer can produce. */
  predicate NumeralChar(c: char) { c == '-' || IsDigit(c) }

  /** `''.join(map(str, miller_index))`: the Miller-index integers written one
      after another with no separator. */
  function HklString(miller: seq<int>): (s: string)
    ensures forall k :: 0 <= k < |s| ==> NumeralChar(s[k])
  {
    if miller == [] then ""
    else HklString(miller[..|miller| - 1]) + IntToString(miller[|miller| - 1])
  }

  /** One Miller integer is written as its `str`. */
  lemma HklStringSingle(x: int)
    ensures HklString([x]) == IntToString(x)
  {
    assert [x][..0] == [];
  }

  /** The last element of a non-empty second part is the last element of the
      concatenation. */
  lemma ConcatInitLast<T>(a: seq<T>, b: seq<T>)
    requires b != []
    ensures (a + b)[..|a + b| - 1] == a + b[..|b| - 1]
    ensures (a + b)[|a + b| - 1] == b[|b| - 1]
  {
  }

  lemma ConcatAssoc<T>(x: seq<T>, y: seq<T>, z: seq<T>)
    ensures (x + y) + z == x + (y + z)
  {
  }

  /** The hkl string of a concatenation is the concatenation of the hkl
      strings: the integers are written in order, with nothing between them. */
  lemma {:induction false} HklStringConcat(a: seq<int>, b: seq<int>)
    ensures HklString(a + b) == HklString(a) + HklString(b)
    decreases |b|
  {
    if b == [] {
      assert a + b == a;
    } else {
      var init := b[..|b| - 1];
      ConcatInitLast(a, b);
      HklStringConcat(a, init);
      ConcatAssoc(HklString(a), HklString(init), IntToString(b[|b| - 1]));
    }
  }

  /** Distinct Miller indices can share one hkl string: (1, 11, 0) and
      (11, 1, 0) are both written "1110". */
  lemma HklStringNotInjective()
    ensures [1, 11, 0] != [11, 1, 0] && HklString([1, 11, 0]) == HklString([11, 1, 0]) == "1110"
  {
    assert [1, 11, 0][..2] == [1, 11] && [1, 11][..1] == [1] && [1][..0] == [];
    assert [11, 1, 0][..2] == [11, 1] && [11, 1][..1] == [11] && [11][..0] == [];
    assert NatToString(11) == "11" by { assert NatToString(1) == "1"; }
  }

  // ---------------------------------------------------------------------------
  // Identifiers and paths
  // ---------------------------------------------------------------------------

  /** `{slab_t}_{vac_t}_{s_index}`: the part of a name shared by the slab
      identifier and the per-slab folder. */
  function Tags(slabT: nat, vacT: nat, sIndex: nat): string
  {
    NatToString(slabT) + "_" + NatToString(vacT) + "_" + NatToString(sIndex)
  }

  /** `'{}_{}_{}_{}'.format(hkl, slab_t, vac_t, s_index)`: the identifier that
      names a slab in warnings and in flat-mode file names. */
  function SlabId(hkl: string, slabT: nat, vacT: nat, sIndex: nat): string
  {
    hkl + "_" + Tags(slabT, vacT, sIndex)
  }

  /** `'{}/{}_{}_{}'.format(hkl, slab_t, vac_t, s_index)`: the folder of one
      slab in folder mode. */
  function FolderPath(hkl: string, slabT: nat, vacT: nat, sIndex: nat): string
  {
    hkl + "/" + Tags(slabT, vacT, sIndex)
  }

  /** `'{}/POSCAR_{}.vasp'`: the POSCAR of one slab in flat mode, inside the
      folder named after the bulk formula. */
  function FlatPath(bulkName: string, id: string): string
  {
    bulkName + "/POSCAR_" + id + ".vasp"
  }

  /** `formula.replace(" ", "")`. */
  function RemoveSpaces(formula: string): (r: string)
    ensures forall c :: c in r <==> c in formula && c != ' '
    ensures |r| <= |formula|
  {
    if formula == [] then ""
    else
      var init := formula[..|formula| - 1];
      assert formula == init + [formula[|formula| - 1]];
      RemoveSpaces(init) + (if formula[|formula| - 1] == ' ' then "" else [formula[|formula| - 1]])
  }

  /** Removing spaces a second time changes nothing. */
  lemma {:induction false} RemoveSpacesIdempotent(formula: string)
    ensures RemoveSpaces(RemoveSpaces(formula)) == RemoveSpaces(formula)
  {
    if formula != [] {
      var init := formula[..|formula| - 1];
      var last := formula[|formula| - 1];
      RemoveSpacesIdempotent(init);
      var r := RemoveSpaces(init);
      if last != ' ' {
        assert (r + [last])[..|r + [last]| - 1] == r;
        assert RemoveSpaces(formula) == r + [last];
        assert RemoveSpaces(r + [last]) == RemoveSpaces(r) + [last];
      } else {
        assert RemoveSpaces(formula) == r;
      }
    }
  }

  /** A single character survives exactly when it is not a space. */
  lemma RemoveSpacesChar(c: char)
    ensures RemoveSpaces([c]) == if c == ' ' then "" else [c]
  {
    assert [c][..0] == [];
  }

  /** Removing spaces works piece by piece, so the bulk name is the
      formula's non-space characters in their order. */
  lemma {:induction false} RemoveSpacesConcat(a: string, b: string)
    ensures RemoveSpaces(a + b) == RemoveSpaces(a) + RemoveSpaces(b)
    decreases |b|
  {
    if b == [] {
      assert a + b == a;
    } else {
      ConcatInitLast(a, b);
      RemoveSpacesConcat(a, b[..|b| - 1]);
    }
  }

  /** `sep.join(items)`. */
  function Join(sep: string, items: seq<string>): (r: string)
    ensures items == [] ==> r == ""
    ensures |items| == 1 ==> r == items[0]
  {
    if items == [] then ""
    else if |items| == 1 then items[0]
    else Join(sep, items[..|items| - 1]) + sep + items[|items| - 1]
  }

  /** Joining two non-empty lists puts one separator between their joins:
      every two neighbouring items are separated by `sep`. */
  lemma {:induction false} JoinConcat(sep: string, xs: seq<string>, ys: seq<string>)
    requires xs != [] && ys != []
    ensures Join(sep, xs + ys) == Join(sep, xs) + sep + Join(sep, ys)
    decreases |ys|
  {
    var init := ys[..|ys| - 1];
    ConcatInitLast(xs, ys);
    if init == [] {
      assert xs + init == xs;
    } else {
      JoinConcat(sep, xs, init);
    }
  }

  // ---------------------------------------------------------------------------
  // Splitting, used to read a name back into its parts
  // ---------------------------------------------------------------------------

  /** `s.split(sep)` for a one-character separator. */
  function Split(s: string, sep: char): (parts: seq<string>)
    ensures |parts| >= 1
  {
    if s == [] then [""]
    else if s[0] == sep then [""] + Split(s[1..], sep)
    else
      var rest := Split(s[1..], sep);
      [[s[0]] + rest[0]] + rest[1..]
  }

  lemma {:induction false} SplitNoSeparator(a: string, sep: char)
    requires sep !in a
    ensures Split(a, sep) == [a]
  {
    if a != [] {
      SplitNoSeparator(a[1..], sep);
      assert [a[0]] + a[1..] == a;
    }
  }

  lemma {:induction false} SplitAfterSegment(a: string, sep: char, b: string)
    requires sep !in a
    ensures Split(a + [sep] + b, sep) == [a] + Split(b, sep)
  {
    if a == [] {
      assert a + [sep] + b == [sep] + b;
      assert ([sep] + b)[1..] == b;
    } else {
      SplitAfterSegment(a[1..], sep, b);
      assert (a + [sep] + b)[1..] == a[1..] + [sep] + b;
      assert [a[0]] + a[1..] == a;
    }
  }

  lemma NumeralHasNoSeparator(s: string, sep: char)
    requires forall k :: 0 <= k < |s| ==> NumeralChar(s[k])
    requires !NumeralChar(sep)
    ensures sep !in s
  {
  }

  /** The three numbers of `Tags` can be read back, splitting at '_'. */
  lemma TagsSplit(slabT: nat, vacT: nat, sIndex: nat)
    ensures Split(Tags(slabT, vacT, sIndex), '_')
         == [NatToString(slabT), NatToString(vacT), NatToString(sIndex)]
  {
    var t, v, i := NatToString(slabT), NatToString(vacT), NatToString(sIndex);
    assert '_' !in t && '_' !in v && '_' !in i by {
      NumeralHasNoSeparator(t, '_');
      NumeralHasNoSeparator(v, '_');
      NumeralHasNoSeparator(i, '_');
    }
    SplitNoSeparator(i, '_');
    SplitAfterSegment(v, '_', i);
    assert t + "_" + v + "_" + i == t + ['_'] + (v + ['_'] + i);
    SplitAfterSegment(t, '_', v + ['_'] + i);
  }

  lemma TagsInjective(t1: nat, v1: nat, i1: nat, t2: nat, v2: nat, i2: nat)
    requires Tags(t1, v1, i1) == Tags(t2, v2, i2)
    ensures t1 == t2 && v1 == v2 && i1 == i2
  {
    TagsSplit(t1, v1, i1);
    TagsSplit(t2, v2, i2);
    NatToStringInjective(t1, t2);
    NatToStringInjective(v1, v2);
    NatToStringInjective(i1, i2);
  }

  /** A slab identifier splits at '_' into hkl, slab thickness, vacuum and
      index, provided the hkl string holds no '_' (which `HklString` never
      does). */
  lemma SlabIdSplit(hkl: string, slabT: nat, vacT: nat, sIndex: nat)
    requires '_' !in hkl
    ensures Split(SlabId(hkl, slabT, vacT, sIndex), '_')
         == [hkl, NatToString(slabT), NatToString(vacT), NatToString(sIndex)]
  {
    TagsSplit(slabT, vacT, sIndex);
    assert SlabId(hkl, slabT, vacT, sIndex) == hkl + ['_'] + Tags(slabT, vacT, sIndex);
    SplitAfterSegment(hkl, '_', Tags(slabT, vacT, sIndex));
  }

  /** Two records with '_'-free hkl strings get the same identifier only when
      all four naming fields agree. */
  lemma SlabIdInjective(h1: string, t1: nat, v1: nat, i1: nat, h2: string, t2: nat, v2: nat, i2: nat)
    requires '_' !in h1 && '_' !in h2
    ensures SlabId(h1, t1, v1, i1) == SlabId(h2, t2, v2, i2)
        <==> h1 == h2 && t1 == t2 && v1 == v2 && i1 == i2
  {
    if SlabId(h1, t1, v1, i1) == SlabId(h2, t2, v2, i2) {
      SlabIdSplit(h1, t1, v1, i1);
      SlabIdSplit(h2, t2, v2, i2);
      NatToStringInjective(t1, t2);
      NatToStringInjective(v1, v2);
      NatToStringInjective(i1, i2);
    }
  }

  /** Likewise for the folder path, whose first separator is '/'. */
  lemma FolderPathInjective(h1: string, t1: nat, v1: nat, i1: nat, h2: string, t2: nat, v2: nat, i2: nat)
    requires '/' !in h1 && '/' !in h2
    ensures FolderPath(h1, t1, v1, i1) == FolderPath(h2, t2, v2, i2)
        <==> h1 == h2 && t1 == t2 && v1 == v2 && i1 == i2
  {
    if FolderPath(h1, t1, v1, i1) == FolderPath(h2, t2, v2, i2) {
      var a, b := Tags(t1, v1, i1), Tags(t2, v2, i2);
      assert '/' !in a && '/' !in b by {
        assert forall k :: 0 <= k < |a| ==> NumeralChar(a[k]) || a[k] == '_';
        assert forall k :: 0 <= k < |b| ==> NumeralChar(b[k]) || b[k] == '_';
      }
      SplitNoSeparator(a, '/');
      SplitNoSeparator(b, '/');
      assert FolderPath(h1, t1, v1, i1) == h1 + ['/'] + a;
      assert FolderPath(h2, t2, v2, i2) == h2 + ['/'] + b;
      SplitAfterSegment(h1, '/', a);
      SplitAfterSegment(h2, '/', b);
      assert Split(a, '/') == [a] && Split(b, '/') == [b];
      assert [h1] + [a] == [h2] + [b];
      assert ([h1] + [a])[0] == h1 && ([h2] + [b])[0] == h2;
      assert ([h1] + [a])[1] == a && ([h2] + [b])[1] == b;
      TagsInjective(t1, v1, i1, t2, v2, i2);
    }
  }

  /** Inside one bulk folder, distinct identifiers give distinct file names. */
  lemma FlatPathInjective(bulkName: string, id1: string, id2: string)
    ensures FlatPath(bulkName, id1) == FlatPath(bulkName, id2) <==> id1 == id2
  {
    var p1, p2 := FlatPath(bulkName, id1), FlatPath(bulkName, id2);
    if p1 == p2 {
      var start := |bulkName| + 8;
      assert |id1| == |id2|;
      assert p1[start..start + |id1|] == id1;
      assert p2[start..start + |id2|] == id2;
    }
  }
}
