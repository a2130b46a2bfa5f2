/**
 * The non-graphical logic of the EEG plotting module: the 10-5 electrode
 * name set, the normalisation of electrode names used by the topographic
 * plot, the position lookup of its data drawing, and the automatic choice of
 * y-limits in the multi-plot.
 */
module Plotting {
  import opened Results
  import opened Matrices

  // The electrode names with a known position on the head, by the region their letters name.

  /** The anterior-frontal (AF) sites. */
  const ANTERIOR_FRONTAL: set<string> := {
    "AF3", "AF4", "AF7", "AF8", "AFz"
  }

  /** The central and centro-parietal (C, CP) sites. */
  const CENTRAL: set<string> := {
    "C1", "C2", "C3", "C4", "C5", "C6", "CP1", "CP2", "CP3", "CP4", "CP5",
    "CP6", "CPz", "Cz"
  }

  /** The frontal, fronto-central, fronto-polar and fronto-temporal (F, FC, FP, FT) sites. */
  const FRONTAL: set<string> := {
    "F1", "F2", "F3", "F4", "F5", "F6", "F7", "F8", "FC1", "FC2", "FC3", "FC4",
    "FC5", "FC6", "FCz", "FP1", "FP2", "Fpz", "FT7", "FT8", "Fz"
  }

  /** The inion and nasion (Iz, Nz) sites. */
  const INION_NASION: set<string> := {
    "Iz", "Nz"
  }

  /** The parietal and parieto-occipital (P, PO) sites. */
  const PARIETAL: set<string> := {
    "P1", "P2", "P3", "P4", "P5", "P6", "P7", "P8", "PO3", "PO4", "PO7", "PO8",
    "POz", "Pz"
  }

  /** The occipital (O) sites. */
  const OCCIPITAL: set<string> := {
    "O1", "O2", "Oz"
  }

  /** The temporal and temporo-parietal (T, TP) sites. */
  const TEMPORAL: set<string> := {
    "T7", "T8", "T9", "T10", "TP7", "TP8", "TP9", "TP10"
  }

  /** The electrode names with a known position on the head. */
  const ELECTRODES: set<string> :=
    ANTERIOR_FRONTAL + CENTRAL + FRONTAL + INION_NASION + PARIETAL + OCCIPITAL + TEMPORAL

  // Electrode-name normalisation

  /** Upper case of a character: a-z become A-Z, everything else is kept. */
  function UpperChar(c: char): char {
    if 'a' <= c <= 'z' then (c as int - 32) as char else c
  }

  function Upper(s: string): (u: string)
    ensures |u| == |s|
    ensures forall i :: 0 <= i < |s| ==> u[i] == UpperChar(s[i])
  {
    if s == [] then [] else [UpperChar(s[0])] + Upper(s[1..])
  }

  /** Every non-overlapping occurrence of `pattern`, scanning from the left, replaced by `replacement`. */
  function ReplaceAll(s: string, pattern: string, replacement: string): string
    requires |pattern| > 0
    decreases |s|
  {
    if s == [] then s
    else if pattern <= s then replacement + ReplaceAll(s[|pattern|..], pattern, replacement)
    else [s[0]] + ReplaceAll(s[1..], pattern, replacement)
  }

  /** The canonical spelling of an electrode name: upper case, "FPZ" as "Fpz", then every "Z" as "z". */
  function Normalize(name: string): string {
    ReplaceAll(ReplaceAll(Upper(name), "FPZ", "Fpz"), "Z", "z")
  }

  lemma UpperAppend(a: string, b: string)
    ensures Upper(a + b) == Upper(a) + Upper(b)
  {
  }

  lemma UpperTwice(s: string)
    ensures Upper(Upper(s)) == Upper(s)
  {
  }

  /** A replacement of the same length keeps the length. */
  lemma {:induction false} ReplaceAllLength(s: string, pattern: string, replacement: string)
    requires |pattern| > 0 && |replacement| == |pattern|
    ensures |ReplaceAll(s, pattern, replacement)| == |s|
    decreases |s|
  {
    if s == [] {
    } else if pattern <= s {
      ReplaceAllLength(s[|pattern|..], pattern, replacement);
    } else {
      ReplaceAllLength(s[1..], pattern, replacement);
    }
  }

  /** A replacement that only differs from the pattern in letter case keeps the upper case of the text. */
  lemma {:induction false} ReplaceAllUpper(s: string, pattern: string, replacement: string)
    requires |pattern| > 0 && Upper(replacement) == Upper(pattern)
    ensures Upper(ReplaceAll(s, pattern, replacement)) == Upper(s)
    decreases |s|
  {
    if s == [] {
    } else if pattern <= s {
      var rest := s[|pattern|..];
      ReplaceAllUpper(rest, pattern, replacement);
      UpperAppend(replacement, ReplaceAll(rest, pattern, replacement));
      assert s == pattern + rest;
      UpperAppend(pattern, rest);
    } else {
      ReplaceAllUpper(s[1..], pattern, replacement);
      UpperAppend([s[0]], ReplaceAll(s[1..], pattern, replacement));
      assert s == [s[0]] + s[1..];
      UpperAppend([s[0]], s[1..]);
    }
  }

  /** Replacing every occurrence of a character by a text that does not contain it leaves no occurrence of it. */
  lemma {:induction false} ReplaceAllRemoves(s: string, c: char, replacement: string)
    requires c !in replacement
    ensures c !in ReplaceAll(s, [c], replacement)
    decreases |s|
  {
    if s == [] {
    } else if [c] <= s {
      ReplaceAllRemoves(s[1..], c, replacement);
    } else {
      ReplaceAllRemoves(s[1..], c, replacement);
      assert s[0] != c;
    }
  }

  /** The documented examples. */
  lemma NormalizeExamples()
    ensures Normalize("fpz") == "Fpz"
    ensures Normalize("AFZ") == "AFz"
  {
  }

  /** A normalised name has no upper-case Z. */
  lemma NormalizeHasNoUpperZ(name: string)
    ensures 'Z' !in Normalize(name)
  {
    ReplaceAllRemoves(ReplaceAll(Upper(name), "FPZ", "Fpz"), 'Z', "z");
  }

  /** Normalisation only changes letter case: the length and the upper-case form are kept. */
  lemma NormalizeChangesOnlyCase(name: string)
    ensures |Normalize(name)| == |name|
    ensures Upper(Normalize(name)) == Upper(name)
  {
    var fixed := ReplaceAll(Upper(name), "FPZ", "Fpz");
    ReplaceAllLength(Upper(name), "FPZ", "Fpz");
    ReplaceAllLength(fixed, "Z", "z");
    assert Upper("Fpz") == Upper("FPZ");
    assert Upper("z") == Upper("Z");
    ReplaceAllUpper(Upper(name), "FPZ", "Fpz");
    ReplaceAllUpper(fixed, "Z", "z");
    UpperTwice(name);
  }

  /** Normalising twice is normalising once. */
  lemma NormalizeIdempotent(name: string)
    ensures Normalize(Normalize(name)) == Normalize(name)
  {
    NormalizeChangesOnlyCase(name);
  }

  /** No lower-case letter and no upper-case Z: text that normalisation leaves alone. */
  predicate Plain(s: string) {
    s == [] || (!('a' <= s[0] <= 'z') && s[0] != 'Z' && Plain(s[1..]))
  }

  /** A midline name such as "Cz" or "POz": plain text, not ending in "FP", then a final "z". */
  predicate Midline(s: string) {
    && |s| >= 2 && s[|s| - 1] == 'z' && Plain(s[..|s| - 1])
    && !(|s| >= 3 && s[|s| - 3..] == "FPz")
  }

  lemma {:induction false} PlainChars(s: string)
    requires Plain(s)
    ensures forall i :: 0 <= i < |s| ==> !('a' <= s[i] <= 'z') && s[i] != 'Z'
    decreases |s|
  {
    if s != [] {
      PlainChars(s[1..]);
      assert forall i :: 1 <= i < |s| ==> s[i] == s[1..][i - 1];
    }
  }

  /** A pattern holding a character the text lacks is never replaced. */
  lemma {:induction false} ReplaceAllAbsent(s: string, pattern: string, replacement: string, c: char)
    requires |pattern| > 0 && c in pattern && c !in s
    ensures ReplaceAll(s, pattern, replacement) == s
    decreases |s|
  {
    if s != [] {
      ReplaceAllAbsent(s[1..], pattern, replacement, c);
    }
  }

  /** Before a final Z, "FPZ" can only occur where the text ends in "FP". */
  lemma {:induction false} ReplaceFpzBeforeZ(p: string)
    requires 'Z' !in p && !(|p| >= 2 && p[|p| - 2..] == "FP")
    ensures ReplaceAll(p + "Z", "FPZ", "Fpz") == p + "Z"
    decreases |p|
  {
    var s := p + "Z";
    if p != [] {
      assert !("FPZ" <= s) by {
        if |p| >= 3 { assert s[2] == p[2]; }
        else if |p| == 2 { assert s[..2] == p; }
      }
      assert s[1..] == p[1..] + "Z";
      if |p| >= 3 { assert p[1..][|p| - 3..] == p[|p| - 2..]; }
      ReplaceFpzBeforeZ(p[1..]);
    }
  }

  lemma {:induction false} ReplaceFinalZ(p: string)
    requires 'Z' !in p
    ensures ReplaceAll(p + "Z", "Z", "z") == p + "z"
    decreases |p|
  {
    var s := p + "Z";
    if p != [] {
      assert s[1..] == p[1..] + "Z";
      ReplaceFinalZ(p[1..]);
    } else {
      assert s[1..] == [];
    }
  }

  lemma PlainFixed(s: string)
    requires Plain(s)
    ensures Normalize(s) == s
  {
    PlainChars(s);
    assert Upper(s) == s;
    ReplaceAllAbsent(s, "FPZ", "Fpz", 'Z');
    ReplaceAllAbsent(s, "Z", "z", 'Z');
  }

  lemma MidlineFixed(s: string)
    requires Midline(s)
    ensures Normalize(s) == s
  {
    var p := s[..|s| - 1];
    assert s == p + "z";
    PlainChars(p);
    UpperAppend(p, "z");
    assert Upper(p) == p;
    assert Upper("z") == "Z";
    if |p| >= 2 {
      assert s[|s| - 3..] == p[|p| - 2..] + "z";
    }
    ReplaceFpzBeforeZ(p);
    ReplaceFinalZ(p);
  }

  /** The forms of name that normalisation leaves unchanged. */
  predicate Shaped(s: string) {
    Plain(s) || Midline(s) || s == "Fpz"
  }

  lemma ShapedFixed(s: string)
    requires Shaped(s)
    ensures Normalize(s) == s
  {
    if Plain(s) {
      PlainFixed(s);
    } else if Midline(s) {
      MidlineFixed(s);
    } else {
      assert Upper(s) == "FPZ";
      assert ReplaceAll("FPZ", "FPZ", "Fpz") == "Fpz";
      ReplaceAllAbsent("Fpz", "Z", "z", 'Z');
    }
  }

  lemma AnteriorFrontalForms()
    ensures Plain("AF3")
      && Plain("AF4")
      && Plain("AF7")
      && Plain("AF8")
      && Midline("AFz")
  {
  }

  lemma AnteriorFrontalShaped()
    ensures forall e :: e in ANTERIOR_FRONTAL ==> Shaped(e)
  {
    AnteriorFrontalForms();
  }

  lemma CentralForms()
    ensures Plain("C1")
      && Plain("C2")
      && Plain("C3")
      && Plain("C4")
      && Plain("C5")
      && Plain("C6")
      && Plain("CP1")
      && Plain("CP2")
      && Plain("CP3")
      && Plain("CP4")
      && Plain("CP5")
      && Plain("CP6")
      && Midline("CPz")
      && Midline("Cz")
  {
  }

  lemma CentralShaped()
    ensures forall e :: e in CENTRAL ==> Shaped(e)
  {
    CentralForms();
  }

  lemma FrontalForms()
    ensures Plain("F1")
      && Plain("F2")
      && Plain("F3")
      && Plain("F4")
      && Plain("F5")
      && Plain("F6")
      && Plain("F7")
      && Plain("F8")
      && Plain("FP1")
      && Plain("FP2")
      && Midline("Fz")
  {
  }

  lemma FrontoCentralTemporalForms()
    ensures Plain("FC1")
      && Plain("FC2")
      && Plain("FC3")
      && Plain("FC4")
      && Plain("FC5")
      && Plain("FC6")
      && Midline("FCz")
      && Plain("FT7")
      && Plain("FT8")
  {
  }

  lemma FrontalShaped()
    ensures forall e :: e in FRONTAL ==> Shaped(e)
  {
    FrontalForms();
    FrontoCentralTemporalForms();
  }

  lemma InionNasionForms()
    ensures Midline("Iz")
      && Midline("Nz")
  {
  }

  lemma InionNasionShaped()
    ensures forall e :: e in INION_NASION ==> Shaped(e)
  {
    InionNasionForms();
  }

  lemma ParietalForms()
    ensures Plain("P1")
      && Plain("P2")
      && Plain("P3")
      && Plain("P4")
      && Plain("P5")
      && Plain("P6")
      && Plain("P7")
      && Plain("P8")
      && Plain("PO3")
      && Plain("PO4")
      && Plain("PO7")
      && Plain("PO8")
      && Midline("POz")
      && Midline("Pz")
  {
  }

  lemma ParietalShaped()
    ensures forall e :: e in PARIETAL ==> Shaped(e)
  {
    ParietalForms();
  }

  lemma OccipitalForms()
    ensures Plain("O1")
      && Plain("O2")
      && Midline("Oz")
  {
  }

  lemma OccipitalShaped()
    ensures forall e :: e in OCCIPITAL ==> Shaped(e)
  {
    OccipitalForms();
  }

  lemma TemporalForms()
    ensures Plain("T7")
      && Plain("T8")
      && Plain("T9")
      && Plain("T10")
      && Plain("TP7")
      && Plain("TP8")
      && Plain("TP9")
      && Plain("TP10")
  {
  }

  lemma TemporalShaped()
    ensures forall e :: e in TEMPORAL ==> Shaped(e)
  {
    TemporalForms();
  }

  /**
   * Every known electrode name is already in normal form, so a data label
   * that normalises to one of them finds its position.
   */
  lemma ElectrodesAreNormalized()
    ensures forall e :: e in ELECTRODES ==> Normalize(e) == e
  {
    AnteriorFrontalShaped();
    CentralShaped();
    FrontalShaped();
    InionNasionShaped();
    ParietalShaped();
    OccipitalShaped();
    TemporalShaped();
    forall e | e in ELECTRODES
      ensures Normalize(e) == e
    {
      ShapedFixed(e);
    }
  }

  /**
   * The lookup loop of the topographic plot, for a table of known names:
   * each data label is normalised and looked up, in order; an unknown name
   * fails the lookup. A position is identified here by its name.
   */
  method LookUpPositions(labels: seq<string>, known: set<string>) returns (points: Option<seq<string>>)
    ensures points.Some? <==> forall i :: 0 <= i < |labels| ==> Normalize(labels[i]) in known
    ensures points.Some? ==>
      |points.value| == |labels| &&
      forall i :: 0 <= i < |labels| ==> points.value[i] == Normalize(labels[i])
  {
    var found: seq<string> := [];
    var k := 0;
    while k < |labels|
      invariant 0 <= k <= |labels|
      invariant |found| == k
      invariant forall i :: 0 <= i < k ==> found[i] == Normalize(labels[i]) && found[i] in known
    {
      var name := Normalize(labels[k]);
      if name !in known {
        return None;
      }
      found := found + [name];
      k := k + 1;
    }
    return Some(found);
  }

  /** The positions the topographic plot interpolates from, looked up in the electrode table. */
  method ElectrodePositions(labels: seq<string>) returns (points: Option<seq<string>>)
    ensures points.Some? <==> forall i :: 0 <= i < |labels| ==> Normalize(labels[i]) in ELECTRODES
    ensures points.Some? ==>
      |points.value| == |labels| &&
      forall i :: 0 <= i < |labels| ==> points.value[i] == Normalize(labels[i])
  {
    points := LookUpPositions(labels, ELECTRODES);
  }

  /** Normalisation leaves labels that are already known electrode names unchanged, so each finds its position. */
  lemma KnownLabelsArePlaced(labels: seq<string>)
    requires forall i :: 0 <= i < |labels| ==> labels[i] in ELECTRODES
    ensures forall i :: 0 <= i < |labels| ==> Normalize(labels[i]) == labels[i]
  {
    ElectrodesAreNormalized();
  }

  // Automatic y-limits of the multi-plot

  /** A table of samples: one row per index value (time), one column per labelled channel. */
  datatype DataFrame = DataFrame(index: seq<real>, columns: seq<string>, values: Matrix)

  predicate WellFormed(df: DataFrame) {
    IsMatrix(df.values, |df.index|, |df.columns|)
  }

  /** Whether an index value is kept: every value when there is no window, else both ends inclusive. */
  predicate InWindow(x: real, xlim: Option<(real, real)>) {
    xlim.None? || (xlim.value.0 <= x && x <= xlim.value.1)
  }

  /** Entry (i, j) is looked at: its row index lies in the window and its column label is known. */
  predicate Considered(df: DataFrame, known: set<string>, xlim: Option<(real, real)>, i: int, j: int) {
    && 0 <= i < |df.index| && 0 <= j < |df.columns|
    && InWindow(df.index[i], xlim) && df.columns[j] in known
  }

  /** The values of row i from column j on that lie in columns with a known label. */
  function RowFrom(df: DataFrame, known: set<string>, i: nat, j: nat): seq<real>
    requires WellFormed(df) && i < |df.index| && j <= |df.columns|
    decreases |df.columns| - j
  {
    if j == |df.columns| then []
    else (if df.columns[j] in known then [df.values[i][j]] else []) + RowFrom(df, known, i, j + 1)
  }

  /** The known-column values of the rows from i on whose index lies in the window. */
  function SelectedFrom(df: DataFrame, known: set<string>, xlim: Option<(real, real)>, i: nat): seq<real>
    requires WellFormed(df) && i <= |df.index|
    decreases |df.index| - i
  {
    if i == |df.index| then []
    else (if InWindow(df.index[i], xlim) then RowFrom(df, known, i, 0) else []) + SelectedFrom(df, known, xlim, i + 1)
  }

  /** The values in known columns of the rows in the window, row by row. */
  function Selected(df: DataFrame, known: set<string>, xlim: Option<(real, real)>): seq<real>
    requires WellFormed(df)
  {
    SelectedFrom(df, known, xlim, 0)
  }

  lemma {:induction false} RowFromMembers(df: DataFrame, known: set<string>, i: nat, j: nat)
    requires WellFormed(df) && i < |df.index| && j <= |df.columns|
    ensures forall k :: j <= k < |df.columns| && df.columns[k] in known ==> df.values[i][k] in RowFrom(df, known, i, j)
    ensures forall v :: v in RowFrom(df, known, i, j) ==>
      exists k :: j <= k < |df.columns| && df.columns[k] in known && df.values[i][k] == v
    decreases |df.columns| - j
  {
    if j < |df.columns| {
      RowFromMembers(df, known, i, j + 1);
    }
  }

  lemma {:induction false} SelectedFromMembers(df: DataFrame, known: set<string>, xlim: Option<(real, real)>, i: nat)
    requires WellFormed(df) && i <= |df.index|
    ensures forall r, k :: i <= r && Considered(df, known, xlim, r, k) ==> df.values[r][k] in SelectedFrom(df, known, xlim, i)
    ensures forall v :: v in SelectedFrom(df, known, xlim, i) ==>
      exists r, k :: i <= r && Considered(df, known, xlim, r, k) && df.values[r][k] == v
    decreases |df.index| - i
  {
    if i < |df.index| {
      SelectedFromMembers(df, known, xlim, i + 1);
      RowFromMembers(df, known, i, 0);
      forall v | v in SelectedFrom(df, known, xlim, i)
        ensures exists r, k :: i <= r && Considered(df, known, xlim, r, k) && df.values[r][k] == v
      {
        if InWindow(df.index[i], xlim) && v in RowFrom(df, known, i, 0) {
          var k :| 0 <= k < |df.columns| && df.columns[k] in known && df.values[i][k] == v;
          assert Considered(df, known, xlim, i, k);
        } else {
          assert v in SelectedFrom(df, known, xlim, i + 1);
          var r, k :| i + 1 <= r && Considered(df, known, xlim, r, k) && df.values[r][k] == v;
          assert i <= r;
        }
      }
      forall r, k | i <= r && Considered(df, known, xlim, r, k)
        ensures df.values[r][k] in SelectedFrom(df, known, xlim, i)
      {
        if r == i {
          assert df.values[r][k] in RowFrom(df, known, i, 0);
        }
      }
    }
  }

  /** Every considered entry's value is among the selected values. */
  lemma SelectedHasConsidered(df: DataFrame, known: set<string>, xlim: Option<(real, real)>)
    requires WellFormed(df)
    ensures forall i, j :: Considered(df, known, xlim, i, j) ==> df.values[i][j] in Selected(df, known, xlim)
  {
    SelectedFromMembers(df, known, xlim, 0);
  }

  /** Every selected value is the value of a considered entry. */
  lemma SelectedOnlyConsidered(df: DataFrame, known: set<string>, xlim: Option<(real, real)>)
    requires WellFormed(df)
    ensures forall v :: v in Selected(df, known, xlim) ==>
      exists i, j :: Considered(df, known, xlim, i, j) && df.values[i][j] == v
  {
    SelectedFromMembers(df, known, xlim, 0);
  }

  function SeqMin(s: seq<real>): (m: real)
    requires s != []
    ensures m in s && forall v :: v in s ==> m <= v
  {
    if |s| == 1 then s[0]
    else
      var rest := SeqMin(s[1..]);
      assert s == [s[0]] + s[1..];
      if s[0] <= rest then s[0] else rest
  }

  function SeqMax(s: seq<real>): (m: real)
    requires s != []
    ensures m in s && forall v :: v in s ==> v <= m
  {
    if |s| == 1 then s[0]
    else
      var rest := SeqMax(s[1..]);
      assert s == [s[0]] + s[1..];
      if s[0] >= rest then s[0] else rest
  }

  /**
   * The y-limits for a selection of values: (0, max) when none is negative,
   * otherwise symmetric around zero at the largest magnitude. `None` stands
   * for the undefined (NaN) limits of an empty selection.
   */
  function Ylim(vs: seq<real>): (r: Option<(real, real)>)
    ensures r.None? <==> vs == []
    ensures r.Some? ==> r.value.0 <= 0.0 <= r.value.1
    ensures r.Some? ==> forall v :: v in vs ==> r.value.0 <= v <= r.value.1
    ensures r.Some? && (forall v :: v in vs ==> v >= 0.0) ==> r.value.0 == 0.0 && r.value.1 in vs
    ensures r.Some? && (exists v :: v in vs && v < 0.0) ==>
      r.value.0 == -r.value.1 && (r.value.1 in vs || -r.value.1 in vs)
  {
    if vs == [] then None
    else
      var lo, hi := SeqMin(vs), SeqMax(vs);
      if lo >= 0.0 then Some((0.0, hi))
      else
        var m := if -lo >= hi then -lo else hi;
        Some((-m, m))
  }

  /** The y-limits auto_ylim sets: those of the electrode values of the rows in the window. */
  function AutoYlim(df: DataFrame, xlim: Option<(real, real)> := None): Option<(real, real)>
    requires WellFormed(df)
  {
    Ylim(Selected(df, ELECTRODES, xlim))
  }

  /**
   * What the limits of the known-column values in the window mean for the
   * table: none exactly when no entry is considered; otherwise they enclose zero and every considered value, the
   * upper limit is a considered value when none is negative, and otherwise
   * the limits are symmetric and one of them is a considered value.
   */
  lemma SelectionYlimEncloses(df: DataFrame, known: set<string>, xlim: Option<(real, real)>)
    requires WellFormed(df)
    ensures Ylim(Selected(df, known, xlim)).None? <==> forall i, j :: !Considered(df, known, xlim, i, j)
    ensures Ylim(Selected(df, known, xlim)).Some? ==> forall i, j :: Considered(df, known, xlim, i, j) ==>
      Ylim(Selected(df, known, xlim)).value.0 <= df.values[i][j] <= Ylim(Selected(df, known, xlim)).value.1
    ensures Ylim(Selected(df, known, xlim)).Some? && (forall i, j :: Considered(df, known, xlim, i, j) ==> df.values[i][j] >= 0.0) ==>
      Ylim(Selected(df, known, xlim)).value.0 == 0.0 &&
      exists i, j :: Considered(df, known, xlim, i, j) && df.values[i][j] == Ylim(Selected(df, known, xlim)).value.1
    ensures Ylim(Selected(df, known, xlim)).Some? && (exists i, j :: Considered(df, known, xlim, i, j) && df.values[i][j] < 0.0) ==>
      var (lo, hi) := Ylim(Selected(df, known, xlim)).value;
      lo == -hi && exists i, j :: Considered(df, known, xlim, i, j) && (df.values[i][j] == hi || df.values[i][j] == lo)
  {
    SelectedHasConsidered(df, known, xlim);
    SelectedOnlyConsidered(df, known, xlim);
    var vs := Selected(df, known, xlim);
    if vs != [] {
      var (lo, hi) := Ylim(Selected(df, known, xlim)).value;
      if forall v :: v in vs ==> v >= 0.0 {
        assert hi in vs;
      } else {
        assert hi in vs || lo in vs;
      }
    } else {
      assert forall i, j :: !Considered(df, known, xlim, i, j);
    }
  }

  /**
   * What the limits auto_ylim chooses mean for the table: none exactly when
   * no electrode value lies in the window; otherwise they enclose zero and
   * every such value, the upper limit is one of them when none is negative,
   * and otherwise the limits are symmetric and one of them is such a value.
   */
  lemma AutoYlimEnclosesData(df: DataFrame, xlim: Option<(real, real)>)
    requires WellFormed(df)
    ensures AutoYlim(df, xlim).None? <==> forall i, j :: !Considered(df, ELECTRODES, xlim, i, j)
    ensures AutoYlim(df, xlim).Some? ==> forall i, j :: Considered(df, ELECTRODES, xlim, i, j) ==>
      AutoYlim(df, xlim).value.0 <= df.values[i][j] <= AutoYlim(df, xlim).value.1
    ensures AutoYlim(df, xlim).Some? && (forall i, j :: Considered(df, ELECTRODES, xlim, i, j) ==> df.values[i][j] >= 0.0) ==>
      AutoYlim(df, xlim).value.0 == 0.0 &&
      exists i, j :: Considered(df, ELECTRODES, xlim, i, j) && df.values[i][j] == AutoYlim(df, xlim).value.1
    ensures AutoYlim(df, xlim).Some? && (exists i, j :: Considered(df, ELECTRODES, xlim, i, j) && df.values[i][j] < 0.0) ==>
      var (lo, hi) := AutoYlim(df, xlim).value;
      lo == -hi && exists i, j :: Considered(df, ELECTRODES, xlim, i, j) && (df.values[i][j] == hi || df.values[i][j] == lo)
  {
    SelectionYlimEncloses(df, ELECTRODES, xlim);
  }

  /** Rows a and b agree in every column with a known label. */
  predicate AgreeOn(a: seq<real>, b: seq<real>, columns: seq<string>, known: set<string>)
    requires |a| == |columns| && |b| == |columns|
  {
    forall j :: 0 <= j < |columns| && columns[j] in known ==> a[j] == b[j]
  }

  lemma {:induction false} RowFromIgnoresOthers(a: DataFrame, b: DataFrame, known: set<string>, i: nat, j: nat)
    requires WellFormed(a) && WellFormed(b) && a.index == b.index && a.columns == b.columns
    requires i < |a.index| && j <= |a.columns|
    requires AgreeOn(a.values[i], b.values[i], a.columns, known)
    ensures RowFrom(a, known, i, j) == RowFrom(b, known, i, j)
    decreases |a.columns| - j
  {
    if j < |a.columns| {
      RowFromIgnoresOthers(a, b, known, i, j + 1);
    }
  }

  lemma {:induction false} SelectedFromIgnoresOthers(a: DataFrame, b: DataFrame, known: set<string>, xlim: Option<(real, real)>, i: nat)
    requires WellFormed(a) && WellFormed(b) && a.index == b.index && a.columns == b.columns
    requires i <= |a.index|
    requires forall r :: 0 <= r < |a.index| && InWindow(a.index[r], xlim) ==>
      AgreeOn(a.values[r], b.values[r], a.columns, known)
    ensures SelectedFrom(a, known, xlim, i) == SelectedFrom(b, known, xlim, i)
    decreases |a.index| - i
  {
    if i < |a.index| {
      if InWindow(a.index[i], xlim) {
        RowFromIgnoresOthers(a, b, known, i, 0);
      }
      SelectedFromIgnoresOthers(a, b, known, xlim, i + 1);
    }
  }

  /**
   * Only electrode columns and rows inside the window matter: two tables
   * that agree there get the same y-limits.
   */
  lemma AutoYlimIgnoresOthers(a: DataFrame, b: DataFrame, xlim: Option<(real, real)>)
    requires WellFormed(a) && WellFormed(b)
    requires a.index == b.index && a.columns == b.columns
    requires forall i :: 0 <= i < |a.index| && InWindow(a.index[i], xlim) ==>
      AgreeOn(a.values[i], b.values[i], a.columns, ELECTRODES)
    ensures AutoYlim(a, xlim) == AutoYlim(b, xlim)
  {
    SelectedFromIgnoresOthers(a, b, ELECTRODES, xlim, 0);
  }
}
