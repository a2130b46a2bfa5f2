/**
 * The SBS2 (Smartphone Brain Scanner) data interface: the electrode catalogue
 * of the two headsets, the channel-labelled forward model, the spatial
 * coherence matrices, the surface file choice and the two inverse-operator
 * estimators (minimum-norm and LORETA).
 *
 * Reading the tab-separated asset files is an external collaborator: the
 * functions take a `Provider` that maps a dataset-relative path to the table it
 * holds, or to nothing when the file cannot be read. The pseudo-inverse is a
 * parameter too, known only by its shape (`PinvShaped`).
 */
module Sbs2 {
  import opened Results
  import opened Matrices

  const EMOTIV: seq<string> :=
    ["P7", "FC6", "T7", "P8", "O2", "O1", "FC5", "F3", "F4", "T8", "F7", "F8", "AF4", "AF3"]

  const EMOCAP: seq<string> :=
    ["TP10", "Fz", "P3", "Cz", "C4", "TP9", "Pz", "P4", "F3", "C3", "O1", "F4", "Fpz", "O2"]

  /** The unit factor applied to the raw forward model, exactly once. */
  const FORWARD_SCALE: real := 1000000.0

  const FORWARD_FILE: string := "forwardmodel_spheres_reduced.txt"
  const COHERENCE_FILE: string := "spatialCoherenceSmooth0-2_reduced.txt"
  const INVERSE_COHERENCE_FILE: string := "spatialCoherenceSmooth0-2_reduced_inverse.txt"

  const SMALL_SURFACE_FILE: string := "vertface_brain_reduced.obj"
  const LARGE_SURFACE_FILE: string := "mesh_ctx_5124_normals.obj"

  const WRONG_HARDWARE: string := "Wrong argument to model"
  const WRONG_MODEL_SIZE: string := "model should be small or large"
  const WRONG_METHOD: string := "Wrong method"

  /** What the operations raise. */
  datatype Error =
    | ValueError(message: string)             // raised by this module itself
    | LengthMismatch(axis: nat, labels: nat)  // an index of the wrong length assigned to a table
    | ShapesNotAligned                        // a matrix product whose inner dimensions differ
    | ZeroDivision                            // float division by a zero hyperparameter
    | FileUnreadable(path: string)            // the raw file could not be read

  /** A table as read from a tab-separated file: at least one row and one column, all rows equally long. */
  predicate IsTable(m: Matrix) {
    |m| >= 1 && |m[0]| >= 1 && IsMatrix(m, |m|, |m[0]|)
  }

  type Table = m: Matrix | IsTable(m) witness [[0.0]]

  /** Reads the table stored at a dataset-relative path, if there is one. */
  type Provider = string -> Option<Table>

  /** A row or column label: a position (the default) or an electrode name. */
  datatype Label = Pos(position: nat) | Name(name: string)

  /** A labelled matrix: row labels, column labels and the values. */
  datatype Frame = Frame(index: seq<Label>, columns: seq<Label>, values: Matrix)

  predicate WellFormed(f: Frame) {
    IsMatrix(f.values, |f.index|, |f.columns|)
  }

  /** The default labels 0, 1, ..., n - 1. */
  function Positions(n: nat): (ls: seq<Label>)
    ensures |ls| == n && forall i :: 0 <= i < n ==> ls[i] == Pos(i)
  {
    seq(n, i requires 0 <= i < n => Pos(i))
  }

  /** Electrode names as labels, in order. */
  function Names(ns: seq<string>): (ls: seq<Label>)
    ensures |ls| == |ns| && forall i :: 0 <= i < |ns| ==> ls[i] == Name(ns[i])
  {
    seq(|ns|, i requires 0 <= i < |ns| => Name(ns[i]))
  }

  predicate Distinct(s: seq<string>) {
    forall i, j :: 0 <= i < j < |s| ==> s[i] != s[j]
  }

  /** The electrode names of a headset, in channel order; any other hardware is refused. */
  function ElectrodeNames(hardware: string := "emotiv"): (r: Result<seq<string>, Error>)
    ensures r.Ok? <==> hardware == "emotiv" || hardware == "emocap"
    ensures r.Ok? ==> r.value == (if hardware == "emotiv" then EMOTIV else EMOCAP)
    ensures r.Ok? ==> |r.value| == 14 && Distinct(r.value)
    ensures r.Err? ==> r.error == ValueError(WRONG_HARDWARE)
  {
    if hardware == "emotiv" then Ok(EMOTIV)
    else if hardware == "emocap" then Ok(EMOCAP)
    else Err(ValueError(WRONG_HARDWARE))
  }

  /** Where an asset file of a headset lies, relative to the SBS2 data directory. */
  function AssetPath(hardware: string, file: string): string {
    "sbs2_data/hardware/" + hardware + "/" + file
  }

  function Read(read: Provider, path: string): (r: Result<Table, Error>)
    ensures read(path).Some? ==> r == Ok(read(path).value)
    ensures read(path).None? ==> r == Err(FileUnreadable(path))
  {
    match read(path)
    case Some(t) => Ok(t)
    case None => Err(FileUnreadable(path))
  }

  /** A table with the default positional labels on both axes. */
  function FromTable(t: Table): (f: Frame)
    ensures WellFormed(f) && f.values == t
    ensures f.index == Positions(|t|) && f.columns == Positions(|t[0]|)
  {
    Frame(Positions(|t|), Positions(|t[0]|), t)
  }

  /** Replaces the row labels; the number of labels must equal the number of rows. */
  function SetIndex(f: Frame, names: seq<string>): (r: Result<Frame, Error>)
    ensures |names| == |f.index| ==> r == Ok(f.(index := Names(names)))
    ensures |names| != |f.index| ==> r == Err(LengthMismatch(|f.index|, |names|))
  {
    if |names| != |f.index| then Err(LengthMismatch(|f.index|, |names|))
    else Ok(f.(index := Names(names)))
  }

  /** Swaps the axes: the labels change places and the values are transposed. */
  function TransposeFrame(f: Frame): (t: Frame)
    requires WellFormed(f)
    ensures WellFormed(t) && t.index == f.columns && t.columns == f.index
    ensures forall j, i :: 0 <= j < |f.columns| && 0 <= i < |f.index| ==> t.values[j][i] == f.values[i][j]
  {
    Frame(f.columns, f.index, Transpose(f.values, |f.columns|))
  }

  /** Multiplies every value by `k`; the labels are kept. */
  function ScaleFrame(k: real, f: Frame): (s: Frame)
    requires WellFormed(f)
    ensures WellFormed(s) && s.index == f.index && s.columns == f.columns
    ensures forall i, j :: 0 <= i < |f.index| && 0 <= j < |f.columns| ==> s.values[i][j] == k * f.values[i][j]
  {
    f.(values := Scale(k, f.values))
  }

  /**
   * The forward (lead-field) model, sources x channels: the raw channels x
   * sources table with its rows labelled by electrode, scaled by 10^6 and
   * transposed. The file is read before the hardware name is checked.
   */
  function ForwardModel(read: Provider, hardware: string := "emotiv"): (r: Result<Frame, Error>)
    ensures read(AssetPath(hardware, FORWARD_FILE)).None? ==>
      r == Err(FileUnreadable(AssetPath(hardware, FORWARD_FILE)))
    ensures read(AssetPath(hardware, FORWARD_FILE)).Some? ==>
      var raw := read(AssetPath(hardware, FORWARD_FILE)).value;
      && (ElectrodeNames(hardware).Err? ==> r == Err(ElectrodeNames(hardware).error))
      && (ElectrodeNames(hardware).Ok? && |raw| != 14 ==> r == Err(LengthMismatch(|raw|, 14)))
      && (ElectrodeNames(hardware).Ok? && |raw| == 14 ==> r.Ok?)
    ensures r.Ok? ==>
      var raw := read(AssetPath(hardware, FORWARD_FILE)).value;
      && WellFormed(r.value)
      && r.value.columns == Names(ElectrodeNames(hardware).value)
      && r.value.index == Positions(|raw[0]|)
      && |r.value.values| == |raw[0]| && |raw| == 14
      && forall v, c :: 0 <= v < |raw[0]| && 0 <= c < |raw| ==>
           r.value.values[v][c] == FORWARD_SCALE * raw[c][v]
  {
    var raw :- Read(read, AssetPath(hardware, FORWARD_FILE));
    var names :- ElectrodeNames(hardware);
    var labelled :- SetIndex(FromTable(raw), names);
    Ok(TransposeFrame(ScaleFrame(FORWARD_SCALE, labelled)))
  }

  /** The spatial coherence matrix, exactly as stored: neither scaled nor transposed. */
  function SpatialCoherence(read: Provider, hardware: string := "emotiv"): (r: Result<Frame, Error>)
    ensures read(AssetPath(hardware, COHERENCE_FILE)).None? ==>
      r == Err(FileUnreadable(AssetPath(hardware, COHERENCE_FILE)))
    ensures read(AssetPath(hardware, COHERENCE_FILE)).Some? ==>
      r == Ok(FromTable(read(AssetPath(hardware, COHERENCE_FILE)).value))
  {
    var t :- Read(read, AssetPath(hardware, COHERENCE_FILE));
    Ok(FromTable(t))
  }

  /** The inverse spatial coherence matrix, exactly as stored: neither scaled nor transposed. */
  function InverseSpatialCoherence(read: Provider, hardware: string := "emotiv"): (r: Result<Frame, Error>)
    ensures read(AssetPath(hardware, INVERSE_COHERENCE_FILE)).None? ==>
      r == Err(FileUnreadable(AssetPath(hardware, INVERSE_COHERENCE_FILE)))
    ensures read(AssetPath(hardware, INVERSE_COHERENCE_FILE)).Some? ==>
      r == Ok(FromTable(read(AssetPath(hardware, INVERSE_COHERENCE_FILE)).value))
  {
    var t :- Read(read, AssetPath(hardware, INVERSE_COHERENCE_FILE));
    Ok(FromTable(t))
  }

  /** The surface mesh file for a model size; any other size is refused. */
  function SurfaceFile(model: string := "small"): (r: Result<string, Error>)
    ensures r.Ok? <==> model == "small" || model == "large"
    ensures model == "small" ==> r == Ok(SMALL_SURFACE_FILE)
    ensures model == "large" ==> r == Ok(LARGE_SURFACE_FILE)
    ensures r.Err? ==> r.error == ValueError(WRONG_MODEL_SIZE)
  {
    if model == "small" then Ok(SMALL_SURFACE_FILE)
    else if model == "large" then Ok(LARGE_SURFACE_FILE)
    else Err(ValueError(WRONG_MODEL_SIZE))
  }

  /**
   * Minimum-norm estimator pinv(F'F + (beta/alpha) I) F' for a sources x
   * channels forward model F; the result is channels x sources.
   */
  function MinimumNorm(pinv: Matrix -> Matrix, f: Matrix, channels: nat, alpha: real, beta: real): (inv: Matrix)
    requires PinvShaped(pinv)
    requires 0 < channels && IsMatrix(f, |f|, channels)
    requires alpha != 0.0
    ensures IsMatrix(inv, channels, |f|)
  {
    var ft := Transpose(f, channels);
    var system := Add(Mul(ft, f, channels), Scale(beta / alpha, Identity(channels)));
    assert IsMatrix(system, channels, channels);
    Mul(pinv(system), ft, |f|)
  }

  /**
   * LORETA estimator: with FC = L F and Sigma_inv = alpha F'FC + beta I, the
   * operator is alpha pinv(Sigma_inv) FC'. alpha enters twice, inside and
   * outside the pseudo-inverse. The result is channels x sources.
   */
  function Loreta(pinv: Matrix -> Matrix, f: Matrix, channels: nat, l: Matrix, alpha: real, beta: real): (inv: Matrix)
    requires PinvShaped(pinv)
    requires 0 < channels && IsMatrix(f, |f|, channels)
    requires IsMatrix(l, |f|, |f|)
    ensures IsMatrix(inv, channels, |f|)
  {
    var fc := Mul(l, f, channels);
    var sigmaInv := Add(Scale(alpha, Mul(Transpose(f, channels), fc, channels)), Scale(beta, Identity(channels)));
    assert IsMatrix(sigmaInv, channels, channels);
    Scale(alpha, Mul(pinv(sigmaInv), Transpose(fc, channels), |f|))
  }

  /**
   * The inverse operator, channels x sources, with its rows labelled by
   * electrode. The forward model is obtained first; only then is the method
   * checked, and LORETA alone reads the spatial coherence.
   */
  function InverseModel(read: Provider, pinv: Matrix -> Matrix, hardware: string := "emotiv",
                        estimator: string := "LORETA", alpha: real := 0.01, beta: real := 0.3781): (r: Result<Frame, Error>)
    requires PinvShaped(pinv)
    ensures ForwardModel(read, hardware).Err? ==> r == Err(ForwardModel(read, hardware).error)
    ensures r.Ok? ==> estimator == "minimumnorm" || estimator == "LORETA"
    ensures ForwardModel(read, hardware).Ok? && estimator != "minimumnorm" && estimator != "LORETA" ==>
      r == Err(ValueError(WRONG_METHOD))
    ensures ForwardModel(read, hardware).Ok? && estimator == "minimumnorm" ==>
      var fwd := ForwardModel(read, hardware).value;
      && (r.Ok? <==> alpha != 0.0)
      && (r.Err? ==> r.error == ZeroDivision)
      && (r.Ok? ==> r.value.values == MinimumNorm(pinv, fwd.values, |fwd.columns|, alpha, beta))
    ensures ForwardModel(read, hardware).Ok? && estimator == "LORETA" ==>
      var fwd := ForwardModel(read, hardware).value;
      var coh := SpatialCoherence(read, hardware);
      && (coh.Err? ==> r == Err(coh.error))
      && (coh.Ok? ==> (r.Ok? <==> IsMatrix(coh.value.values, |fwd.values|, |fwd.values|)))
      && (coh.Ok? && r.Err? ==> r.error == ShapesNotAligned)
      && (r.Ok? ==> r.value.values == Loreta(pinv, fwd.values, |fwd.columns|, coh.value.values, alpha, beta))
    ensures r.Ok? ==>
      var fwd := ForwardModel(read, hardware).value;
      && WellFormed(r.value)
      && r.value.index == Names(ElectrodeNames(hardware).value)
      && r.value.columns == Positions(|fwd.index|)
  {
    var forward :- ForwardModel(read, hardware);
    var f := forward.values;
    var channels := |forward.columns|;
    var inverse :-
      if estimator == "minimumnorm" then
        if alpha == 0.0 then Err(ZeroDivision)
        else Ok(MinimumNorm(pinv, f, channels, alpha, beta))
      else if estimator == "LORETA" then
        var coherence :- SpatialCoherence(read, hardware);
        if IsMatrix(coherence.values, |f|, |f|) then Ok(Loreta(pinv, f, channels, coherence.values, alpha, beta))
        else Err(ShapesNotAligned)
      else Err(ValueError(WRONG_METHOD));
    // The forward model was obtained, so the hardware name is known to the catalogue.
    var names := ElectrodeNames(hardware).value;
    SetIndex(Frame(Positions(channels), Positions(|f|), inverse), names)
  }

  /**
   * With the identity as spatial coherence, LORETA is the minimum-norm
   * estimator, for any pseudo-inverse with pinv(k A) = pinv(A) / k. The outer
   * factor alpha is what cancels the alpha inside Sigma_inv.
   */
  lemma LoretaWithIdentityCoherence(pinv: Matrix -> Matrix, f: Matrix, channels: nat, alpha: real, beta: real)
    requires PinvShaped(pinv) && PinvHomogeneous(pinv)
    requires 0 < channels && IsMatrix(f, |f|, channels)
    requires alpha != 0.0
    ensures Loreta(pinv, f, channels, Identity(|f|), alpha, beta) == MinimumNorm(pinv, f, channels, alpha, beta)
  {
    var ft := Transpose(f, channels);
    var ftf := Mul(ft, f, channels);
    var eye := Identity(channels);
    var ratio, reciprocal := beta / alpha, 1.0 / alpha;
    var system := Add(ftf, Scale(ratio, eye));
    assert IsMatrix(system, channels, channels);
    // FC = I F = F
    MulIdentityLeft(f, channels);
    var fc := Mul(Identity(|f|), f, channels);
    assert Mul(Transpose(f, channels), fc, channels) == ftf;
    // Sigma_inv = alpha (F'F + (beta / alpha) I)
    var sigmaInv := Add(Scale(alpha, ftf), Scale(beta, eye));
    ScaleAdd(alpha, ftf, Scale(ratio, eye));
    ScaleScale(alpha, ratio, eye);
    assert alpha * ratio == beta;
    assert sigmaInv == Scale(alpha, system);
    // pinv(Sigma_inv) = pinv(system) / alpha
    var p := pinv(system);
    assert pinv(sigmaInv) == Scale(reciprocal, p);
    assert IsMatrix(p, channels, channels);
    // alpha ((pinv(system) / alpha) F') = pinv(system) F'
    var estimate := Mul(p, ft, |f|);
    MulScaleLeft(reciprocal, p, ft, |f|);
    ScaleScale(alpha, reciprocal, estimate);
    assert alpha * reciprocal == 1.0;
    ScaleOne(estimate);
  }

  /** The documented shape of the default forward model: any number of sources (1028 in the shipped data) x 14 channels, first column P7. */
  lemma ForwardModelShape(read: Provider, sources: nat)
    requires read(AssetPath("emotiv", FORWARD_FILE)).Some?
    requires var raw := read(AssetPath("emotiv", FORWARD_FILE)).value; |raw| == 14 && |raw[0]| == sources
    ensures ForwardModel(read).Ok?
    ensures var fwd := ForwardModel(read).value;
      |fwd.index| == sources && |fwd.columns| == 14 && fwd.columns[0] == Name("P7")
  {
  }

  /**
   * For a known headset whose files have the expected shapes, both estimators
   * succeed and give a channels x sources operator labelled by electrode.
   */
  lemma InverseModelShape(read: Provider, pinv: Matrix -> Matrix, hardware: string, estimator: string,
                          alpha: real, beta: real)
    requires PinvShaped(pinv)
    requires hardware == "emotiv" || hardware == "emocap"
    requires read(AssetPath(hardware, FORWARD_FILE)).Some?
    requires |read(AssetPath(hardware, FORWARD_FILE)).value| == 14
    requires estimator == "minimumnorm" ==> alpha != 0.0
    requires estimator == "LORETA" ==>
      var sources := |read(AssetPath(hardware, FORWARD_FILE)).value[0]|;
      read(AssetPath(hardware, COHERENCE_FILE)).Some? &&
      IsMatrix(read(AssetPath(hardware, COHERENCE_FILE)).value, sources, sources)
    requires estimator == "minimumnorm" || estimator == "LORETA"
    ensures var r := InverseModel(read, pinv, hardware, estimator, alpha, beta);
      var sources := |read(AssetPath(hardware, FORWARD_FILE)).value[0]|;
      && r.Ok?
      && IsMatrix(r.value.values, 14, sources)
      && r.value.index == Names(ElectrodeNames(hardware).value)
  {
  }

  /**
   * The documented call with every default (Emotiv headset, LORETA, alpha 0.01,
   * beta 0.3781): with a 14-row forward file and a matching coherence file it
   * succeeds with a 14 x sources operator.
   */
  lemma DefaultInverseModelShape(read: Provider, pinv: Matrix -> Matrix)
    requires PinvShaped(pinv)
    requires read(AssetPath("emotiv", FORWARD_FILE)).Some?
    requires |read(AssetPath("emotiv", FORWARD_FILE)).value| == 14
    requires var sources := |read(AssetPath("emotiv", FORWARD_FILE)).value[0]|;
      read(AssetPath("emotiv", COHERENCE_FILE)).Some? &&
      IsMatrix(read(AssetPath("emotiv", COHERENCE_FILE)).value, sources, sources)
    ensures var r := InverseModel(read, pinv);
      var sources := |read(AssetPath("emotiv", FORWARD_FILE)).value[0]|;
      && r.Ok?
      && IsMatrix(r.value.values, 14, sources)
      && r.value.index == Names(EMOTIV)
  {
    InverseModelShape(read, pinv, "emotiv", "LORETA", 0.01, 0.3781);
  }
}
