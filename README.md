# brede: SBS2 head-model data and EEG plotting logic in Dafny

This project models two parts of the `brede` neuroinformatics package.

The first part is the data interface to the SBS2 (Smartphone Brain Scanner) data set (`brede/data/sbs2.py`):
- the channel catalogue of the two supported headsets, Emotiv and EmoCap;
- the forward (lead-field) model: every raw value scaled by 10^6 exactly once, the rows labelled by electrode, and the whole transposed to sources × channels;
- the two spatial coherence matrices, passed through unchanged;
- the choice of surface mesh file by model size;
- the two inverse-operator estimators: minimum-norm `pinv(FᵀF + (β/α)I)·Fᵀ` and LORETA `α·pinv(α·Fᵀ(LF) + βI)·(LF)ᵀ`.

The second part is the non-graphical logic of the EEG plotting module (`brede/eeg/plotting.py`):
- the set of electrode names with a known position on the head;
- the normalisation of electrode names (`upper`, then `FPZ` → `Fpz`, then `Z` → `z`);
- the position lookup of the topographic plot;
- the automatic choice of y-limits in the multi-plot.

The files are:
- `results.dfy`: `Option` and `Result`.
- `matrices.dfy`: matrices as `seq<seq<real>>` with exact real arithmetic (transpose, scaling, sum, product, identity), and the algebra the estimator lemma needs.
- `sbs2.dfy`: the SBS2 data interface.
- `plotting.dfy`: the plotting logic.
- `channels.dfy`: the link between the two parts. Every channel of both headsets is a known electrode name, so a topographic plot of headset data finds a position for every label.

Reading an asset file is a parameter of type `Provider`. It maps the path the source builds, `sbs2_data/hardware/<hardware>/<file>`, to the table the file holds, or to nothing when the file cannot be read. The pseudo-inverse is a parameter too. Its only contract is its shape: an r × c matrix with at least one row (r > 0) goes to a c × r matrix (`Matrices.PinvShaped`); nothing is assumed about a matrix with no rows. One lemma requires in addition that it is homogeneous, `pinv(kA) = pinv(A)/k` (`Matrices.PinvHomogeneous`). The Moore–Penrose pseudo-inverse has that property.

The parameters keep the source's defaults: hardware "emotiv", surface model "small", method "LORETA" with α = 0.01 and β = 0.3781, and no x-window for the y-limits.

The source raises exceptions; the model returns `Result` values. The errors are:
- `ValueError` with the source's own message;
- `LengthMismatch`, for an index of the wrong length assigned to a pandas table;
- `ShapesNotAligned`, for a numpy product with mismatched dimensions;
- `ZeroDivision`, for Python float division by zero;
- `FileUnreadable`, when the provider has no table.

Several choices follow the code where its documentation says otherwise or leaves the behaviour open:
- **Inverse-model shape.** The docstring of `inverse_model` calls the result "1028 x 14", but the doctest expects `(14, 1028)` and the code labels the rows by electrode. The model follows the code: channels × sources, rows labelled by electrode.
- **Error order in `forward_model`.** The file is read before `electrode_names` checks the hardware name. So an unknown headset whose file cannot be read fails on the file, and one whose file is read fails with `ValueError`.
- **Error order in `inverse_model`.** The forward model is obtained before the method name is checked, and only LORETA reads the spatial coherence.
- **`alpha == 0` with minimum-norm.** `inv_beta / inv_alpha` is Python float division, so this raises `ZeroDivisionError`; the model gives `ZeroDivision`. LORETA does not divide by α.
- **Empty selection in `auto_ylim`.** When no values are selected, pandas yields NaN limits. The model returns `None` for that case.

## Model

| member | source | states |
|---|---|---|
| Sbs2.ElectrodeNames | brede/data/sbs2.py:131-139 | "emotiv" and "emocap" give exactly their 14-name channel lists; both lists are duplicate-free; any other hardware name fails with ValueError("Wrong argument to model") |
| Channels.EmotivPlaced | brede/data/sbs2.py:50-51 | a fact the model establishes across the two modules (neither source file states it): every name of the Emotiv channel list is a key of the plotting module's electrode table |
| Channels.EmocapPlaced | brede/data/sbs2.py:53-54 | a fact the model establishes across the two modules (neither source file states it): every name of the EmoCap channel list is a key of the plotting module's electrode table |
| Channels.HeadsetChannelsArePlaced | brede/data/sbs2.py:131-139 | a fact the model establishes across the two modules (neither source file states it): every channel name `electrode_names` returns for a supported headset is a key of the plotting module's electrode table, so it has a position in the topographic plot |
| Sbs2.FromTable | brede/data/sbs2.py:176 | a table read from file gets the default positional labels 0..n-1 on both axes, and its values are kept |
| Sbs2.SetIndex | brede/data/sbs2.py:177 | assigning row labels succeeds exactly when their number equals the number of rows; it then replaces the row labels only, and otherwise it is a length-mismatch error |
| Sbs2.ScaleFrame | brede/data/sbs2.py:179 | every value is multiplied by the factor; the labels are kept |
| Sbs2.TransposeFrame | brede/data/sbs2.py:180 | the labels swap axes and value (j, i) of the result is value (i, j) of the input |
| Sbs2.ForwardModel | brede/data/sbs2.py:141-180 | an unreadable file fails first; a read file with an unknown hardware name fails with the catalogue's error; a raw table without exactly 14 rows fails with a length mismatch. Otherwise the result is sources × channels, with columns labelled by the headset's channel names in order, positional row labels, and entry (v, c) equal to 1000000 · raw(c, v) |
| Sbs2.AssetPath | brede/data/sbs2.py:173-174 | no contract of its own: the dataset-relative path of a headset's asset file, `sbs2_data/hardware/<hardware>/<file>` (also built at lines 215-216 and 249-250); the contracts of `ForwardModel`, `SpatialCoherence` and `InverseSpatialCoherence` state which path each reads |
| Sbs2.Read | brede/data/sbs2.py:175 | reading a path yields the provider's table when there is one, and otherwise fails naming that path |
| Sbs2.ForwardModelShape | brede/data/sbs2.py:162-169 | the default call (Emotiv headset) with a 14-row file succeeds with one row per source, 14 columns and first column P7 |
| Sbs2.SpatialCoherence | brede/data/sbs2.py:182-218 | the coherence matrix is returned as stored, unscaled and untransposed, with positional labels; an unreadable file fails |
| Sbs2.InverseSpatialCoherence | brede/data/sbs2.py:220-252 | the inverse coherence matrix is returned as stored, unscaled and untransposed, with positional labels; an unreadable file fails |
| Sbs2.SurfaceFile | brede/data/sbs2.py:274-279 | "small" selects vertface_brain_reduced.obj and "large" selects mesh_ctx_5124_normals.obj; any other size fails with ValueError("model should be small or large") |
| Matrices.Transpose | brede/data/sbs2.py:180 | the transpose of an r × c matrix is c × r, with entry (j, i) equal to entry (i, j) of the input |
| Matrices.Mul | brede/data/sbs2.py:347-348 | the product of aligned matrices has the outer dimensions, and entry (i, j) is the dot product of row i with column j |
| Matrices.Scale | brede/data/sbs2.py:347-358 | a scalar times a matrix (`inv_beta / inv_alpha * identity`, `inv_alpha * …`, `inv_beta * identity`, the outer `inv_alpha * pinv(…)`, and `matrix *= 1000000` at line 179): the result has as many rows as the input, and row i is row i of the input with every entry multiplied by the scalar (same length, entry j equal to k · m[i][j], by `ScaleRow`) |
| Matrices.Add | brede/data/sbs2.py:347-357 | the sum of two matrices of the same shape (the `+` inside both estimators) has that shape, and entry (i, j) is the sum of the two entries (i, j) |
| Matrices.Identity | brede/data/sbs2.py:343 | the n × n identity: ones on the diagonal, zeros elsewhere |
| Sbs2.MinimumNorm | brede/data/sbs2.py:343-348 | for a sources × channels forward model F, the minimum-norm operator pinv(FᵀF + (β/α)I)·Fᵀ is channels × sources (shape only) |
| Sbs2.Loreta | brede/data/sbs2.py:350-358 | with FC = L·F and Σ⁻¹ = α·Fᵀ·FC + β·I, the LORETA operator α·pinv(Σ⁻¹)·FCᵀ is channels × sources (shape only) |
| Sbs2.InverseModel | brede/data/sbs2.py:285-364 | forward-model errors propagate. After the forward model, any method other than minimumnorm or LORETA fails with ValueError("Wrong method"). minimumnorm succeeds exactly when α ≠ 0 (otherwise a zero division) and yields the minimum-norm operator. LORETA propagates coherence-file errors, succeeds exactly when the coherence matrix is sources × sources (otherwise the shapes do not align), and yields the LORETA operator. On success the rows are labelled by the headset's channel names in order, and the columns are positional, one per source |
| Sbs2.DefaultInverseModelShape | brede/data/sbs2.py:314-318 | the call with every default (Emotiv, LORETA, α = 0.01, β = 0.3781), given a 14-row forward file and a matching coherence file, succeeds with a 14 × sources operator whose rows are labelled by the Emotiv channels |
| Sbs2.InverseModelShape | brede/data/sbs2.py:312-318 | for a known headset whose files have the expected shapes, both methods succeed with a 14 × sources operator labelled by electrode |
| Sbs2.LoretaWithIdentityCoherence | brede/data/sbs2.py:343-358 | with the identity as spatial coherence and a homogeneous pseudo-inverse, the LORETA operator equals the minimum-norm operator; the outer α cancels the α inside Σ⁻¹ |
| Plotting.ELECTRODES | brede/eeg/plotting.py:44-112 | a constant, no contract: the 67 keys of the electrode table, written as the union of seven regional groups; `Plotting.ElectrodesAreNormalized` states what is proved about them |
| Plotting.Upper | brede/eeg/plotting.py:165 | upper-casing keeps the length and maps each character through the ASCII upper-case mapping |
| Plotting.ReplaceAll | brede/eeg/plotting.py:165 | no contract of its own: Python's `str.replace`, every non-overlapping occurrence scanned from the left; `ReplaceAllLength`, `ReplaceAllUpper` and `ReplaceAllRemoves` state its properties |
| Plotting.Normalize | brede/eeg/plotting.py:165 | no contract of its own: upper case, then "FPZ" → "Fpz", then "Z" → "z"; `NormalizeExamples`, `NormalizeHasNoUpperZ`, `NormalizeChangesOnlyCase`, `NormalizeIdempotent` and `ElectrodesAreNormalized` state its properties |
| Plotting.NormalizeExamples | brede/eeg/plotting.py:156-162 | "fpz" normalises to "Fpz" and "AFZ" to "AFz" |
| Plotting.ReplaceAllLength | brede/eeg/plotting.py:165 | replacing a pattern by a text of the same length keeps the length |
| Plotting.ReplaceAllUpper | brede/eeg/plotting.py:165 | replacing a pattern by a text that differs from it only in letter case keeps the upper-case form of the whole text |
| Plotting.ReplaceAllRemoves | brede/eeg/plotting.py:165 | replacing every occurrence of one character by a text without that character leaves no occurrence of it |
| Plotting.NormalizeHasNoUpperZ | brede/eeg/plotting.py:165 | a normalised name contains no upper-case Z |
| Plotting.NormalizeChangesOnlyCase | brede/eeg/plotting.py:165 | normalisation keeps the length of the name and its upper-case form |
| Plotting.NormalizeIdempotent | brede/eeg/plotting.py:165 | normalising a normalised name changes nothing |
| Plotting.PlainFixed | brede/eeg/plotting.py:165 | a name with no lower-case letter and no Z is its own normal form |
| Plotting.MidlineFixed | brede/eeg/plotting.py:165 | a midline name (such a name followed by a final "z", not ending in "FPz") is its own normal form |
| Plotting.ShapedFixed | brede/eeg/plotting.py:165 | plain names, midline names and "Fpz" are their own normal forms |
| Plotting.ElectrodesAreNormalized | brede/eeg/plotting.py:44-112 | every key of the electrode table is its own normal form |
| Plotting.LookUpPositions | brede/eeg/plotting.py:204-207 | for any table of names, the lookup loop succeeds exactly when every data label normalises to a name in the table; it then yields, in label order, the normalised name of each label |
| Plotting.ElectrodePositions | brede/eeg/plotting.py:204-207 | with the electrode table, the lookup succeeds exactly when every data label normalises to a known electrode; it then yields, in label order, the normalised name of each label |
| Plotting.KnownLabelsArePlaced | brede/eeg/plotting.py:205-207 | data labels that are already electrode names pass through normalisation unchanged, so the lookup finds each of them |
| Plotting.InWindow | brede/eeg/plotting.py:398-402 | no contract of its own: the row mask of `auto_ylim`; with no window every row is kept, otherwise a row is kept exactly when its index lies between the two ends, both inclusive; `Considered`, `SelectedFrom` and the lemmas `SelectedHasConsidered` and `SelectedOnlyConsidered` rest on it |
| Plotting.RowFrom | brede/eeg/plotting.py:396-397 | no contract of its own: the values of one row in columns whose label is known (the column comprehension); `RowFromMembers` and `RowFromIgnoresOthers` state its properties |
| Plotting.SelectedFrom | brede/eeg/plotting.py:398-403 | no contract of its own: the known-column values of the rows in the window (the row mask, both ends inclusive); `SelectedFromMembers` and `SelectedFromIgnoresOthers` state its properties |
| Plotting.Selected | brede/eeg/plotting.py:396-403 | no contract of its own: the selection over the whole table; `SelectedHasConsidered` and `SelectedOnlyConsidered` state that it holds exactly the considered entries |
| Plotting.RowFromMembers | brede/eeg/plotting.py:396-399 | the values kept from a row are exactly its values in columns whose label is known |
| Plotting.SelectedFromMembers | brede/eeg/plotting.py:396-403 | the values kept from the rows at or after a given position are exactly the values of the entries considered there |
| Plotting.SelectedHasConsidered | brede/eeg/plotting.py:396-403 | every entry in a known column whose row index lies in the window (both ends inclusive, or every row when there is no window) is among the selected values |
| Plotting.SelectedOnlyConsidered | brede/eeg/plotting.py:396-403 | every selected value comes from an entry in a known column whose row index lies in the window |
| Plotting.SeqMin | brede/eeg/plotting.py:404 | the minimum is one of the values and is at most every value |
| Plotting.SeqMax | brede/eeg/plotting.py:405 | the maximum is one of the values and is at least every value |
| Plotting.Ylim | brede/eeg/plotting.py:404-411 | no limits for no values. Otherwise the limits enclose zero and every value. With no negative value they are (0, m) with m one of the values; otherwise they are (-m, m) with m or -m one of the values. Together these make m the maximum in the first case and the largest magnitude in the second |
| Plotting.SelectionYlimEncloses | brede/eeg/plotting.py:396-411 | the limits of the known-column values in the window are absent exactly when no entry is considered. Otherwise they enclose zero and every considered value; with no negative considered value the lower limit is 0 and the upper is a considered value; otherwise they are symmetric and one of them is a considered value |
| Plotting.AutoYlim | brede/eeg/plotting.py:394-411 | no contract of its own: the limits of the electrode-column values in the window, with no window by default; `AutoYlimEnclosesData` and `AutoYlimIgnoresOthers` state its properties |
| Plotting.AutoYlimEnclosesData | brede/eeg/plotting.py:394-411 | the same properties for the electrode columns: absent exactly when no electrode value lies in the window, otherwise enclosing zero and every such value, of the form (0, max) or a symmetric pair reaching a selected value |
| Plotting.RowFromIgnoresOthers | brede/eeg/plotting.py:396-397 | the values kept from a row depend only on its entries in known columns |
| Plotting.SelectedFromIgnoresOthers | brede/eeg/plotting.py:396-403 | the selection depends only on the known-column entries of rows inside the window |
| Plotting.AutoYlimIgnoresOthers | brede/eeg/plotting.py:394-411 | two tables that agree on electrode columns of the rows inside the window get the same y-limits |

## Left out

- Download, extraction, temporary directories and the existence checks of `SBS2Data` (`__init__`, `make_dir`, `download`, `unpack`): file-system and network I/O. The data are reached only through the `Provider` parameter.
- Parsing of the tab-separated files (`read_csv`): the provider returns the parsed table directly.
- `surface` reading the mesh (`read_obj`) and its plotting: I/O; only the choice of file name is modelled (`Sbs2.SurfaceFile`).
- Sbs2.MinimumNorm: its contract states only the shape of the operator. The numerics of `scipy.linalg.pinv` (SVD, rank cut-off) are a foreign floating-point routine. The model knows only its shape, and for one lemma its homogeneity. So the formula is stated over an abstract pseudo-inverse, and it is tied to LORETA by `Sbs2.LoretaWithIdentityCoherence`.
- Sbs2.Loreta: its contract states only the shape of the operator, for the same reason as minimum-norm.
- The class doctest that the diagonal of K·K⁻¹ is close to 1: it depends on the data files and on floating point.
- Floating-point rounding, NaN and infinity: all values are exact reals. `auto_ylim` on an empty selection is `None` rather than NaN limits.
- `Plotting.Upper`: only ASCII letters are mapped; Python's `str.upper` also maps other Unicode letters (and can lengthen some, such as "ß"). For ASCII names the model is exact.
- `Plotting.ElectrodePositions`: a position is identified by its electrode name. The trigonometric coordinates stored in the electrode table are floats and are not modelled, nor is the interpolation, contouring and drawing of `draw_data`.
- All matplotlib drawing: `draw_electrodes`, `draw_head`, `draw_inner_head`, `draw_nose`, `add_subplot_axes` and `MultiPlot.draw`, plus the `xlim` and `ylim` properties that read and write axes state (the `xlim` getter returns nothing).
- The command-line entry points and their option parsing, in both core files.
- The common spatial patterns module (`brede/eeg/csp.py`): a thin wrapper over library covariance and eigen-decomposition routines.
- The tests of the `electrode` and `eegmmidb` modules: `brede.eeg.electrode` and `brede.data.eegmmidb` are not part of this model.
- Repeated column labels: pandas selects every column of a repeated label once per occurrence, repeating values. The model keeps each column once. This leaves the minimum and the maximum, and hence the limits, unchanged.
