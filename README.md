# Particle-flow candidate filler, modelled in Dafny

This project models the particle-flow candidate filler of the DeepNTuples
AK8 ntupler (`NtupleAK8/src/PFCandidateFiller.cc`). For every jet, the
filler writes one record of per-constituent features into a record buffer
(`data`, a `TreeData`):

- `book()` declares the buffer's schema. It has two scalar count branches,
  `n_pfcands` (int) and `npfcands` (float), both defaulting to 0. It also
  has 24 variable-length "multi" float branches (`pfcand_ptrel` …
  `pfcand_dxysig`).
- `fill(jet, jetidx, jet_helper)` walks the jet's constituents in order and
  skips those with `pt < minPt`. For each kept constituent it appends one
  value to every multi branch:
  - the kinematics relative to the jet;
  - the distance to the nearest secondary vertex, where the 999 sentinel
    becomes -1;
  - the distances to the first two sub-jets, each -1 when that sub-jet is
    absent;
  - the charge and five 0/1 particle-identity flags from `|pdgId|`;
  - detector quantities;
  - the impact parameters, sanitised, and their significances, sanitised
    and clamped to [-2000, 2000].

  Finally it writes the number of kept constituents into both count
  branches and returns `true`.

Files:

- `numeric_guard.dfy` (module `NumericGuard`): floating-point values as a
  finite real or one of +inf, -inf, NaN, with division and the two guards
  `catchInfs` / `catchInfsAndBound`.
- `tree_data.dfy` (module `TreeBuffer`): the record buffer as a class. It
  has a map of multi branches and a map of scalar branches, with `Add`,
  `AddMulti`, `FillMulti` and `Fill`. `Reset` is the caller's step before
  each `fill`. It empties every multi branch and returns every scalar to
  its default.
- `pf_candidate_filler.dfy` (module `PFCandidates`): the schema, the
  per-constituent features as pure functions, and the filler class.
  - `Book` and `Fill` are methods that update the buffer in place.
  - `Fill` runs the source's `for`/`continue` loop.
  - `NearestSv` runs the nested scan over the secondary vertices.
  - Each method is proved against a specification function: `BookedColumns`,
    `Accepted` with `Column` (the entries a run of kept
    constituents adds to one branch), `MinSvDistance`.
- `pf_candidate_properties.dfy` (module `PFCandidateProperties`): what the
  filler promises about its output. This covers distinct branch names, the
  `pt` cut, the sentinels, exclusive identity flags, bounded significances
  and a worked jet.

Branch names are modelled as handles: `Branch` is `NPfcands`, `NpfcandsF`
or `Multi(f)` for one of 24 `Field`s. `BranchName` maps each handle to the
exact string the source uses, and `BranchNameInjective` proves the 26
strings distinct. Keying the buffer by handle therefore addresses the same
branches as keying it by name.

The multi branches are declared and filled in five blocks, following the
comment groups of the source: kinematics, neighbours, identity, detector,
impact parameters. Each block is a helper method with the source's calls in
the source's order. Inside two blocks `book` and `fill` use different
orders: `pfcand_isMu`/`pfcand_isEl`, and `pfcand_dzsig`/`pfcand_dxy`. Each
order is kept as written.

Edge cases the code decides, and the model keeps:

- The eta sign is `+1` only for a jet with eta strictly above 0 (line 67).
  A `>= 0` test would give `+1` at eta 0; the strict test gives `-1`.
- `pfcand_drminsv` is -1 whenever the running minimum is still exactly 999.
  That happens with no secondary vertices, and also when every vertex is
  999 or more away. `DrMinSvIsNearest` states the exact condition.
- Only the `if (true)` branch of lines 112-119 is modelled. The `else`
  branch cannot run.

## Model

| member | source | states |
|---|---|---|
| TreeBuffer.TreeData.Add | NtupleAK8/src/PFCandidateFiller.cc:22-23 | declaring a scalar branch adds it, holding its default, to the scalar map and changes nothing else; the name must be new |
| TreeBuffer.TreeData.AddMulti | NtupleAK8/src/PFCandidateFiller.cc:26-57 | declaring a multi branch adds it, empty, to the multi map and changes nothing else; the name must be new |
| TreeBuffer.TreeData.FillMulti | NtupleAK8/src/PFCandidateFiller.cc:74-114 | appending to a declared multi branch extends exactly that branch by one value at its end |
| TreeBuffer.TreeData.Fill | NtupleAK8/src/PFCandidateFiller.cc:122-123 | filling a declared scalar overwrites its value with one of its declared type, keeps its default, and keeps every scalar well-typed |
| NumericGuard.Quotient | NtupleAK8/src/PFCandidateFiller.cc:74-75 | a quotient is finite exactly when the numerator is finite and the divisor is a non-zero finite value or an infinity; it is then the real quotient; 0/0 is NaN and any other finite value over zero is infinite |
| NumericGuard.CatchInfs | NtupleAK8/src/PFCandidateFiller.cc:109-110 | a finite value passes through unchanged; an infinite or NaN value becomes the sentinel |
| NumericGuard.CatchInfsAndBound | NtupleAK8/src/PFCandidateFiller.cc:113-114 | the result always lies within the bounds; a finite value within them passes unchanged, one below becomes the lower bound, one above the upper bound; a non-finite value becomes the sentinel when the sentinel is within bounds |
| NumericGuard.Clamp | NtupleAK8/src/PFCandidateFiller.cc:113-114 | the bound step of `catchInfsAndBound`: the result lies within the bounds, a value within them is unchanged, one below becomes the lower bound and one above the upper bound |
| NumericGuard.FromInt | NtupleAK8/src/PFCandidateFiller.cc:93-106 | an integer stored as a float is finite and converts back to the same integer |
| NumericGuard.FromBool | NtupleAK8/src/PFCandidateFiller.cc:94-98 | a boolean stored as a float is 1 exactly when true and 0 exactly when false |
| PFCandidates.EtaSign | NtupleAK8/src/PFCandidateFiller.cc:67 | the eta sign is +1 or -1, and +1 exactly when the jet's eta is strictly positive |
| PFCandidates.MinSvDistance | NtupleAK8/src/PFCandidateFiller.cc:82-86 | the scan's result is at most 999, at most every vertex distance, and either 999 or one of those distances |
| PFCandidates.NearestSv | NtupleAK8/src/PFCandidateFiller.cc:82-86 | the loop over the secondary vertices leaves `minDR` equal to `MinSvDistance` of all of them |
| PFCandidates.DrMinSvEntry | NtupleAK8/src/PFCandidateFiller.cc:87 | the stored nearest-vertex distance is -1 exactly for the 999 sentinel and the scanned minimum otherwise |
| PFCandidates.SubjetDistance | NtupleAK8/src/PFCandidateFiller.cc:89-91 | the distance to sub-jet `i` when the jet has more than `i` sub-jets, -1 otherwise; with non-negative distances it is negative exactly when the sub-jet is missing |
| PFCandidates.IdFlag | NtupleAK8/src/PFCandidateFiller.cc:94-98 | an identity flag is 0 or 1, and 1 exactly when `pdgId` is the code or its negation |
| PFCandidates.Significance | NtupleAK8/src/PFCandidateFiller.cc:113-114 | a significance lies in [-2000, 2000], is 0 when the ratio is infinite or undefined (non-finite value, zero or NaN uncertainty), and is otherwise the ratio clamped into the window |
| PFCandidates.CandidateFeatures | NtupleAK8/src/PFCandidateFiller.cc:74-114 | every entry of a constituent's row except `ptrel` and `erel` is finite; `ptrel` and `erel` are finite exactly when the jet's pt (resp. energy) is non-zero, and are then the ratios |
| PFCandidates.Accepted | NtupleAK8/src/PFCandidateFiller.cc:69-72 | the kept constituents are no more than the constituents, each of them is one of the constituents, and each has `pt >= minPt` |
| PFCandidates.ColumnSnoc | NtupleAK8/src/PFCandidateFiller.cc:69-121 | keeping one more constituent extends every branch's entries by exactly that constituent's feature |
| PFCandidates.AppendKinematicsAt | NtupleAK8/src/PFCandidateFiller.cc:74-80 | the kinematics block appends the row's value to each of its seven branches and leaves every other branch unchanged |
| PFCandidates.AppendNeighboursAt | NtupleAK8/src/PFCandidateFiller.cc:82-91 | the neighbours block appends the row's value to its three branches and leaves every other branch unchanged |
| PFCandidates.AppendIdentityAt | NtupleAK8/src/PFCandidateFiller.cc:93-98 | the identity block appends the row's value to its six branches and leaves every other branch unchanged |
| PFCandidates.AppendDetectorAt | NtupleAK8/src/PFCandidateFiller.cc:100-106 | the detector block appends the row's value to its four branches and leaves every other branch unchanged |
| PFCandidates.AppendImpactParametersAt | NtupleAK8/src/PFCandidateFiller.cc:108-115 | the impact-parameter block appends the row's value to its four branches and leaves every other branch unchanged |
| PFCandidates.AppendRowAt | NtupleAK8/src/PFCandidateFiller.cc:73-115 | one kept constituent appends exactly its own feature to every one of the 24 multi branches |
| PFCandidates.BookedColumnsDeclareSchema | NtupleAK8/src/PFCandidateFiller.cc:25-57 | `book` declares exactly the 24 multi branches, each empty, and no count branch as a multi branch |
| PFCandidates.BookedColumnsComplete | NtupleAK8/src/PFCandidateFiller.cc:25-57 | every one of the 24 multi branches is declared by `book` |
| PFCandidates.BookedState | NtupleAK8/src/PFCandidateFiller.cc:20-59 | a buffer holding exactly `book`'s declarations has every multi branch and both counts with their declared types, so `fill` can run on it |
| PFCandidates.PFCandidateFiller.Book | NtupleAK8/src/PFCandidateFiller.cc:20-59 | from an empty buffer, `book` leaves exactly the 24 empty multi branches and the two counts at default 0 (int and float), ready for `fill` |
| PFCandidates.PFCandidateFiller.BookKinematics | NtupleAK8/src/PFCandidateFiller.cc:25-32 | declares the seven kinematic branches in the source's order |
| PFCandidates.PFCandidateFiller.BookNeighbours | NtupleAK8/src/PFCandidateFiller.cc:34-36 | declares the secondary-vertex and sub-jet distance branches |
| PFCandidates.PFCandidateFiller.BookIdentity | NtupleAK8/src/PFCandidateFiller.cc:38-43 | declares the charge and identity-flag branches, `isMu` before `isEl` |
| PFCandidates.PFCandidateFiller.BookDetector | NtupleAK8/src/PFCandidateFiller.cc:45-51 | declares the neutral and charged detector branches |
| PFCandidates.PFCandidateFiller.BookImpactParameters | NtupleAK8/src/PFCandidateFiller.cc:53-57 | declares the impact-parameter branches, `dzsig` before `dxy` |
| PFCandidates.PFCandidateFiller.FillKinematics | NtupleAK8/src/PFCandidateFiller.cc:73-80 | appends the constituent's kinematic features relative to the jet |
| PFCandidates.PFCandidateFiller.FillNeighbours | NtupleAK8/src/PFCandidateFiller.cc:82-91 | appends the nearest-vertex distance (-1 for the 999 sentinel) and both sub-jet distances (-1 when the sub-jet is absent) |
| PFCandidates.PFCandidateFiller.FillIdentity | NtupleAK8/src/PFCandidateFiller.cc:93-98 | appends the charge and the five `|pdgId|` flags |
| PFCandidates.PFCandidateFiller.FillDetector | NtupleAK8/src/PFCandidateFiller.cc:100-106 | appends the hadronic-calorimeter fraction and the three track-quality values |
| PFCandidates.PFCandidateFiller.FillImpactParameters | NtupleAK8/src/PFCandidateFiller.cc:108-115 | appends the sanitised impact parameters and their sanitised, clamped significances |
| PFCandidates.PFCandidateFiller.AppendCandidate | NtupleAK8/src/PFCandidateFiller.cc:72-119 | one pass of the loop body for a kept constituent appends exactly one entry, its feature, to every multi branch and declares nothing |
| PFCandidates.PFCandidateFiller.Fill | NtupleAK8/src/PFCandidateFiller.cc:61-127 | `fill` always returns true and keeps the buffer booked. Every multi branch grows by exactly the kept constituents' features, in order. Both counts end up holding the number kept, which is how much every multi branch grew, so all branches stay in lock-step |
| PFCandidates.PFCandidateFiller.ResetAndFill | NtupleAK8/src/PFCandidateFiller.cc:61-127 | `fill` on a freshly reset buffer leaves every multi branch holding exactly the kept constituents' features, so every branch has `n_pfcands` entries, and both counts hold the number kept |
| PFCandidateProperties.NameInjective | NtupleAK8/src/PFCandidateFiller.cc:26-57 | the 24 multi-branch names are pairwise distinct |
| PFCandidateProperties.BranchNameInjective | NtupleAK8/src/PFCandidateFiller.cc:22-57 | all 26 branch names declared by `book` are pairwise distinct |
| PFCandidateProperties.CountAbove | NtupleAK8/src/PFCandidateFiller.cc:71-72 | the number of constituents above the cut never exceeds the number of constituents |
| PFCandidateProperties.AcceptedAppend | NtupleAK8/src/PFCandidateFiller.cc:69-72 | the cut applied to a concatenation is the concatenation of the cuts |
| PFCandidateProperties.AcceptedCons | NtupleAK8/src/PFCandidateFiller.cc:69-72 | the first constituent is kept exactly when its pt passes the cut, before whatever the rest keeps |
| PFCandidateProperties.RejectedLeavesNoTrace | NtupleAK8/src/PFCandidateFiller.cc:71 | a constituent below the threshold, wherever it stands, changes nothing that is kept |
| PFCandidateProperties.AcceptedCount | NtupleAK8/src/PFCandidateFiller.cc:65-72 | `nConstituents` equals the number of constituents with `pt >= minPt` |
| PFCandidateProperties.AcceptedMembers | NtupleAK8/src/PFCandidateFiller.cc:69-72 | a candidate is kept exactly when it is a constituent and its pt passes the cut |
| PFCandidateProperties.DrMinSvWithoutVertices | NtupleAK8/src/PFCandidateFiller.cc:82-87 | with no secondary vertices `pfcand_drminsv` is -1 |
| PFCandidateProperties.DrMinSvIsNearest | NtupleAK8/src/PFCandidateFiller.cc:82-87 | with non-negative distances, `pfcand_drminsv` is -1 exactly when no vertex is closer than 999. Otherwise it is a distance in [0, 999) that no vertex undercuts and that some vertex attains |
| PFCandidateProperties.SubjetSentinels | NtupleAK8/src/PFCandidateFiller.cc:89-91 | `pfcand_drsubjet1` is -1 with no sub-jet, otherwise the distance to the first; `pfcand_drsubjet2` is -1 with fewer than two, otherwise the distance to the second |
| PFCandidateProperties.IdentityFlagsExclusive | NtupleAK8/src/PFCandidateFiller.cc:94-98 | each identity flag is 0 or 1, no two are 1, and their sum is 1 exactly when `|pdgId|` is 11, 13, 22, 211 or 130 |
| PFCandidateProperties.EtaRelOrientation | NtupleAK8/src/PFCandidateFiller.cc:67-77 | `pfcand_etarel` is the eta offset from the jet when the jet's eta is strictly positive, and its negation otherwise |
| PFCandidateProperties.ImpactParametersSanitised | NtupleAK8/src/PFCandidateFiller.cc:109-114 | `pfcand_dz`/`pfcand_dxy` are finite (0 for a non-finite input). Both significances lie in [-2000, 2000]. A significance is 0 when its value is non-finite or its uncertainty is zero. A finite ratio inside the window is stored unchanged |
| PFCandidateProperties.ExampleAccepted | NtupleAK8/src/PFCandidateFiller.cc:69-72 | of a pt-50 hadron and a pt-1 constituent under threshold 2, only the hadron is kept |
| PFCandidateProperties.ExampleHadronRow | NtupleAK8/src/PFCandidateFiller.cc:74-114 | the pt-50 charged hadron in a pt-500 jet without sub-jets or vertices gets ptrel 0.1, charged-hadron flag 1, photon flag 0, dz 0, dzsig 0 and drminsv -1 |
| PFCandidateProperties.WorkedJet | NtupleAK8/src/PFCandidateFiller.cc:61-127 | on a pt-500 jet with a pt-50 charged hadron and a pt-1 constituent under threshold 2, only the hadron is kept. It has ptrel 0.1, the charged-hadron flag 1, the photon flag 0, dz 0, dzsig 0 and drminsv -1 |

## Left out

- `readConfig` / `readEvent` (lines 12-18): framework token consumption and
  event input. The secondary vertices they fetch are the filler's `svs`
  field, and the jet helper's constituents and sub-jets are parameters.
- `NtupleAK8/run/template_runCrab.py`: a grid-job configuration template
  with no logic.
- The trigonometry of `reco::deltaR` and `reco::deltaPhi`. Both are
  arbitrary functions passed in a `Geometry` value, and only
  non-negativity of `deltaR` is assumed, where a lemma needs it.
- Floating-point rounding: the `double`-to-`float` casts of `fillMulti<float>`,
  overflow to infinity, the sign of zero, and rounding of the quotients are
  not modelled. Finite values are exact reals.
- Non-finite kinematic inputs: `pt()`, `energy()`, `eta()` and the
  candidate's other accessors are finite reals. Only the impact parameters
  and their uncertainties can be non-finite inputs.
- `NumericGuard.CatchInfsAndBound`: the body of `catchInfsAndBound` is not
  part of this model. The model clamps the sentinel as well, which agrees
  with "non-finite gives the sentinel" whenever the sentinel lies within the
  bounds, as at every call site (sentinel 0, bounds ±2000).
- `NumericGuard.CatchInfs`: the body of `catchInfs` is not part of this
  model either. Its sentinel is taken to be 0.
- `PFCandidates.PFCandidateFiller.FillIdentity`: `std::abs` of the most
  negative `int` is undefined in C++. Integers are unbounded here.
- The unreachable `else` branch at lines 116-119.
- The tree and serialisation backend behind `data`. Only the in-memory
  declare, append and overwrite behaviour is modelled. The declaration
  order of branches is kept in the text of the `Book` helpers, not in the
  buffer's state (maps are unordered).
- `TreeBuffer.TreeData.Add` / `AddMulti` / `Fill` / `FillMulti`: a
  duplicate declaration, an undeclared name, or a value of the wrong type
  is a configuration error in the buffer. Here these are preconditions, so
  the model has no error path for them.
- `PFCandidates.PFCandidateFiller.Book`: requires an empty buffer, and each
  block helper requires exactly the declarations before it. This is the
  situation in which `book` is called once per filler.
- `jetidx` is accepted by `Fill` and unused, as in the source.
