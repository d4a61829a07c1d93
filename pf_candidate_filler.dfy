/** The particle-flow candidate filler of NtupleAK8/src/PFCandidateFiller.cc:
    `Book` declares its branches in a `TreeData` buffer and `Fill` appends one
    entry per accepted jet constituent to every multi branch, then records
    the accepted count in the two count branches. */
module PFCandidates {
  import opened NumericGuard
  import opened TreeBuffer

  // ---------------------------------------------------------------------
  // Inputs handed over by the framework

  /** An (eta, phi) position; `deltaR` and `deltaPhi` work on these. */
  datatype Direction = Direction(eta: real, phi: real)

  datatype Jet = Jet(pt: real, energy: real, eta: real, phi: real) {
    function Dir(): Direction { Direction(eta, phi) }
  }

  /** A jet constituent: the accessors of the candidate that `fill` reads.
      Impact parameters and their uncertainties may be non-finite. */
  datatype Candidate = Candidate(
    pt: real, energy: real, eta: real, phi: real,
    puppiWeight: real, mass: real,
    charge: int, pdgId: int,
    hcalFraction: real, pvAssociationQuality: int, fromPV: int, lostInnerHits: int,
    dz: Float, dzError: Float, dxy: Float, dxyError: Float)
  {
    function Dir(): Direction { Direction(eta, phi) }
  }

  /** What the jet helper supplies: the jet's constituents in their native
      order, and its sub-jets (none, one or two in practice). */
  datatype JetHelper = JetHelper(constituents: seq<Candidate>, subjets: seq<Jet>)

  /** `reco::deltaR` and `reco::deltaPhi`, whose trigonometry is not part
      of this model. */
  datatype Geometry = Geometry(deltaR: (Direction, Direction) -> real, deltaPhi: (real, real) -> real)

  /** The only property of `deltaR` some results depend on. */
  ghost predicate NonNegativeDeltaR(g: Geometry) {
    forall a: Direction, b: Direction :: g.deltaR(a, b) >= 0.0
  }

  // ---------------------------------------------------------------------
  // The schema

  /** The 24 multi branches, one handle per name. */
  datatype Field =
    | PtRel | ERel | PhiRel | EtaRel | DeltaR | PuppiW | Mass
    | DrMinSv | DrSubjet1 | DrSubjet2
    | Charge | IsMu | IsEl | IsGamma | IsChargedHad | IsNeutralHad
    | HcalFrac | VtxAss | FromPV | LostInnerHits
    | Dz | DzSig | Dxy | DxySig

  /** Every branch of the filler: the integer count, the float count and
      the multi branches. */
  datatype Branch = NPfcands | NpfcandsF | Multi(field: Field)

  function Name(f: Field): string {
    match f
    case PtRel => "pfcand_ptrel"
    case ERel => "pfcand_erel"
    case PhiRel => "pfcand_phirel"
    case EtaRel => "pfcand_etarel"
    case DeltaR => "pfcand_deltaR"
    case PuppiW => "pfcand_puppiw"
    case Mass => "pfcand_mass"
    case DrMinSv => "pfcand_drminsv"
    case DrSubjet1 => "pfcand_drsubjet1"
    case DrSubjet2 => "pfcand_drsubjet2"
    case Charge => "pfcand_charge"
    case IsMu => "pfcand_isMu"
    case IsEl => "pfcand_isEl"
    case IsGamma => "pfcand_isGamma"
    case IsChargedHad => "pfcand_isChargedHad"
    case IsNeutralHad => "pfcand_isNeutralHad"
    case HcalFrac => "pfcand_hcalFrac"
    case VtxAss => "pfcand_VTX_ass"
    case FromPV => "pfcand_fromPV"
    case LostInnerHits => "pfcand_lostInnerHits"
    case Dz => "pfcand_dz"
    case DzSig => "pfcand_dzsig"
    case Dxy => "pfcand_dxy"
    case DxySig => "pfcand_dxysig"
  }

  function BranchName(b: Branch): string {
    match b
    case NPfcands => "n_pfcands"
    case NpfcandsF => "npfcands"
    case Multi(f) => Name(f)
  }

  /** The buffer holds the filler's schema: every multi branch, and both
      counts as scalars of their declared types. */
  ghost predicate Booked(data: TreeData<Branch>)
    reads data
  {
    data.Valid() &&
    HasAllFields(data.multi) && NPfcands !in data.multi && NpfcandsF !in data.multi &&
    NPfcands in data.scalars && data.scalars[NPfcands].default.IntValue? &&
    NpfcandsF in data.scalars && data.scalars[NpfcandsF].default.FloatValue?
  }

  // ---------------------------------------------------------------------
  // Per-candidate features

  /** One accepted constituent's entry in each multi branch. */
  datatype FeatureRow = FeatureRow(
    ptrel: Float, erel: Float, phirel: Float, etarel: Float, deltaR: Float,
    puppiw: Float, mass: Float,
    drminsv: Float, drsubjet1: Float, drsubjet2: Float,
    charge: Float, isEl: Float, isMu: Float, isGamma: Float,
    isChargedHad: Float, isNeutralHad: Float,
    hcalFrac: Float, vtxAss: Float, fromPV: Float, lostInnerHits: Float,
    dz: Float, dxy: Float, dzsig: Float, dxysig: Float)

  /** The entry of `row` that goes to the multi branch `f`. */
  function Get(row: FeatureRow, f: Field): Float {
    match f
    case PtRel => row.ptrel
    case ERel => row.erel
    case PhiRel => row.phirel
    case EtaRel => row.etarel
    case DeltaR => row.deltaR
    case PuppiW => row.puppiw
    case Mass => row.mass
    case DrMinSv => row.drminsv
    case DrSubjet1 => row.drsubjet1
    case DrSubjet2 => row.drsubjet2
    case Charge => row.charge
    case IsMu => row.isMu
    case IsEl => row.isEl
    case IsGamma => row.isGamma
    case IsChargedHad => row.isChargedHad
    case IsNeutralHad => row.isNeutralHad
    case HcalFrac => row.hcalFrac
    case VtxAss => row.vtxAss
    case FromPV => row.fromPV
    case LostInnerHits => row.lostInnerHits
    case Dz => row.dz
    case DzSig => row.dzsig
    case Dxy => row.dxy
    case DxySig => row.dxysig
  }

  /** `etasign`: +1 when the jet's eta is strictly positive, otherwise -1. */
  function EtaSign(eta: real): (s: real)
    ensures s == 1.0 || s == -1.0
    ensures s == 1.0 <==> eta > 0.0
  {
    if eta > 0.0 then 1.0 else -1.0
  }

  /** The value of `minDR` after the scan over the secondary vertices: it
      starts at 999 and takes every smaller distance it meets. */
  function MinSvDistance(g: Geometry, p: Direction, svs: seq<Direction>): (m: real)
    ensures m <= 999.0
    ensures forall k :: 0 <= k < |svs| ==> m <= g.deltaR(p, svs[k])
    ensures m == 999.0 || exists k :: 0 <= k < |svs| && m == g.deltaR(p, svs[k])
    decreases |svs|
  {
    if svs == [] then 999.0
    else
      var m := MinSvDistance(g, p, svs[..|svs| - 1]);
      var d := g.deltaR(p, svs[|svs| - 1]);
      if d < m then d else m
  }

  /** The stored distance to the nearest secondary vertex: the sentinel 999
      becomes -1. */
  function DrMinSvEntry(minDR: real): (e: real)
    ensures e == -1.0 || e == minDR
    ensures minDR == 999.0 ==> e == -1.0
    ensures minDR != 999.0 ==> e == minDR
  {
    if minDR == 999.0 then -1.0 else minDR
  }

  /** The distance to sub-jet `i`, or -1 when the jet has at most `i`
      sub-jets. */
  function SubjetDistance(g: Geometry, p: Direction, subjets: seq<Jet>, i: nat): (d: real)
    ensures i < |subjets| ==> d == g.deltaR(p, subjets[i].Dir())
    ensures |subjets| <= i ==> d == -1.0
    ensures NonNegativeDeltaR(g) ==> (d < 0.0 <==> |subjets| <= i)
  {
    if |subjets| > i then g.deltaR(p, subjets[i].Dir()) else -1.0
  }

  /** `std::abs(pdgId) == code`, as a float. */
  function IdFlag(pdgId: int, code: int): (x: Float)
    ensures x == Num(0.0) || x == Num(1.0)
    ensures code >= 0 ==> (x == Num(1.0) <==> pdgId == code || pdgId == -code)
  {
    FromBool((if pdgId < 0 then -pdgId else pdgId) == code)
  }

  /** An impact-parameter significance: the ratio to its uncertainty, 0 when
      undefined or infinite, clamped to [-2000, 2000]. */
  function Significance(value: Float, error: Float): (s: real)
    ensures -2000.0 <= s <= 2000.0
    ensures !IsFinite(Quotient(value, error)) ==> s == 0.0
    ensures IsFinite(Quotient(value, error)) ==> s == Clamp(Quotient(value, error).r, -2000.0, 2000.0)
    ensures !IsFinite(value) || error.NaN? || (IsFinite(error) && error.r == 0.0) ==> s == 0.0
  {
    CatchInfsAndBound(Quotient(value, error), 0.0, -2000.0, 2000.0)
  }

  /** Everything `fill` appends for one accepted constituent `c`. */
  function CandidateFeatures(c: Candidate, jet: Jet, subjets: seq<Jet>, svs: seq<Direction>, g: Geometry): (row: FeatureRow)
    ensures forall f: Field :: f != PtRel && f != ERel ==> IsFinite(Get(row, f))
    ensures IsFinite(row.ptrel) <==> jet.pt != 0.0
    ensures jet.pt != 0.0 ==> row.ptrel.r == c.pt / jet.pt
    ensures IsFinite(row.erel) <==> jet.energy != 0.0
    ensures jet.energy != 0.0 ==> row.erel.r == c.energy / jet.energy
  {
    FeatureRow(
      ptrel := Quotient(Num(c.pt), Num(jet.pt)),
      erel := Quotient(Num(c.energy), Num(jet.energy)),
      phirel := Num(g.deltaPhi(c.phi, jet.phi)),
      etarel := Num(EtaSign(jet.eta) * (c.eta - jet.eta)),
      deltaR := Num(g.deltaR(c.Dir(), jet.Dir())),
      puppiw := Num(c.puppiWeight),
      mass := Num(c.mass),
      drminsv := Num(DrMinSvEntry(MinSvDistance(g, c.Dir(), svs))),
      drsubjet1 := Num(SubjetDistance(g, c.Dir(), subjets, 0)),
      drsubjet2 := Num(SubjetDistance(g, c.Dir(), subjets, 1)),
      charge := FromInt(c.charge),
      isEl := IdFlag(c.pdgId, 11),
      isMu := IdFlag(c.pdgId, 13),
      isGamma := IdFlag(c.pdgId, 22),
      isChargedHad := IdFlag(c.pdgId, 211),
      isNeutralHad := IdFlag(c.pdgId, 130),
      hcalFrac := Num(c.hcalFraction),
      vtxAss := FromInt(c.pvAssociationQuality),
      fromPV := FromInt(c.fromPV),
      lostInnerHits := FromInt(c.lostInnerHits),
      dz := Num(CatchInfs(c.dz, 0.0)),
      dxy := Num(CatchInfs(c.dxy, 0.0)),
      dzsig := Num(Significance(c.dz, c.dzError)),
      dxysig := Num(Significance(c.dxy, c.dxyError)))
  }

  // ---------------------------------------------------------------------
  // The multi branches as a map, and what one row does to it

  type Columns = map<Branch, seq<Float>>

  predicate HasAllFields(m: Columns) {
    forall f: Field :: Multi(f) in m
  }

  /** The blocks in which `book` and `fill` handle the multi branches. */
  datatype Block = Kinematics | Neighbours | Identity | Detector | ImpactParameters

  function BlockOf(f: Field): Block {
    match f
    case PtRel => Kinematics
    case ERel => Kinematics
    case PhiRel => Kinematics
    case EtaRel => Kinematics
    case DeltaR => Kinematics
    case PuppiW => Kinematics
    case Mass => Kinematics
    case DrMinSv => Neighbours
    case DrSubjet1 => Neighbours
    case DrSubjet2 => Neighbours
    case Charge => Identity
    case IsEl => Identity
    case IsMu => Identity
    case IsGamma => Identity
    case IsChargedHad => Identity
    case IsNeutralHad => Identity
    case HcalFrac => Detector
    case VtxAss => Detector
    case FromPV => Detector
    case LostInnerHits => Detector
    case Dz => ImpactParameters
    case Dxy => ImpactParameters
    case DzSig => ImpactParameters
    case DxySig => ImpactParameters
  }

  /** The basic kinematics, valid for both charged and neutral: appended one branch at a time, in `fill`'s order. */
  function AppendKinematics(m: Columns, row: FeatureRow): (r: Columns)
    requires HasAllFields(m)
    ensures r.Keys == m.Keys
  {
    var m := m[Multi(PtRel) := m[Multi(PtRel)] + [row.ptrel]];
    var m := m[Multi(ERel) := m[Multi(ERel)] + [row.erel]];
    var m := m[Multi(PhiRel) := m[Multi(PhiRel)] + [row.phirel]];
    var m := m[Multi(EtaRel) := m[Multi(EtaRel)] + [row.etarel]];
    var m := m[Multi(DeltaR) := m[Multi(DeltaR)] + [row.deltaR]];
    var m := m[Multi(PuppiW) := m[Multi(PuppiW)] + [row.puppiw]];
    var m := m[Multi(Mass) := m[Multi(Mass)] + [row.mass]];
    m
  }

  lemma AppendKinematicsAt(m: Columns, row: FeatureRow, f: Field)
    requires HasAllFields(m)
    ensures BlockOf(f) == Kinematics ==> AppendKinematics(m, row)[Multi(f)] == m[Multi(f)] + [Get(row, f)]
    ensures BlockOf(f) != Kinematics ==> AppendKinematics(m, row)[Multi(f)] == m[Multi(f)]
  {
    if BlockOf(f) == Kinematics {
      match f
      case PtRel =>
      case ERel =>
      case PhiRel =>
      case EtaRel =>
      case DeltaR =>
      case PuppiW =>
      case Mass =>
      case _ => assert false;
    }
  }

  /** The distances to the nearest secondary vertex and to the sub-jets: appended one branch at a time, in `fill`'s order. */
  function AppendNeighbours(m: Columns, row: FeatureRow): (r: Columns)
    requires HasAllFields(m)
    ensures r.Keys == m.Keys
  {
    var m := m[Multi(DrMinSv) := m[Multi(DrMinSv)] + [row.drminsv]];
    var m := m[Multi(DrSubjet1) := m[Multi(DrSubjet1)] + [row.drsubjet1]];
    var m := m[Multi(DrSubjet2) := m[Multi(DrSubjet2)] + [row.drsubjet2]];
    m
  }

  lemma AppendNeighboursAt(m: Columns, row: FeatureRow, f: Field)
    requires HasAllFields(m)
    ensures BlockOf(f) == Neighbours ==> AppendNeighbours(m, row)[Multi(f)] == m[Multi(f)] + [Get(row, f)]
    ensures BlockOf(f) != Neighbours ==> AppendNeighbours(m, row)[Multi(f)] == m[Multi(f)]
  {
    if BlockOf(f) == Neighbours {
      match f
      case DrMinSv =>
      case DrSubjet1 =>
      case DrSubjet2 =>
      case _ => assert false;
    }
  }

  /** The charge and particle-identity flags: appended one branch at a time, in `fill`'s order. */
  function AppendIdentity(m: Columns, row: FeatureRow): (r: Columns)
    requires HasAllFields(m)
    ensures r.Keys == m.Keys
  {
    var m := m[Multi(Charge) := m[Multi(Charge)] + [row.charge]];
    var m := m[Multi(IsEl) := m[Multi(IsEl)] + [row.isEl]];
    var m := m[Multi(IsMu) := m[Multi(IsMu)] + [row.isMu]];
    var m := m[Multi(IsGamma) := m[Multi(IsGamma)] + [row.isGamma]];
    var m := m[Multi(IsChargedHad) := m[Multi(IsChargedHad)] + [row.isChargedHad]];
    var m := m[Multi(IsNeutralHad) := m[Multi(IsNeutralHad)] + [row.isNeutralHad]];
    m
  }

  lemma AppendIdentityAt(m: Columns, row: FeatureRow, f: Field)
    requires HasAllFields(m)
    ensures BlockOf(f) == Identity ==> AppendIdentity(m, row)[Multi(f)] == m[Multi(f)] + [Get(row, f)]
    ensures BlockOf(f) != Identity ==> AppendIdentity(m, row)[Multi(f)] == m[Multi(f)]
  {
    if BlockOf(f) == Identity {
      match f
      case Charge =>
      case IsEl =>
      case IsMu =>
      case IsGamma =>
      case IsChargedHad =>
      case IsNeutralHad =>
      case _ => assert false;
    }
  }

  /** The calorimeter fraction (for neutral) and track quality (for charged): appended one branch at a time, in `fill`'s order. */
  function AppendDetector(m: Columns, row: FeatureRow): (r: Columns)
    requires HasAllFields(m)
    ensures r.Keys == m.Keys
  {
    var m := m[Multi(HcalFrac) := m[Multi(HcalFrac)] + [row.hcalFrac]];
    var m := m[Multi(VtxAss) := m[Multi(VtxAss)] + [row.vtxAss]];
    var m := m[Multi(FromPV) := m[Multi(FromPV)] + [row.fromPV]];
    var m := m[Multi(LostInnerHits) := m[Multi(LostInnerHits)] + [row.lostInnerHits]];
    m
  }

  lemma AppendDetectorAt(m: Columns, row: FeatureRow, f: Field)
    requires HasAllFields(m)
    ensures BlockOf(f) == Detector ==> AppendDetector(m, row)[Multi(f)] == m[Multi(f)] + [Get(row, f)]
    ensures BlockOf(f) != Detector ==> AppendDetector(m, row)[Multi(f)] == m[Multi(f)]
  {
    if BlockOf(f) == Detector {
      match f
      case HcalFrac =>
      case VtxAss =>
      case FromPV =>
      case LostInnerHits =>
      case _ => assert false;
    }
  }

  /** The impact parameters and their significances: appended one branch at a time, in `fill`'s order. */
  function AppendImpactParameters(m: Columns, row: FeatureRow): (r: Columns)
    requires HasAllFields(m)
    ensures r.Keys == m.Keys
  {
    var m := m[Multi(Dz) := m[Multi(Dz)] + [row.dz]];
    var m := m[Multi(Dxy) := m[Multi(Dxy)] + [row.dxy]];
    var m := m[Multi(DzSig) := m[Multi(DzSig)] + [row.dzsig]];
    var m := m[Multi(DxySig) := m[Multi(DxySig)] + [row.dxysig]];
    m
  }

  lemma AppendImpactParametersAt(m: Columns, row: FeatureRow, f: Field)
    requires HasAllFields(m)
    ensures BlockOf(f) == ImpactParameters ==> AppendImpactParameters(m, row)[Multi(f)] == m[Multi(f)] + [Get(row, f)]
    ensures BlockOf(f) != ImpactParameters ==> AppendImpactParameters(m, row)[Multi(f)] == m[Multi(f)]
  {
    if BlockOf(f) == ImpactParameters {
      match f
      case Dz =>
      case Dxy =>
      case DzSig =>
      case DxySig =>
      case _ => assert false;
    }
  }

  /** The multi branches after one accepted constituent's row is appended. */
  function AppendRow(m: Columns, row: FeatureRow): (r: Columns)
    requires HasAllFields(m)
    ensures r.Keys == m.Keys
  {
    AppendImpactParameters(AppendDetector(AppendIdentity(AppendNeighbours(AppendKinematics(m, row), row), row), row), row)
  }

  /** Appending a row adds exactly the row's entry to every multi branch and
      declares nothing new. */
  lemma AppendRowAt(m: Columns, row: FeatureRow, f: Field)
    requires HasAllFields(m)
    ensures AppendRow(m, row)[Multi(f)] == m[Multi(f)] + [Get(row, f)]
  {
    var m1 := AppendKinematics(m, row);
    AppendKinematicsAt(m, row, f);
    var m2 := AppendNeighbours(m1, row);
    AppendNeighboursAt(m1, row, f);
    var m3 := AppendIdentity(m2, row);
    AppendIdentityAt(m2, row, f);
    var m4 := AppendDetector(m3, row);
    AppendDetectorAt(m3, row, f);
    var m5 := AppendImpactParameters(m4, row);
    AppendImpactParametersAt(m4, row, f);
    match BlockOf(f)
    case Kinematics =>
    case Neighbours =>
    case Identity =>
    case Detector =>
    case ImpactParameters =>
  }

  /** Declares the basic kinematics, valid for both charged and neutral, in `book`'s order. */
  function DeclareKinematics(m: Columns): Columns {
    m[Multi(PtRel) := []][Multi(ERel) := []][Multi(PhiRel) := []][Multi(EtaRel) := []][Multi(DeltaR) := []][Multi(PuppiW) := []][Multi(Mass) := []]
  }

  /** Declares the distances to the nearest secondary vertex and to the sub-jets, in `book`'s order. */
  function DeclareNeighbours(m: Columns): Columns {
    m[Multi(DrMinSv) := []][Multi(DrSubjet1) := []][Multi(DrSubjet2) := []]
  }

  /** Declares the charge and particle-identity flags, in `book`'s order. */
  function DeclareIdentity(m: Columns): Columns {
    m[Multi(Charge) := []][Multi(IsMu) := []][Multi(IsEl) := []][Multi(IsGamma) := []][Multi(IsChargedHad) := []][Multi(IsNeutralHad) := []]
  }

  /** Declares the calorimeter fraction (for neutral) and track quality (for charged), in `book`'s order. */
  function DeclareDetector(m: Columns): Columns {
    m[Multi(HcalFrac) := []][Multi(VtxAss) := []][Multi(FromPV) := []][Multi(LostInnerHits) := []]
  }

  /** Declares the impact parameters and their significances, in `book`'s order. */
  function DeclareImpactParameters(m: Columns): Columns {
    m[Multi(Dz) := []][Multi(DzSig) := []][Multi(Dxy) := []][Multi(DxySig) := []]
  }

  /** The multi branches right after `book`. */
  function BookedColumns(): Columns {
    DeclareImpactParameters(DeclareDetector(DeclareIdentity(DeclareNeighbours(DeclareKinematics(map[])))))
  }

  /** `book` declares every multi branch, empty, and nothing else as a multi
      branch. */
  lemma BookedColumnsDeclareSchema()
    ensures forall b: Branch :: b in BookedColumns() <==> b.Multi?
    ensures forall f: Field :: BookedColumns()[Multi(f)] == []
  {
    forall b: Branch ensures b in BookedColumns() <==> b.Multi? {
      match b
      case NPfcands =>
      case NpfcandsF =>
      case Multi(f) =>
        match f
        case PtRel =>
        case ERel =>
        case PhiRel =>
        case EtaRel =>
        case DeltaR =>
        case PuppiW =>
        case Mass =>
        case DrMinSv =>
        case DrSubjet1 =>
        case DrSubjet2 =>
        case Charge =>
        case IsEl =>
        case IsMu =>
        case IsGamma =>
        case IsChargedHad =>
        case IsNeutralHad =>
        case HcalFrac =>
        case VtxAss =>
        case FromPV =>
        case LostInnerHits =>
        case Dz =>
        case Dxy =>
        case DzSig =>
        case DxySig =>
    }
  }

  /** A buffer holding exactly what `book` declares is ready for `fill`. */
  lemma BookedState(data: TreeData<Branch>)
    requires data.Valid()
    requires data.multi == BookedColumns()
    requires data.scalars == map[NPfcands := ScalarField(IntValue(0), IntValue(0)),
                                 NpfcandsF := ScalarField(FloatValue(Num(0.0)), FloatValue(Num(0.0)))]
    ensures Booked(data)
  {
    BookedColumnsComplete();
  }

  lemma BookedColumnsComplete()
    ensures HasAllFields(BookedColumns())
    ensures NPfcands !in BookedColumns() && NpfcandsF !in BookedColumns()
  {
    BookedColumnsDeclareSchema();
    var m := BookedColumns();
    assert !NPfcands.Multi? && !NpfcandsF.Multi?;
    assert NPfcands !in m;
    assert NpfcandsF !in m;
  }

  // ---------------------------------------------------------------------
  // Per-jet specification

  /** The constituents that pass the `pt >= minPt` cut, in their order. */
  function Accepted(cs: seq<Candidate>, minPt: real): (acc: seq<Candidate>)
    ensures |acc| <= |cs|
    ensures forall k :: 0 <= k < |acc| ==> acc[k].pt >= minPt && acc[k] in cs
    decreases |cs|
  {
    if cs == [] then []
    else
      var last := cs[|cs| - 1];
      Accepted(cs[..|cs| - 1], minPt) + (if last.pt < minPt then [] else [last])
  }

  /** The entries a sequence of accepted constituents adds to branch `f`. */
  function Column(acc: seq<Candidate>, f: Field, jet: Jet, subjets: seq<Jet>, svs: seq<Direction>, g: Geometry): seq<Float> {
    seq(|acc|, k requires 0 <= k < |acc| => Get(CandidateFeatures(acc[k], jet, subjets, svs, g), f))
  }

  lemma ColumnSnoc(acc: seq<Candidate>, c: Candidate, f: Field, jet: Jet, subjets: seq<Jet>, svs: seq<Direction>, g: Geometry)
    ensures Column(acc + [c], f, jet, subjets, svs, g)
         == Column(acc, f, jet, subjets, svs, g) + [Get(CandidateFeatures(c, jet, subjets, svs, g), f)]
  {
    var lhs := Column(acc + [c], f, jet, subjets, svs, g);
    var rhs := Column(acc, f, jet, subjets, svs, g) + [Get(CandidateFeatures(c, jet, subjets, svs, g), f)];
    assert |lhs| == |rhs|;
    forall k | 0 <= k < |lhs| ensures lhs[k] == rhs[k] {
      if k < |acc| {
        assert (acc + [c])[k] == acc[k];
      }
    }
  }

  // ---------------------------------------------------------------------
  // The nearest secondary vertex

  /** The scan over the secondary vertices for the one nearest to `p`. */
  method NearestSv(g: Geometry, p: Direction, svs: seq<Direction>) returns (minDR: real)
    ensures minDR == MinSvDistance(g, p, svs)
  {
    minDR := 999.0;
    for i := 0 to |svs|
      invariant minDR == MinSvDistance(g, p, svs[..i])
    {
      assert svs[..i + 1][..i] == svs[..i];
      var dr := g.deltaR(p, svs[i]);
      if dr < minDR {
        minDR := dr;
      }
    }
    assert svs[..|svs|] == svs;
  }


  // ---------------------------------------------------------------------
  // The filler

  class PFCandidateFiller {
    const minPt: real
    /** The secondary vertices of the current event (read from the event by
        `readEvent`, which is not part of this model). */
    var svs: seq<Direction>
    const data: TreeData<Branch>

    constructor (minPt: real, data: TreeData<Branch>)
      ensures this.minPt == minPt && this.data == data && svs == []
    {
      this.minPt := minPt;
      this.data := data;
      svs := [];
    }

    /** `book()`: declares the two counts, both defaulting to 0, and the 24
        multi branches. */
    method Book()
      requires data.Valid()
      requires data.multi == map[] && data.scalars == map[]
      modifies data
      ensures Booked(data)
      ensures data.multi == BookedColumns()
      ensures data.scalars == map[NPfcands := ScalarField(IntValue(0), IntValue(0)),
                                  NpfcandsF := ScalarField(FloatValue(Num(0.0)), FloatValue(Num(0.0)))]
    {
      data.Add(NPfcands, IntValue(0));
      data.Add(NpfcandsF, FloatValue(Num(0.0)));
      BookKinematics();
      BookNeighbours();
      BookIdentity();
      BookDetector();
      BookImpactParameters();
      BookedState(data);
    }

    /** Declares the basic kinematics, valid for both charged and neutral. */
    method BookKinematics()
      requires data.multi == map[]
      requires forall k: Branch :: k in data.scalars ==> !k.Multi?
      modifies data`multi
      ensures data.multi == DeclareKinematics(old(data.multi))
    {
      data.AddMulti(Multi(PtRel));
      data.AddMulti(Multi(ERel));
      data.AddMulti(Multi(PhiRel));
      data.AddMulti(Multi(EtaRel));
      data.AddMulti(Multi(DeltaR));
      data.AddMulti(Multi(PuppiW));
      data.AddMulti(Multi(Mass));
    }

    /** Declares the distances to the nearest secondary vertex and to the sub-jets. */
    method BookNeighbours()
      requires data.multi == DeclareKinematics(map[])
      requires forall k: Branch :: k in data.scalars ==> !k.Multi?
      modifies data`multi
      ensures data.multi == DeclareNeighbours(old(data.multi))
    {
      data.AddMulti(Multi(DrMinSv));
      data.AddMulti(Multi(DrSubjet1));
      data.AddMulti(Multi(DrSubjet2));
    }

    /** Declares the charge and particle-identity flags. */
    method BookIdentity()
      requires data.multi == DeclareNeighbours(DeclareKinematics(map[]))
      requires forall k: Branch :: k in data.scalars ==> !k.Multi?
      modifies data`multi
      ensures data.multi == DeclareIdentity(old(data.multi))
    {
      data.AddMulti(Multi(Charge));
      data.AddMulti(Multi(IsMu));
      data.AddMulti(Multi(IsEl));
      data.AddMulti(Multi(IsGamma));
      data.AddMulti(Multi(IsChargedHad));
      data.AddMulti(Multi(IsNeutralHad));
    }

    /** Declares the calorimeter fraction (for neutral) and track quality (for charged). */
    method BookDetector()
      requires data.multi == DeclareIdentity(DeclareNeighbours(DeclareKinematics(map[])))
      requires forall k: Branch :: k in data.scalars ==> !k.Multi?
      modifies data`multi
      ensures data.multi == DeclareDetector(old(data.multi))
    {
      // for neutral
      data.AddMulti(Multi(HcalFrac));
      // for charged
      data.AddMulti(Multi(VtxAss));
      data.AddMulti(Multi(FromPV));
      data.AddMulti(Multi(LostInnerHits));
    }

    /** Declares the impact parameters and their significances. */
    method BookImpactParameters()
      requires data.multi == DeclareDetector(DeclareIdentity(DeclareNeighbours(DeclareKinematics(map[]))))
      requires forall k: Branch :: k in data.scalars ==> !k.Multi?
      modifies data`multi
      ensures data.multi == DeclareImpactParameters(old(data.multi))
    {
      data.AddMulti(Multi(Dz));
      data.AddMulti(Multi(DzSig));
      data.AddMulti(Multi(Dxy));
      data.AddMulti(Multi(DxySig));
    }

    /** Appends `c`'s entries for the basic kinematics, valid for both charged and neutral. */
    method FillKinematics(c: Candidate, jet: Jet, etasign: real, subjets: seq<Jet>, g: Geometry)
      requires etasign == EtaSign(jet.eta)
      requires HasAllFields(data.multi)
      modifies data`multi
      ensures data.multi == AppendKinematics(old(data.multi), CandidateFeatures(c, jet, subjets, svs, g))
    {
      data.FillMulti(Multi(PtRel), Quotient(Num(c.pt), Num(jet.pt)));
      data.FillMulti(Multi(ERel), Quotient(Num(c.energy), Num(jet.energy)));
      data.FillMulti(Multi(PhiRel), Num(g.deltaPhi(c.phi, jet.phi)));
      data.FillMulti(Multi(EtaRel), Num(etasign * (c.eta - jet.eta)));
      data.FillMulti(Multi(DeltaR), Num(g.deltaR(c.Dir(), jet.Dir())));
      data.FillMulti(Multi(PuppiW), Num(c.puppiWeight));
      data.FillMulti(Multi(Mass), Num(c.mass));
    }

    /** Appends `c`'s entries for the distances to the nearest secondary vertex and to the sub-jets. */
    method FillNeighbours(c: Candidate, jet: Jet, etasign: real, subjets: seq<Jet>, g: Geometry)
      requires etasign == EtaSign(jet.eta)
      requires HasAllFields(data.multi)
      modifies data`multi
      ensures data.multi == AppendNeighbours(old(data.multi), CandidateFeatures(c, jet, subjets, svs, g))
    {
      var minDR := NearestSv(g, c.Dir(), svs);
      data.FillMulti(Multi(DrMinSv), Num(if minDR == 999.0 then -1.0 else minDR));
      data.FillMulti(Multi(DrSubjet1), Num(if |subjets| > 0 then g.deltaR(c.Dir(), subjets[0].Dir()) else -1.0));
      data.FillMulti(Multi(DrSubjet2), Num(if |subjets| > 1 then g.deltaR(c.Dir(), subjets[1].Dir()) else -1.0));
    }

    /** Appends `c`'s entries for the charge and particle-identity flags. */
    method FillIdentity(c: Candidate, jet: Jet, etasign: real, subjets: seq<Jet>, g: Geometry)
      requires etasign == EtaSign(jet.eta)
      requires HasAllFields(data.multi)
      modifies data`multi
      ensures data.multi == AppendIdentity(old(data.multi), CandidateFeatures(c, jet, subjets, svs, g))
    {
      var absId := if c.pdgId < 0 then -c.pdgId else c.pdgId;
      data.FillMulti(Multi(Charge), FromInt(c.charge));
      data.FillMulti(Multi(IsEl), FromBool(absId == 11));
      data.FillMulti(Multi(IsMu), FromBool(absId == 13));
      data.FillMulti(Multi(IsGamma), FromBool(absId == 22));
      data.FillMulti(Multi(IsChargedHad), FromBool(absId == 211));
      data.FillMulti(Multi(IsNeutralHad), FromBool(absId == 130));
    }

    /** Appends `c`'s entries for the calorimeter fraction (for neutral) and track quality (for charged). */
    method FillDetector(c: Candidate, jet: Jet, etasign: real, subjets: seq<Jet>, g: Geometry)
      requires etasign == EtaSign(jet.eta)
      requires HasAllFields(data.multi)
      modifies data`multi
      ensures data.multi == AppendDetector(old(data.multi), CandidateFeatures(c, jet, subjets, svs, g))
    {
      // for neutral
      data.FillMulti(Multi(HcalFrac), Num(c.hcalFraction));
      // for charged
      data.FillMulti(Multi(VtxAss), FromInt(c.pvAssociationQuality));
      data.FillMulti(Multi(FromPV), FromInt(c.fromPV));
      data.FillMulti(Multi(LostInnerHits), FromInt(c.lostInnerHits));
    }

    /** Appends `c`'s entries for the impact parameters and their significances. */
    method FillImpactParameters(c: Candidate, jet: Jet, etasign: real, subjets: seq<Jet>, g: Geometry)
      requires etasign == EtaSign(jet.eta)
      requires HasAllFields(data.multi)
      modifies data`multi
      ensures data.multi == AppendImpactParameters(old(data.multi), CandidateFeatures(c, jet, subjets, svs, g))
    {
      data.FillMulti(Multi(Dz), Num(CatchInfs(c.dz, 0.0)));
      data.FillMulti(Multi(Dxy), Num(CatchInfs(c.dxy, 0.0)));
      data.FillMulti(Multi(DzSig), Num(CatchInfsAndBound(Quotient(c.dz, c.dzError), 0.0, -2000.0, 2000.0)));
      data.FillMulti(Multi(DxySig), Num(CatchInfsAndBound(Quotient(c.dxy, c.dxyError), 0.0, -2000.0, 2000.0)));
    }

    /** The body of `fill`'s loop for one accepted constituent: one entry
        appended to every multi branch, in the source's order. */
    method AppendCandidate(c: Candidate, jet: Jet, etasign: real, subjets: seq<Jet>, g: Geometry)
      requires etasign == EtaSign(jet.eta)
      requires HasAllFields(data.multi)
      modifies data`multi
      ensures data.multi.Keys == old(data.multi.Keys)
      ensures forall f: Field ::
                data.multi[Multi(f)] == old(data.multi[Multi(f)]) + [Get(CandidateFeatures(c, jet, subjets, svs, g), f)]
    {
      ghost var m0 := data.multi;
      ghost var row := CandidateFeatures(c, jet, subjets, svs, g);
      FillKinematics(c, jet, etasign, subjets, g);
      FillNeighbours(c, jet, etasign, subjets, g);
      FillIdentity(c, jet, etasign, subjets, g);
      FillDetector(c, jet, etasign, subjets, g);
      FillImpactParameters(c, jet, etasign, subjets, g);
      assert data.multi == AppendRow(m0, row);
      forall f: Field ensures data.multi[Multi(f)] == m0[Multi(f)] + [Get(row, f)] {
        AppendRowAt(m0, row, f);
      }
    }

    /** `fill(jet, jetidx, jet_helper)`: every constituent with `pt >= minPt`
        appends one entry to each multi branch, the others touch nothing;
        both counts then hold the number accepted. Always succeeds. */
    method Fill(jet: Jet, jetIdx: nat, helper: JetHelper, g: Geometry) returns (ok: bool)
      requires Booked(data)
      modifies data
      ensures ok
      ensures Booked(data)
      ensures data.multi.Keys == old(data.multi.Keys)
      ensures forall f: Field ::
                data.multi[Multi(f)] == old(data.multi[Multi(f)]) + Column(Accepted(helper.constituents, minPt), f, jet, helper.subjets, svs, g)
      ensures var n := |Accepted(helper.constituents, minPt)|;
        data.scalars == old(data.scalars)[NPfcands := ScalarField(IntValue(n), old(data.scalars)[NPfcands].default)]
                                         [NpfcandsF := ScalarField(FloatValue(Num(n as real)), old(data.scalars)[NpfcandsF].default)]
      ensures forall f: Field :: |data.multi[Multi(f)]| == |old(data.multi[Multi(f)])| + data.scalars[NPfcands].value.i
    {
      var jetConstituents := helper.constituents;
      var nConstituents := 0;
      var etasign := if jet.eta > 0.0 then 1.0 else -1.0;

      for i := 0 to |jetConstituents|
        invariant nConstituents == |Accepted(jetConstituents[..i], minPt)|
        invariant Booked(data) && data.scalars == old(data.scalars)
        invariant data.multi.Keys == old(data.multi.Keys)
        invariant forall f: Field ::
                    data.multi[Multi(f)] == old(data.multi[Multi(f)]) + Column(Accepted(jetConstituents[..i], minPt), f, jet, helper.subjets, svs, g)
      {
        var pfcand := jetConstituents[i];
        assert jetConstituents[..i + 1][..i] == jetConstituents[..i];
        if pfcand.pt < minPt {
          continue;
        }
        nConstituents := nConstituents + 1;
        ghost var before := Accepted(jetConstituents[..i], minPt);
        AppendCandidate(pfcand, jet, etasign, helper.subjets, g);
        forall f: Field
          ensures Column(before + [pfcand], f, jet, helper.subjets, svs, g)
               == Column(before, f, jet, helper.subjets, svs, g) + [Get(CandidateFeatures(pfcand, jet, helper.subjets, svs, g), f)]
        {
          ColumnSnoc(before, pfcand, f, jet, helper.subjets, svs, g);
        }
      }
      assert jetConstituents[..|jetConstituents|] == jetConstituents;
      data.Fill(NPfcands, IntValue(nConstituents));
      data.Fill(NpfcandsF, FloatValue(Num(nConstituents as real)));
      ok := true;
    }

    /** One jet's record as the caller produces it: the buffer is reset,
        then filled. Every multi branch then holds exactly the kept
        constituents' features, so all of them have `n_pfcands` entries. */
    method ResetAndFill(jet: Jet, jetIdx: nat, helper: JetHelper, g: Geometry) returns (ok: bool)
      requires Booked(data)
      modifies data
      ensures ok && Booked(data)
      ensures forall f: Field ::
                data.multi[Multi(f)] == Column(Accepted(helper.constituents, minPt), f, jet, helper.subjets, svs, g)
      ensures forall f: Field :: |data.multi[Multi(f)]| == data.scalars[NPfcands].value.i
      ensures data.scalars[NPfcands].value == IntValue(|Accepted(helper.constituents, minPt)|)
      ensures data.scalars[NpfcandsF].value == FloatValue(Num(|Accepted(helper.constituents, minPt)| as real))
    {
      data.Reset();
      ok := Fill(jet, jetIdx, helper, g);
    }
  }
}
