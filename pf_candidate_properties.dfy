/** What the particle-flow candidate filler promises about the entries it
    writes: the branch names are distinct, the `pt` cut selects exactly the
    constituents at or above the threshold, the sentinels mean what they
    say, the identity flags are exclusive and the significances are
    bounded. */
module PFCandidateProperties {
  import opened NumericGuard
  import opened PFCandidates

  // ---------------------------------------------------------------------
  // The schema

  /** No two multi branches share a name. */
  lemma NameInjective(f: Field, g: Field)
    requires f != g
    ensures Name(f) != Name(g)
  {
    var a, b := Name(f), Name(g);
    if |a| == |b| {
      if a[7] == b[7] {
        if a[8] == b[8] {
          if a[9] == b[9] {
            assert a[10] != b[10] || a[11] != b[11] || a[|a| - 1] != b[|b| - 1];
          }
        }
      }
    }
  }

  /** The 26 branches of the filler have 26 distinct names. */
  lemma BranchNameInjective(a: Branch, b: Branch)
    requires a != b
    ensures BranchName(a) != BranchName(b)
  {
    match (a, b)
    case (Multi(f), Multi(g)) => NameInjective(f, g);
    case (Multi(f), _) => assert BranchName(a)[1] != BranchName(b)[1];
    case (_, Multi(g)) => assert BranchName(a)[1] != BranchName(b)[1];
    case (NPfcands, NpfcandsF) => assert |BranchName(a)| != |BranchName(b)|;
    case (NpfcandsF, NPfcands) => assert |BranchName(a)| != |BranchName(b)|;
  }

  // ---------------------------------------------------------------------
  // The pt cut

  /** The number of constituents at or above the threshold, counted from
      the front. */
  function CountAbove(cs: seq<Candidate>, minPt: real): (n: nat)
    ensures n <= |cs|
  {
    if cs == [] then 0
    else (if cs[0].pt >= minPt then 1 else 0) + CountAbove(cs[1..], minPt)
  }

  /** Filtering a concatenation filters each part. */
  lemma {:induction false} AcceptedAppend(xs: seq<Candidate>, ys: seq<Candidate>, minPt: real)
    ensures Accepted(xs + ys, minPt) == Accepted(xs, minPt) + Accepted(ys, minPt)
    decreases |ys|
  {
    if ys == [] {
      assert xs + ys == xs;
    } else {
      var init, last := ys[..|ys| - 1], ys[|ys| - 1];
      assert (xs + ys)[..|xs + ys| - 1] == xs + init;
      assert (xs + ys)[|xs + ys| - 1] == last;
      AcceptedAppend(xs, init, minPt);
    }
  }

  /** Filtering from the front: the first constituent is kept exactly when
      it passes the cut. */
  lemma AcceptedCons(c: Candidate, cs: seq<Candidate>, minPt: real)
    ensures Accepted([c] + cs, minPt) == (if c.pt < minPt then [] else [c]) + Accepted(cs, minPt)
  {
    AcceptedAppend([c], cs, minPt);
    assert [c][..0] == [];
  }

  /** A constituent below the threshold changes nothing, wherever it stands. */
  lemma RejectedLeavesNoTrace(xs: seq<Candidate>, c: Candidate, ys: seq<Candidate>, minPt: real)
    requires c.pt < minPt
    ensures Accepted(xs + [c] + ys, minPt) == Accepted(xs + ys, minPt)
  {
    AcceptedAppend(xs + [c], ys, minPt);
    AcceptedAppend(xs, [c], minPt);
    AcceptedAppend(xs, ys, minPt);
    assert [c][..0] == [];
  }

  /** `nConstituents`, the length of what is kept, is the number of
      constituents at or above the threshold. */
  lemma {:induction false} AcceptedCount(cs: seq<Candidate>, minPt: real)
    ensures |Accepted(cs, minPt)| == CountAbove(cs, minPt)
    decreases |cs|
  {
    if cs != [] {
      assert cs == [cs[0]] + cs[1..];
      AcceptedCons(cs[0], cs[1..], minPt);
      AcceptedCount(cs[1..], minPt);
    }
  }

  /** Exactly the constituents at or above the threshold are kept. */
  lemma {:induction false} AcceptedMembers(cs: seq<Candidate>, minPt: real, c: Candidate)
    ensures c in Accepted(cs, minPt) <==> c in cs && c.pt >= minPt
    decreases |cs|
  {
    if cs != [] {
      var init := cs[..|cs| - 1];
      assert cs == init + [cs[|cs| - 1]];
      AcceptedMembers(init, minPt, c);
    }
  }

  // ---------------------------------------------------------------------
  // Per-candidate entries

  /** `pfcand_drminsv` without secondary vertices is the sentinel -1. */
  lemma DrMinSvWithoutVertices(c: Candidate, jet: Jet, subjets: seq<Jet>, g: Geometry)
    ensures CandidateFeatures(c, jet, subjets, [], g).drminsv == Num(-1.0)
  {
  }

  /** With non-negative distances, `pfcand_drminsv` is -1 exactly when no
      secondary vertex lies closer than 999; otherwise it is the smallest
      distance to a secondary vertex, and that distance is attained. */
  lemma DrMinSvIsNearest(c: Candidate, jet: Jet, subjets: seq<Jet>, svs: seq<Direction>, g: Geometry)
    requires NonNegativeDeltaR(g)
    ensures var e := CandidateFeatures(c, jet, subjets, svs, g).drminsv;
      && e.Num?
      && (e.r == -1.0 <==> forall k :: 0 <= k < |svs| ==> g.deltaR(c.Dir(), svs[k]) >= 999.0)
      && (e.r != -1.0 ==>
            0.0 <= e.r < 999.0 &&
            (forall k :: 0 <= k < |svs| ==> e.r <= g.deltaR(c.Dir(), svs[k])) &&
            (exists k :: 0 <= k < |svs| && e.r == g.deltaR(c.Dir(), svs[k])))
  {
    var p := c.Dir();
    var m := MinSvDistance(g, p, svs);
    if m != 999.0 {
      var k :| 0 <= k < |svs| && m == g.deltaR(p, svs[k]);
      assert g.deltaR(p, svs[k]) >= 0.0;
    }
  }

  /** `pfcand_drsubjet1` and `pfcand_drsubjet2`: -1 when the jet lacks that
      sub-jet, otherwise the distance to it. */
  lemma SubjetSentinels(c: Candidate, jet: Jet, subjets: seq<Jet>, svs: seq<Direction>, g: Geometry)
    ensures var row := CandidateFeatures(c, jet, subjets, svs, g);
      && (|subjets| == 0 ==> row.drsubjet1 == Num(-1.0))
      && (|subjets| > 0 ==> row.drsubjet1 == Num(g.deltaR(c.Dir(), subjets[0].Dir())))
      && (|subjets| <= 1 ==> row.drsubjet2 == Num(-1.0))
      && (|subjets| > 1 ==> row.drsubjet2 == Num(g.deltaR(c.Dir(), subjets[1].Dir())))
  {
  }

  /** |pdgId| is one of the five codes the identity flags test. */
  predicate KnownSpecies(pdgId: int) {
    var a := if pdgId < 0 then -pdgId else pdgId;
    a == 11 || a == 13 || a == 22 || a == 211 || a == 130
  }

  /** The five identity flags are each 0 or 1, at most one of them is 1,
      and one of them is 1 exactly for the five known species. */
  lemma IdentityFlagsExclusive(c: Candidate, jet: Jet, subjets: seq<Jet>, svs: seq<Direction>, g: Geometry)
    ensures var row := CandidateFeatures(c, jet, subjets, svs, g);
      var flags := [row.isEl, row.isMu, row.isGamma, row.isChargedHad, row.isNeutralHad];
      && (forall k :: 0 <= k < 5 ==> flags[k] == Num(0.0) || flags[k] == Num(1.0))
      && (forall j, k :: 0 <= j < k < 5 ==> flags[j] == Num(0.0) || flags[k] == Num(0.0))
      && ((row.isEl.r + row.isMu.r + row.isGamma.r + row.isChargedHad.r + row.isNeutralHad.r == 1.0)
          <==> KnownSpecies(c.pdgId))
  {
  }

  /** `pfcand_etarel` is the constituent's eta offset from the jet, taken
      positive towards the jet's own side when the jet's eta is strictly
      positive, and mirrored otherwise (a jet at eta 0 is mirrored). */
  lemma EtaRelOrientation(c: Candidate, jet: Jet, subjets: seq<Jet>, svs: seq<Direction>, g: Geometry)
    ensures var e := CandidateFeatures(c, jet, subjets, svs, g).etarel;
      && e.Num?
      && (jet.eta > 0.0 ==> e.r == c.eta - jet.eta)
      && (jet.eta <= 0.0 ==> e.r == jet.eta - c.eta)
  {
  }

  /** `pfcand_dz` and `pfcand_dxy` are the impact parameters when finite
      and 0 otherwise. `pfcand_dzsig` and `pfcand_dxysig` lie in
      [-2000, 2000]: an undefined or infinite ratio gives 0 (a zero or NaN
      uncertainty, a non-finite value), and a finite ratio is clamped into
      the window, so one inside it is stored as is. */
  lemma ImpactParametersSanitised(c: Candidate, jet: Jet, subjets: seq<Jet>, svs: seq<Direction>, g: Geometry)
    ensures var row := CandidateFeatures(c, jet, subjets, svs, g);
      && row.dz.Num? && row.dxy.Num? && row.dzsig.Num? && row.dxysig.Num?
      && (IsFinite(c.dz) ==> row.dz.r == c.dz.r) && (!IsFinite(c.dz) ==> row.dz.r == 0.0)
      && (IsFinite(c.dxy) ==> row.dxy.r == c.dxy.r) && (!IsFinite(c.dxy) ==> row.dxy.r == 0.0)
      && -2000.0 <= row.dzsig.r <= 2000.0 && -2000.0 <= row.dxysig.r <= 2000.0
      && (!IsFinite(Quotient(c.dz, c.dzError)) ==> row.dzsig.r == 0.0)
      && (!IsFinite(Quotient(c.dxy, c.dxyError)) ==> row.dxysig.r == 0.0)
      && (IsFinite(Quotient(c.dz, c.dzError)) ==> row.dzsig.r == Clamp(Quotient(c.dz, c.dzError).r, -2000.0, 2000.0))
      && (IsFinite(Quotient(c.dxy, c.dxyError)) ==> row.dxysig.r == Clamp(Quotient(c.dxy, c.dxyError).r, -2000.0, 2000.0))
      && (!IsFinite(c.dz) || c.dzError.NaN? || (IsFinite(c.dzError) && c.dzError.r == 0.0) ==> row.dzsig.r == 0.0)
      && (!IsFinite(c.dxy) || c.dxyError.NaN? || (IsFinite(c.dxyError) && c.dxyError.r == 0.0) ==> row.dxysig.r == 0.0)
  {
  }

  // ---------------------------------------------------------------------
  // A worked jet

  /** The jet of the worked example: pt 500, energy 600. */
  function ExampleJet(): Jet {
    Jet(500.0, 600.0, 1.0, 0.0)
  }

  /** A charged hadron of pt 50 with impact parameters 0 and
      uncertainties 0.1. */
  function ExampleHadron(): Candidate {
    Candidate(50.0, 60.0, 1.1, 0.1, 1.0, 0.14, 1, 211, 0.0, 7, 3, 0,
              Num(0.0), Num(0.1), Num(0.0), Num(0.1))
  }

  /** A soft photon of pt 1. */
  function ExampleSoft(): Candidate {
    Candidate(1.0, 1.0, 0.5, 0.5, 1.0, 0.0, 0, 22, 0.0, 0, 0, 0,
              Num(0.0), Num(0.1), Num(0.0), Num(0.1))
  }

  /** Under a threshold of 2 only the hadron is kept. */
  lemma ExampleAccepted()
    ensures Accepted([ExampleHadron(), ExampleSoft()], 2.0) == [ExampleHadron()]
  {
    var h, s := ExampleHadron(), ExampleSoft();
    assert [h, s][..1] == [h];
    assert [h][..0] == [];
  }

  /** The hadron's row, in a jet without sub-jets or secondary vertices. */
  lemma ExampleHadronRow(g: Geometry)
    ensures var row := CandidateFeatures(ExampleHadron(), ExampleJet(), [], [], g);
      && row.ptrel == Num(0.1) && row.isChargedHad == Num(1.0) && row.isGamma == Num(0.0)
      && row.dz == Num(0.0) && row.dzsig == Num(0.0) && row.drminsv == Num(-1.0)
  {
    assert 50.0 / 500.0 == 0.1;
  }

  /** A jet of pt 500 with a charged hadron of pt 50 (impact parameters 0,
      uncertainties 0.1) and a soft constituent of pt 1, under a threshold
      of 2: only the hadron is kept, with ptrel 0.1, the charged-hadron
      flag set, the photon flag clear, dz and dzsig 0, and drminsv -1. */
  lemma WorkedJet(g: Geometry)
    ensures var acc := Accepted([ExampleHadron(), ExampleSoft()], 2.0);
      var jet := ExampleJet();
      && |acc| == 1
      && Column(acc, PtRel, jet, [], [], g) == [Num(0.1)]
      && Column(acc, IsChargedHad, jet, [], [], g) == [Num(1.0)]
      && Column(acc, IsGamma, jet, [], [], g) == [Num(0.0)]
      && Column(acc, Dz, jet, [], [], g) == [Num(0.0)]
      && Column(acc, DzSig, jet, [], [], g) == [Num(0.0)]
      && Column(acc, DrMinSv, jet, [], [], g) == [Num(-1.0)]
  {
    ExampleAccepted();
    ExampleHadronRow(g);
    var h, jet := ExampleHadron(), ExampleJet();
    var row := CandidateFeatures(h, jet, [], [], g);
    forall f: Field ensures Column([h], f, jet, [], [], g) == [Get(row, f)] {
      ColumnSnoc([], h, f, jet, [], [], g);
      assert [] + [h] == [h];
    }
  }
}
