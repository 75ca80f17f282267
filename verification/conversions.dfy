/** Conversions between the contract types and their wire forms. A wire payout function stores the point
    shared by two pieces once: as the end point of the right one. */
module Conversions {
  import opened Wrappers
  import opened PayoutCurve

  // ---------- Payout functions ----------

  datatype SerCurvePiece =
    | SerPolynomial(innerPoints: seq<PayoutPoint>)
    | SerHyperbola(usePositivePiece: bool, translateOutcome: real, translatePayout: real, a: real, b: real, c: real, d: real)

  datatype SerFunctionPiece = SerFunctionPiece(endPoint: PayoutPoint, curve: SerCurvePiece)

  datatype SerPayoutFunction = SerPayoutFunction(pieces: seq<SerFunctionPiece>, lastEndpoint: PayoutPoint)

  /** The conversion panics without pieces and on polynomials with fewer than two points. */
  predicate Convertible(f: PayoutFunction) {
    f.pieces != [] && forall i :: 0 <= i < |f.pieces| ==> HasTwoPoints(f.pieces[i])
  }

  predicate HasTwoPoints(p: Piece) {
    p.Polynomial? ==> |p.points| >= 2
  }

  function PieceToSer(p: Piece): SerFunctionPiece
    requires HasTwoPoints(p)
  {
    match p
    case Polynomial(points) => SerFunctionPiece(points[0], SerPolynomial(points[1..|points| - 1]))
    case Hyperbola(left, _, positive, x, y, a, b, c, d) => SerFunctionPiece(left, SerHyperbola(positive, x, y, a, b, c, d))
  }

  function PiecesToSer(pieces: seq<Piece>): (r: seq<SerFunctionPiece>)
    requires forall i :: 0 <= i < |pieces| ==> HasTwoPoints(pieces[i])
    ensures |r| == |pieces| && forall i :: 0 <= i < |r| ==> r[i] == PieceToSer(pieces[i])
  {
    seq(|pieces|, i requires 0 <= i < |pieces| => PieceToSer(pieces[i]))
  }

  function FunctionToSer(f: PayoutFunction): (s: Option<SerPayoutFunction>)
    ensures s.Some? <==> Convertible(f)
  {
    if Convertible(f) then Some(SerPayoutFunction(PiecesToSer(f.pieces), LastPoint(f.pieces[|f.pieces| - 1]))) else None
  }

  /** `from_ser_payout_function_piece`. */
  function PieceFromSer(p: SerFunctionPiece, right: PayoutPoint): Piece {
    match p.curve
    case SerPolynomial(inner) => Polynomial([p.endPoint] + inner + [right])
    case SerHyperbola(positive, x, y, a, b, c, d) => Hyperbola(p.endPoint, right, positive, x, y, a, b, c, d)
  }

  /** The right end point of each piece: the end point of the next one, or the last end point. */
  function RightEnd(s: SerPayoutFunction, i: nat): PayoutPoint
    requires i < |s.pieces|
  {
    if i + 1 < |s.pieces| then s.pieces[i + 1].endPoint else s.lastEndpoint
  }

  function FunctionFromSer(s: SerPayoutFunction): PayoutFunction {
    PayoutFunction(seq(|s.pieces|, i requires 0 <= i < |s.pieces| => PieceFromSer(s.pieces[i], RightEnd(s, i))))
  }

  lemma PieceRoundTripIff(p: Piece, right: PayoutPoint)
    requires HasTwoPoints(p)
    ensures PieceFromSer(PieceToSer(p), right) == p <==> LastPoint(p) == right
  {
    if p.Polynomial? {
      var n := |p.points|;
      assert p.points == [p.points[0]] + p.points[1..n - 1] + [p.points[n - 1]];
      assert ([p.points[0]] + p.points[1..n - 1] + [right])[n - 1] == right;
    }
  }

  /** The pieces of a function that went over the wire. */
  lemma PiecesBack(f: PayoutFunction)
    requires Convertible(f)
    ensures AllHavePoints(f.pieces)
    ensures var s := FunctionToSer(f).value; var g := FunctionFromSer(s);
            && |g.pieces| == |f.pieces| == |s.pieces|
            && forall i :: 0 <= i < |f.pieces| ==> g.pieces[i] == PieceFromSer(PieceToSer(f.pieces[i]), RightEnd(s, i))
  {
    hide PieceToSer, PieceFromSer;
  }

  lemma RightEndOf(f: PayoutFunction, i: nat)
    requires Convertible(f) && AllHavePoints(f.pieces) && i < |f.pieces|
    ensures |FunctionToSer(f).value.pieces| == |f.pieces|
    ensures RightEnd(FunctionToSer(f).value, i) == if i + 1 < |f.pieces| then FirstPoint(f.pieces[i + 1]) else LastPoint(f.pieces[i])
  {
  }

  /** Piece by piece, what comes back is what was sent exactly where the piece meets the next one. */
  lemma PieceBackIff(f: PayoutFunction, i: nat)
    requires Convertible(f) && AllHavePoints(f.pieces) && i < |f.pieces|
    ensures |FunctionFromSer(FunctionToSer(f).value).pieces| == |f.pieces|
    ensures FunctionFromSer(FunctionToSer(f).value).pieces[i] == f.pieces[i]
            <==> (i + 1 < |f.pieces| ==> LastPoint(f.pieces[i]) == FirstPoint(f.pieces[i + 1]))
  {
    hide PieceToSer, PieceFromSer, FunctionToSer, FunctionFromSer, RightEnd;
    PiecesBack(f);
    RightEndOf(f, i);
    PieceRoundTripIff(f.pieces[i], RightEnd(FunctionToSer(f).value, i));
  }

  /** The wire form keeps a function exactly when the function is continuous. */
  lemma FunctionRoundTripIff(f: PayoutFunction)
    requires Convertible(f)
    ensures AllHavePoints(f.pieces)
    ensures FunctionFromSer(FunctionToSer(f).value) == f <==> Continuous(f.pieces)
  {
    hide FunctionToSer, FunctionFromSer, HasTwoPoints, FirstPoint, LastPoint;
    PiecesBack(f);
    if Continuous(f.pieces) {
      ContinuousComesBack(f);
    } else {
      var i :| 0 < i < |f.pieces| && LastPoint(f.pieces[i - 1]) != FirstPoint(f.pieces[i]);
      PieceBackIff(f, i - 1);
    }
  }

  lemma ContinuousComesBack(f: PayoutFunction)
    requires Convertible(f) && AllHavePoints(f.pieces) && Continuous(f.pieces)
    ensures FunctionFromSer(FunctionToSer(f).value) == f
  {
    hide FunctionToSer, FunctionFromSer, HasTwoPoints, FirstPoint, LastPoint;
    PiecesBack(f);
    var g := FunctionFromSer(FunctionToSer(f).value);
    forall i | 0 <= i < |f.pieces| ensures g.pieces[i] == f.pieces[i] {
      PieceBackIff(f, i);
      if i + 1 < |f.pieces| {
        assert LastPoint(f.pieces[i + 1 - 1]) == FirstPoint(f.pieces[i + 1]);
      }
    }
    assert g.pieces == f.pieces;
  }

  /** Every wire function with pieces comes from a continuous function, and from no other one. */
  lemma SerFunctionRoundTrip(s: SerPayoutFunction)
    requires s.pieces != []
    ensures var f := FunctionFromSer(s);
            && Convertible(f) && AllHavePoints(f.pieces) && Continuous(f.pieces)
            && FunctionToSer(f) == Some(s)
  {
    hide PieceFromSer, PieceToSer, HasTwoPoints, HasPoints, FirstPoint, LastPoint;
    var f := FunctionFromSer(s);
    forall i | 0 <= i < |s.pieces|
      ensures HasTwoPoints(f.pieces[i]) && HasPoints(f.pieces[i]) && PieceToSer(f.pieces[i]) == s.pieces[i]
      ensures FirstPoint(f.pieces[i]) == s.pieces[i].endPoint && LastPoint(f.pieces[i]) == RightEnd(s, i)
    {
      SerPieceBack(s.pieces[i], RightEnd(s, i));
    }
    assert PiecesToSer(f.pieces) == s.pieces;
  }

  lemma SerPieceBack(p: SerFunctionPiece, right: PayoutPoint)
    ensures var piece := PieceFromSer(p, right);
            && HasTwoPoints(piece) && HasPoints(piece) && PieceToSer(piece) == p
            && FirstPoint(piece) == p.endPoint && LastPoint(piece) == right
  {
    if p.curve.SerPolynomial? {
      var points := [p.endPoint] + p.curve.innerPoints + [right];
      assert points[1..|points| - 1] == p.curve.innerPoints;
    }
  }

  // ---------- Contract infos ----------

  datatype EventDescriptor = EnumEvent(outcomes: seq<string>) | DigitDecompositionEvent(base: nat, nbDigits: U16)

  datatype Announcement = Announcement(oracle: nat, event: EventDescriptor)

  datatype EnumerationPayout = EnumerationPayout(outcome: string, offer: nat, accept: nat)

  datatype DifferenceParams = DifferenceParams(maxErrorExp: nat, minSupportExp: nat, maximizeCoverage: bool)

  datatype Descriptor =
    | Enumerated(payouts: seq<EnumerationPayout>)
    | Numerical(payoutFunction: PayoutFunction, intervals: seq<RoundingInterval>, difference: Option<DifferenceParams>,
                base: nat, nbDigits: seq<nat>)

  datatype ContractInfo = ContractInfo(descriptor: Descriptor, announcements: seq<Announcement>, threshold: nat)

  datatype ContractOutcome = ContractOutcome(outcome: string, offer: nat)

  datatype SerDescriptor =
    | SerEnumerated(payouts: seq<ContractOutcome>)
    | SerNumerical(numDigits: nat, payoutFunction: SerPayoutFunction, intervals: seq<RoundingInterval>)

  datatype OracleParams = OracleParams(maxErrorExp: U16, minFailExp: U16, maximizeCoverage: bool)

  datatype OracleInfo =
    | Single(announcement: Announcement)
    | Multi(threshold: U16, announcements: seq<Announcement>, params: Option<OracleParams>)

  datatype SerInnerInfo = SerInnerInfo(descriptor: SerDescriptor, oracles: OracleInfo)

  datatype SerContractInfo =
    | SingleContractInfo(totalCollateral: nat, inner: SerInnerInfo)
    | DisjointContractInfo(totalCollateral: nat, inners: seq<SerInnerInfo>)

  /** `as u16`. */
  function CastU16(n: nat): U16 {
    n % 0x1_0000
  }

  function Min(ns: seq<nat>): (r: nat)
    requires ns != []
    ensures r in ns && forall k :: 0 <= k < |ns| ==> r <= ns[k]
  {
    if |ns| == 1 then ns[0]
    else if ns[0] < Min(ns[1..]) then ns[0] else Min(ns[1..])
  }

  function OutcomesToSer(payouts: seq<EnumerationPayout>): (r: seq<ContractOutcome>)
    ensures |r| == |payouts| && forall i :: 0 <= i < |r| ==> r[i] == ContractOutcome(payouts[i].outcome, payouts[i].offer)
  {
    seq(|payouts|, i requires 0 <= i < |payouts| => ContractOutcome(payouts[i].outcome, payouts[i].offer))
  }

  function OraclesToSer(info: ContractInfo): OracleInfo {
    if |info.announcements| == 1 then Single(info.announcements[0])
    else if info.descriptor.Numerical? && info.descriptor.difference.Some? then
      var p := info.descriptor.difference.value;
      Multi(CastU16(info.threshold), info.announcements,
            Some(OracleParams(CastU16(p.maxErrorExp), CastU16(p.minSupportExp), p.maximizeCoverage)))
    else Multi(CastU16(info.threshold), info.announcements, None)
  }

  /** Panics, modelled as no value, where the payout function does or no number of digits is given. */
  function DescriptorToSer(d: Descriptor): Option<SerDescriptor> {
    match d
    case Enumerated(payouts) => Some(SerEnumerated(OutcomesToSer(payouts)))
    case Numerical(f, intervals, _, _, nbDigits) =>
      if nbDigits == [] || FunctionToSer(f).None? then None
      else Some(SerNumerical(CastU16(Min(nbDigits)), FunctionToSer(f).value, intervals))
  }

  function InfoToSer(info: ContractInfo): Option<SerInnerInfo> {
    match DescriptorToSer(info.descriptor)
    case None => None
    case Some(d) => Some(SerInnerInfo(d, OraclesToSer(info)))
  }

  /** The payouts of an outcome; an offer payout above the total collateral panics. */
  function OutcomesFromSer(total: nat, outcomes: seq<ContractOutcome>): Option<seq<EnumerationPayout>> {
    if forall i :: 0 <= i < |outcomes| ==> outcomes[i].offer <= total then
      Some(seq(|outcomes|, i requires 0 <= i < |outcomes| && outcomes[i].offer <= total =>
        EnumerationPayout(outcomes[i].outcome, outcomes[i].offer, total - outcomes[i].offer)))
    else None
  }

  function AnnouncementsOf(o: OracleInfo): seq<Announcement> {
    match o
    case Single(a) => [a]
    case Multi(_, announcements, _) => announcements
  }

  function ThresholdOf(o: OracleInfo): nat {
    match o
    case Single(_) => 1
    case Multi(threshold, _, _) => threshold
  }

  function DifferenceOf(o: OracleInfo): Option<DifferenceParams> {
    match o
    case Multi(_, _, Some(p)) => Some(DifferenceParams(p.maxErrorExp, p.minFailExp, p.maximizeCoverage))
    case _ => None
  }

  predicate SameBase(announcements: seq<Announcement>, base: nat) {
    forall i :: 0 <= i < |announcements| ==>
      announcements[i].event.DigitDecompositionEvent? && announcements[i].event.base == base
  }

  function DigitsOf(announcements: seq<Announcement>): (r: seq<nat>)
    requires forall i :: 0 <= i < |announcements| ==> announcements[i].event.DigitDecompositionEvent?
    ensures |r| == |announcements| && forall i :: 0 <= i < |r| ==> r[i] == announcements[i].event.nbDigits
  {
    seq(|announcements|, i requires 0 <= i < |announcements| => announcements[i].event.nbDigits)
  }

  /** One contract info of `get_contract_info_and_announcements`. */
  function InfoFromSer(total: nat, s: SerInnerInfo): Result<ContractInfo, Error> {
    var announcements := AnnouncementsOf(s.oracles);
    match s.descriptor
    case SerEnumerated(outcomes) =>
      (match OutcomesFromSer(total, outcomes)
       case None => Err(Panic)
       case Some(payouts) =>
         if exists i :: 0 <= i < |announcements| && announcements[i].event.DigitDecompositionEvent? then Err(InvalidParameters)
         else Ok(ContractInfo(Enumerated(payouts), announcements, ThresholdOf(s.oracles))))
    case SerNumerical(_, f, intervals) =>
      if announcements == [] || !announcements[0].event.DigitDecompositionEvent?
         || !SameBase(announcements, announcements[0].event.base)
      then Err(InvalidParameters)
      else
        Ok(ContractInfo(Numerical(FunctionFromSer(f), intervals, DifferenceOf(s.oracles), announcements[0].event.base,
                                  DigitsOf(announcements)),
                        announcements, ThresholdOf(s.oracles)))
  }

  // ---------- Whole contracts ----------

  function InfosToSer(infos: seq<ContractInfo>): Option<seq<SerInnerInfo>> {
    if infos == [] then Some([])
    else
      match InfosToSer(infos[..|infos| - 1])
      case None => None
      case Some(done) =>
        match InfoToSer(infos[|infos| - 1])
        case None => None
        case Some(s) => Some(done + [s])
  }

  /** `SerContractInfo::from(&OfferedContract)`. */
  function ContractToSer(total: nat, infos: seq<ContractInfo>): Option<SerContractInfo> {
    match InfosToSer(infos)
    case None => None
    case Some(inners) =>
      if |inners| == 1 then Some(SingleContractInfo(total, inners[0])) else Some(DisjointContractInfo(total, inners))
  }

  function InnersOf(s: SerContractInfo): seq<SerInnerInfo> {
    match s
    case SingleContractInfo(_, inner) => [inner]
    case DisjointContractInfo(_, inners) => inners
  }

  function InfosFromSer(total: nat, inners: seq<SerInnerInfo>): Result<seq<ContractInfo>, Error> {
    if inners == [] then Ok([])
    else
      match InfosFromSer(total, inners[..|inners| - 1])
      case Err(e) => Err(e)
      case Ok(done) =>
        match InfoFromSer(total, inners[|inners| - 1])
        case Err(e) => Err(e)
        case Ok(info) => Ok(done + [info])
  }

  /** `get_contract_info_and_announcements`. */
  method GetContractInfoAndAnnouncements(s: SerContractInfo) returns (r: Result<seq<ContractInfo>, Error>)
    ensures r == InfosFromSer(s.totalCollateral, InnersOf(s))
  {
    var inners := InnersOf(s);
    var infos: seq<ContractInfo> := [];
    for i := 0 to |inners|
      invariant InfosFromSer(s.totalCollateral, inners[..i]) == Ok(infos)
    {
      assert inners[..i + 1][..i] == inners[..i];
      var info := InfoFromSer(s.totalCollateral, inners[i]);
      if info.Err? {
        InfosFailureStays(s.totalCollateral, inners, i + 1);
        return Err(info.error);
      }
      infos := infos + [info.value];
    }
    assert inners[..|inners|] == inners;
    return Ok(infos);
  }

  lemma {:induction false} InfosFailureStays(total: nat, inners: seq<SerInnerInfo>, n: nat)
    requires n <= |inners| && InfosFromSer(total, inners[..n]).Err?
    ensures InfosFromSer(total, inners) == InfosFromSer(total, inners[..n])
  {
    if n < |inners| {
      assert inners[..|inners| - 1][..n] == inners[..n];
      InfosFailureStays(total, inners[..|inners| - 1], n);
    } else {
      assert inners[..n] == inners;
    }
  }

  /** The oracle part of `SerContractInfo::from`, which pushes one entry for each contract info. */
  method OracleInfos(infos: seq<ContractInfo>) returns (r: seq<OracleInfo>)
    ensures |r| == |infos| && forall i :: 0 <= i < |r| ==> r[i] == OraclesToSer(infos[i])
  {
    r := [];
    for i := 0 to |infos|
      invariant |r| == i && forall j :: 0 <= j < i ==> r[j] == OraclesToSer(infos[j])
    {
      var announcements := infos[i].announcements;
      if |announcements| == 1 {
        r := r + [Single(announcements[0])];
      } else {
        if infos[i].descriptor.Numerical? && infos[i].descriptor.difference.Some? {
          var p := infos[i].descriptor.difference.value;
          r := r + [Multi(CastU16(infos[i].threshold), announcements,
                          Some(OracleParams(CastU16(p.maxErrorExp), CastU16(p.minSupportExp), p.maximizeCoverage)))];
          continue;
        }
        r := r + [Multi(CastU16(infos[i].threshold), announcements, None)];
      }
    }
  }

  // ---------- Which contract infos survive ----------

  predicate FitsU16(n: nat) {
    n < 0x1_0000
  }

  predicate WellFormedOracles(info: ContractInfo) {
    if |info.announcements| == 1 then
      info.threshold == 1 && (info.descriptor.Numerical? ==> info.descriptor.difference.None?)
    else
      && FitsU16(info.threshold)
      && (info.descriptor.Numerical? && info.descriptor.difference.Some? ==>
            FitsU16(info.descriptor.difference.value.maxErrorExp) && FitsU16(info.descriptor.difference.value.minSupportExp))
  }

  predicate WellFormedInfo(total: nat, info: ContractInfo) {
    && WellFormedOracles(info)
    && match info.descriptor
       case Enumerated(payouts) =>
         && (forall i :: 0 <= i < |payouts| ==> payouts[i].offer + payouts[i].accept == total)
         && (forall i :: 0 <= i < |info.announcements| ==> info.announcements[i].event.EnumEvent?)
       case Numerical(f, _, _, base, nbDigits) =>
         && Convertible(f) && AllHavePoints(f.pieces) && Continuous(f.pieces)
         && info.announcements != []
         && SameBase(info.announcements, base)
         && nbDigits == DigitsOf(info.announcements)
  }

  lemma OraclesRoundTripIff(info: ContractInfo)
    ensures WellFormedOracles(info) <==>
              && ThresholdOf(OraclesToSer(info)) == info.threshold
              && (info.descriptor.Numerical? ==> DifferenceOf(OraclesToSer(info)) == info.descriptor.difference)
    ensures AnnouncementsOf(OraclesToSer(info)) == info.announcements
  {
  }

  /** A contract info comes back from its wire form exactly when it is well formed: the payouts of an
      enumeration share out the total collateral, a numerical one has a continuous function and the digits of its
      announcements, a single oracle has threshold 1 and no difference parameters, and 16 bits are enough. */
  lemma InfoRoundTripIff(total: nat, info: ContractInfo)
    ensures InfoToSer(info).Some? && InfoFromSer(total, InfoToSer(info).value) == Ok(info) <==> WellFormedInfo(total, info)
  {
    hide InfoToSer, InfoFromSer, WellFormedInfo;
    match info.descriptor
    case Enumerated(_) => EnumeratedRoundTripIff(total, info);
    case Numerical(_, _, _, _, _) => NumericalRoundTripIff(total, info);
  }

  lemma EnumeratedRoundTripIff(total: nat, info: ContractInfo)
    requires info.descriptor.Enumerated?
    ensures InfoToSer(info).Some? && InfoFromSer(total, InfoToSer(info).value) == Ok(info) <==> WellFormedInfo(total, info)
  {
    hide OraclesToSer, WellFormedOracles, OutcomesFromSer, OutcomesToSer, AnnouncementsOf, ThresholdOf, DifferenceOf;
    OraclesRoundTripIff(info);
    OutcomesRoundTripIff(total, info.descriptor.payouts);
  }

  lemma NumericalRoundTripIff(total: nat, info: ContractInfo)
    requires info.descriptor.Numerical?
    ensures InfoToSer(info).Some? && InfoFromSer(total, InfoToSer(info).value) == Ok(info) <==> WellFormedInfo(total, info)
  {
    hide OraclesToSer, WellFormedOracles, FunctionToSer, FunctionFromSer, Convertible, AllHavePoints, Continuous,
         AnnouncementsOf, ThresholdOf, DifferenceOf, DigitsOf;
    OraclesRoundTripIff(info);
    if Convertible(info.descriptor.payoutFunction) {
      FunctionRoundTripIff(info.descriptor.payoutFunction);
    }
  }

  lemma OutcomesRoundTripIff(total: nat, payouts: seq<EnumerationPayout>)
    ensures OutcomesFromSer(total, OutcomesToSer(payouts)) == Some(payouts)
            <==> forall i :: 0 <= i < |payouts| ==> payouts[i].offer + payouts[i].accept == total
  {
    var outcomes := OutcomesToSer(payouts);
    var back := OutcomesFromSer(total, outcomes);
    if back.Some? {
      assert forall i :: 0 <= i < |payouts| ==> (back.value[i] == payouts[i] <==> payouts[i].accept == total - payouts[i].offer);
      if forall i :: 0 <= i < |payouts| ==> payouts[i].offer + payouts[i].accept == total {
        assert back.value == payouts;
      }
    } else {
      var i :| 0 <= i < |outcomes| && outcomes[i].offer > total;
      assert payouts[i].offer + payouts[i].accept != total;
    }
  }

  predicate WellFormedInfos(total: nat, infos: seq<ContractInfo>) {
    forall i :: 0 <= i < |infos| ==> WellFormedInfo(total, infos[i])
  }

  /** Whole contracts come back exactly when each of their infos does. */
  lemma {:induction false} InfosRoundTripIff(total: nat, infos: seq<ContractInfo>)
    ensures InfosToSer(infos).Some? ==> |InfosToSer(infos).value| == |infos|
    ensures InfosToSer(infos).Some? && InfosFromSer(total, InfosToSer(infos).value) == Ok(infos) <==> WellFormedInfos(total, infos)
  {
    hide InfoToSer, InfoFromSer, WellFormedInfo;
    if infos != [] {
      var n := |infos| - 1;
      InfosRoundTripIff(total, infos[..n]);
      InfoRoundTripIff(total, infos[n]);
      assert infos == infos[..n] + [infos[n]];
      assert WellFormedInfos(total, infos) <==> WellFormedInfos(total, infos[..n]) && WellFormedInfo(total, infos[n]);
      if InfosToSer(infos).Some? {
        var done, s := InfosToSer(infos[..n]).value, InfoToSer(infos[n]).value;
        assert (done + [s])[..n] == done;
        var back := InfosFromSer(total, done + [s]);
        if back.Ok? {
          var front, last := InfosFromSer(total, done).value, InfoFromSer(total, s).value;
          InfosFromSerLength(total, done);
          assert front + [last] == infos <==> front == infos[..n] && last == infos[n];
        }
      }
    }
  }

  lemma {:induction false} InfosFromSerLength(total: nat, inners: seq<SerInnerInfo>)
    ensures InfosFromSer(total, inners).Ok? ==> |InfosFromSer(total, inners).value| == |inners|
  {
    if inners != [] {
      InfosFromSerLength(total, inners[..|inners| - 1]);
    }
  }

  lemma ContractRoundTripIff(total: nat, infos: seq<ContractInfo>)
    ensures var s := ContractToSer(total, infos);
            && (s.Some? && InfosFromSer(s.value.totalCollateral, InnersOf(s.value)) == Ok(infos) <==> WellFormedInfos(total, infos))
            && (s.Some? ==> s.value.totalCollateral == total)
  {
    InfosRoundTripIff(total, infos);
    if InfosToSer(infos).Some? {
      var inners := InfosToSer(infos).value;
      if |inners| == 1 { assert [inners[0]] == inners; }
    }
  }

  // ---------- Which wire infos survive ----------

  /** The wire form that the conversion produces: the oracles in their shortest form, difference parameters with a
      numerical descriptor only, and the least number of digits. */
  predicate CanonicalInner(s: SerInnerInfo) {
    && (s.oracles.Multi? ==> |s.oracles.announcements| != 1)
    && match s.descriptor
       case SerEnumerated(_) => s.oracles.Multi? ==> s.oracles.params.None?
       case SerNumerical(digits, f, _) =>
         && f.pieces != []
         && (forall i :: 0 <= i < |AnnouncementsOf(s.oracles)| ==> AnnouncementsOf(s.oracles)[i].event.DigitDecompositionEvent?)
         && AnnouncementsOf(s.oracles) != []
         && digits == CastU16(Min(DigitsOf(AnnouncementsOf(s.oracles))))
  }

  /** A wire info that can be read is written again as it was exactly when it is canonical. */
  lemma InnerRoundTripIff(total: nat, s: SerInnerInfo)
    requires InfoFromSer(total, s).Ok?
    ensures InfoToSer(InfoFromSer(total, s).value) == Some(s) <==> CanonicalInner(s)
  {
    var info := InfoFromSer(total, s).value;
    OraclesBackIff(s.oracles, info);
    match s.descriptor
    case SerEnumerated(outcomes) =>
      assert OutcomesToSer(info.descriptor.payouts) == outcomes;
    case SerNumerical(_, f, _) =>
      if f.pieces != [] {
        SerFunctionRoundTrip(f);
      }
  }

  lemma OraclesBackIff(o: OracleInfo, info: ContractInfo)
    requires info.announcements == AnnouncementsOf(o) && info.threshold == ThresholdOf(o)
    requires info.descriptor.Numerical? ==> info.descriptor.difference == DifferenceOf(o)
    ensures OraclesToSer(info) == o <==>
              (o.Multi? ==> |o.announcements| != 1 && (info.descriptor.Enumerated? ==> o.params.None?))
  {
  }

  predicate CanonicalInners(inners: seq<SerInnerInfo>) {
    forall i :: 0 <= i < |inners| ==> CanonicalInner(inners[i])
  }

  /** So is a whole wire contract, which also has to use the single form for a single info. */
  predicate CanonicalContract(s: SerContractInfo) {
    (s.DisjointContractInfo? ==> |s.inners| != 1) && CanonicalInners(InnersOf(s))
  }

  lemma {:induction false} InfosToSerLength(infos: seq<ContractInfo>)
    ensures InfosToSer(infos).Some? ==> |InfosToSer(infos).value| == |infos|
  {
    if infos != [] {
      InfosToSerLength(infos[..|infos| - 1]);
    }
  }

  lemma CanonicalSnoc(front: seq<SerInnerInfo>, last: SerInnerInfo)
    ensures CanonicalInners(front + [last]) <==> CanonicalInners(front) && CanonicalInner(last)
  {
    hide CanonicalInner;
    assert (front + [last])[|front|] == last;
    assert forall i :: 0 <= i < |front| ==> (front + [last])[i] == front[i];
  }

  lemma InfosToSerSnoc(front: seq<ContractInfo>, last: ContractInfo)
    ensures InfosToSer(front + [last])
              == if InfosToSer(front).None? || InfoToSer(last).None? then None
                 else Some(InfosToSer(front).value + [InfoToSer(last).value])
  {
    hide InfoToSer;
    assert (front + [last])[..|front|] == front;
  }

  lemma {:induction false} InnersRoundTripIff(total: nat, inners: seq<SerInnerInfo>)
    requires InfosFromSer(total, inners).Ok?
    ensures InfosToSer(InfosFromSer(total, inners).value) == Some(inners) <==> CanonicalInners(inners)
  {
    hide InfoToSer, InfoFromSer, CanonicalInner, InfosToSer, CanonicalInners;
    if inners == [] {
      NothingToConvert();
    } else {
      var n := |inners| - 1;
      var front, last := inners[..n], inners[n];
      InnersRoundTripIff(total, front);
      InnerRoundTripIff(total, last);
      assert inners == front + [last];
      CanonicalSnoc(front, last);
      var infos, info := InfosFromSer(total, front).value, InfoFromSer(total, last).value;
      InfosToSerSnoc(infos, info);
      InfosFromSerLength(total, front);
      InfosToSerLength(infos);
    }
  }

  lemma NothingToConvert()
    ensures InfosToSer([]) == Some([]) && CanonicalInners([])
  {
  }

  lemma SerContractRoundTripIff(s: SerContractInfo)
    requires InfosFromSer(s.totalCollateral, InnersOf(s)).Ok?
    ensures ContractToSer(s.totalCollateral, InfosFromSer(s.totalCollateral, InnersOf(s)).value) == Some(s) <==> CanonicalContract(s)
  {
    hide CanonicalInners, InfosToSer, InfosFromSer;
    InnersRoundTripIff(s.totalCollateral, InnersOf(s));
    var infos := InfosFromSer(s.totalCollateral, InnersOf(s)).value;
    InfosFromSerLength(s.totalCollateral, InnersOf(s));
    InfosToSerLength(infos);
    if InfosToSer(infos).Some? && s.SingleContractInfo? {
      var inners := InfosToSer(infos).value;
      assert inners == [inners[0]];
    }
  }
}
