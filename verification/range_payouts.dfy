/** From a payout function to ranges of outcomes with equal payouts. */
module RangePayouts {
  import opened Wrappers
  import opened PayoutCurve
  import Lagrange

  datatype RangePayout = RangePayout(start: nat, count: nat, offer: nat, accept: nat)

  /** What the pieces of one payout function are rounded with. */
  datatype Terms = Terms(sqrt: real -> real, intervals: seq<RoundingInterval>, total: U64)

  type Ranges = seq<RangePayout>

  function Rounded(p: Piece, t: Terms, outcome: nat): (r: Result<U64, Error>)
    requires ValidIntervals(t.intervals)
    ensures r.Ok? ==> r.value <= t.total
  {
    RoundedPayout(Evaluate(p, t.sqrt, outcome), outcome, t.intervals, t.total)
  }

  // ---------- What the program computes ----------

  /** `get_cur_range`, with the range it hands out left in place. */
  function Opened(rs: Ranges, p: Piece, t: Terms): Result<Ranges, Error>
    requires ValidIntervals(t.intervals) && HasPoints(p)
  {
    if rs != [] then Ok(rs)
    else
      match Rounded(p, t, FirstOutcome(p))
      case Err(e) => Err(e)
      case Ok(payout) => Ok([RangePayout(FirstOutcome(p), 1, payout, t.total - payout)])
  }

  function AddOutcome(rs: Ranges, outcome: nat, payout: nat, total: U64): Ranges
    requires rs != [] && payout <= total
  {
    var last := |rs| - 1;
    if rs[last].offer == payout then rs[..last] + [rs[last].(count := rs[last].count + 1)]
    else rs + [RangePayout(outcome, 1, payout, total - payout)]
  }

  function AddOutcomes(rs: Ranges, p: Piece, t: Terms, from: nat, upto: nat): (r: Result<Ranges, Error>)
    requires ValidIntervals(t.intervals) && rs != []
    ensures r.Ok? ==> r.value != []
  {
    if upto <= from then Ok(rs)
    else
      match AddOutcomes(rs, p, t, from, upto - 1)
      case Err(e) => Err(e)
      case Ok(done) =>
        match Rounded(p, t, upto - 1)
        case Err(e) => Err(e)
        case Ok(payout) => Ok(AddOutcome(done, upto - 1, payout, t.total))
  }

  /** `saturating_add(1)`. */
  function RangeEnd(last: U64): U64 {
    if last == U64_MAX then U64_MAX else last + 1
  }

  /** `compute_range_payouts`. */
  function LoopRanges(rs: Ranges, p: Piece, t: Terms): Result<Ranges, Error>
    requires ValidIntervals(t.intervals) && HasPoints(p)
  {
    match Opened(rs, p, t)
    case Err(e) => Err(e)
    case Ok(begun) =>
      if FirstOutcome(p) == U64_MAX then Err(Panic)
      else AddOutcomes(begun, p, t, FirstOutcome(p) + 1, RangeEnd(LastOutcome(p)))
  }

  predicate Flat(p: Piece) {
    p.Polynomial? && |p.points| == 2 && p.points[0].outcomePayout == p.points[1].outcomePayout
  }

  function Widened(rs: Ranges, extra: nat): Ranges
    requires rs != []
  {
    var last := |rs| - 1;
    rs[..last] + [rs[last].(count := rs[last].count + extra)]
  }

  /** `PayoutFunctionPiece::to_range_payouts`, with the shortcut for constant pieces. */
  function PieceRanges(rs: Ranges, p: Piece, t: Terms): Result<Ranges, Error>
    requires ValidIntervals(t.intervals) && HasPoints(p)
  {
    if Flat(p) then
      match Opened(rs, p, t)
      case Err(e) => Err(e)
      case Ok(begun) =>
        if LastOutcome(p) < FirstOutcome(p) then Err(Panic)
        else Ok(Widened(begun, LastOutcome(p) - FirstOutcome(p)))
    else LoopRanges(rs, p, t)
  }

  /** Pieces as only a message can bring them: a constant one that descends, and any other that starts at the largest outcome, panic. */
  lemma MalformedPiecesPanic(rs: Ranges, p: Piece, t: Terms)
    requires ValidIntervals(t.intervals) && HasPoints(p) && Opened(rs, p, t).Ok?
    ensures Flat(p) && LastOutcome(p) < FirstOutcome(p) ==> PieceRanges(rs, p, t) == Err(Panic)
    ensures !Flat(p) && FirstOutcome(p) == U64_MAX ==> PieceRanges(rs, p, t) == Err(Panic)
  {
    hide Opened, AddOutcomes;
  }

  /** The ranges after the first `n` pieces. */
  function FunctionRanges(pieces: seq<Piece>, t: Terms, n: nat): Result<Ranges, Error>
    requires ValidIntervals(t.intervals) && AllHavePoints(pieces) && n <= |pieces|
  {
    if n == 0 then Ok([])
    else
      match FunctionRanges(pieces, t, n - 1)
      case Err(e) => Err(e)
      case Ok(rs) => PieceRanges(rs, pieces[n - 1], t)
  }

  // ---------- How it computes it ----------

  method EvaluateAt(p: Piece, sqrt: real -> real, outcome: nat) returns (v: Option<real>)
    ensures v == Evaluate(p, sqrt, outcome)
  {
    match p {
      case Polynomial(points) =>
        if |points| == 2 { return TwoPoints(points[0], points[1], outcome); }
        v := Lagrange.Evaluate(Outcomes(points), Payouts(points), outcome as real);
      case Hyperbola(_, _, _, _, _, _, _, _, _) =>
        return EvaluateHyperbola(p, sqrt, outcome);
    }
  }

  method GetRoundedPayout(p: Piece, t: Terms, outcome: nat) returns (r: Result<U64, Error>)
    requires ValidIntervals(t.intervals)
    ensures r == Rounded(p, t, outcome)
  {
    var v := EvaluateAt(p, t.sqrt, outcome);
    if v.None? || v.value < 0.0 { return Err(InvalidParameters); }
    if RoundHalfUp(v.value) > t.total { return Err(InvalidParameters); }
    var rounded := Round(t.intervals, outcome, v.value);
    return Ok(if rounded < t.total then rounded else t.total);
  }

  /** The vector of ranges that the pieces of a function add to in turn. */
  class RangeVector {
    var items: seq<RangePayout>

    constructor ()
      ensures items == []
    {
      items := [];
    }

    method GetCurRange(p: Piece, t: Terms) returns (r: Result<RangePayout, Error>)
      requires ValidIntervals(t.intervals) && HasPoints(p)
      modifies this
      ensures r.Ok? <==> Opened(old(items), p, t).Ok?
      ensures r.Ok? ==> items + [r.value] == Opened(old(items), p, t).value
      ensures r.Err? ==> r.error == Opened(old(items), p, t).error
    {
      if items != [] {
        r := Ok(items[|items| - 1]);
        items := items[..|items| - 1];
      } else {
        var first := FirstOutcome(p);
        var payout := GetRoundedPayout(p, t, first);
        if payout.Err? { return Err(payout.error); }
        return Ok(RangePayout(first, 1, payout.value, t.total - payout.value));
      }
    }

    method ComputeRangePayouts(p: Piece, t: Terms) returns (r: Result<(), Error>)
      requires ValidIntervals(t.intervals) && HasPoints(p)
      modifies this
      ensures r.Ok? <==> LoopRanges(old(items), p, t).Ok?
      ensures r.Ok? ==> items == LoopRanges(old(items), p, t).value
      ensures r.Err? ==> r.error == LoopRanges(old(items), p, t).error
    {
      hide Rounded, ValidIntervals, FirstOutcome, LastOutcome, RangeEnd, HasPoints;
      var first := FirstOutcome(p);
      var begun := GetCurRange(p, t);
      if begun.Err? { return Err(begun.error); }
      var cur := begun.value;
      ghost var start := items + [cur];
      var rangeEnd := RangeEnd(LastOutcome(p));
      if first == U64_MAX { return Err(Panic); }
      var outcome: nat := first + 1;
      while outcome < rangeEnd
        invariant first + 1 <= outcome && (outcome <= rangeEnd || outcome == first + 1)
        invariant AddOutcomes(start, p, t, first + 1, outcome) == Ok(items + [cur])
        decreases if outcome < rangeEnd then rangeEnd - outcome else 0
      {
        var payout := GetRoundedPayout(p, t, outcome);
        if payout.Err? {
          FailureStays(start, p, t, first + 1, outcome + 1, rangeEnd);
          return Err(payout.error);
        }
        if cur.offer == payout.value {
          cur := cur.(count := cur.count + 1);
        } else {
          items := items + [cur];
          cur := RangePayout(outcome, 1, payout.value, t.total - payout.value);
        }
        outcome := outcome + 1;
      }
      items := items + [cur];
      return Ok(());
    }

    method AddPiece(p: Piece, t: Terms) returns (r: Result<(), Error>)
      requires ValidIntervals(t.intervals) && HasPoints(p)
      modifies this
      ensures r.Ok? <==> PieceRanges(old(items), p, t).Ok?
      ensures r.Ok? ==> items == PieceRanges(old(items), p, t).value
      ensures r.Err? ==> r.error == PieceRanges(old(items), p, t).error
    {
      if p.Polynomial? && |p.points| == 2 && p.points[0].outcomePayout == p.points[1].outcomePayout {
        var begun := GetCurRange(p, t);
        if begun.Err? { return Err(begun.error); }
        if p.points[1].eventOutcome < p.points[0].eventOutcome { return Err(Panic); }
        var cur := begun.value;
        cur := cur.(count := cur.count + (p.points[1].eventOutcome - p.points[0].eventOutcome));
        items := items + [cur];
        return Ok(());
      }
      r := ComputeRangePayouts(p, t);
    }
  }

  /** `PayoutFunction::to_range_payouts`. */
  method ToRangePayouts(f: PayoutFunction, t: Terms) returns (r: Result<Ranges, Error>)
    requires ValidIntervals(t.intervals) && AllHavePoints(f.pieces)
    ensures r == FunctionRanges(f.pieces, t, |f.pieces|)
  {
    hide PieceRanges, ValidIntervals, HasPoints;
    var ranges := new RangeVector();
    for i := 0 to |f.pieces|
      invariant FunctionRanges(f.pieces, t, i) == Ok(ranges.items)
    {
      var added := ranges.AddPiece(f.pieces[i], t);
      if added.Err? {
        FunctionFailureStays(f.pieces, t, i + 1, |f.pieces|);
        return Err(added.error);
      }
    }
    return Ok(ranges.items);
  }

  lemma {:induction false} FailureStays(rs: Ranges, p: Piece, t: Terms, from: nat, mid: nat, upto: nat)
    requires ValidIntervals(t.intervals) && rs != [] && mid <= upto
    requires AddOutcomes(rs, p, t, from, mid).Err?
    ensures AddOutcomes(rs, p, t, from, upto) == AddOutcomes(rs, p, t, from, mid)
    decreases upto
  {
    if mid < upto {
      FailureStays(rs, p, t, from, mid, upto - 1);
    }
  }

  lemma {:induction false} FunctionFailureStays(pieces: seq<Piece>, t: Terms, n: nat, m: nat)
    requires ValidIntervals(t.intervals) && AllHavePoints(pieces) && n <= m <= |pieces|
    requires FunctionRanges(pieces, t, n).Err?
    ensures FunctionRanges(pieces, t, m) == FunctionRanges(pieces, t, n)
    decreases m
  {
    if n < m {
      FunctionFailureStays(pieces, t, n, m - 1);
    }
  }

  // ---------- What the ranges mean ----------

  function Repeat(payout: nat, n: nat): (s: seq<nat>)
    ensures |s| == n && forall i :: 0 <= i < n ==> s[i] == payout
  {
    seq(n, _ => payout)
  }

  /** The offer payout of every outcome that the ranges cover, one after the other. */
  function Expand(rs: Ranges): seq<nat> {
    if rs == [] then [] else Expand(rs[..|rs| - 1]) + Repeat(rs[|rs| - 1].offer, rs[|rs| - 1].count)
  }

  /** Ranges that follow each other without gap or overlap from a first outcome on, of which no two
      neighbours could be merged, and whose payouts share out the total. */
  predicate Encoding(rs: Ranges, first: nat, total: nat) {
    && (forall i :: 0 <= i < |rs| ==> rs[i].count > 0 && rs[i].offer + rs[i].accept == total)
    && (rs != [] ==> rs[0].start == first)
    && (forall i :: 0 < i < |rs| ==> rs[i].start == rs[i - 1].start + rs[i - 1].count)
    && (forall i :: 0 < i < |rs| ==> rs[i].offer != rs[i - 1].offer)
  }

  /** The outcome after the last one covered. */
  function End(rs: Ranges, first: nat): nat {
    if rs == [] then first else rs[|rs| - 1].start + rs[|rs| - 1].count
  }

  lemma ExpandSnoc(front: Ranges, x: RangePayout)
    ensures Expand(front + [x]) == Expand(front) + Repeat(x.offer, x.count)
  {
    assert (front + [x])[..|front|] == front;
  }

  lemma EncodingSnoc(front: Ranges, x: RangePayout, first: nat, total: nat)
    ensures Encoding(front + [x], first, total) <==>
              && Encoding(front, first, total)
              && x.count > 0 && x.offer + x.accept == total && x.start == End(front, first)
              && (front != [] ==> front[|front| - 1].offer != x.offer)
    ensures End(front + [x], first) == x.start + x.count
  {
    var rs := front + [x];
    assert forall i :: 0 <= i < |front| ==> rs[i] == front[i];
    if Encoding(rs, first, total) {
      assert rs[|front|] == x;
      assert Encoding(front, first, total);
    }
  }

  lemma {:induction false} ExpandLength(rs: Ranges, first: nat, total: nat)
    requires Encoding(rs, first, total)
    ensures first + |Expand(rs)| == End(rs, first)
    ensures rs != [] ==> |Expand(rs)| > 0 && Expand(rs)[|Expand(rs)| - 1] == rs[|rs| - 1].offer
  {
    if rs != [] {
      var front, x := rs[..|rs| - 1], rs[|rs| - 1];
      assert rs == front + [x];
      hide Encoding, Expand;
      EncodingSnoc(front, x, first, total);
      ExpandSnoc(front, x);
      ExpandLength(front, first, total);
    }
  }

  /** There is only one encoding of a sequence of payouts. */
  lemma {:induction false} EncodingIsUnique(a: Ranges, b: Ranges, first: nat, total: nat)
    requires Encoding(a, first, total) && Encoding(b, first, total)
    requires Expand(a) == Expand(b)
    ensures a == b
    decreases |a|
  {
    hide Encoding, Expand;
    ExpandLength(a, first, total);
    ExpandLength(b, first, total);
    ExpandEmpty();
    if a != [] && b != [] {
      var front, x := a[..|a| - 1], a[|a| - 1];
      var back, y := b[..|b| - 1], b[|b| - 1];
      assert a == front + [x] && b == back + [y];
      LastRunFits(front, x, back, y, first, total);
      LastRunFits(back, y, front, x, first, total);
      EncodingSnoc(front, x, first, total);
      EncodingSnoc(back, y, first, total);
      ExpandSnoc(front, x);
      ExpandSnoc(back, y);
      assert |Expand(front)| == |Expand(back)|;
      assert Expand(front) == Expand(a)[..|Expand(front)|];
      assert Expand(back) == Expand(b)[..|Expand(back)|];
      EncodingIsUnique(front, back, first, total);
    }
  }

  lemma ExpandEmpty()
    ensures Expand([]) == []
  {
  }

  /** The last run of an encoding is as long as the payouts allow. */
  lemma LastRunFits(front: Ranges, x: RangePayout, back: Ranges, y: RangePayout, first: nat, total: nat)
    requires Encoding(front + [x], first, total) && Encoding(back + [y], first, total)
    requires Expand(front + [x]) == Expand(back + [y])
    ensures x.offer == y.offer && x.count >= y.count
  {
    hide Encoding, Expand;
    EncodingSnoc(front, x, first, total);
    EncodingSnoc(back, y, first, total);
    ExpandSnoc(front, x);
    ExpandSnoc(back, y);
    var all := Expand(front + [x]);
    assert all[|all| - 1] == x.offer && all[|all| - 1] == y.offer;
    ExpandEmpty();
    ExpandLength(front, first, total);
    if front != [] {
      assert all[|Expand(front)| - 1] == front[|front| - 1].offer;
      assert forall k :: |Expand(back)| <= k < |all| ==> all[k] == y.offer;
    }
  }

  // ---------- Every step appends to the expansion ----------

  lemma AddOutcomeAppends(rs: Ranges, outcome: nat, payout: nat, first: nat, total: U64)
    requires rs != [] && payout <= total && Encoding(rs, first, total) && End(rs, first) == outcome
    ensures var r := AddOutcome(rs, outcome, payout, total);
            && Encoding(r, first, total) && End(r, first) == outcome + 1
            && Expand(r) == Expand(rs) + [payout]
  {
    hide Encoding, Expand;
    var last := |rs| - 1;
    if rs[last].offer == payout {
      WidenedAppends(rs, 1, first, total);
      assert Repeat(payout, 1) == [payout];
    } else {
      var x := RangePayout(outcome, 1, payout, total - payout);
      EncodingSnoc(rs, x, first, total);
      ExpandSnoc(rs, x);
      assert Repeat(payout, 1) == [payout];
    }
  }

  lemma WidenedAppends(rs: Ranges, extra: nat, first: nat, total: U64)
    requires rs != [] && Encoding(rs, first, total)
    ensures var r := Widened(rs, extra);
            && r != [] && r[|r| - 1].offer == rs[|rs| - 1].offer
            && Encoding(r, first, total) && End(r, first) == End(rs, first) + extra
            && Expand(r) == Expand(rs) + Repeat(rs[|rs| - 1].offer, extra)
  {
    hide Encoding, Expand;
    var front, x := rs[..|rs| - 1], rs[|rs| - 1];
    var y := x.(count := x.count + extra);
    assert rs == front + [x];
    EncodingSnoc(front, x, first, total);
    EncodingSnoc(front, y, first, total);
    ExpandSnoc(front, x);
    ExpandSnoc(front, y);
    assert Repeat(x.offer, x.count + extra) == Repeat(x.offer, x.count) + Repeat(x.offer, extra);
  }

  /** Adding the outcomes `from..to` of a piece succeeds exactly when each of them has a rounded payout,
      and appends these. */
  lemma {:induction false} AddOutcomesAppends(rs: Ranges, p: Piece, t: Terms, from: nat, upto: nat, first: nat)
    requires ValidIntervals(t.intervals) && rs != [] && from <= upto
    requires Encoding(rs, first, t.total) && End(rs, first) == from
    ensures AddOutcomes(rs, p, t, from, upto).Ok? <==> forall o :: from <= o < upto ==> Rounded(p, t, o).Ok?
    ensures AddOutcomes(rs, p, t, from, upto).Ok? ==>
              var r := AddOutcomes(rs, p, t, from, upto).value;
              && Encoding(r, first, t.total) && End(r, first) == upto
              && |Expand(r)| == |Expand(rs)| + (upto - from) && Expand(rs) <= Expand(r)
              && forall o :: from <= o < upto ==> Rounded(p, t, o) == Ok(Expand(r)[|Expand(rs)| + (o - from)])
    decreases upto
  {
    hide Encoding, Rounded, Expand, AddOutcome, End;
    if from < upto {
      AddOutcomesAppends(rs, p, t, from, upto - 1, first);
      var before := AddOutcomes(rs, p, t, from, upto - 1);
      var payout := Rounded(p, t, upto - 1);
      if before.Ok? && payout.Ok? {
        AddOutcomeAppends(before.value, upto - 1, payout.value, first, t.total);
      }
    }
  }

  // ---------- One piece ----------

  /** The ranges of the pieces before `p`: they reach up to and include its first outcome. */
  predicate Before(rs: Ranges, p: Piece, first: nat, total: nat)
    requires HasPoints(p)
  {
    && Encoding(rs, first, total)
    && End(rs, first) == if rs == [] then FirstOutcome(p) else FirstOutcome(p) + 1
  }

  /** Where a piece has to compute payouts of its own: its first outcome belongs to the piece before. */
  predicate Owns(rs: Ranges, p: Piece, outcome: nat)
    requires HasPoints(p)
  {
    FirstOutcome(p) <= outcome <= LastOutcome(p) && (rs != [] ==> FirstOutcome(p) < outcome)
  }

  predicate Extends(rs: Ranges, r: Ranges, p: Piece, first: nat, total: nat)
    requires HasPoints(p)
  {
    && Encoding(r, first, total) && r != [] && End(r, first) == LastOutcome(p) + 1
    && Expand(rs) <= Expand(r) && first + |Expand(r)| == LastOutcome(p) + 1
  }

  /** The ranges list a payout for an outcome. */
  predicate Lists(rs: Ranges, first: nat, outcome: nat, payout: Result<U64, Error>) {
    first <= outcome < first + |Expand(rs)| && payout == Ok(Expand(rs)[outcome - first])
  }

  lemma WellFormedAscends(p: Piece)
    requires WellFormed(p)
    ensures HasPoints(p) && FirstOutcome(p) < LastOutcome(p)
  {
  }

  lemma OpenedCovers(rs: Ranges, p: Piece, t: Terms, first: nat)
    requires ValidIntervals(t.intervals) && HasPoints(p) && Before(rs, p, first, t.total)
    ensures Opened(rs, p, t).Ok? <==> rs != [] || Rounded(p, t, FirstOutcome(p)).Ok?
    ensures Opened(rs, p, t).Ok? ==>
              var r := Opened(rs, p, t).value;
              && r != [] && Encoding(r, first, t.total) && End(r, first) == FirstOutcome(p) + 1
              && Expand(rs) <= Expand(r) && first + |Expand(r)| == FirstOutcome(p) + 1
              && (rs == [] ==> Lists(r, first, FirstOutcome(p), Rounded(p, t, FirstOutcome(p))))
              && Expand(r)[FirstOutcome(p) - first] == r[|r| - 1].offer
  {
    hide Expand, Rounded, FirstOutcome, LastOutcome, ValidIntervals;
    ExpandEmpty();
    if rs == [] && Rounded(p, t, FirstOutcome(p)).Ok? {
      var payout := Rounded(p, t, FirstOutcome(p)).value;
      var x := RangePayout(FirstOutcome(p), 1, payout, t.total - payout);
      EncodingSnoc([], x, first, t.total);
      ExpandSnoc([], x);
      assert [] + [x] == [x];
    }
    if Opened(rs, p, t).Ok? {
      ExpandLength(Opened(rs, p, t).value, first, t.total);
    }
  }

  /** The loop over a piece: succeeds exactly when every outcome the piece owns has a rounded payout,
      and appends these. */
  lemma LoopCoversPiece(rs: Ranges, p: Piece, t: Terms, first: nat)
    requires ValidIntervals(t.intervals) && WellFormed(p) && HasPoints(p) && LastOutcome(p) < U64_MAX
    requires Before(rs, p, first, t.total)
    ensures LoopRanges(rs, p, t).Ok? <==> forall o: nat :: Owns(rs, p, o) ==> Rounded(p, t, o).Ok?
    ensures LoopRanges(rs, p, t).Ok? ==>
              && Extends(rs, LoopRanges(rs, p, t).value, p, first, t.total)
              && forall o: nat :: Owns(rs, p, o) ==> Lists(LoopRanges(rs, p, t).value, first, o, Rounded(p, t, o))
  {
    hide Expand, Rounded, Encoding, FirstOutcome, LastOutcome, Opened, ValidIntervals;
    WellFormedAscends(p);
    OpenedCovers(rs, p, t, first);
    var from, upto := FirstOutcome(p) + 1, LastOutcome(p) + 1;
    if Opened(rs, p, t).Ok? {
      AddOutcomesAppends(Opened(rs, p, t).value, p, t, from, upto, first);
      assert forall o: nat :: Owns(rs, p, o) <==> from <= o < upto || (rs == [] && o == FirstOutcome(p));
    } else {
      assert Owns(rs, p, FirstOutcome(p));
    }
  }

  /** The shortcut for a constant piece repeats the payout of the joint. */
  lemma ShortcutRepeatsJoint(rs: Ranges, p: Piece, t: Terms, first: nat)
    requires ValidIntervals(t.intervals) && WellFormed(p) && HasPoints(p) && Flat(p)
    requires Before(rs, p, first, t.total)
    ensures PieceRanges(rs, p, t).Ok? <==> rs != [] || Rounded(p, t, FirstOutcome(p)).Ok?
    ensures PieceRanges(rs, p, t).Ok? ==>
              var r := PieceRanges(rs, p, t).value;
              && Extends(rs, r, p, first, t.total)
              && (rs == [] ==> Lists(r, first, FirstOutcome(p), Rounded(p, t, FirstOutcome(p))))
              && forall o: nat, payout :: FirstOutcome(p) <= o <= LastOutcome(p) ==>
                   (Lists(r, first, o, payout) <==> Lists(r, first, FirstOutcome(p), payout))
  {
    hide Expand, Rounded, Encoding, FirstOutcome, LastOutcome, Opened, ValidIntervals, Widened, Flat;
    WellFormedAscends(p);
    OpenedCovers(rs, p, t, first);
    if Opened(rs, p, t).Ok? {
      var begun := Opened(rs, p, t).value;
      WidenedAppends(begun, LastOutcome(p) - FirstOutcome(p), first, t.total);
      ExpandLength(begun, first, t.total);
      RepeatedTail(begun, PieceRanges(rs, p, t).value, LastOutcome(p) - FirstOutcome(p), first, FirstOutcome(p));
    }
  }

  lemma RepeatedTail(rs: Ranges, r: Ranges, extra: nat, first: nat, joint: nat)
    requires first <= joint && first + |Expand(rs)| == joint + 1
    requires Expand(r) == Expand(rs) + Repeat(Expand(rs)[joint - first], extra)
    ensures forall o: nat, payout :: joint <= o <= joint + extra ==>
              (Lists(r, first, o, payout) <==> Lists(r, first, joint, payout))
  {
    hide Expand;
    assert forall k :: joint - first <= k <= joint - first + extra ==> Expand(r)[k] == Expand(rs)[joint - first];
  }

  // ---------- Whole functions ----------

  /** What `PayoutFunction::new` and the constructors of the pieces guarantee, for a function that ends
      below the largest outcome. */
  predicate ProperFunction(pieces: seq<Piece>) {
    && pieces != []
    && (forall i :: 0 <= i < |pieces| ==> WellFormed(pieces[i]))
    && AllHavePoints(pieces)
    && Continuous(pieces)
    && forall i :: 0 <= i < |pieces| ==> LastOutcome(pieces[i]) < U64_MAX
  }

  /** The first of the first `n` pieces that ends at or after the outcome. */
  function PieceAt(pieces: seq<Piece>, n: nat, outcome: nat): (k: nat)
    requires AllHavePoints(pieces) && 0 < n <= |pieces|
    ensures k < n
  {
    if n == 1 || outcome > LastOutcome(pieces[n - 2]) then n - 1 else PieceAt(pieces, n - 1, outcome)
  }

  /** The rounded payout of the curve at an outcome. */
  function CurvePayout(pieces: seq<Piece>, n: nat, t: Terms, outcome: nat): Result<U64, Error>
    requires ValidIntervals(t.intervals) && AllHavePoints(pieces) && 0 < n <= |pieces|
  {
    Rounded(pieces[PieceAt(pieces, n, outcome)], t, outcome)
  }

  /** Every constant piece rounds, throughout, to the payout of the joint it starts from. */
  predicate ConstantsAgree(pieces: seq<Piece>, n: nat, t: Terms)
    requires ValidIntervals(t.intervals) && AllHavePoints(pieces) && n <= |pieces|
  {
    forall k: nat, o: nat :: k < n && Flat(pieces[k]) && FirstOutcome(pieces[k]) < o <= LastOutcome(pieces[k]) ==>
      Rounded(pieces[k], t, o) == CurvePayout(pieces, k + 1, t, FirstOutcome(pieces[k]))
  }

  predicate InSpan(pieces: seq<Piece>, n: nat, o: nat)
    requires AllHavePoints(pieces) && 0 < n <= |pieces|
  {
    FirstOutcome(pieces[0]) <= o <= LastOutcome(pieces[n - 1])
  }

  lemma {:induction false} JointsAscend(pieces: seq<Piece>, n: nat)
    requires ProperFunction(pieces) && 0 < n <= |pieces|
    ensures FirstOutcome(pieces[0]) <= FirstOutcome(pieces[n - 1]) < LastOutcome(pieces[n - 1])
    ensures n > 1 ==> FirstOutcome(pieces[n - 1]) == LastOutcome(pieces[n - 2])
  {
    WellFormedAscends(pieces[n - 1]);
    if n > 1 {
      JointsAscend(pieces, n - 1);
      assert LastPoint(pieces[n - 2]) == FirstPoint(pieces[n - 1]);
    }
  }

  ghost predicate Represents(r: Ranges, pieces: seq<Piece>, n: nat, t: Terms)
    requires ValidIntervals(t.intervals) && AllHavePoints(pieces) && 0 < n <= |pieces|
  {
    forall o: nat :: InSpan(pieces, n, o) ==> Lists(r, FirstOutcome(pieces[0]), o, CurvePayout(pieces, n, t, o))
  }

  /** The ranges cover every outcome of the function exactly once. */
  lemma {:induction false} RangesTile(pieces: seq<Piece>, n: nat, t: Terms)
    requires ProperFunction(pieces) && ValidIntervals(t.intervals) && 0 < n <= |pieces|
    requires FunctionRanges(pieces, t, n).Ok?
    ensures var r := FunctionRanges(pieces, t, n).value; var first := FirstOutcome(pieces[0]);
            && r != [] && Encoding(r, first, t.total) && End(r, first) == LastOutcome(pieces[n - 1]) + 1
            && first + |Expand(r)| == LastOutcome(pieces[n - 1]) + 1
  {
    hide Encoding, Expand, Rounded, LoopRanges, ValidIntervals, WellFormed;
    JointsAscend(pieces, n);
    PieceAdds(pieces, n, t);
  }

  /** What the last piece finds. */
  lemma {:induction false} PieceFinds(pieces: seq<Piece>, n: nat, t: Terms)
    requires ProperFunction(pieces) && ValidIntervals(t.intervals) && 0 < n <= |pieces|
    requires FunctionRanges(pieces, t, n - 1).Ok?
    ensures var rs := FunctionRanges(pieces, t, n - 1).value;
            && (rs == [] <==> n == 1)
            && Before(rs, pieces[n - 1], FirstOutcome(pieces[0]), t.total)
    decreases n, 0
  {
    hide Encoding, Expand, ValidIntervals, WellFormed, FirstOutcome, LastOutcome, PieceRanges;
    if n > 1 {
      PieceAdds(pieces, n - 1, t);
      JointsAscend(pieces, n);
    } else {
      EmptyEncoding(FirstOutcome(pieces[0]), t.total);
    }
  }

  /** What the last piece adds. */
  lemma {:induction false} PieceAdds(pieces: seq<Piece>, n: nat, t: Terms)
    requires ProperFunction(pieces) && ValidIntervals(t.intervals) && 0 < n <= |pieces|
    requires FunctionRanges(pieces, t, n).Ok?
    ensures FunctionRanges(pieces, t, n - 1).Ok?
    ensures Extends(FunctionRanges(pieces, t, n - 1).value, FunctionRanges(pieces, t, n).value, pieces[n - 1],
                    FirstOutcome(pieces[0]), t.total)
    decreases n, 1
  {
    hide Encoding, Expand, Rounded, LoopRanges, ValidIntervals, WellFormed, FirstOutcome, LastOutcome, Flat, AddOutcomes,
         Before, Extends;
    var p, first := pieces[n - 1], FirstOutcome(pieces[0]);
    PieceFinds(pieces, n, t);
    var rs := FunctionRanges(pieces, t, n - 1).value;
    if Flat(p) {
      ShortcutRepeatsJoint(rs, p, t, first);
    } else {
      LoopCoversPiece(rs, p, t, first);
    }
  }

  lemma EmptyEncoding(first: nat, total: nat)
    ensures Encoding([], first, total)
  {
  }

  lemma ListsMore(rs: Ranges, r: Ranges, first: nat, o: nat, payout: Result<U64, Error>)
    requires Expand(rs) <= Expand(r) && Lists(rs, first, o, payout)
    ensures Lists(r, first, o, payout)
  {
    hide Expand;
  }

  /** A piece whose constant, if it is one, agrees with the joint appends exactly its rounded payouts. */
  lemma AgreeingPieceAppends(rs: Ranges, p: Piece, t: Terms, first: nat, joint: Result<U64, Error>)
    requires ValidIntervals(t.intervals) && WellFormed(p) && HasPoints(p) && LastOutcome(p) < U64_MAX
    requires Before(rs, p, first, t.total)
    requires if rs == [] then joint == Rounded(p, t, FirstOutcome(p)) else Lists(rs, first, FirstOutcome(p), joint)
    requires Flat(p) ==> forall o: nat :: FirstOutcome(p) < o <= LastOutcome(p) ==> Rounded(p, t, o) == joint
    ensures PieceRanges(rs, p, t).Ok? <==> forall o: nat :: Owns(rs, p, o) ==> Rounded(p, t, o).Ok?
    ensures PieceRanges(rs, p, t).Ok? ==>
              && Extends(rs, PieceRanges(rs, p, t).value, p, first, t.total)
              && forall o: nat :: Owns(rs, p, o) ==> Lists(PieceRanges(rs, p, t).value, first, o, Rounded(p, t, o))
  {
    hide Expand, Rounded, Encoding, FirstOutcome, LastOutcome, Opened, ValidIntervals, Widened, Flat, AddOutcomes,
         Before, Lists, LoopRanges;
    WellFormedAscends(p);
    if Flat(p) {
      ShortcutRepeatsJoint(rs, p, t, first);
      if PieceRanges(rs, p, t).Ok? && rs != [] {
        ListsMore(rs, PieceRanges(rs, p, t).value, first, FirstOutcome(p), joint);
        ListedIsOk(rs, first, FirstOutcome(p), joint);
      }
      if rs == [] { assert Owns(rs, p, FirstOutcome(p)); }
      if rs != [] { ListedIsOk(rs, first, FirstOutcome(p), joint); }
    } else {
      assert PieceRanges(rs, p, t) == LoopRanges(rs, p, t);
      LoopCoversPiece(rs, p, t, first);
    }
  }

  lemma ListedIsOk(rs: Ranges, first: nat, o: nat, payout: Result<U64, Error>)
    requires Lists(rs, first, o, payout)
    ensures payout.Ok?
  {
  }

  /** An outcome in the span of `n` pieces belongs to the last one, or lies in the span of the others. */
  lemma SpanCases(pieces: seq<Piece>, n: nat, t: Terms, o: nat)
    requires ProperFunction(pieces) && ValidIntervals(t.intervals) && 0 < n <= |pieces|
    ensures InSpan(pieces, n, o) <==>
              || (FirstOutcome(pieces[n - 1]) < o <= LastOutcome(pieces[n - 1]))
              || (n == 1 && o == FirstOutcome(pieces[0]))
              || (n > 1 && InSpan(pieces, n - 1, o))
    ensures InSpan(pieces, n, o) ==>
              CurvePayout(pieces, n, t, o)
                == if n == 1 || FirstOutcome(pieces[n - 1]) < o then Rounded(pieces[n - 1], t, o)
                   else CurvePayout(pieces, n - 1, t, o)
    ensures n > 1 && InSpan(pieces, n - 1, o) ==>
              && FirstOutcome(pieces[n - 1]) >= o
              && CurvePayout(pieces, n, t, o) == CurvePayout(pieces, n - 1, t, o)
    ensures InSpan(pieces, n, FirstOutcome(pieces[n - 1]))
    ensures n > 1 ==> InSpan(pieces, n - 1, FirstOutcome(pieces[n - 1]))
  {
    hide Rounded, ValidIntervals, WellFormed, Continuous, FirstOutcome, LastOutcome;
    JointsAscend(pieces, n);
    if n > 1 { JointsAscend(pieces, n - 1); }
  }

  ghost predicate AllHavePayouts(pieces: seq<Piece>, n: nat, t: Terms)
    requires ValidIntervals(t.intervals) && AllHavePoints(pieces) && 0 < n <= |pieces|
  {
    forall o: nat :: InSpan(pieces, n, o) ==> CurvePayout(pieces, n, t, o).Ok?
  }

  /** Refinement: where every constant piece agrees with the joint it starts from, the ranges exist exactly
      when every outcome has a rounded payout, and list these payouts outcome by outcome. */
  lemma {:induction false} RangesRepresentCurve(pieces: seq<Piece>, n: nat, t: Terms)
    requires ProperFunction(pieces) && ValidIntervals(t.intervals) && 0 < n <= |pieces|
    requires ConstantsAgree(pieces, n, t)
    ensures FunctionRanges(pieces, t, n).Ok? <==> AllHavePayouts(pieces, n, t)
    ensures FunctionRanges(pieces, t, n).Ok? ==> Represents(FunctionRanges(pieces, t, n).value, pieces, n, t)
  {
    hide Encoding, Expand, Rounded, LoopRanges, ValidIntervals, WellFormed, FirstOutcome, LastOutcome, Flat,
         CurvePayout, PieceRanges, AddOutcomes, Lists, Before, Extends, InSpan;
    var p, first := pieces[n - 1], FirstOutcome(pieces[0]);
    var joint := CurvePayout(pieces, n, t, FirstOutcome(p));
    SpanCases(pieces, n, t, FirstOutcome(p));
    if n > 1 {
      RangesRepresentCurve(pieces, n - 1, t);
    }
    var before := FunctionRanges(pieces, t, n - 1);
    if before.Err? {
      var o :| InSpan(pieces, n - 1, o) && CurvePayout(pieces, n - 1, t, o).Err?;
      SpanCases(pieces, n, t, o);
    } else {
      PieceFinds(pieces, n, t);
      AgreeingPieceAppends(before.value, p, t, first, joint);
      OwnedOrBefore(pieces, n, t, before.value);
      var r := FunctionRanges(pieces, t, n);
      assert r == PieceRanges(before.value, p, t);
      if r.Ok? {
        forall o: nat | InSpan(pieces, n, o) ensures Lists(r.value, first, o, CurvePayout(pieces, n, t, o)) {
          if Owns(before.value, p, o) {
          } else {
            PrefixLists(before.value, r.value, p, t, first, o, CurvePayout(pieces, n - 1, t, o));
          }
        }
        AllListed(r.value, pieces, n, t);
      } else {
        var o :| Owns(before.value, p, o) && Rounded(p, t, o).Err?;
        assert InSpan(pieces, n, o) && CurvePayout(pieces, n, t, o).Err?;
      }
    }
  }

  lemma PrefixLists(rs: Ranges, r: Ranges, p: Piece, t: Terms, first: nat, o: nat, payout: Result<U64, Error>)
    requires HasPoints(p) && Extends(rs, r, p, first, t.total) && Lists(rs, first, o, payout)
    ensures Lists(r, first, o, payout)
  {
    ListsMore(rs, r, first, o, payout);
  }

  lemma AllListed(r: Ranges, pieces: seq<Piece>, n: nat, t: Terms)
    requires ValidIntervals(t.intervals) && AllHavePoints(pieces) && 0 < n <= |pieces|
    requires Represents(r, pieces, n, t)
    ensures AllHavePayouts(pieces, n, t)
  {
    hide CurvePayout, InSpan, ValidIntervals;
  }

  lemma OwnedOrBefore(pieces: seq<Piece>, n: nat, t: Terms, rs: Ranges)
    requires ProperFunction(pieces) && ValidIntervals(t.intervals) && 0 < n <= |pieces|
    requires rs == [] <==> n == 1
    ensures forall o: nat :: Owns(rs, pieces[n - 1], o) ==>
              InSpan(pieces, n, o) && CurvePayout(pieces, n, t, o) == Rounded(pieces[n - 1], t, o)
    ensures forall o: nat :: InSpan(pieces, n, o) && !Owns(rs, pieces[n - 1], o) ==>
              n > 1 && InSpan(pieces, n - 1, o) && CurvePayout(pieces, n, t, o) == CurvePayout(pieces, n - 1, t, o)
  {
    hide CurvePayout, InSpan, ValidIntervals, Rounded, FirstOutcome, LastOutcome, WellFormed, Continuous;
    forall o: nat
      ensures Owns(rs, pieces[n - 1], o) ==>
                InSpan(pieces, n, o) && CurvePayout(pieces, n, t, o) == Rounded(pieces[n - 1], t, o)
      ensures InSpan(pieces, n, o) && !Owns(rs, pieces[n - 1], o) ==>
                n > 1 && InSpan(pieces, n - 1, o) && CurvePayout(pieces, n, t, o) == CurvePayout(pieces, n - 1, t, o)
    {
      SpanCases(pieces, n, t, o);
      JointsAscend(pieces, n);
    }
  }

  /** The ranges that the program computes are the only ones of their kind. */
  lemma RangesAreCanonical(pieces: seq<Piece>, t: Terms, other: Ranges)
    requires ProperFunction(pieces) && ValidIntervals(t.intervals) && ConstantsAgree(pieces, |pieces|, t)
    requires Encoding(other, FirstOutcome(pieces[0]), t.total)
    requires End(other, FirstOutcome(pieces[0])) == LastOutcome(pieces[|pieces| - 1]) + 1
    requires Represents(other, pieces, |pieces|, t)
    ensures FunctionRanges(pieces, t, |pieces|) == Ok(other)
  {
    hide Encoding, Expand, LastOutcome, FirstOutcome, WellFormed, Rounded, Continuous, CurvePayout, FunctionRanges,
         ConstantsAgree;
    var n, first := |pieces|, FirstOutcome(pieces[0]);
    RangesRepresentCurve(pieces, n, t);
    AllListed(other, pieces, n, t);
    RangesTile(pieces, n, t);
    var r := FunctionRanges(pieces, t, n).value;
    ExpandLength(other, first, t.total);
    ExpandLength(r, first, t.total);
    forall k | 0 <= k < |Expand(r)| ensures Expand(r)[k] == Expand(other)[k] {
      assert InSpan(pieces, n, first + k);
    }
    EncodingIsUnique(r, other, first, t.total);
  }

  /** Where a constant piece disagrees with its joint, the ranges differ from the curve: the condition of
      `RangesRepresentCurve` is exact. */
  lemma {:induction false} RangesRepresentCurveOnlyIf(pieces: seq<Piece>, n: nat, t: Terms)
    requires ProperFunction(pieces) && ValidIntervals(t.intervals) && 0 < n <= |pieces|
    requires FunctionRanges(pieces, t, n).Ok? && Represents(FunctionRanges(pieces, t, n).value, pieces, n, t)
    ensures ConstantsAgree(pieces, n, t)
  {
    hide Encoding, Expand, Rounded, LoopRanges, ValidIntervals, FirstOutcome, LastOutcome, Flat,
         CurvePayout, PieceRanges, AddOutcomes, Lists, Before, Extends, InSpan, WellFormed, Continuous;
    var p, first := pieces[n - 1], FirstOutcome(pieces[0]);
    PieceAdds(pieces, n, t);
    PieceFinds(pieces, n, t);
    var rs, r := FunctionRanges(pieces, t, n - 1).value, FunctionRanges(pieces, t, n).value;
    if n > 1 {
      PrefixRepresents(pieces, n, t);
      RangesRepresentCurveOnlyIf(pieces, n - 1, t);
    }
    if Flat(p) {
      ShortcutRepeatsJoint(rs, p, t, first);
      forall o: nat | FirstOutcome(p) < o <= LastOutcome(p)
        ensures Rounded(p, t, o) == CurvePayout(pieces, n, t, FirstOutcome(p))
      {
        SpanCases(pieces, n, t, o);
        SpanCases(pieces, n, t, FirstOutcome(p));
        WellFormedAscends(p);
        ListedOnce(r, first, FirstOutcome(p), Rounded(p, t, o), CurvePayout(pieces, n, t, FirstOutcome(p)));
      }
    }
  }

  lemma ListedOnce(rs: Ranges, first: nat, o: nat, a: Result<U64, Error>, b: Result<U64, Error>)
    requires Lists(rs, first, o, a) && Lists(rs, first, o, b)
    ensures a == b
  {
  }

  lemma PrefixRepresents(pieces: seq<Piece>, n: nat, t: Terms)
    requires ProperFunction(pieces) && ValidIntervals(t.intervals) && 1 < n <= |pieces|
    requires FunctionRanges(pieces, t, n).Ok? && Represents(FunctionRanges(pieces, t, n).value, pieces, n, t)
    ensures FunctionRanges(pieces, t, n - 1).Ok?
    ensures Represents(FunctionRanges(pieces, t, n - 1).value, pieces, n - 1, t)
  {
    hide Encoding, Rounded, LoopRanges, ValidIntervals, FirstOutcome, LastOutcome, Flat,
         CurvePayout, PieceRanges, AddOutcomes, Before, WellFormed, Continuous, Expand;
    var first := FirstOutcome(pieces[0]);
    PieceAdds(pieces, n, t);
    RangesTile(pieces, n - 1, t);
    var rs, r := FunctionRanges(pieces, t, n - 1).value, FunctionRanges(pieces, t, n).value;
    var m := n - 1;
    forall o: nat | InSpan(pieces, m, o) ensures Lists(rs, first, o, CurvePayout(pieces, m, t, o)) {
      SpanCases(pieces, n, t, o);
      assert Lists(r, first, o, CurvePayout(pieces, n, t, o));
      assert Expand(rs)[o - first] == Expand(r)[o - first];
    }
  }

  /** On one piece: the shortcut and the loop give the same ranges exactly when the constant rounds, at
      every outcome of the piece, to the payout already listed for the joint. */
  lemma ShortcutRefinesLoop(rs: Ranges, p: Piece, t: Terms, first: nat)
    requires ValidIntervals(t.intervals) && WellFormed(p) && HasPoints(p) && LastOutcome(p) < U64_MAX && Flat(p)
    requires Before(rs, p, first, t.total) && Opened(rs, p, t).Ok?
    ensures PieceRanges(rs, p, t) == LoopRanges(rs, p, t)
            <==> forall o: nat :: FirstOutcome(p) < o <= LastOutcome(p) ==>
                   Lists(Opened(rs, p, t).value, first, FirstOutcome(p), Rounded(p, t, o))
  {
    hide Expand, Rounded, Encoding, FirstOutcome, LastOutcome, Opened, ValidIntervals, Flat, AddOutcomes, LoopRanges;
    WellFormedAscends(p);
    OpenedCovers(rs, p, t, first);
    var begun, f, l := Opened(rs, p, t).value, FirstOutcome(p), LastOutcome(p);
    WidenedAppends(begun, l - f, first, t.total);
    var wide := PieceRanges(rs, p, t).value;
    ExpandLength(begun, first, t.total);
    ExpandLength(wide, first, t.total);
    RepeatedTail(begun, wide, l - f, first, f);
    LoopIsAddOutcomes(rs, p, t);
    AddOutcomesAppends(begun, p, t, f + 1, l + 1, first);
    var loop := LoopRanges(rs, p, t);
    if loop.Ok? {
      ExpandLength(loop.value, first, t.total);
      if forall o: nat :: f < o <= l ==> Lists(begun, first, f, Rounded(p, t, o)) {
        forall k | 0 <= k < |Expand(wide)| ensures Expand(wide)[k] == Expand(loop.value)[k] {
          if k > f - first {
            assert Rounded(p, t, first + k) == Ok(Expand(loop.value)[|Expand(begun)| + (first + k - (f + 1))]);
          } else {
            assert Expand(wide)[k] == Expand(begun)[k] == Expand(loop.value)[k];
          }
        }
        EncodingIsUnique(wide, loop.value, first, t.total);
      }
      if wide == loop.value {
        forall o: nat | f < o <= l ensures Lists(begun, first, f, Rounded(p, t, o)) {
          assert Rounded(p, t, o) == Ok(Expand(loop.value)[|Expand(begun)| + (o - (f + 1))]);
          assert Lists(wide, first, o, Rounded(p, t, o));
          assert Expand(wide)[f - first] == Expand(begun)[f - first];
        }
      }
    } else {
      var o: nat :| f + 1 <= o < l + 1 && Rounded(p, t, o).Err?;
      assert !Lists(begun, first, f, Rounded(p, t, o));
    }
  }

  lemma LoopIsAddOutcomes(rs: Ranges, p: Piece, t: Terms)
    requires ValidIntervals(t.intervals) && WellFormed(p) && HasPoints(p) && LastOutcome(p) < U64_MAX
    requires Opened(rs, p, t).Ok?
    ensures LoopRanges(rs, p, t) == AddOutcomes(Opened(rs, p, t).value, p, t, FirstOutcome(p) + 1, LastOutcome(p) + 1)
  {
    hide Rounded, AddOutcomes, Opened;
    WellFormedAscends(p);
  }

  /** The end of the loop is computed with a saturating addition: a piece that ends at the largest outcome
      leaves that outcome out, unless its payout is constant. */
  lemma LargestOutcomeIsDropped(rs: Ranges, p: Piece, t: Terms, first: nat)
    requires ValidIntervals(t.intervals) && WellFormed(p) && HasPoints(p) && LastOutcome(p) == U64_MAX
    requires Before(rs, p, first, t.total) && PieceRanges(rs, p, t).Ok?
    ensures End(PieceRanges(rs, p, t).value, first) == if Flat(p) then U64_MAX + 1 else U64_MAX
  {
    hide Rounded, Encoding, Expand, ValidIntervals, Flat;
    WellFormedAscends(p);
    OpenedCovers(rs, p, t, first);
    if Flat(p) {
      ShortcutRepeatsJoint(rs, p, t, first);
    } else {
      AddOutcomesAppends(Opened(rs, p, t).value, p, t, FirstOutcome(p) + 1, U64_MAX, first);
    }
  }

  lemma {:induction false} EndsBeforeLast(pieces: seq<Piece>, i: nat)
    requires AllHavePoints(pieces) && Continuous(pieces) && i < |pieces|
    requires forall k :: 0 <= k < |pieces| ==> WellFormed(pieces[k])
    ensures LastOutcome(pieces[i]) <= LastOutcome(pieces[|pieces| - 1])
    decreases |pieces| - i
  {
    if i + 1 < |pieces| {
      EndsBeforeLast(pieces, i + 1);
      WellFormedAscends(pieces[i + 1]);
      assert LastPoint(pieces[i + 1 - 1]) == FirstPoint(pieces[i + 1]);
    }
  }

  /** What the constructor accepts is proper exactly when it ends below the largest outcome. */
  lemma NewFunctionIsProper(pieces: seq<Piece>)
    requires AllHavePoints(pieces) && forall i :: 0 <= i < |pieces| ==> WellFormed(pieces[i])
    ensures ProperFunction(pieces) <==> NewFunction(pieces).Ok? && LastOutcome(pieces[|pieces| - 1]) < U64_MAX
  {
    hide WellFormed, Continuous;
    if NewFunction(pieces).Ok? {
      forall i | 0 <= i < |pieces| ensures LastOutcome(pieces[i]) <= LastOutcome(pieces[|pieces| - 1]) {
        EndsBeforeLast(pieces, i);
      }
    }
  }

  /** For a function that `PayoutFunction::validate` accepts, the ranges tile the outcomes from zero to the
      largest value: none is missing, and none is covered twice. */
  lemma ValidatedFunctionIsTiled(f: PayoutFunction, maxValue: U64, t: Terms)
    requires AllHavePoints(f.pieces) && forall i :: 0 <= i < |f.pieces| ==> WellFormed(f.pieces[i])
    requires Validate(f, maxValue).Ok? && maxValue < U64_MAX && ValidIntervals(t.intervals)
    requires FunctionRanges(f.pieces, t, |f.pieces|).Ok?
    ensures var r := FunctionRanges(f.pieces, t, |f.pieces|).value;
            Encoding(r, 0, t.total) && End(r, 0) == maxValue + 1 && |Expand(r)| == maxValue + 1
  {
    hide Encoding, Expand, FunctionRanges, ValidIntervals, WellFormed;
    forall i | 0 <= i < |f.pieces| ensures LastOutcome(f.pieces[i]) <= maxValue {
      EndsBeforeLast(f.pieces, i);
    }
    RangesTile(f.pieces, |f.pieces|, t);
  }

  // ---------- Polynomial functions ----------

  predicate PiecewiseLinear(pieces: seq<Piece>, total: nat) {
    forall i :: 0 <= i < |pieces| ==>
      && pieces[i].Polynomial? && |pieces[i].points| == 2
      && pieces[i].points[0].outcomePayout <= total && pieces[i].points[1].outcomePayout <= total
  }

  /** A piecewise linear function with its points in [0, total] always has its ranges. */
  lemma {:induction false} PiecewiseLinearSucceeds(pieces: seq<Piece>, n: nat, t: Terms)
    requires ProperFunction(pieces) && ValidIntervals(t.intervals) && n <= |pieces|
    requires PiecewiseLinear(pieces, t.total)
    ensures FunctionRanges(pieces, t, n).Ok?
  {
    hide Encoding, Expand, LoopRanges, ValidIntervals, Before, Extends, Flat, Opened, Rounded;
    if n > 0 {
      PiecewiseLinearSucceeds(pieces, n - 1, t);
      PieceFinds(pieces, n, t);
      var p, first := pieces[n - 1], FirstOutcome(pieces[0]);
      forall o: nat | FirstOutcome(p) <= o <= LastOutcome(p) ensures Rounded(p, t, o).Ok? {
        LinearIsAccepted(p, t, o);
      }
      if Flat(p) {
        ShortcutRepeatsJoint(FunctionRanges(pieces, t, n - 1).value, p, t, first);
      } else {
        LoopCoversPiece(FunctionRanges(pieces, t, n - 1).value, p, t, first);
      }
    }
  }

  lemma LinearIsAccepted(p: Piece, t: Terms, o: nat)
    requires WellFormed(p) && ValidIntervals(t.intervals) && PiecewiseLinear([p], t.total)
    requires [p][0] == p && FirstOutcome(p) <= o <= LastOutcome(p)
    ensures Rounded(p, t, o).Ok?
  {
    hide TwoPoints;
    TwoPointsStayBetween(p.points[0], p.points[1], o);
  }

  /** The payout of a constant under one rounding modulus. */
  function RoundedConstant(constant: U64, modulus: U64, total: U64): Result<U64, Error> {
    if constant > total then Err(InvalidParameters)
    else if RoundTo(constant as real, modulus) < total then Ok(RoundTo(constant as real, modulus))
    else Ok(total)
  }

  /** Rounding interval `m` is in force at some outcome of the piece after its first one. */
  predicate InForce(p: Piece, intervals: seq<RoundingInterval>, m: nat)
    requires HasPoints(p) && m < |intervals|
  {
    && intervals[m].beginInterval <= LastOutcome(p)
    && (m + 1 < |intervals| ==> intervals[m + 1].beginInterval > FirstOutcome(p) + 1)
  }

  /** Every rounding interval in force on a constant piece rounds the constant to the payout of the joint. */
  predicate IntervalsAgree(p: Piece, t: Terms, joint: Result<U64, Error>)
    requires HasPoints(p) && Flat(p)
  {
    forall m: nat :: m < |t.intervals| && InForce(p, t.intervals, m) ==>
      RoundedConstant(p.points[0].outcomePayout, t.intervals[m].roundingMod, t.total) == joint
  }

  lemma ConstantIsRounded(p: Piece, t: Terms, o: nat)
    requires ValidIntervals(t.intervals) && Flat(p)
    ensures Rounded(p, t, o) == RoundedConstant(p.points[0].outcomePayout, ModulusAt(t.intervals, o), t.total)
  {
    hide RoundTo, ModulusAt;
    FlatValue(p, o);
  }

  /** The condition on the outcomes of a constant piece is one on the intervals in force there. */
  lemma IntervalsAgreeIff(p: Piece, t: Terms, joint: Result<U64, Error>)
    requires ValidIntervals(t.intervals) && WellFormed(p) && HasPoints(p) && Flat(p)
    ensures IntervalsAgree(p, t, joint) <==>
              forall o: nat :: FirstOutcome(p) < o <= LastOutcome(p) ==> Rounded(p, t, o) == joint
  {
    hide Rounded, RoundedConstant, InForce, ValidIntervals;
    WellFormedAscends(p);
    if IntervalsAgree(p, t, joint) {
      forall o: nat | FirstOutcome(p) < o <= LastOutcome(p) ensures Rounded(p, t, o) == joint {
        ConstantIsRounded(p, t, o);
        ModulusInForce(p, t.intervals, o);
      }
    }
    if forall o: nat :: FirstOutcome(p) < o <= LastOutcome(p) ==> Rounded(p, t, o) == joint {
      forall m: nat | m < |t.intervals| && InForce(p, t.intervals, m)
        ensures RoundedConstant(p.points[0].outcomePayout, t.intervals[m].roundingMod, t.total) == joint
      {
        var o := OutcomeInForce(p, t.intervals, m);
        ConstantIsRounded(p, t, o);
        assert Rounded(p, t, o) == joint;
      }
    }
  }

  lemma ModulusInForce(p: Piece, intervals: seq<RoundingInterval>, o: nat)
    requires ValidIntervals(intervals) && HasPoints(p) && FirstOutcome(p) < o <= LastOutcome(p)
    ensures exists m: nat :: m < |intervals| && InForce(p, intervals, m) && ModulusAt(intervals, o) == intervals[m].roundingMod
  {
    assert InForce(p, intervals, LastStarting(intervals, o, |intervals|));
  }

  lemma OutcomeInForce(p: Piece, intervals: seq<RoundingInterval>, m: nat) returns (o: nat)
    requires ValidIntervals(intervals) && HasPoints(p) && FirstOutcome(p) < LastOutcome(p)
    requires m < |intervals| && InForce(p, intervals, m)
    ensures FirstOutcome(p) < o <= LastOutcome(p) && ModulusAt(intervals, o) == intervals[m].roundingMod
  {
    o := if intervals[m].beginInterval > FirstOutcome(p) then intervals[m].beginInterval else FirstOutcome(p) + 1;
    OnlyStarting(intervals, o, m);
  }

  lemma OnlyStarting(intervals: seq<RoundingInterval>, o: nat, m: nat)
    requires ValidIntervals(intervals) && m < |intervals| && intervals[m].beginInterval <= o
    requires m + 1 < |intervals| ==> intervals[m + 1].beginInterval > o
    ensures LastStarting(intervals, o, |intervals|) == m
  {
    forall i | m < i < |intervals| ensures intervals[i].beginInterval > o {
      assert i > m + 1 ==> intervals[m + 1].beginInterval < intervals[i].beginInterval;
    }
  }

  /** So a caller can check from the intervals whether the shortcut is exact, without rounding outcome by outcome. */
  lemma ConstantsAgreeByIntervals(pieces: seq<Piece>, n: nat, t: Terms)
    requires ValidIntervals(t.intervals) && AllHavePoints(pieces) && n <= |pieces|
    requires forall i :: 0 <= i < |pieces| ==> WellFormed(pieces[i])
    ensures ConstantsAgree(pieces, n, t) <==>
              forall k: nat :: k < n && Flat(pieces[k]) ==>
                IntervalsAgree(pieces[k], t, CurvePayout(pieces, k + 1, t, FirstOutcome(pieces[k])))
  {
    hide Rounded, CurvePayout, IntervalsAgree, WellFormed, Flat;
    forall k: nat | k < n && Flat(pieces[k])
      ensures IntervalsAgree(pieces[k], t, CurvePayout(pieces, k + 1, t, FirstOutcome(pieces[k]))) <==>
                forall o: nat :: FirstOutcome(pieces[k]) < o <= LastOutcome(pieces[k]) ==>
                  Rounded(pieces[k], t, o) == CurvePayout(pieces, k + 1, t, FirstOutcome(pieces[k]))
    {
      IntervalsAgreeIff(pieces[k], t, CurvePayout(pieces, k + 1, t, FirstOutcome(pieces[k])));
    }
  }

  /** With one rounding interval and no extra precision in the shared points, constant pieces between
      polynomial pieces always agree with their joints. */
  lemma SingleIntervalAgrees(pieces: seq<Piece>, t: Terms)
    requires ProperFunction(pieces) && ValidIntervals(t.intervals) && |t.intervals| == 1
    requires forall i :: 0 <= i < |pieces| ==> pieces[i].Polynomial? && LastPoint(pieces[i]).extraPrecision == 0
    ensures ConstantsAgree(pieces, |pieces|, t)
  {
    hide ValidIntervals, WellFormed, RoundTo;
    forall k: nat, o: nat
      | k < |pieces| && Flat(pieces[k]) && FirstOutcome(pieces[k]) < o <= LastOutcome(pieces[k])
      ensures Rounded(pieces[k], t, o) == CurvePayout(pieces, k + 1, t, FirstOutcome(pieces[k]))
    {
      ConstantAgreesWithJoint(pieces, t, k, o);
    }
  }

  lemma ConstantAgreesWithJoint(pieces: seq<Piece>, t: Terms, k: nat, o: nat)
    requires ProperFunction(pieces) && ValidIntervals(t.intervals) && |t.intervals| == 1
    requires forall i :: 0 <= i < |pieces| ==> pieces[i].Polynomial? && LastPoint(pieces[i]).extraPrecision == 0
    requires k < |pieces| && Flat(pieces[k])
    ensures Rounded(pieces[k], t, o) == CurvePayout(pieces, k + 1, t, FirstOutcome(pieces[k]))
  {
    hide RoundTo, Interpolate, TwoPoints;
    var p, joint := pieces[k], FirstOutcome(pieces[k]);
    FlatValue(p, o);
    if k == 0 {
      FlatValue(p, joint);
    } else {
      JointsAscend(pieces, k);
      JointsAscend(pieces, k + 1);
      assert PieceAt(pieces, k + 1, joint) == k - 1;
      var before := pieces[k - 1];
      PassesThroughPoints(before.points, |before.points| - 1);
      assert LastPoint(before) == FirstPoint(p);
      NoExtraPrecision(LastPoint(before));
    }
  }

  lemma NoExtraPrecision(point: PayoutPoint)
    requires point.extraPrecision == 0
    ensures point.Payout() == point.outcomePayout as real
  {
  }

  lemma FlatValue(p: Piece, o: nat)
    requires Flat(p)
    ensures EvaluatePolynomial(p.points, o) == Some(p.points[0].outcomePayout as real)
  {
  }

  /** Two rounding intervals are enough to disagree: a constant of 7 keeps its payout of 7 where the second
      interval rounds it to 10. */
  lemma ShortcutCanMissInterval(sqrt: real -> real) returns (pieces: seq<Piece>, t: Terms)
    ensures ProperFunction(pieces) && ValidIntervals(t.intervals)
    ensures FunctionRanges(pieces, t, 1) == Ok([RangePayout(0, 21, 7, 93)])
    ensures CurvePayout(pieces, 1, t, 10) == Ok(10)
  {
    hide RoundTo, RoundHalfUp;
    var p := Polynomial([PayoutPoint(0, 7, 0), PayoutPoint(20, 7, 0)]);
    pieces := [p];
    t := Terms(sqrt, [RoundingInterval(0, 1), RoundingInterval(10, 10)], 100);
    FlatValue(p, 0);
    FlatValue(p, 10);
    RoundsToNearestMultiple(7.0, 1, 7);
    RoundsToNearestMultiple(7.0, 10, 1);
    assert ModulusAt(t.intervals, 0) == 1;
    assert ModulusAt(t.intervals, 10) == 10;
    assert RoundHalfUp(7.0) == 7;
    assert Rounded(p, t, 0) == Ok(7);
    assert Flat(p) && FirstOutcome(p) == 0 && LastOutcome(p) == 20;
    assert FunctionRanges(pieces, t, 0) == Ok([]);
    assert FunctionRanges(pieces, t, 1) == PieceRanges([], p, t);
    assert Opened([], p, t) == Ok([RangePayout(0, 1, 7, 93)]);
    assert Widened([RangePayout(0, 1, 7, 93)], 20) == [RangePayout(0, 21, 7, 93)];
  }
}
