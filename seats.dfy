/**
  buildAbsoluteSeatRows: the seat shares of a scenario turned into whole seats of a
  630-seat parliament by largest remainders (Hare-Niemeyer). Every party first gets
  the integer part of its exact seat number; the seats still missing go, one each,
  to the parties with the largest fractional remainders; the rows come out by seats,
  largest first.
 */
module Seats {
  import opened Base
  import opened Sorting
  import opened Scenarios

  /** The size of the parliament. */
  const TOTAL_SEATS: int := 630

  /** A party's row while rounding: whole seats so far and the fraction left over. */
  datatype RoundingRow = RoundingRow(party: PartyKey, seats: int, remainder: real)

  /** A row of the result. */
  datatype SeatRow = SeatRow(party: PartyKey, seats: int)

  /** (seatShare / 100) * TOTAL_SEATS */
  function ExactSeats(e: SeatShare): real
  {
    e.seatShare / 100.0 * TOTAL_SEATS as real
  }

  /** The row of a party before the missing seats are handed out: floor and remainder. */
  function FloorRow(e: SeatShare): (row: RoundingRow)
    ensures row.party == e.party
    ensures row.seats as real + row.remainder == ExactSeats(e)
    ensures 0.0 <= row.remainder < 1.0
  {
    var exact := ExactSeats(e);
    RoundingRow(e.party, exact.Floor, exact - exact.Floor as real)
  }

  function RowSeats(r: RoundingRow): int { r.seats }

  function RowRemainder(r: RoundingRow): real { r.remainder }

  function RowParty(r: RoundingRow): PartyKey { r.party }

  function SeatRowParty(r: SeatRow): PartyKey { r.party }

  function SeatRowSeats(r: SeatRow): int { r.seats }

  function ShareParty(e: SeatShare): PartyKey { e.party }

  function ToSeatRow(r: RoundingRow): SeatRow { SeatRow(r.party, r.seats) }

  /** Comparator `(a, b) => b.remainder - a.remainder`: larger remainder first. */
  predicate LargerRemainder(a: RoundingRow, b: RoundingRow) { a.remainder > b.remainder }

  /** Comparator `(a, b) => b.seats - a.seats`: more seats first. */
  predicate MoreSeatsRow(a: RoundingRow, b: RoundingRow) { a.seats > b.seats }

  /** max(0, TOTAL_SEATS - the floored total): the seats still to hand out. */
  function Missing(rows: seq<RoundingRow>): (missing: nat)
    ensures missing + TotalOf(rows, RowSeats) >= TOTAL_SEATS
  {
    var flooredTotal := TotalOf(rows, RowSeats);
    if TOTAL_SEATS - flooredTotal > 0 then TOTAL_SEATS - flooredTotal else 0
  }

  /** The rows in remainder order after the first `missing` of them got one more seat each. */
  function Award(ranked: seq<RoundingRow>, missing: nat): (awarded: seq<RoundingRow>)
  {
    seq(|ranked|, i requires 0 <= i < |ranked| =>
      if i < missing then ranked[i].(seats := ranked[i].seats + 1) else ranked[i])
  }

  /** The floored rows, in seat-share order. */
  function FlooredRows(seatShares: seq<SeatShare>): seq<RoundingRow>
  {
    Map(Sort(seatShares, MoreSeats), FloorRow)
  }

  /** The rounding rows after the missing seats are handed out, in remainder order. */
  function AwardedRows(seatShares: seq<SeatShare>): seq<RoundingRow>
  {
    var rows := FlooredRows(seatShares);
    Award(Sort(rows, LargerRemainder), Missing(rows))
  }

  /** The value of buildAbsoluteSeatRows. */
  function AbsoluteSeats(seatShares: seq<SeatShare>): seq<SeatRow>
  {
    Map(Sort(AwardedRows(seatShares), MoreSeatsRow), ToSeatRow)
  }

  /**
    The forEach over the rows in remainder order: while seats are missing, each row
    gets one more and the missing count goes down by one.
   */
  method HandOutMissing(ranked: seq<RoundingRow>, missing: nat) returns (awarded: seq<RoundingRow>)
    ensures awarded == Award(ranked, missing)
  {
    awarded := ranked;
    var left := missing;
    var i := 0;
    while i < |awarded|
      invariant 0 <= i <= |awarded| == |ranked|
      invariant forall k :: 0 <= k < i ==> awarded[k] == Award(ranked, missing)[k]
      invariant forall k :: i <= k < |ranked| ==> awarded[k] == ranked[k]
      invariant left == if missing - i > 0 then missing - i else 0
    {
      if left > 0 {
        awarded := awarded[i := awarded[i].(seats := awarded[i].seats + 1)];
        left := left - 1;
      }
      i := i + 1;
    }
  }

  /** buildAbsoluteSeatRows */
  method AbsoluteSeatRows(seatShares: seq<SeatShare>) returns (result: seq<SeatRow>)
    ensures result == AbsoluteSeats(seatShares)
  {
    var rows := FlooredRows(seatShares);
    var awarded := HandOutMissing(Sort(rows, LargerRemainder), Missing(rows));
    result := Map(Sort(awarded, MoreSeatsRow), ToSeatRow);
  }

  // ---- properties

  /** The output rows are ordered by seats, largest first. */
  lemma {:induction false} SeatRowsOrdered(seatShares: seq<SeatShare>, result: seq<SeatRow>)
    requires result == AbsoluteSeats(seatShares)
    ensures forall i, j :: 0 <= i < j < |result| ==> result[i].seats >= result[j].seats
  {
    var sorted := Sort(AwardedRows(seatShares), MoreSeatsRow);
    assert StrictWeakOrder(MoreSeatsRow);
    SortIsSorted(AwardedRows(seatShares), MoreSeatsRow);
    forall i, j | 0 <= i < j < |result|
      ensures result[i].seats >= result[j].seats
    {
      assert !MoreSeatsRow(sorted[j], sorted[i]);
    }
  }

  /** There is one output row per seat-share entry: the parties are the same, with the same multiplicity. */
  lemma {:induction false} SeatRowsParties(seatShares: seq<SeatShare>, result: seq<SeatRow>)
    requires result == AbsoluteSeats(seatShares)
    ensures |result| == |seatShares|
    ensures multiset(Map(result, SeatRowParty)) == multiset(Map(seatShares, ShareParty))
  {
    var byShare := Sort(seatShares, MoreSeats);
    var rows := FlooredRows(seatShares);
    var ranked := Sort(rows, LargerRemainder);
    var awarded := AwardedRows(seatShares);
    var sorted := Sort(awarded, MoreSeatsRow);
    MapPermutation(byShare, seatShares, ShareParty);
    assert Map(rows, RowParty) == Map(byShare, ShareParty);
    MapPermutation(ranked, rows, RowParty);
    assert Map(awarded, RowParty) == Map(ranked, RowParty);
    MapPermutation(sorted, awarded, RowParty);
    assert Map(result, SeatRowParty) == Map(sorted, RowParty);
  }

  /**
    Every output row belongs to a seat-share entry of its party and holds the integer
    part of that entry's exact seat number, or one seat more.
   */
  lemma {:induction false} SeatRowsRounded(seatShares: seq<SeatShare>, result: seq<SeatRow>)
    requires result == AbsoluteSeats(seatShares)
    ensures forall r :: r in result ==>
      exists e :: e in seatShares && e.party == r.party && ExactSeats(e).Floor <= r.seats <= ExactSeats(e).Floor + 1
  {
    var rows := FlooredRows(seatShares);
    var ranked := Sort(rows, LargerRemainder);
    var awarded := AwardedRows(seatShares);
    var sorted := Sort(awarded, MoreSeatsRow);
    FlooredRowsFloored(seatShares);
    PermutedFloored(ranked, rows, seatShares);
    AwardedNear(ranked, Missing(rows), seatShares);
    PermutedNear(sorted, awarded, seatShares);
    forall r | r in result
      ensures exists e :: e in seatShares && e.party == r.party && ExactSeats(e).Floor <= r.seats <= ExactSeats(e).Floor + 1
    {
      var i :| 0 <= i < |result| && result[i] == r;
      assert sorted[i] in sorted;
    }
  }

  /** The row holds the integer part of the exact seat number of an entry of its party. */
  ghost predicate FlooredFrom(x: RoundingRow, seatShares: seq<SeatShare>)
  {
    exists e :: e in seatShares && e.party == x.party && x.seats == ExactSeats(e).Floor
  }

  /** The row holds the integer part of the exact seat number of an entry of its party, or one more. */
  ghost predicate NearFrom(x: RoundingRow, seatShares: seq<SeatShare>)
  {
    exists e :: e in seatShares && e.party == x.party && ExactSeats(e).Floor <= x.seats <= ExactSeats(e).Floor + 1
  }

  lemma {:induction false} FlooredRowsFloored(seatShares: seq<SeatShare>)
    ensures forall x :: x in FlooredRows(seatShares) ==> FlooredFrom(x, seatShares)
  {
    var byShare := Sort(seatShares, MoreSeats);
    var rows := FlooredRows(seatShares);
    forall x | x in rows
      ensures FlooredFrom(x, seatShares)
    {
      var k :| 0 <= k < |rows| && rows[k] == x;
      assert byShare[k] in multiset(seatShares);
      assert rows[k] == FloorRow(byShare[k]);
    }
  }

  lemma {:induction false} PermutedFloored(a: seq<RoundingRow>, b: seq<RoundingRow>, seatShares: seq<SeatShare>)
    requires multiset(a) == multiset(b)
    requires forall x :: x in b ==> FlooredFrom(x, seatShares)
    ensures forall x :: x in a ==> FlooredFrom(x, seatShares)
  {
    forall x | x in a
      ensures FlooredFrom(x, seatShares)
    {
      assert x in multiset(b);
    }
  }

  lemma {:induction false} PermutedNear(a: seq<RoundingRow>, b: seq<RoundingRow>, seatShares: seq<SeatShare>)
    requires multiset(a) == multiset(b)
    requires forall x :: x in b ==> NearFrom(x, seatShares)
    ensures forall x :: x in a ==> NearFrom(x, seatShares)
  {
    forall x | x in a
      ensures NearFrom(x, seatShares)
    {
      assert x in multiset(b);
    }
  }

  lemma {:induction false} AwardedNear(ranked: seq<RoundingRow>, missing: nat, seatShares: seq<SeatShare>)
    requires forall x :: x in ranked ==> FlooredFrom(x, seatShares)
    ensures forall x :: x in Award(ranked, missing) ==> NearFrom(x, seatShares)
  {
    var awarded := Award(ranked, missing);
    forall x | x in awarded
      ensures NearFrom(x, seatShares)
    {
      var i :| 0 <= i < |awarded| && awarded[i] == x;
      assert ranked[i] in ranked;
      var e :| e in seatShares && e.party == ranked[i].party && ranked[i].seats == ExactSeats(e).Floor;
      assert e.party == x.party && ExactSeats(e).Floor <= x.seats <= ExactSeats(e).Floor + 1;
    }
  }

  /**
    The missing seats go to the largest remainders: of two rows, one that received an
    extra seat never has a smaller remainder than one that did not.
   */
  lemma {:induction false} LargestRemaindersFirst(seatShares: seq<SeatShare>)
    ensures var ranked := Sort(FlooredRows(seatShares), LargerRemainder);
      var awarded := AwardedRows(seatShares);
      && |awarded| == |ranked|
      && (forall i :: 0 <= i < |ranked| ==>
            awarded[i].party == ranked[i].party && awarded[i].remainder == ranked[i].remainder
            && ranked[i].seats <= awarded[i].seats <= ranked[i].seats + 1)
      && (forall i, j ::
            (0 <= i < |ranked| && 0 <= j < |ranked| && awarded[i].seats == ranked[i].seats + 1 && awarded[j].seats == ranked[j].seats)
            ==> ranked[i].remainder >= ranked[j].remainder)
  {
    var rows := FlooredRows(seatShares);
    var ranked := Sort(rows, LargerRemainder);
    var awarded := AwardedRows(seatShares);
    AwardShape(ranked, Missing(rows));
    RemaindersDescending(rows);
    forall i, j | 0 <= i < |ranked| && 0 <= j < |ranked| && awarded[i].seats == ranked[i].seats + 1 && awarded[j].seats == ranked[j].seats
      ensures ranked[i].remainder >= ranked[j].remainder
    {
      assert i < j || i == j;
    }
  }

  /** Award keeps each row's party and remainder and adds one seat exactly to the first `missing` rows. */
  lemma {:induction false} AwardShape(ranked: seq<RoundingRow>, missing: nat)
    ensures var awarded := Award(ranked, missing);
      && |awarded| == |ranked|
      && (forall i :: 0 <= i < |ranked| ==>
            && awarded[i].party == ranked[i].party && awarded[i].remainder == ranked[i].remainder
            && ranked[i].seats <= awarded[i].seats <= ranked[i].seats + 1
            && (awarded[i].seats == ranked[i].seats + 1 <==> i < missing))
  {
  }

  /** Sorted by LargerRemainder, the remainders never increase. */
  lemma {:induction false} RemaindersDescending(rows: seq<RoundingRow>)
    ensures var ranked := Sort(rows, LargerRemainder);
      forall i, j :: 0 <= i < j < |ranked| ==> ranked[i].remainder >= ranked[j].remainder
  {
    var ranked := Sort(rows, LargerRemainder);
    assert StrictWeakOrder(LargerRemainder);
    SortIsSorted(rows, LargerRemainder);
    forall i, j | 0 <= i < j < |ranked|
      ensures ranked[i].remainder >= ranked[j].remainder
    {
      assert !LargerRemainder(ranked[j], ranked[i]);
    }
  }


  /** Handing out `missing` seats adds min(missing, number of rows) seats. */
  lemma {:induction false} AwardTotal(ranked: seq<RoundingRow>, missing: nat)
    ensures TotalOf(Award(ranked, missing), RowSeats) ==
      TotalOf(ranked, RowSeats) + (if missing < |ranked| then missing else |ranked|)
  {
    if ranked != [] {
      var next := if missing > 0 then missing - 1 else 0;
      AwardTotal(ranked[1..], next);
      assert Award(ranked, missing)[1..] == Award(ranked[1..], next);
    }
  }

  /** Exact seat numbers split into whole seats and remainders. */
  lemma {:induction false} ExactSplit(rows: seq<RoundingRow>)
    ensures SumOf(rows, (r: RoundingRow) => r.seats as real + r.remainder) ==
      TotalOf(rows, RowSeats) as real + SumOf(rows, RowRemainder)
  {
    if rows != [] {
      ExactSplit(rows[1..]);
    }
  }

  /** Remainders below 1 add up to less than the number of rows. */
  lemma {:induction false} RemaindersBelowCount(rows: seq<RoundingRow>)
    requires forall i :: 0 <= i < |rows| ==> 0.0 <= rows[i].remainder < 1.0
    ensures 0.0 <= SumOf(rows, RowRemainder)
    ensures rows != [] ==> SumOf(rows, RowRemainder) < |rows| as real
  {
    if rows != [] {
      RemaindersBelowCount(rows[1..]);
    }
  }

  /** Shares that add up to 100 give exact seat numbers that add up to 630. */
  lemma {:induction false} ExactTotal(byShare: seq<SeatShare>)
    requires SumOf(byShare, SeatShareOf) == 100.0
    ensures SumOf(byShare, ExactSeats) == TOTAL_SEATS as real
  {
    SumOfScaled(byShare, SeatShareOf, byShare, ExactSeats, TOTAL_SEATS as real / 100.0);
  }

  /**
    Floored rows of exact seat numbers that add up to 630 leave fewer seats missing
    than there are rows, and the missing seats make up the difference to 630.
   */
  lemma {:induction false} FloorsLeaveFewMissing(byShare: seq<SeatShare>, rows: seq<RoundingRow>)
    requires rows == Map(byShare, FloorRow)
    requires SumOf(byShare, ExactSeats) == TOTAL_SEATS as real
    ensures Missing(rows) < |rows| && Missing(rows) + TotalOf(rows, RowSeats) == TOTAL_SEATS
  {
    SumOfPointwise(byShare, ExactSeats, rows, (r: RoundingRow) => r.seats as real + r.remainder);
    ExactSplit(rows);
    RemaindersBelowCount(rows);
  }

  /** When the seat shares add up to 100, the floored rows leave fewer seats missing than there are rows. */
  lemma {:induction false} MissingFitsRows(seatShares: seq<SeatShare>)
    requires SumOf(seatShares, SeatShareOf) == 100.0
    ensures var rows := FlooredRows(seatShares);
      Missing(rows) < |rows| && Missing(rows) + TotalOf(rows, RowSeats) == TOTAL_SEATS
  {
    var byShare := Sort(seatShares, MoreSeats);
    SumOfPermutation(byShare, seatShares, SeatShareOf);
    ExactTotal(byShare);
    FloorsLeaveFewMissing(byShare, FlooredRows(seatShares));
  }

  /** When the seat shares add up to 100, the rows hold exactly 630 seats. */
  lemma {:induction false} SeatRowsTotal(seatShares: seq<SeatShare>, result: seq<SeatRow>)
    requires result == AbsoluteSeats(seatShares)
    requires SumOf(seatShares, SeatShareOf) == 100.0
    ensures TotalOf(result, SeatRowSeats) == TOTAL_SEATS
  {
    var rows := FlooredRows(seatShares);
    var ranked := Sort(rows, LargerRemainder);
    var awarded := AwardedRows(seatShares);
    var sorted := Sort(awarded, MoreSeatsRow);
    MissingFitsRows(seatShares);
    AwardTotal(ranked, Missing(rows));
    TotalOfPermutation(ranked, rows, RowSeats);
    TotalOfPermutation(sorted, awarded, RowSeats);
    TotalOfSeatRows(sorted);
  }

  lemma {:induction false} TotalOfSeatRows(rows: seq<RoundingRow>)
    ensures TotalOf(Map(rows, ToSeatRow), SeatRowSeats) == TotalOf(rows, RowSeats)
  {
    if rows != [] {
      TotalOfSeatRows(rows[1..]);
      assert Map(rows, ToSeatRow)[1..] == Map(rows[1..], ToSeatRow);
    }
  }

  /** Zero seat shares floor to zero seats, so all 630 seats are missing. */
  lemma {:induction false} ZeroSharesMissAll(byShare: seq<SeatShare>, rows: seq<RoundingRow>)
    requires rows == Map(byShare, FloorRow)
    requires forall k :: 0 <= k < |byShare| ==> byShare[k].seatShare == 0.0
    ensures Missing(rows) == TOTAL_SEATS
  {
    ZeroTotal(rows);
  }

  /** With at least as many seats missing as rows, every row gets one seat more. */
  lemma {:induction false} AwardEveryRow(ranked: seq<RoundingRow>, missing: nat)
    requires missing >= |ranked|
    ensures forall k :: 0 <= k < |ranked| ==> Award(ranked, missing)[k].seats == ranked[k].seats + 1
  {
  }

  /**
    When every seat share is 0 (no party passed the hurdle), nothing is floored, all
    630 seats are missing, and each of the (at most 630) rows receives exactly one seat.
   */
  lemma {:induction false} AllZeroSharesGiveOneSeatEach(seatShares: seq<SeatShare>, result: seq<SeatRow>)
    requires result == AbsoluteSeats(seatShares)
    requires forall i :: 0 <= i < |seatShares| ==> seatShares[i].seatShare == 0.0
    requires |seatShares| <= TOTAL_SEATS
    ensures forall r :: r in result ==> r.seats == 1
  {
    var awarded := AwardedRows(seatShares);
    var sorted := Sort(awarded, MoreSeatsRow);
    ZeroSharesAwardOne(seatShares);
    forall r | r in result
      ensures r.seats == 1
    {
      var i :| 0 <= i < |result| && result[i] == r;
      assert sorted[i] in multiset(awarded);
    }
  }

  /** Every row of rows holds the given number of seats. */
  ghost predicate EveryRowHolds(rows: seq<RoundingRow>, seats: int)
  {
    forall j :: 0 <= j < |rows| ==> rows[j].seats == seats
  }

  /** With every seat share 0, all 630 seats are missing and each row gets one of them. */
  lemma {:induction false} ZeroSharesAwardOne(seatShares: seq<SeatShare>)
    requires forall i :: 0 <= i < |seatShares| ==> seatShares[i].seatShare == 0.0
    requires |seatShares| <= TOTAL_SEATS
    ensures EveryRowHolds(AwardedRows(seatShares), 1)
  {
    var byShare := Sort(seatShares, MoreSeats);
    var rows := FlooredRows(seatShares);
    var ranked := Sort(rows, LargerRemainder);
    forall k | 0 <= k < |byShare|
      ensures byShare[k].seatShare == 0.0
    {
      assert byShare[k] in multiset(seatShares);
    }
    ZeroSharesMissAll(byShare, rows);
    AwardEveryRow(ranked, Missing(rows));
    forall j | 0 <= j < |ranked|
      ensures Award(ranked, Missing(rows))[j].seats == 1
    {
      assert ranked[j] in multiset(rows);
    }
  }

  lemma {:induction false} ZeroTotal(rows: seq<RoundingRow>)
    requires forall k :: 0 <= k < |rows| ==> rows[k].seats == 0 && rows[k].remainder == 0.0
    ensures TotalOf(rows, RowSeats) == 0
  {
    if rows != [] {
      ZeroTotal(rows[1..]);
    }
  }
}
