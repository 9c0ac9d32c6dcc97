/** A reservation (`Reservation`): a six-digit id, a time window on an integer
    clock counted in hours, a status, and references to the very spot and
    customer objects it was made for. */
module Reservations {
  import opened Wrappers
  import opened Spots
  import opened Customers

  /** `Reservation.Status`. */
  datatype Status = Active | Completed

  /** `setEndTimeByHours` throws on a non-positive duration. */
  datatype ReservationError = NonPositiveHours

  /** The range of `100000 + random.nextInt(900000)`. */
  const MinIdNumber: int := 100000
  const MaxIdNumber: int := 999999

  function DigitChar(d: nat): (c: char)
    requires d < 10
    ensures IsAsciiDigit(c) && c as int - '0' as int == d
  {
    ('0' as int + d) as char
  }

  /** `String.valueOf` of a non-negative `int`: its decimal digits, most
      significant first, without leading zeros. */
  function DecimalString(n: nat): (s: string)
    decreases n
  {
    if n < 10 then [DigitChar(n)] else DecimalString(n / 10) + [DigitChar(n % 10)]
  }

  /** The number a string of decimal digits denotes. */
  function DecimalValue(s: string): int
    requires AllDigits(s)
    decreases |s|
  {
    if s == [] then 0
    else DecimalValue(s[..|s| - 1]) * 10 + (s[|s| - 1] as int - '0' as int)
  }

  /** Reading back the decimal form of `n` gives `n`. */
  lemma {:induction false} DecimalRoundTrip(n: nat)
    ensures AllDigits(DecimalString(n)) && DecimalValue(DecimalString(n)) == n
    decreases n
  {
    if n >= 10 {
      DecimalRoundTrip(n / 10);
      var s := DecimalString(n);
      assert s[..|s| - 1] == DecimalString(n / 10);
    }
  }

  /** Hence distinct id numbers give distinct reservation ids. */
  lemma DecimalInjective(m: nat, n: nat)
    requires m != n
    ensures DecimalString(m) != DecimalString(n)
  {
    DecimalRoundTrip(m);
    DecimalRoundTrip(n);
  }

  /** The number of decimal digits of `n`. */
  lemma {:induction false} DecimalLength(n: nat, k: nat)
    requires Pow10(k) <= n < Pow10(k + 1)
    ensures |DecimalString(n)| == k + 1
    decreases k
  {
    if k > 0 {
      DecimalLength(n / 10, k - 1);
    }
  }

  function Pow10(k: nat): (p: nat)
    ensures p >= 1
  {
    if k == 0 then 1 else 10 * Pow10(k - 1)
  }

  /** A reservation id is six ASCII digits, the first of them not '0'. */
  lemma SixDigitId(n: int)
    requires MinIdNumber <= n <= MaxIdNumber
    ensures |DecimalString(n)| == 6 && AllDigits(DecimalString(n)) && DecimalString(n)[0] != '0'
  {
    assert Pow10(5) == 100000 && Pow10(6) == 1000000;
    DecimalLength(n, 5);
    DecimalRoundTrip(n);
    LeadingDigit(n);
  }

  /** The decimal form of a positive number does not start with '0'. */
  lemma {:induction false} LeadingDigit(n: nat)
    requires n > 0
    ensures DecimalString(n)[0] != '0'
    decreases n
  {
    if n >= 10 {
      LeadingDigit(n / 10);
    }
  }

  class Reservation {
    const reservationId: string
    const startTime: int
    var endTime: int
    var status: Status
    const spot: ParkingSpot
    const customer: Customer

    /** The constructor once its duration check has passed. */
    constructor (spot: ParkingSpot, customer: Customer, hours: int, now: int, idNumber: int)
      requires hours > 0
      requires MinIdNumber <= idNumber <= MaxIdNumber
      ensures reservationId == DecimalString(idNumber)
      ensures startTime == now && endTime == now + hours
      ensures status == Active
      ensures this.spot == spot && this.customer == customer
    {
      reservationId := DecimalString(idNumber);
      startTime := now;
      endTime := now + hours;
      this.spot := spot;
      this.customer := customer;
      status := Active;
    }

    /** `new Reservation(spot, customer, hours)` at clock time `now`, with
        `idNumber` the value `generateRandomNumber` drew: fails when `hours <= 0`,
        otherwise an ACTIVE reservation whose window ends `hours` after it starts. */
    static method Create(spot: ParkingSpot, customer: Customer, hours: int, now: int, idNumber: int)
      returns (r: Result<Reservation, ReservationError>)
      requires MinIdNumber <= idNumber <= MaxIdNumber
      ensures r.Failure? <==> hours <= 0
      ensures r.Failure? ==> r.error == NonPositiveHours
      ensures r.Success? ==> fresh(r.value) && r.value.status == Active
      ensures r.Success? ==> r.value.reservationId == DecimalString(idNumber)
      ensures r.Success? ==> r.value.startTime == now && r.value.endTime == now + hours
      ensures r.Success? ==> r.value.endTime > r.value.startTime
      ensures r.Success? ==> r.value.spot == spot && r.value.customer == customer
    {
      if hours <= 0 {
        return Failure(NonPositiveHours);
      }
      var res := new Reservation(spot, customer, hours, now, idNumber);
      r := Success(res);
    }

    /** Recomputes the end of the window from the start (not from the old end);
        a non-positive duration fails and keeps the old end. */
    method SetEndTimeByHours(hours: int) returns (o: Outcome<ReservationError>)
      modifies this
      ensures o.Pass? <==> hours > 0
      ensures o.Fail? ==> o.error == NonPositiveHours
      ensures endTime == if o.Pass? then startTime + hours else old(endTime)
      ensures status == old(status)
    {
      if hours <= 0 {
        return Fail(NonPositiveHours);
      }
      endTime := startTime + hours;
      o := Pass;
    }

    /** Marks the reservation COMPLETED from any status, so a second call
        changes nothing. */
    method Complete()
      modifies this
      ensures status == Completed
      ensures endTime == old(endTime)
    {
      status := Completed;
    }
  }

  /** The ids of a list of reservations, position by position. */
  function Ids(reservations: seq<Reservation>): (r: seq<string>)
    ensures |r| == |reservations|
    ensures forall i :: 0 <= i < |reservations| ==> r[i] == reservations[i].reservationId
  {
    seq(|reservations|, i requires 0 <= i < |reservations| => reservations[i].reservationId)
  }

  /** The spots of a list of reservations, position by position. */
  function SpotList(reservations: seq<Reservation>): (r: seq<ParkingSpot>)
    ensures |r| == |reservations|
    ensures forall k :: 0 <= k < |reservations| ==> r[k] == reservations[k].spot
  {
    seq(|reservations|, k requires 0 <= k < |reservations| => reservations[k].spot)
  }
}
