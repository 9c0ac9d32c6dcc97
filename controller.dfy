/** The controller's state-changing operations (`ParkingController`): the
    spots it installs at start-up, and reserving and vacating a spot, each as
    a single attempt that returns the error the console would have reported
    instead of asking again. */
module Controller {
  import opened Wrappers
  import opened Sequences
  import opened Spots
  import opened Customers
  import opened Reservations
  import opened SpotRegistries
  import opened ReservationRegistries
  import opened CustomerRegistries

  /** Why `reserveParkingSpot` gives up, in the order it checks. */
  datatype ReserveError = NoAvailableSpots | SpotNotFound | SpotOccupied | CustomerNotFound | NonPositiveHours

  /** Why `vacateParkingSpot` gives up. `SpotNotRegistered` is the exception
      the spot store's `update` throws, after the spot was already vacated. */
  datatype VacateError = ReservationNotFound | SpotAlreadyVacant | SpotNotRegistered

  /** `initializeParkingSpots` installs spots 1 to `SpotCount`; the
      constructor asks for area code `StartUpAreaCode`. */
  const SpotCount: int := 10
  const StartUpAreaCode: int := 101

  /** Every spot of a list is occupied. */
  predicate AllOccupied(spots: seq<ParkingSpot>)
    reads spots
  {
    forall i :: 0 <= i < |spots| ==> spots[i].occupied
  }

  /** The one object a reserve of spot number `n` may change: the first
      stored spot with that number. */
  function ReserveFootprint(spots: seq<ParkingSpot>, n: int): set<object> {
    var i := SpotIndex(spots, n);
    if i < |spots| then {spots[i]} else {}
  }

  /** The objects a vacate of `id` may change: the first reservation with
      that id, and its spot. */
  function VacateFootprint(reservations: seq<Reservation>, id: string): set<object> {
    var i := ReservationIndex(reservations, id);
    if i < |reservations| then {reservations[i], reservations[i].spot} else {}
  }

  /** The first guard of `reserveParkingSpot` that refuses, in the order the
      source checks them: no available spot at all, no spot with the number,
      the spot found is not among the available ones, no customer with the
      id, a non-positive number of hours. */
  function Refusal(spots: seq<ParkingSpot>, spotNumber: int, customers: seq<Customer>, customerId: int, hours: int)
    : (r: Option<ReserveError>)
    reads spots, customers
    ensures r == Some(NoAvailableSpots) <==> Vacant(spots) == []
    ensures r == Some(SpotNotFound) <==> Vacant(spots) != [] && spotNumber !in Numbers(spots)
  {
    if Vacant(spots) == [] then Some(NoAvailableSpots)
    else if SpotIndex(spots, spotNumber) == |spots| then Some(SpotNotFound)
    else if spots[SpotIndex(spots, spotNumber)] !in Vacant(spots) then Some(SpotOccupied)
    else if CustomerIndex(customers, customerId) == |customers| then Some(CustomerNotFound)
    else if hours <= 0 then Some(ReserveError.NonPositiveHours)
    else None
  }

  /** The guards read as facts about the spots: a reserve is refused for lack
      of spots exactly when every spot is occupied, refused as occupied
      exactly when the first spot with the number is occupied, and admitted
      exactly when that spot is vacant, the customer is known and the hours
      are positive. */
  lemma RefusalByOccupancy(spots: seq<ParkingSpot>, spotNumber: int, customers: seq<Customer>, customerId: int, hours: int)
    ensures var r := Refusal(spots, spotNumber, customers, customerId, hours);
            && (r == Some(NoAvailableSpots) <==> AllOccupied(spots))
            && (r == Some(SpotOccupied) <==>
                  !AllOccupied(spots) && spotNumber in Numbers(spots) &&
                  spots[SpotIndex(spots, spotNumber)].occupied)
            && (r == Some(CustomerNotFound) <==>
                  !AllOccupied(spots) && spotNumber in Numbers(spots) &&
                  !spots[SpotIndex(spots, spotNumber)].occupied &&
                  (forall c :: c in customers ==> c.id != Some(customerId)))
            && (r == None <==>
                  spotNumber in Numbers(spots) && !spots[SpotIndex(spots, spotNumber)].occupied &&
                  CustomerIndex(customers, customerId) < |customers| && hours > 0)
  {
    NoneVacant(spots);
    var i := SpotIndex(spots, spotNumber);
    if i < |spots| {
      VacantMembers(spots, spots[i]);
    }
    var j := CustomerIndex(customers, customerId);
    if j < |customers| {
      assert IdKeys(customers)[j] == Some(customerId);
    } else {
      forall c | c in customers ensures c.id != Some(customerId) {
        var k :| 0 <= k < |customers| && customers[k] == c;
        assert IdKeys(customers)[k] == c.id;
      }
    }
  }

  class ParkingController {
    const customerStore: CustomerRegistry
    const spotStore: SpotRegistry
    const reservationStore: ReservationRegistry

    /** Start-up with the one customer store, new spot and reservation
        stores, and spots 1 to 10, vacant, in area 101. */
    constructor (customerStore: CustomerRegistry)
      ensures this.customerStore == customerStore
      ensures fresh(spotStore) && fresh(reservationStore)
      ensures reservationStore.reservations == []
      ensures |spotStore.spots| == SpotCount
      ensures forall k :: 0 <= k < |spotStore.spots| ==>
                fresh(spotStore.spots[k]) && spotStore.spots[k].spotNumber == k + 1 &&
                spotStore.spots[k].areaCode == StartUpAreaCode && !spotStore.spots[k].occupied
    {
      this.customerStore := customerStore;
      spotStore := new SpotRegistry();
      reservationStore := new ReservationRegistry();
      new;
      InitializeParkingSpots(StartUpAreaCode);
      assert spotStore.spots[0..] == spotStore.spots;
    }

    /** `initializeParkingSpots`: appends new, vacant spots numbered 1 to 10
        in order, all in the given area. */
    method InitializeParkingSpots(areaCode: int)
      modifies spotStore
      ensures |spotStore.spots| == |old(spotStore.spots)| + SpotCount
      ensures spotStore.spots[..|old(spotStore.spots)|] == old(spotStore.spots)
      ensures var added := spotStore.spots[|old(spotStore.spots)|..];
              forall k :: 0 <= k < |added| ==>
                fresh(added[k]) && added[k].spotNumber == k + 1 && added[k].areaCode == areaCode && !added[k].occupied
    {
      var i := 1;
      while i <= SpotCount
        invariant 1 <= i <= SpotCount + 1
        invariant |spotStore.spots| == |old(spotStore.spots)| + i - 1
        invariant spotStore.spots[..|old(spotStore.spots)|] == old(spotStore.spots)
        invariant var added := spotStore.spots[|old(spotStore.spots)|..];
                  forall k :: 0 <= k < |added| ==>
                    fresh(added[k]) && added[k].spotNumber == k + 1 && added[k].areaCode == areaCode && !added[k].occupied
      {
        ghost var before := spotStore.spots;
        var spot := new ParkingSpot(i, areaCode);
        var _ := spotStore.Create(spot);
        assert spotStore.spots[|old(spotStore.spots)|..] == before[|old(spotStore.spots)|..] + [spot];
        i := i + 1;
      }
    }

    /** `reserveParkingSpot` as one attempt with the answers the console would
        have read: the guards of `Refusal` run in that order and a failed one
        changes nothing. Otherwise a new ACTIVE reservation of the first spot
        with that number, for the first customer with that id, from `now` for
        `hours` hours, is appended, and that spot is occupied, so no longer
        available. The spot store's `update` puts the spot back where it was. */
    method Reserve(spotNumber: int, customerId: int, hours: int, now: int, idNumber: int)
      returns (r: Result<Reservation, ReserveError>)
      requires MinIdNumber <= idNumber <= MaxIdNumber
      requires AllIdentified(customerStore.customers)
      modifies spotStore, reservationStore, ReserveFootprint(spotStore.spots, spotNumber)
      ensures spotStore.spots == old(spotStore.spots)
      ensures r.Failure? <==> old(Refusal(spotStore.spots, spotNumber, customerStore.customers, customerId, hours)).Some?
      ensures r.Failure? ==>
                && r.error == old(Refusal(spotStore.spots, spotNumber, customerStore.customers, customerId, hours)).value
                && reservationStore.reservations == old(reservationStore.reservations)
                && unchanged(ReserveFootprint(spotStore.spots, spotNumber))
      ensures r.Success? ==>
                var spot := spotStore.spots[SpotIndex(spotStore.spots, spotNumber)];
                && fresh(r.value)
                && reservationStore.reservations == old(reservationStore.reservations) + [r.value]
                && r.value.status == Active
                && r.value.reservationId == DecimalString(idNumber)
                && r.value.startTime == now && r.value.endTime == now + hours
                && r.value.spot == spot
                && r.value.customer == old(customerStore.customers[CustomerIndex(customerStore.customers, customerId)])
                && spot.occupied && spot !in Vacant(spotStore.spots)
    {
      var admitted := Admit(spotNumber, customerId, hours);
      if admitted.Failure? {
        return Failure(admitted.error);
      }
      var (spot, customer) := admitted.value;
      var reservation := Book(spot, customer, hours, now, idNumber);
      r := Success(reservation);
    }

    /** What a reserve does once every guard has passed: a new reservation is
        made and stored, and its spot is occupied and written back. */
    method Book(spot: ParkingSpot, customer: Customer, hours: int, now: int, idNumber: int)
      returns (reservation: Reservation)
      requires MinIdNumber <= idNumber <= MaxIdNumber && hours > 0
      requires SpotIndex(spotStore.spots, spot.spotNumber) < |spotStore.spots|
      requires spotStore.spots[SpotIndex(spotStore.spots, spot.spotNumber)] == spot
      modifies spotStore, reservationStore, spot
      ensures fresh(reservation)
      ensures reservationStore.reservations == old(reservationStore.reservations) + [reservation]
      ensures reservation.status == Active && reservation.reservationId == DecimalString(idNumber)
      ensures reservation.startTime == now && reservation.endTime == now + hours
      ensures reservation.spot == spot && reservation.customer == customer
      ensures spotStore.spots == old(spotStore.spots) && spot.occupied && spot !in Vacant(spotStore.spots)
    {
      var created := Reservation.Create(spot, customer, hours, now, idNumber);
      reservation := created.value;
      var _ := reservationStore.Create(reservation);
      OccupyStored(spot);
    }

    /** The guards of `reserveParkingSpot`, read against the stores and
        changing nothing: the first that refuses, or the spot and the customer
        the reservation is for. */
    method Admit(spotNumber: int, customerId: int, hours: int) returns (a: Result<(ParkingSpot, Customer), ReserveError>)
      requires AllIdentified(customerStore.customers)
      ensures a.Failure? <==> Refusal(spotStore.spots, spotNumber, customerStore.customers, customerId, hours).Some?
      ensures a.Failure? ==> a.error == Refusal(spotStore.spots, spotNumber, customerStore.customers, customerId, hours).value
      ensures a.Success? ==>
                && a.value.0 == spotStore.spots[SpotIndex(spotStore.spots, spotNumber)]
                && a.value.0.spotNumber == spotNumber
                && a.value.1 == customerStore.customers[CustomerIndex(customerStore.customers, customerId)]
                && hours > 0
    {
      var availableSpots := spotStore.FindAvailableSpots();
      if availableSpots == [] {
        return Failure(NoAvailableSpots);
      }
      var selected := spotStore.FindBySpotNumber(spotNumber);
      if selected.None? {
        return Failure(SpotNotFound);
      }
      if selected.value !in availableSpots {
        return Failure(SpotOccupied);
      }
      var found := customerStore.FindById(customerId);
      if found.None? {
        return Failure(CustomerNotFound);
      }
      if hours <= 0 {
        return Failure(ReserveError.NonPositiveHours);
      }
      a := Success((selected.value, found.value));
    }

    /** The end of a successful reserve: the spot is occupied and written back
        by the spot store's `update`, which finds it at its own index, so the
        store is left as it was. */
    method OccupyStored(spot: ParkingSpot)
      requires SpotIndex(spotStore.spots, spot.spotNumber) < |spotStore.spots|
      requires spotStore.spots[SpotIndex(spotStore.spots, spot.spotNumber)] == spot
      modifies spotStore, spot
      ensures spotStore.spots == old(spotStore.spots) && spot.occupied && spot !in Vacant(spotStore.spots)
    {
      spot.Occupy();
      var updated := spotStore.Update(spot);
      assert spotStore.spots == old(spotStore.spots)[SpotIndex(old(spotStore.spots), spot.spotNumber) := spot];
      VacantMembers(spotStore.spots, spot);
    }

    /** The spot half of a vacate: the spot is vacated, then written back by
        the spot store's `update`, which fails when no stored spot has its
        number; when it succeeds the spot is available again. */
    method VacateStored(spot: ParkingSpot) returns (updated: bool)
      modifies spotStore, spot
      ensures !spot.occupied
      ensures updated <==> spot.spotNumber in Numbers(old(spotStore.spots))
      ensures spotStore.spots == if updated then old(spotStore.spots)[SpotIndex(old(spotStore.spots), spot.spotNumber) := spot]
                                 else old(spotStore.spots)
      ensures updated ==> spot in Vacant(spotStore.spots)
    {
      spot.Vacate();
      updated := spotStore.Update(spot);
      if updated {
        assert spotStore.spots[SpotIndex(old(spotStore.spots), spot.spotNumber)] == spot;
        VacantMembers(spotStore.spots, spot);
      }
    }

    /** `vacateParkingSpot` as one attempt: finds the first reservation with
        the id and checks only that its spot is occupied, not the
        reservation's status. It then vacates the spot and updates the spot
        store, which fails when no stored spot has that number (the spot stays
        vacant, the reservation untouched); otherwise it completes the
        reservation, which the reservation store's `update` puts back where it
        was. */
    method Vacate(reservationId: string) returns (o: Outcome<VacateError>)
      modifies spotStore, reservationStore, VacateFootprint(reservationStore.reservations, reservationId)
      ensures reservationStore.reservations == old(reservationStore.reservations)
      ensures o == Fail(ReservationNotFound) <==> reservationId !in Ids(reservationStore.reservations)
      ensures o == Fail(ReservationNotFound) ==> spotStore.spots == old(spotStore.spots)
      ensures reservationId in Ids(reservationStore.reservations) ==>
                var reservation := reservationStore.reservations[ReservationIndex(reservationStore.reservations, reservationId)];
                var spot := reservation.spot;
                && reservation.endTime == old(reservation.endTime)
                && (o == Fail(SpotAlreadyVacant) <==> !old(spot.occupied))
                && (o == Fail(SpotNotRegistered) <==> old(spot.occupied) && spot.spotNumber !in Numbers(old(spotStore.spots)))
                && (o == Fail(SpotAlreadyVacant) ==> unchanged(reservation, spot) && spotStore.spots == old(spotStore.spots))
                && (o == Fail(SpotNotRegistered) ==>
                      !spot.occupied && reservation.status == old(reservation.status) && spotStore.spots == old(spotStore.spots))
                && (o.Pass? ==>
                      !spot.occupied && reservation.status == Completed && spot in Vacant(spotStore.spots) &&
                      spotStore.spots == old(spotStore.spots)[SpotIndex(old(spotStore.spots), spot.spotNumber) := spot])
    {
      var found := reservationStore.FindById(reservationId);
      if found.None? {
        return Fail(ReservationNotFound);
      }
      o := Release(found.value);
    }

    /** What a vacate does with the reservation it found: only the spot's
        occupancy is checked, then the spot is vacated and written back, and,
        when the spot store took it, the reservation is completed and written
        back to its own place. */
    method Release(reservation: Reservation) returns (o: Outcome<VacateError>)
      requires ReservationIndex(reservationStore.reservations, reservation.reservationId) < |reservationStore.reservations|
      requires reservationStore.reservations[ReservationIndex(reservationStore.reservations, reservation.reservationId)] == reservation
      modifies spotStore, reservationStore, reservation, reservation.spot
      ensures reservationStore.reservations == old(reservationStore.reservations)
      ensures reservation.endTime == old(reservation.endTime)
      ensures o != Fail(ReservationNotFound)
      ensures o == Fail(SpotAlreadyVacant) <==> !old(reservation.spot.occupied)
      ensures o == Fail(SpotNotRegistered) <==>
                old(reservation.spot.occupied) && reservation.spot.spotNumber !in Numbers(old(spotStore.spots))
      ensures o == Fail(SpotAlreadyVacant) ==> unchanged(reservation, reservation.spot) && spotStore.spots == old(spotStore.spots)
      ensures o == Fail(SpotNotRegistered) ==>
                !reservation.spot.occupied && reservation.status == old(reservation.status) && spotStore.spots == old(spotStore.spots)
      ensures o.Pass? ==>
                && !reservation.spot.occupied && reservation.status == Completed
                && reservation.spot in Vacant(spotStore.spots)
                && spotStore.spots == old(spotStore.spots)[SpotIndex(old(spotStore.spots), reservation.spot.spotNumber) := reservation.spot]
    {
      var spot := reservation.spot;
      if !spot.occupied {
        return Fail(SpotAlreadyVacant);
      }
      var spotUpdated := VacateStored(spot);
      if !spotUpdated {
        return Fail(SpotNotRegistered);
      }
      CompleteStored(reservation);
      o := Pass;
    }

    /** The reservation half of a vacate: the reservation is completed and
        written back by the reservation store's `update`, which finds it at
        its own index, so the store is left as it was. */
    method CompleteStored(reservation: Reservation)
      requires ReservationIndex(reservationStore.reservations, reservation.reservationId) < |reservationStore.reservations|
      requires reservationStore.reservations[ReservationIndex(reservationStore.reservations, reservation.reservationId)] == reservation
      modifies reservationStore, reservation
      ensures reservationStore.reservations == old(reservationStore.reservations)
      ensures reservation.status == Completed && reservation.endTime == old(reservation.endTime)
    {
      reservation.Complete();
      var _ := reservationStore.Update(reservation);
    }
  }
}
