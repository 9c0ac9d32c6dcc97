/** The in-memory reservation store (`ReservationDaoImpl`): a list of
    reservation references, changed in place by append and by indexed replace. */
module ReservationRegistries {
  import opened Wrappers
  import opened Sequences
  import opened Customers
  import opened Reservations

  /** The customers the reservations of a list were made for. */
  function CustomersOf(reservations: seq<Reservation>): set<Customer> {
    set r | r in reservations :: r.customer
  }

  /** Which reservations of a list belong to the customer with id `customerId`. */
  function CustomerFlags(reservations: seq<Reservation>, customerId: int): (r: seq<bool>)
    reads CustomersOf(reservations)
    ensures |r| == |reservations|
    ensures forall i :: 0 <= i < |reservations| ==> r[i] == (reservations[i].customer.id == Some(customerId))
  {
    seq(|reservations|, i requires 0 <= i < |reservations| reads CustomersOf(reservations) =>
      reservations[i].customer.id == Some(customerId))
  }

  /** The reservations of a list made by the customer with id `customerId`, in list order. */
  function OfCustomer(reservations: seq<Reservation>, customerId: int): seq<Reservation>
    reads CustomersOf(reservations)
  {
    Select(reservations, CustomerFlags(reservations, customerId))
  }

  /** A reservation is listed for a customer exactly when it is stored and
      made by a customer with that id. */
  lemma OfCustomerMembers(reservations: seq<Reservation>, customerId: int, r: Reservation)
    ensures r in OfCustomer(reservations, customerId)
        <==> r in reservations && r.customer.id == Some(customerId)
  {
    SelectMembers(reservations, CustomerFlags(reservations, customerId), r);
    if r in reservations && r.customer.id == Some(customerId) {
      var i :| 0 <= i < |reservations| && reservations[i] == r;
      assert CustomerFlags(reservations, customerId)[i];
    }
  }

  /** Up to `|reservations|`, the position of the first reservation with that id. */
  function ReservationIndex(reservations: seq<Reservation>, id: string): nat {
    FirstIndex(Ids(reservations), id)
  }

  class ReservationRegistry {
    var reservations: seq<Reservation>

    constructor ()
      ensures reservations == []
    {
      reservations := [];
    }

    /** `create`: appends the reservation, with no check for a duplicate id,
        and returns it. */
    method Create(reservation: Reservation) returns (r: Reservation)
      modifies this
      ensures reservations == old(reservations) + [reservation]
      ensures r == reservation
    {
      reservations := reservations + [reservation];
      r := reservation;
    }

    /** `findById`: the first stored reservation with an equal id, or none. */
    method FindById(id: string) returns (r: Option<Reservation>)
      ensures r.None? <==> (forall i :: 0 <= i < |reservations| ==> reservations[i].reservationId != id)
      ensures r.Some? ==> exists i :: 0 <= i < |reservations| && reservations[i] == r.value && r.value.reservationId == id
                                   && forall j :: 0 <= j < i ==> reservations[j].reservationId != id
      ensures r == if ReservationIndex(reservations, id) < |reservations|
                   then Some(reservations[ReservationIndex(reservations, id)]) else None
    {
      var i := 0;
      while i < |reservations|
        invariant 0 <= i <= |reservations|
        invariant forall j :: 0 <= j < i ==> reservations[j].reservationId != id
      {
        if reservations[i].reservationId == id {
          assert Ids(reservations)[i] == id;
          return Some(reservations[i]);
        }
        i := i + 1;
      }
      assert id !in Ids(reservations);
      r := None;
    }

    /** `findAll`: a copy holding the same reservations in storage order. */
    method FindAll() returns (all: seq<Reservation>)
      ensures |all| == |reservations|
      ensures forall i :: 0 <= i < |reservations| ==> all[i] == reservations[i]
    {
      all := reservations;
    }

    /** `update`: replaces the first stored reservation with the same id and
        nothing else; with no such reservation it fails (Java throws) and
        leaves the store as it was. */
    method Update(reservation: Reservation) returns (found: bool)
      modifies this
      ensures found <==> reservation.reservationId in Ids(old(reservations))
      ensures reservations == if found
                              then old(reservations)[ReservationIndex(old(reservations), reservation.reservationId) := reservation]
                              else old(reservations)
    {
      var i := 0;
      while i < |reservations|
        invariant 0 <= i <= |reservations|
        invariant reservations == old(reservations)
        invariant forall j :: 0 <= j < i ==> reservations[j].reservationId != reservation.reservationId
      {
        if reservations[i].reservationId == reservation.reservationId {
          assert Ids(reservations)[i] == reservation.reservationId;
          reservations := reservations[i := reservation];
          return true;
        }
        i := i + 1;
      }
      assert reservation.reservationId !in Ids(reservations);
      found := false;
    }

    /** `findByCustomerId`: exactly the reservations of the customer with that
        id, in storage order. Every stored reservation's customer must have an
        id, or Java's `getId().equals` dereferences null. */
    method FindByCustomerId(customerId: int) returns (list: seq<Reservation>)
      requires forall i :: 0 <= i < |reservations| ==> reservations[i].customer.id.Some?
      ensures list == OfCustomer(reservations, customerId)
    {
      list := [];
      var i := 0;
      while i < |reservations|
        invariant 0 <= i <= |reservations|
        invariant list == Select(reservations[..i], CustomerFlags(reservations, customerId)[..i])
      {
        SelectStep(reservations, CustomerFlags(reservations, customerId), i);
        if reservations[i].customer.id.value == customerId {
          list := list + [reservations[i]];
        }
        i := i + 1;
      }
      assert reservations[..i] == reservations;
      assert CustomerFlags(reservations, customerId)[..i] == CustomerFlags(reservations, customerId);
    }
  }
}
