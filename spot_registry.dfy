/** The in-memory spot store (`ParkingSpotDaoImpl`): a list of spot
    references, changed in place by append, replace and remove. */
module SpotRegistries {
  import opened Wrappers
  import opened Sequences
  import opened Spots

  /** The spots of a list that are vacant, in list order. */
  function Vacant(spots: seq<ParkingSpot>): (r: seq<ParkingSpot>)
    reads spots
  {
    Select(spots, VacancyFlags(spots))
  }

  /** A spot is listed as vacant exactly when it is stored and not occupied. */
  lemma VacantMembers(spots: seq<ParkingSpot>, s: ParkingSpot)
    ensures s in Vacant(spots) <==> s in spots && !s.occupied
  {
    SelectMembers(spots, VacancyFlags(spots), s);
    if s in spots && !s.occupied {
      var i :| 0 <= i < |spots| && spots[i] == s;
      assert VacancyFlags(spots)[i];
    }
  }

  /** No spot is listed as vacant exactly when every stored spot is occupied. */
  lemma NoneVacant(spots: seq<ParkingSpot>)
    ensures Vacant(spots) == [] <==> forall i :: 0 <= i < |spots| ==> spots[i].occupied
  {
    var v := Vacant(spots);
    if v != [] {
      VacantMembers(spots, v[0]);
    }
    forall i | 0 <= i < |spots| && !spots[i].occupied
      ensures v != []
    {
      VacantMembers(spots, spots[i]);
    }
  }

  /** Up to `|spots|`, the position `findBySpotNumber` stops at. */
  function SpotIndex(spots: seq<ParkingSpot>, n: int): nat {
    FirstIndex(Numbers(spots), n)
  }

  class SpotRegistry {
    var spots: seq<ParkingSpot>

    constructor ()
      ensures spots == []
    {
      spots := [];
    }

    /** `create`: appends the spot, with no check for a duplicate number, and
        returns it. */
    method Create(spot: ParkingSpot) returns (r: ParkingSpot)
      modifies this
      ensures spots == old(spots) + [spot]
      ensures r == spot
    {
      spots := spots + [spot];
      r := spot;
    }

    /** `findAll`: a copy holding the same spots in storage order; being a
        value, it cannot be used to change the store. */
    method FindAll() returns (all: seq<ParkingSpot>)
      ensures |all| == |spots|
      ensures forall i :: 0 <= i < |spots| ==> all[i] == spots[i]
    {
      all := spots;
    }

    /** `findBySpotNumber`: the first stored spot with that number, or none. */
    method FindBySpotNumber(n: int) returns (r: Option<ParkingSpot>)
      ensures r.None? <==> (forall i :: 0 <= i < |spots| ==> spots[i].spotNumber != n)
      ensures r.Some? ==> exists i :: 0 <= i < |spots| && spots[i] == r.value && r.value.spotNumber == n
                                   && forall j :: 0 <= j < i ==> spots[j].spotNumber != n
      ensures r == if SpotIndex(spots, n) < |spots| then Some(spots[SpotIndex(spots, n)]) else None
    {
      var i := 0;
      while i < |spots|
        invariant 0 <= i <= |spots|
        invariant forall j :: 0 <= j < i ==> spots[j].spotNumber != n
      {
        if spots[i].spotNumber == n {
          assert Numbers(spots)[i] == n;
          return Some(spots[i]);
        }
        i := i + 1;
      }
      assert n !in Numbers(spots);
      r := None;
    }

    /** `findAvailableSpots`: exactly the vacant spots, in storage order. */
    method FindAvailableSpots() returns (list: seq<ParkingSpot>)
      ensures list == Vacant(spots)
    {
      list := [];
      var i := 0;
      while i < |spots|
        invariant 0 <= i <= |spots|
        invariant list == Select(spots[..i], VacancyFlags(spots)[..i])
      {
        SelectStep(spots, VacancyFlags(spots), i);
        if !spots[i].occupied {
          list := list + [spots[i]];
        }
        i := i + 1;
      }
      assert spots[..i] == spots && VacancyFlags(spots)[..i] == VacancyFlags(spots);
    }

    /** `update`: replaces the first stored spot with the same number and
        nothing else; with no such spot it fails (Java throws) and leaves the
        store as it was. */
    method Update(spot: ParkingSpot) returns (found: bool)
      modifies this
      ensures found <==> spot.spotNumber in Numbers(old(spots))
      ensures spots == if found then old(spots)[SpotIndex(old(spots), spot.spotNumber) := spot]
                       else old(spots)
    {
      var existing := FindBySpotNumber(spot.spotNumber);
      if existing.Some? {
        // `indexOf` compares by identity, and the spot found is the first with its number.
        var index := FirstIndex(spots, existing.value);
        spots := spots[index := spot];
        return true;
      }
      found := false;
    }

    /** `delete`: removes the first stored spot with that number, keeps the
        others in order and reports true; with no such spot, false and no change. */
    method Delete(n: int) returns (removed: bool)
      modifies this
      ensures removed <==> n in Numbers(old(spots))
      ensures removed ==> spots == old(spots)[..SpotIndex(old(spots), n)] + old(spots)[SpotIndex(old(spots), n) + 1..]
      ensures !removed ==> spots == old(spots)
    {
      var i := 0;
      while i < |spots|
        invariant 0 <= i <= |spots|
        invariant spots == old(spots)
        invariant forall j :: 0 <= j < i ==> spots[j].spotNumber != n
      {
        var spot := spots[i];
        if spot.spotNumber == n {
          // `remove(Object)` drops the first occurrence of this very object.
          var k := FirstIndex(spots, spot);
          assert Numbers(spots)[i] == n;
          spots := spots[..k] + spots[k + 1..];
          return true;
        }
        i := i + 1;
      }
      assert n !in Numbers(spots);
      removed := false;
    }
  }
}
