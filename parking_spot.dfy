/** A parking spot (`ParkingSpot`): a fixed number and area code, and an
    occupancy flag that `Occupy` and `Vacate` overwrite in place. */
module Spots {

  class ParkingSpot {
    const spotNumber: int
    const areaCode: int
    var occupied: bool

    /** The two-argument constructor: a spot starts vacant. */
    constructor (spotNumber: int, areaCode: int)
      ensures this.spotNumber == spotNumber && this.areaCode == areaCode
      ensures !occupied
    {
      this.spotNumber := spotNumber;
      this.areaCode := areaCode;
      occupied := false;
    }

    /** The three-argument constructor: exactly the given occupancy, number
        and area code. */
    constructor WithOccupancy(spotNumber: int, occupied: bool, areaCode: int)
      ensures this.spotNumber == spotNumber && this.areaCode == areaCode
      ensures this.occupied == occupied
    {
      this.spotNumber := spotNumber;
      this.areaCode := areaCode;
      this.occupied := occupied;
    }

    /** Marks the spot occupied, whatever it was, so a second call changes nothing. */
    method Occupy()
      modifies this
      ensures occupied
    {
      occupied := true;
    }

    /** Marks the spot vacant, whatever it was, so a second call changes nothing. */
    method Vacate()
      modifies this
      ensures !occupied
    {
      occupied := false;
    }
  }

  /** The spot numbers of a list of spots, position by position. */
  function Numbers(spots: seq<ParkingSpot>): (r: seq<int>)
    ensures |r| == |spots|
    ensures forall i :: 0 <= i < |spots| ==> r[i] == spots[i].spotNumber
  {
    seq(|spots|, i requires 0 <= i < |spots| => spots[i].spotNumber)
  }

  /** Which spots of a list are vacant, position by position. */
  function VacancyFlags(spots: seq<ParkingSpot>): (r: seq<bool>)
    reads spots
    ensures |r| == |spots|
    ensures forall i :: 0 <= i < |spots| ==> r[i] == !spots[i].occupied
  {
    seq(|spots|, i requires 0 <= i < |spots| reads spots => !spots[i].occupied)
  }
}
