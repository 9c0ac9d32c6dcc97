/** A customer (`Customer`) with the vehicle it owns (`Vehicle`), and the
    validation its setters apply before they assign. */
module Customers {
  import opened Wrappers

  /** A vehicle: plate number and free-form type; Java only rejects nulls,
      which these strings cannot be. */
  datatype Vehicle = Vehicle(plateNumber: string, vehicleType: string)

  /** What the setters throw (`IllegalArgumentException`, or the exception of
      `Objects.requireNonNull`), one kind per check. */
  datatype CustomerError =
    | NameMissing            // null or empty name
    | PhoneNumberMissing     // null or empty phone number
    | PhoneNumberMalformed   // phone number not matching the pattern
    | IdMissing              // null id
    | VehicleMissing         // null vehicle

  predicate IsAsciiDigit(c: char) {
    '0' <= c <= '9'
  }

  predicate AllDigits(s: string) {
    forall i :: 0 <= i < |s| ==> IsAsciiDigit(s[i])
  }

  /** The phone pattern `^\+?[0-9]{10,15}$` under a whole-string match: strip an
      optional leading '+' (a '+' is never a digit, so the regex never has to
      backtrack over it) and require 10 to 15 ASCII digits. A match has 10 to
      16 characters, so the empty string never matches and the emptiness test
      before the pattern only selects the error message. */
  predicate MatchesPhonePattern(s: string)
    ensures MatchesPhonePattern(s) ==> 10 <= |s| <= 16
  {
    var digits := if |s| > 0 && s[0] == '+' then s[1..] else s;
    10 <= |digits| <= 15 && AllDigits(digits)
  }

  /** The language of the pattern: exactly the strings that are 10 to 15 ASCII
      digits, with or without one '+' in front. */
  lemma PhonePatternLanguage(s: string)
    ensures MatchesPhonePattern(s)
        <==> exists d :: 10 <= |d| <= 15 && AllDigits(d) && (s == d || s == ['+'] + d)
  {
    if MatchesPhonePattern(s) {
      var d := if |s| > 0 && s[0] == '+' then s[1..] else s;
      assert s == d || s == ['+'] + d;
    }
    if exists d :: 10 <= |d| <= 15 && AllDigits(d) && (s == d || s == ['+'] + d) {
      var d :| 10 <= |d| <= 15 && AllDigits(d) && (s == d || s == ['+'] + d);
      if s == d {
        assert IsAsciiDigit(s[0]);
      } else {
        assert s[1..] == d;
      }
    }
  }

  /** `setName` accepts a non-null, non-empty name. */
  predicate AcceptableName(name: Option<string>) {
    name.Some? && name.value != ""
  }

  /** `setPhoneNumber` accepts a non-null, non-empty string matching the pattern. */
  predicate AcceptablePhoneNumber(phone: Option<string>) {
    phone.Some? && phone.value != "" && MatchesPhonePattern(phone.value)
  }

  /** The first check of the three-argument constructor that fails, if any:
      name, then phone number, then vehicle. */
  function DraftError(name: Option<string>, phone: Option<string>, vehicle: Option<Vehicle>): Option<CustomerError> {
    if !AcceptableName(name) then Some(NameMissing)
    else if phone.None? || phone.value == "" then Some(PhoneNumberMissing)
    else if !MatchesPhonePattern(phone.value) then Some(PhoneNumberMalformed)
    else if vehicle.None? then Some(VehicleMissing)
    else None
  }

  /** A draft is refused exactly when one of its setters would refuse it. */
  lemma DraftErrorIffInvalid(name: Option<string>, phone: Option<string>, vehicle: Option<Vehicle>)
    ensures DraftError(name, phone, vehicle).None?
        <==> AcceptableName(name) && AcceptablePhoneNumber(phone) && vehicle.Some?
  {
  }

  class Customer {
    /** `null` until `SetId` stores one. */
    var id: Option<int>
    var name: string
    var phoneNumber: string
    var vehicle: Vehicle

    /** The object before its constructor's setters run: id unset, and the
        other fields holding placeholders that stand for Java's `null`. */
    constructor Unset()
      ensures id == None && name == "" && phoneNumber == "" && vehicle == Vehicle("", "")
    {
      id := None;
      name := "";
      phoneNumber := "";
      vehicle := Vehicle("", "");
    }

    /** `Customer(name, phoneNumber, vehicle)`: runs the three setters in order
        and fails with the first error; a new customer has no id yet. */
    static method Create(name: Option<string>, phone: Option<string>, vehicle: Option<Vehicle>)
      returns (r: Result<Customer, CustomerError>)
      ensures r.Failure? <==> DraftError(name, phone, vehicle).Some?
      ensures r.Failure? ==> r.error == DraftError(name, phone, vehicle).value
      ensures r.Success? ==> fresh(r.value) && r.value.id == None
      ensures r.Success? ==> r.value.name == name.value && r.value.name != ""
      ensures r.Success? ==> r.value.phoneNumber == phone.value && MatchesPhonePattern(r.value.phoneNumber)
      ensures r.Success? ==> r.value.vehicle == vehicle.value
    {
      var c := new Customer.Unset();
      var o := c.SetName(name);
      if o.Fail? { return Failure(o.error); }
      o := c.SetPhoneNumber(phone);
      if o.Fail? { return Failure(o.error); }
      o := c.SetVehicle(vehicle);
      if o.Fail? { return Failure(o.error); }
      r := Success(c);
    }

    /** `Customer(id, name, phoneNumber, vehicle)`: the three-argument
        constructor, then `SetId`. */
    static method CreateWithId(id: Option<int>, name: Option<string>, phone: Option<string>, vehicle: Option<Vehicle>)
      returns (r: Result<Customer, CustomerError>)
      ensures r.Failure? <==> DraftError(name, phone, vehicle).Some? || id.None?
      ensures r.Failure? ==> r.error == if DraftError(name, phone, vehicle).Some?
                                        then DraftError(name, phone, vehicle).value else IdMissing
      ensures r.Success? ==> fresh(r.value) && r.value.id == id
      ensures r.Success? ==> r.value.name == name.value && r.value.name != ""
      ensures r.Success? ==> r.value.phoneNumber == phone.value && MatchesPhonePattern(r.value.phoneNumber)
      ensures r.Success? ==> r.value.vehicle == vehicle.value
    {
      r := Create(name, phone, vehicle);
      if r.Success? {
        var c := r.value;
        var o := c.SetId(id);
        if o.Fail? { return Failure(o.error); }
      }
    }

    /** Stores a non-null, non-empty name; otherwise fails and keeps the old one. */
    method SetName(name: Option<string>) returns (o: Outcome<CustomerError>)
      modifies this
      ensures o.Pass? <==> AcceptableName(name)
      ensures o.Fail? ==> o.error == NameMissing
      ensures this.name == if o.Pass? then name.value else old(this.name)
      ensures id == old(id) && phoneNumber == old(phoneNumber) && vehicle == old(vehicle)
    {
      if name.None? || name.value == "" {
        return Fail(NameMissing);
      }
      this.name := name.value;
      o := Pass;
    }

    /** Stores a phone number matching the pattern; otherwise fails and keeps
        the old one. */
    method SetPhoneNumber(phone: Option<string>) returns (o: Outcome<CustomerError>)
      modifies this
      ensures o.Pass? <==> AcceptablePhoneNumber(phone)
      ensures o.Fail? ==> o.error == if phone.None? || phone.value == "" then PhoneNumberMissing
                                     else PhoneNumberMalformed
      ensures phoneNumber == if o.Pass? then phone.value else old(phoneNumber)
      ensures id == old(id) && name == old(name) && vehicle == old(vehicle)
    {
      if phone.None? || phone.value == "" {
        return Fail(PhoneNumberMissing);
      }
      if !MatchesPhonePattern(phone.value) {
        return Fail(PhoneNumberMalformed);
      }
      phoneNumber := phone.value;
      o := Pass;
    }

    /** Stores a non-null id; otherwise fails and keeps the old one. */
    method SetId(id: Option<int>) returns (o: Outcome<CustomerError>)
      modifies this
      ensures o.Pass? <==> id.Some?
      ensures o.Fail? ==> o.error == IdMissing
      ensures this.id == if o.Pass? then id else old(this.id)
      ensures name == old(name) && phoneNumber == old(phoneNumber) && vehicle == old(vehicle)
    {
      if id.None? {
        return Fail(IdMissing);
      }
      this.id := id;
      o := Pass;
    }

    /** Stores a non-null vehicle; otherwise fails and keeps the old one. */
    method SetVehicle(vehicle: Option<Vehicle>) returns (o: Outcome<CustomerError>)
      modifies this
      ensures o.Pass? <==> vehicle.Some?
      ensures o.Fail? ==> o.error == VehicleMissing
      ensures this.vehicle == if o.Pass? then vehicle.value else old(this.vehicle)
      ensures id == old(id) && name == old(name) && phoneNumber == old(phoneNumber)
    {
      if vehicle.None? {
        return Fail(VehicleMissing);
      }
      this.vehicle := vehicle.value;
      o := Pass;
    }
  }

  /** The ids of a list of customers, position by position. */
  function IdKeys(customers: seq<Customer>): (r: seq<Option<int>>)
    reads customers
    ensures |r| == |customers|
    ensures forall i :: 0 <= i < |customers| ==> r[i] == customers[i].id
  {
    seq(|customers|, i requires 0 <= i < |customers| reads customers => customers[i].id)
  }
}
