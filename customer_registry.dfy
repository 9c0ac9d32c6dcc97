/** The customer store (`CustomerDaoImpl`): one explicitly constructed object
    in place of the singleton, owning the id sequencer it draws ids from. */
module CustomerRegistries {
  import opened Wrappers
  import opened Sequences
  import opened IdSequencing
  import opened Customers

  /** Every customer of the list has an id. */
  predicate AllIdentified(customers: seq<Customer>)
    reads customers
  {
    forall i :: 0 <= i < |customers| ==> customers[i].id.Some?
  }

  /** Up to `|customers|`, the position of the first customer with that id. */
  function CustomerIndex(customers: seq<Customer>, id: int): nat
    reads customers
  {
    FirstIndex(IdKeys(customers), Some(id))
  }

  /** An id list as the store keeps it: every entry present, between 1 and
      the counter, and rising strictly along the list. */
  predicate RisingIds(keys: seq<Option<int>>, counter: int) {
    && (forall i :: 0 <= i < |keys| ==> keys[i].Some? && 1 <= keys[i].value <= counter)
    && (forall i, j :: 0 <= i < j < |keys| ==> keys[i].Some? && keys[j].Some? && keys[i].value < keys[j].value)
  }

  /** In a store whose ids rise, looking up a stored customer's id finds that
      very customer. */
  lemma LookupFindsEach(customers: seq<Customer>, counter: int, j: nat)
    requires RisingIds(IdKeys(customers), counter) && j < |customers|
    ensures customers[j].id.Some? && CustomerIndex(customers, customers[j].id.value) == j
  {
    var keys := IdKeys(customers);
    forall a, b | 0 <= a < b < |keys| ensures keys[a] != keys[b] {
      assert keys[a].value < keys[b].value;
    }
    FirstIndexOfUnique(keys, j);
  }

  /** The ids of a list with one more customer end in that customer's id. */
  lemma IdKeysAppend(customers: seq<Customer>, customer: Customer)
    ensures IdKeys(customers + [customer]) == IdKeys(customers) + [customer.id]
  {
    assert forall i :: 0 <= i < |customers| ==> (customers + [customer])[i] == customers[i];
  }

  /** Appending the counter's successor keeps an id list rising, with the new
      id first found at the new last place. */
  lemma AppendKeepsRising(keys: seq<Option<int>>, counter: int)
    requires RisingIds(keys, counter) && 0 <= counter < IntMax
    ensures RisingIds(keys + [Some(counter + 1)], counter + 1)
    ensures FirstIndex(keys + [Some(counter + 1)], Some(counter + 1)) == |keys|
  {
    var grown := keys + [Some(counter + 1)];
    forall i | 0 <= i < |grown| ensures grown[i].Some? && 1 <= grown[i].value <= counter + 1 {
      if i < |keys| {
        assert grown[i] == keys[i];
      } else {
        assert grown[i] == Some(counter + 1);
      }
    }
    forall a, b | 0 <= a < b < |grown| ensures grown[a].Some? && grown[b].Some? && grown[a].value < grown[b].value {
      assert grown[a] == keys[a];
      if b < |keys| {
        assert grown[b] == keys[b];
      } else {
        assert grown[b] == Some(counter + 1) && keys[a].value <= counter;
      }
    }
    FirstIndexOfUnique(grown, |keys|);
  }

  class CustomerRegistry {
    var customers: seq<Customer>
    const sequencer: CustomerIdSequencer

    /** The store as the class loader leaves it: empty, counter at 0. */
    constructor ()
      ensures customers == [] && fresh(sequencer) && sequencer.currentId == 0
    {
      customers := [];
      sequencer := new CustomerIdSequencer();
    }

    /** The store's invariant while every customer went through `Create` and
        the counter has not wrapped: the ids rise along the list, and all lie
        between 1 and the counter. */
    ghost predicate Valid()
      reads this, customers, sequencer
    {
      && 0 <= sequencer.currentId as int
      && RisingIds(IdKeys(customers), sequencer.currentId as int)
    }

    /** `create`: gives the customer the sequencer's next id and then appends
        it. No earlier customer changes; while the counter has not wrapped, the
        invariant is kept and the new id looks up this very customer. */
    method Create(customer: Customer) returns (r: Customer)
      modifies this, sequencer, customer
      ensures sequencer.currentId == Increment(old(sequencer.currentId))
      ensures customer.id == Some(sequencer.currentId as int)
      ensures customer.name == old(customer.name) && customer.phoneNumber == old(customer.phoneNumber)
      ensures customer.vehicle == old(customer.vehicle)
      ensures customers == old(customers) + [customer] && r == customer
      ensures forall c :: c in old(customers) && c != customer ==> c.id == old(c.id)
      ensures old(Valid()) && old(sequencer.currentId as int) < IntMax && customer !in old(customers) ==>
                Valid() && CustomerIndex(customers, customer.id.value) == |customers| - 1
    {
      ghost var keys := IdKeys(customers);
      var generatedId := sequencer.NextId();
      var o := customer.SetId(Some(generatedId as int));
      customers := customers + [customer];
      r := customer;
      if old(Valid()) && old(sequencer.currentId as int) < IntMax && customer !in old(customers) {
        assert IdKeys(old(customers)) == keys;
        IdKeysAppend(old(customers), customer);
        AppendKeepsRising(keys, old(sequencer.currentId as int));
      }
    }

    /** `findById`: the first stored customer with that id, or none. Every
        stored customer must have an id, or Java's unboxing dereferences null. */
    method FindById(id: int) returns (r: Option<Customer>)
      requires AllIdentified(customers)
      ensures r.None? <==> (forall i :: 0 <= i < |customers| ==> customers[i].id != Some(id))
      ensures r == if CustomerIndex(customers, id) < |customers|
                   then Some(customers[CustomerIndex(customers, id)]) else None
    {
      var i := 0;
      while i < |customers|
        invariant 0 <= i <= |customers|
        invariant forall j :: 0 <= j < i ==> customers[j].id != Some(id)
      {
        if customers[i].id.value == id {
          assert IdKeys(customers)[i] == Some(id);
          return Some(customers[i]);
        }
        i := i + 1;
      }
      assert Some(id) !in IdKeys(customers);
      r := None;
    }
  }
}
