/**
 * The address book: an ordered list of contacts with duplicates allowed,
 * appended to by `addContact`, purged of every equal contact by
 * `deleteContact` and searched for the first contact matching a property.
 */
module AddressBooks {
  import opened Java
  import opened Contacts

  /** The test `List.remove(contact)` applies to each element: `contact.equals(x)`. */
  function EqualTo(contact: Contact): Contact -> bool
  {
    x => Equals(contact, Instance(x))
  }

  /** The test the search applies to each element: `x.matchByProperty(property)`. */
  function MatchingProperty(property: Property): Contact -> bool
  {
    x => MatchByProperty(x, property)
  }

  /**
   * The index of the first contact that passes `test`, or `|cs|` when none
   * does: every contact before it fails the test.
   */
  function FirstWhere(cs: seq<Contact>, test: Contact -> bool): (i: nat)
    ensures i <= |cs|
    ensures i < |cs| ==> test(cs[i])
    ensures forall j :: 0 <= j < i ==> !test(cs[j])
  {
    if cs == [] then 0
    else if test(cs[0]) then 0
    else 1 + FirstWhere(cs[1..], test)
  }

  /**
   * The list with every contact equal to `contact` taken out. What is kept
   * is exactly the unequal contacts, and (by its definition) in their
   * original order.
   */
  function Without(cs: seq<Contact>, contact: Contact): (r: seq<Contact>)
    ensures |r| <= |cs|
    ensures forall x :: x in r <==> x in cs && !Equals(contact, Instance(x))
  {
    if cs == [] then []
    else if Equals(contact, Instance(cs[0])) then Without(cs[1..], contact)
    else [cs[0]] + Without(cs[1..], contact)
  }

  /** Taking equal contacts out of a concatenation takes them out of each part. */
  lemma {:induction false} WithoutAppend(a: seq<Contact>, b: seq<Contact>, contact: Contact)
    ensures Without(a + b, contact) == Without(a, contact) + Without(b, contact)
  {
    if a == [] {
      assert a + b == b;
    } else {
      assert (a + b)[0] == a[0];
      assert (a + b)[1..] == a[1..] + b;
      WithoutAppend(a[1..], b, contact);
    }
  }

  /** A list holding no contact equal to `contact` is left as it is. */
  lemma {:induction false} WithoutNoMatch(cs: seq<Contact>, contact: Contact)
    requires FirstWhere(cs, EqualTo(contact)) == |cs|
    ensures Without(cs, contact) == cs
  {
    if cs != [] {
      assert !EqualTo(contact)(cs[0]);
      assert FirstWhere(cs[1..], EqualTo(contact)) == |cs[1..]|;
      WithoutNoMatch(cs[1..], contact);
      assert cs == [cs[0]] + cs[1..];
    }
  }

  /**
   * One successful `remove` (dropping the first equal contact) does not
   * change what remains once all equal contacts are gone.
   */
  lemma {:induction false} RemoveFirstKeepsWithout(cs: seq<Contact>, contact: Contact)
    requires FirstWhere(cs, EqualTo(contact)) < |cs|
    ensures var i := FirstWhere(cs, EqualTo(contact));
      Without(cs[..i] + cs[i + 1..], contact) == Without(cs, contact)
  {
    var i := FirstWhere(cs, EqualTo(contact));
    if EqualTo(contact)(cs[0]) {
      assert i == 0;
      assert cs[..i] + cs[i + 1..] == cs[1..];
    } else {
      var tail := cs[1..];
      var j := FirstWhere(tail, EqualTo(contact));
      assert i == j + 1;
      RemoveFirstKeepsWithout(tail, contact);
      DropBehindHead(cs, i);
      var rest := tail[..j] + tail[j + 1..];
      assert ([cs[0]] + rest)[0] == cs[0] && ([cs[0]] + rest)[1..] == rest;
    }
  }

  /** Dropping an element behind the head keeps the head in front. */
  lemma DropBehindHead<T>(s: seq<T>, i: nat)
    requires 1 <= i < |s|
    ensures s[..i] + s[i + 1..] == [s[0]] + (s[1..][..i - 1] + s[1..][i..])
  {
    assert s[..i] == [s[0]] + s[1..][..i - 1];
    assert s[i + 1..] == s[1..][i..];
  }

  /** Deleting twice leaves the same list as deleting once. */
  lemma {:induction false} WithoutIdempotent(cs: seq<Contact>, contact: Contact)
    ensures Without(Without(cs, contact), contact) == Without(cs, contact)
  {
    if cs != [] {
      WithoutIdempotent(cs[1..], contact);
      if !Equals(contact, Instance(cs[0])) {
        var rest := Without(cs[1..], contact);
        assert ([cs[0]] + rest)[0] == cs[0];
        assert ([cs[0]] + rest)[1..] == rest;
      }
    }
  }

  /**
   * Every copy of an added contact goes away with one delete, and contacts
   * unequal to the deleted one survive in their order.
   */
  lemma DeleteAfterAdd(cs: seq<Contact>, added: Contact, deleted: Contact)
    ensures Equals(deleted, Instance(added)) ==>
      Without(cs + [added], deleted) == Without(cs, deleted)
    ensures !Equals(deleted, Instance(added)) ==>
      Without(cs + [added], deleted) == Without(cs, deleted) + [added]
  {
    WithoutAppend(cs, [added], deleted);
    assert [added][1..] == [];
  }

  /** `AddressBook`: the contacts in insertion order. */
  class AddressBook {
    var contacts: seq<Contact>

    /** A new address book is empty. */
    constructor()
      ensures contacts == []
    {
      contacts := [];
    }

    /** `addContact`: null throws and changes nothing; otherwise the contact is appended (duplicates too) and the call reports `true`. */
    method AddContact(contact: Option<Contact>) returns (r: Result<bool>)
      modifies this
      ensures contact == None ==> r == Throws(NullPointer) && contacts == old(contacts)
      ensures contact != None ==> r == Ok(true) && contacts == old(contacts) + [contact.value]
    {
      if contact == None {
        return Throws(NullPointer);
      }
      contacts := contacts + [contact.value];
      return Ok(true);
    }

    /**
     * `List.remove(contact)`: drops the first contact equal to `contact` and
     * reports whether there was one.
     */
    method RemoveFirstEqual(contact: Contact) returns (removed: bool)
      modifies this
      ensures var i := FirstWhere(old(contacts), EqualTo(contact));
        && (removed <==> i < |old(contacts)|)
        && contacts == if removed then old(contacts)[..i] + old(contacts)[i + 1..] else old(contacts)
    {
      var i := FirstWhere(contacts, EqualTo(contact));
      removed := i < |contacts|;
      if removed {
        contacts := contacts[..i] + contacts[i + 1..];
      }
    }

    /**
     * `deleteContact`: null throws and changes nothing; otherwise `remove` is
     * repeated until it finds nothing, which leaves exactly the contacts
     * unequal to the argument, and the call reports `true` whether or not
     * anything was removed.
     */
    method DeleteContact(contact: Option<Contact>) returns (r: Result<bool>)
      modifies this
      ensures contact == None ==> r == Throws(NullPointer) && contacts == old(contacts)
      ensures contact != None ==> r == Ok(true) && contacts == Without(old(contacts), contact.value)
    {
      if contact == None {
        return Throws(NullPointer);
      }
      var c := contact.value;
      var removed := true;
      while removed
        invariant Without(contacts, c) == Without(old(contacts), c)
        invariant !removed ==> FirstWhere(contacts, EqualTo(c)) == |contacts|
        decreases |contacts| + (if removed then 1 else 0)
      {
        ghost var before := contacts;
        removed := RemoveFirstEqual(c);
        if removed {
          RemoveFirstKeepsWithout(before, c);
        }
      }
      WithoutNoMatch(contacts, c);
      return Ok(true);
    }

    /**
     * `searchByContactProperty`: null throws; otherwise the first contact in
     * insertion order that matches the property, or null when none does. The
     * list is only read.
     */
    function SearchByContactProperty(property: Option<Property>): (r: Result<Option<Contact>>)
      reads this
      ensures property == None ==> r == Throws(NullPointer)
      ensures property != None ==> r.Ok?
      ensures property != None && r.value == None ==>
        forall j :: 0 <= j < |contacts| ==> !MatchByProperty(contacts[j], property.value)
      ensures property != None && r.value != None ==>
        exists i :: 0 <= i < |contacts| && r.value == Some(contacts[i])
          && MatchByProperty(contacts[i], property.value)
          && forall j :: 0 <= j < i ==> !MatchByProperty(contacts[j], property.value)
    {
      if property == None then Throws(NullPointer)
      else
        var i := FirstWhere(contacts, MatchingProperty(property.value));
        if i < |contacts| then
          assert MatchingProperty(property.value)(contacts[i]);
          Ok(Some(contacts[i]))
        else Ok(None)
    }
  }

  /** A contact added twice is gone after one delete, and the other contacts are kept. */
  method DuplicatesDeletedTogether(a: Contact, b: Contact) returns (left: seq<Contact>)
    requires !Equals(a, Instance(b))
    ensures left == [b]
  {
    var book := new AddressBook();
    var _ := book.AddContact(Some(a));
    var _ := book.AddContact(Some(b));
    var _ := book.AddContact(Some(a));
    var _ := book.DeleteContact(Some(a));
    EqualsIsEquivalence(a, b, a);
    assert book.contacts == Without([a, b, a], a);
    assert Without([a], a) == [] by {
      assert [a][1..] == [];
    }
    assert Without([b, a], a) == [b] by {
      assert [b, a][0] == b && [b, a][1..] == [a];
    }
    assert Without([a, b, a], a) == [b] by {
      assert [a, b, a][0] == a && [a, b, a][1..] == [b, a];
    }
    left := book.contacts;
  }
}
