/**
 * A contact: an optional name, postal address, phone number, e-mail address
 * and note, set through a builder; property matching, null-safe equality,
 * hash and string form.
 */
module Contacts {
  import opened Java
  import N = Names
  import A = PostalAddresses
  import P = PhoneNumbers
  import E = EmailAddresses

  /** A field left unset by the builder is `None` (Java's `null`). */
  datatype Contact = Contact(
    name: Option<N.Name>,
    postalAddress: Option<A.PostalAddress>,
    phoneNumber: Option<P.PhoneNumber>,
    email: Option<E.EmailAddress>,
    note: Option<string>)

  /** `Contact.Builder`: every field starts unset. */
  class Builder {
    var name: Option<N.Name>
    var postalAddress: Option<A.PostalAddress>
    var phoneNumber: Option<P.PhoneNumber>
    var email: Option<E.EmailAddress>
    var note: Option<string>

    /** The contact `build` would make now. */
    function Current(): Contact
      reads this
    {
      Contact(name, postalAddress, phoneNumber, email, note)
    }

    constructor()
      ensures Current() == Contact(None, None, None, None, None)
    {
      name := None;
      postalAddress := None;
      phoneNumber := None;
      email := None;
      note := None;
    }

    /** `name(val)`: null throws and changes nothing. */
    method Name(val: Option<N.Name>) returns (r: Result<Builder>)
      modifies this
      ensures val == None ==> r == Throws(NullPointer) && Current() == old(Current())
      ensures val != None ==> r == Ok(this) && Current() == old(Current()).(name := val)
    {
      if val == None {
        return Throws(NullPointer);
      }
      name := val;
      return Ok(this);
    }

    /** `postalAddress(val)`: null throws and changes nothing. */
    method PostalAddress(val: Option<A.PostalAddress>) returns (r: Result<Builder>)
      modifies this
      ensures val == None ==> r == Throws(NullPointer) && Current() == old(Current())
      ensures val != None ==> r == Ok(this) && Current() == old(Current()).(postalAddress := val)
    {
      if val == None {
        return Throws(NullPointer);
      }
      postalAddress := val;
      return Ok(this);
    }

    /** `phoneNumber(val)`: null throws and changes nothing. */
    method PhoneNumber(val: Option<P.PhoneNumber>) returns (r: Result<Builder>)
      modifies this
      ensures val == None ==> r == Throws(NullPointer) && Current() == old(Current())
      ensures val != None ==> r == Ok(this) && Current() == old(Current()).(phoneNumber := val)
    {
      if val == None {
        return Throws(NullPointer);
      }
      phoneNumber := val;
      return Ok(this);
    }

    /** `email(val)`: null throws and changes nothing. */
    method Email(val: Option<E.EmailAddress>) returns (r: Result<Builder>)
      modifies this
      ensures val == None ==> r == Throws(NullPointer) && Current() == old(Current())
      ensures val != None ==> r == Ok(this) && Current() == old(Current()).(email := val)
    {
      if val == None {
        return Throws(NullPointer);
      }
      email := val;
      return Ok(this);
    }

    /** `note(val)`: null throws and changes nothing; an empty note is allowed. */
    method Note(val: Option<string>) returns (r: Result<Builder>)
      modifies this
      ensures val == None ==> r == Throws(NullPointer) && Current() == old(Current())
      ensures val != None ==> r == Ok(this) && Current() == old(Current()).(note := val)
    {
      if val == None {
        return Throws(NullPointer);
      }
      note := val;
      return Ok(this);
    }

    /** `build`: a contact with the builder's fields; those never set stay null. */
    method Build() returns (c: Contact)
      ensures c == Current()
    {
      c := Contact(name, postalAddress, phoneNumber, email, note);
    }
  }

  /** A contact built with only a name set has every other field null. */
  method OnlyNameSet(n: N.Name) returns (c: Contact)
    ensures c == Contact(Some(n), None, None, None, None)
  {
    var b := new Builder();
    var _ := b.Name(Some(n));
    c := b.Build();
  }

  /** The argument of `matchByProperty`, by its run-time class. */
  datatype Property =
    | NameProperty(name: N.Name)
    | AddressProperty(address: A.PostalAddress)
    | PhoneProperty(phone: P.PhoneNumber)
    | EmailProperty(email: E.EmailAddress)
    | NoteProperty(note: string)
    | OtherProperty

  /**
   * `matchByProperty`: a name, postal address, phone number or e-mail
   * address matches a present field that equals it, a string matches a
   * present note equal to it, and anything else matches nothing.
   */
  predicate MatchByProperty(c: Contact, o: Property)
  {
    match o
    case NameProperty(n) => c.name != None && N.Equals(c.name.value, Instance(n))
    case AddressProperty(a) => c.postalAddress != None && A.Equals(c.postalAddress.value, Instance(a))
    case PhoneProperty(p) => c.phoneNumber != None && P.Equals(c.phoneNumber.value, Instance(p))
    case EmailProperty(e) => c.email != None && E.Equals(c.email.value, Instance(e))
    case NoteProperty(s) => c.note != None && c.note.value == s
    case OtherProperty => false
  }

  /** A contact matches each field it has, and never an object of another class. */
  lemma MatchesOwnFields(c: Contact)
    ensures c.name != None ==> MatchByProperty(c, NameProperty(c.name.value))
    ensures c.postalAddress != None ==> MatchByProperty(c, AddressProperty(c.postalAddress.value))
    ensures c.phoneNumber != None ==> MatchByProperty(c, PhoneProperty(c.phoneNumber.value))
    ensures c.email != None ==> MatchByProperty(c, EmailProperty(c.email.value))
    ensures c.note != None ==> MatchByProperty(c, NoteProperty(c.note.value))
    ensures !MatchByProperty(c, OtherProperty)
  {
  }

  /** A contact with no fields set matches nothing. */
  lemma EmptyContactMatchesNothing(o: Property)
    ensures !MatchByProperty(Contact(None, None, None, None, None), o)
  {
  }

  /** `(x == y) || (x != null && x.equals(y))` for names. */
  predicate SameName(x: Option<N.Name>, y: Option<N.Name>)
  {
    x == y || (x != None && y != None && N.Equals(x.value, Instance(y.value)))
  }

  /** The same null-safe test for postal addresses. */
  predicate SameAddress(x: Option<A.PostalAddress>, y: Option<A.PostalAddress>)
  {
    x == y || (x != None && y != None && A.Equals(x.value, Instance(y.value)))
  }

  /** The same null-safe test for phone numbers. */
  predicate SamePhone(x: Option<P.PhoneNumber>, y: Option<P.PhoneNumber>)
  {
    x == y || (x != None && y != None && P.Equals(x.value, Instance(y.value)))
  }

  /** The same null-safe test for e-mail addresses. */
  predicate SameEmail(x: Option<E.EmailAddress>, y: Option<E.EmailAddress>)
  {
    x == y || (x != None && y != None && E.Equals(x.value, Instance(y.value)))
  }

  /** The same null-safe test for notes. */
  predicate SameNote(x: Option<string>, y: Option<string>)
  {
    x == y || (x != None && y != None && x.value == y.value)
  }

  /** `equals`: another contact whose five fields are pairwise both null or equal. */
  predicate Equals(c: Contact, o: Obj<Contact>)
  {
    && o.Instance?
    && SameName(o.value.name, c.name)
    && SameAddress(o.value.postalAddress, c.postalAddress)
    && SamePhone(o.value.phoneNumber, c.phoneNumber)
    && SameEmail(o.value.email, c.email)
    && SameNote(o.value.note, c.note)
  }

  /**
   * Contact equality is an equivalence; it is field equality except that
   * e-mail addresses are compared by their whole-address strings only.
   */
  lemma EqualsIsEquivalence(a: Contact, b: Contact, c: Contact)
    ensures Equals(a, Instance(a))
    ensures Equals(a, Instance(b)) ==> Equals(b, Instance(a))
    ensures Equals(a, Instance(b)) && Equals(b, Instance(c)) ==> Equals(a, Instance(c))
    ensures !Equals(a, Foreign) && !Equals(a, Null)
    ensures Equals(a, Instance(b)) <==>
      a.(email := None) == b.(email := None)
      && (a.email == None <==> b.email == None)
      && (a.email != None ==> a.email.value.eMail == b.email.value.eMail)
  {
  }

  /** `hashCode`: 17, then `31 * h + hash` for each field in order, 0 for a null field. */
  function HashCode(c: Contact, stringHash: string -> int32): int32
  {
    var h1 := HashStep(17, if c.name == None then 0 else N.HashCode(c.name.value, stringHash));
    var h2 := HashStep(h1, if c.postalAddress == None then 0 else A.HashCode(c.postalAddress.value, stringHash));
    var h3 := HashStep(h2, if c.phoneNumber == None then 0 else P.HashCode(c.phoneNumber.value));
    var h4 := HashStep(h3, if c.email == None then 0 else E.HashCode(c.email.value, stringHash));
    HashStep(h4, if c.note == None then 0 else stringHash(c.note.value))
  }

  /** Equal contacts hash equally, whatever the string hash. */
  lemma HashConsistent(a: Contact, b: Contact, stringHash: string -> int32)
    requires Equals(a, Instance(b))
    ensures HashCode(a, stringHash) == HashCode(b, stringHash)
  {
  }

  /** Equal contacts match exactly the same properties. */
  lemma EqualContactsMatchAlike(a: Contact, b: Contact, o: Property)
    requires Equals(a, Instance(b))
    ensures MatchByProperty(a, o) <==> MatchByProperty(b, o)
  {
  }

  /** One `%s` or `%n%s` of the `toString` pattern: with the line break only when the field is present. */
  function Slot(present: bool): seq<FormatItem>
  {
    if present then [LineSep, Str] else [Str]
  }

  /** The text of one field: its string form, or "" when it is null. */
  function NameText(c: Contact): string
  {
    if c.name == None then "" else N.ToString(c.name.value)
  }

  function AddressText(c: Contact): string
  {
    if c.postalAddress == None then "" else A.ToString(c.postalAddress.value)
  }

  function PhoneText(c: Contact): string
  {
    if c.phoneNumber == None then "" else P.ToString(c.phoneNumber.value)
  }

  function EmailText(c: Contact): string
  {
    if c.email == None then "" else E.ToString(c.email.value)
  }

  /** The pattern `toString` builds: "%s" for the name, then a slot for each of address, phone and e-mail. */
  function Pattern(c: Contact): seq<FormatItem>
  {
    [Str] + Slot(c.postalAddress != None) + Slot(c.phoneNumber != None) + Slot(c.email != None)
  }

  /** Filling one slot: the line separator when the field is present, then its text. */
  lemma FormatSlot(present: bool, args: seq<string>)
    requires |args| >= 1
    ensures ArgCount(Slot(present)) == 1
    ensures Format(Slot(present), args) == (if present then LINE_SEPARATOR else "") + args[0]
  {
    var one: seq<FormatItem> := [Str];
    assert one[1..] == [];
    assert ArgCount(one) == 1;
    assert Format(one, args) == args[0] + Format([], args[1..]);
    if present {
      assert Slot(present)[1..] == one;
      assert Format(Slot(present), args) == LINE_SEPARATOR + Format(one, args);
    }
  }

  /** The pattern uses its four arguments, the name's text and one per slot. */
  lemma FormatPattern(c: Contact)
    ensures ArgCount(Pattern(c)) == 4
    ensures Format(Pattern(c), [NameText(c), AddressText(c), PhoneText(c), EmailText(c)]) ==
      NameText(c) + Line(c.postalAddress != None, AddressText(c))
      + Line(c.phoneNumber != None, PhoneText(c)) + Line(c.email != None, EmailText(c))
  {
    var args := [NameText(c), AddressText(c), PhoneText(c), EmailText(c)];
    var s1 := Slot(c.postalAddress != None);
    var s2 := Slot(c.phoneNumber != None);
    var s3 := Slot(c.email != None);
    FormatSlot(c.postalAddress != None, args[1..]);
    FormatSlot(c.phoneNumber != None, args[2..]);
    FormatSlot(c.email != None, args[3..]);
    assert ArgCount([Str]) == 1;
    FormatAppend([Str], s1, args);
    FormatAppend([Str] + s1, s2, args);
    FormatAppend([Str] + s1 + s2, s3, args);
    assert Format([Str], args) == NameText(c);
  }

  /** A present field's text after a line separator; nothing for a null one. */
  function Line(present: bool, text: string): string
  {
    if present then LINE_SEPARATOR + text else ""
  }

  /** `toString`: the pattern filled with the four texts, trimmed; the note is not part of it. */
  function ToString(c: Contact): (r: string)
    ensures IsTrimmed(r)
  {
    FormatPattern(c);
    Trim(Format(Pattern(c), [NameText(c), AddressText(c), PhoneText(c), EmailText(c)]))
  }

  /**
   * What `toString` prints: the name's text, then a line separator and the
   * text of each present field among address, phone and e-mail, in that
   * order, trimmed. The note never appears, and a contact with nothing set
   * prints as the empty string.
   */
  lemma ToStringLayout(c: Contact, note: Option<string>)
    ensures ToString(c) == Trim(NameText(c) + Line(c.postalAddress != None, AddressText(c))
      + Line(c.phoneNumber != None, PhoneText(c)) + Line(c.email != None, EmailText(c)))
    ensures ToString(c.(note := note)) == ToString(c)
    ensures ToString(Contact(None, None, None, None, note)) == ""
  {
    FormatPattern(c);
    FormatPattern(Contact(None, None, None, None, note));
  }
}
