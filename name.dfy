/** An individual's name: three trimmed parts, compared and hashed part by part. */
module Names {
  import opened Java

  datatype Name = Name(firstName: string, middleName: string, lastName: string)

  /**
   * The constructor: a null part throws `NullPointerException`, the first
   * one checked in the order first, middle, last; otherwise each part is
   * stored trimmed.
   */
  function NewName(firstName: Option<string>, middleName: Option<string>, lastName: Option<string>): (r: Result<Name>)
    ensures r.Ok? <==> firstName != None && middleName != None && lastName != None
    ensures !r.Ok? ==> r == Throws(NullPointer)
    ensures r.Ok? ==>
      && r.value.firstName == Trim(firstName.value)
      && r.value.middleName == Trim(middleName.value)
      && r.value.lastName == Trim(lastName.value)
  {
    if firstName == None then Throws(NullPointer)
    else if middleName == None then Throws(NullPointer)
    else if lastName == None then Throws(NullPointer)
    else Ok(Name(Trim(firstName.value), Trim(middleName.value), Trim(lastName.value)))
  }

  /** What the getters of a constructed name promise: no part begins or ends with white space. */
  predicate WellFormed(n: Name)
  {
    IsTrimmed(n.firstName) && IsTrimmed(n.middleName) && IsTrimmed(n.lastName)
  }

  /** Every constructed name is well formed, and constructing it again from its parts gives it back. */
  lemma ConstructedIsWellFormed(f: string, m: string, l: string)
    ensures var r := NewName(Some(f), Some(m), Some(l));
      && r.Ok? && WellFormed(r.value)
      && NewName(Some(r.value.firstName), Some(r.value.middleName), Some(r.value.lastName)) == r
  {
    var n := Name(Trim(f), Trim(m), Trim(l));
    assert NewName(Some(f), Some(m), Some(l)) == Ok(n);
    TrimIdempotent(f);
    TrimIdempotent(m);
    TrimIdempotent(l);
    assert NewName(Some(n.firstName), Some(n.middleName), Some(n.lastName)) == Ok(n);
  }

  /** `equals`: another name with equal first, middle and last parts. */
  predicate Equals(n: Name, o: Obj<Name>)
  {
    o.Instance? && o.value.firstName == n.firstName && o.value.middleName == n.middleName && o.value.lastName == n.lastName
  }

  /** Name equality is equality of all three parts, and so an equivalence. */
  lemma EqualsIffSameParts(a: Name, b: Name)
    ensures Equals(a, Instance(b)) <==> a == b
    ensures Equals(a, Instance(b)) == Equals(b, Instance(a))
    ensures !Equals(a, Foreign) && !Equals(a, Null)
  {
  }

  /** `hashCode`: 17, then `31 * h + stringHash(part)` for first, middle and last. */
  function HashCode(n: Name, stringHash: string -> int32): int32
  {
    HashStep(HashStep(HashStep(17, stringHash(n.firstName)), stringHash(n.middleName)), stringHash(n.lastName))
  }

  /** Equal names hash equally, whatever the string hash. */
  lemma HashConsistent(a: Name, b: Name, stringHash: string -> int32)
    requires Equals(a, Instance(b))
    ensures HashCode(a, stringHash) == HashCode(b, stringHash)
  {
  }

  /** `toString`: the three parts joined by single spaces, then trimmed. */
  function ToString(n: Name): (r: string)
    ensures IsTrimmed(r)
  {
    Trim(n.firstName + " " + n.middleName + " " + n.lastName)
  }

  /**
   * For a well-formed name with a first and a last part, the string form
   * is the parts joined by spaces with nothing trimmed away, so an empty
   * middle name leaves two spaces between the other two.
   */
  lemma {:induction false} ToStringKeepsInnerSpaces(n: Name)
    requires WellFormed(n) && n.firstName != [] && n.lastName != []
    ensures ToString(n) == n.firstName + " " + n.middleName + " " + n.lastName
    ensures n.middleName == [] ==> ToString(n) == n.firstName + "  " + n.lastName
  {
    var s := n.firstName + " " + n.middleName + " " + n.lastName;
    assert s[0] == n.firstName[0];
    assert s[|s| - 1] == n.lastName[|n.lastName| - 1];
    TrimOfTrimmed(s);
  }

  /** A name whose parts are all empty prints as the empty string. */
  lemma EmptyNamePrintsEmpty()
    ensures ToString(Name("", "", "")) == ""
  {
    TrimEmptyIffBlank("  ");
  }
}
