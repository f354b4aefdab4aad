/**
 * A postal address: seven strings set through a builder, compared and
 * hashed field by field, and printed as a street line and a city line.
 */
module PostalAddresses {
  import opened Java

  datatype PostalAddress = PostalAddress(
    city: string,
    country: string,
    postalCode: string,
    stateOrProvince: string,
    street: string,
    streetNumber: string,
    apartmentNumber: string)

  /** `PostalAddress.Builder`: every field starts as the empty string. */
  class Builder {
    var city: string
    var country: string
    var postalCode: string
    var stateOrProvince: string
    var street: string
    var streetNumber: string
    var apartmentNumber: string

    /** The address `build` would make now. */
    function Current(): PostalAddress
      reads this
    {
      PostalAddress(city, country, postalCode, stateOrProvince, street, streetNumber, apartmentNumber)
    }

    constructor()
      ensures Current() == PostalAddress("", "", "", "", "", "", "")
    {
      city := "";
      country := "";
      postalCode := "";
      stateOrProvince := "";
      street := "";
      streetNumber := "";
      apartmentNumber := "";
    }

    /** `city(val)`: null throws and changes nothing. */
    method City(val: Option<string>) returns (r: Result<Builder>)
      modifies this
      ensures val == None ==> r == Throws(NullPointer) && Current() == old(Current())
      ensures val != None ==> r == Ok(this) && Current() == old(Current()).(city := val.value)
    {
      if val == None {
        return Throws(NullPointer);
      }
      city := val.value;
      return Ok(this);
    }

    /** `country(val)`: null throws and changes nothing. */
    method Country(val: Option<string>) returns (r: Result<Builder>)
      modifies this
      ensures val == None ==> r == Throws(NullPointer) && Current() == old(Current())
      ensures val != None ==> r == Ok(this) && Current() == old(Current()).(country := val.value)
    {
      if val == None {
        return Throws(NullPointer);
      }
      country := val.value;
      return Ok(this);
    }

    /** `postalCode(val)`: null throws and changes nothing. */
    method PostalCode(val: Option<string>) returns (r: Result<Builder>)
      modifies this
      ensures val == None ==> r == Throws(NullPointer) && Current() == old(Current())
      ensures val != None ==> r == Ok(this) && Current() == old(Current()).(postalCode := val.value)
    {
      if val == None {
        return Throws(NullPointer);
      }
      postalCode := val.value;
      return Ok(this);
    }

    /** `stateOrProvince(val)`: null throws and changes nothing. */
    method StateOrProvince(val: Option<string>) returns (r: Result<Builder>)
      modifies this
      ensures val == None ==> r == Throws(NullPointer) && Current() == old(Current())
      ensures val != None ==> r == Ok(this) && Current() == old(Current()).(stateOrProvince := val.value)
    {
      if val == None {
        return Throws(NullPointer);
      }
      stateOrProvince := val.value;
      return Ok(this);
    }

    /** `street(val)`: null throws and changes nothing. */
    method Street(val: Option<string>) returns (r: Result<Builder>)
      modifies this
      ensures val == None ==> r == Throws(NullPointer) && Current() == old(Current())
      ensures val != None ==> r == Ok(this) && Current() == old(Current()).(street := val.value)
    {
      if val == None {
        return Throws(NullPointer);
      }
      street := val.value;
      return Ok(this);
    }

    /** `streetNumber(val)`: null throws and changes nothing. */
    method StreetNumber(val: Option<string>) returns (r: Result<Builder>)
      modifies this
      ensures val == None ==> r == Throws(NullPointer) && Current() == old(Current())
      ensures val != None ==> r == Ok(this) && Current() == old(Current()).(streetNumber := val.value)
    {
      if val == None {
        return Throws(NullPointer);
      }
      streetNumber := val.value;
      return Ok(this);
    }

    /** `apartmentNumber(val)`: null throws and changes nothing. */
    method ApartmentNumber(val: Option<string>) returns (r: Result<Builder>)
      modifies this
      ensures val == None ==> r == Throws(NullPointer) && Current() == old(Current())
      ensures val != None ==> r == Ok(this) && Current() == old(Current()).(apartmentNumber := val.value)
    {
      if val == None {
        return Throws(NullPointer);
      }
      apartmentNumber := val.value;
      return Ok(this);
    }

    /** `build`: an address with the seven builder fields copied unchanged. */
    method Build() returns (a: PostalAddress)
      ensures a == Current()
    {
      a := PostalAddress(city, country, postalCode, stateOrProvince, street, streetNumber, apartmentNumber);
    }
  }

  /** A builder whose setters are never called builds the all-empty address. */
  method UnsetFieldsAreEmpty() returns (a: PostalAddress)
    ensures a == PostalAddress("", "", "", "", "", "", "")
  {
    var b := new Builder();
    a := b.Build();
  }

  /** `equals`: another address with all seven fields equal. */
  predicate Equals(a: PostalAddress, o: Obj<PostalAddress>)
  {
    && o.Instance?
    && o.value.city == a.city
    && o.value.country == a.country
    && o.value.postalCode == a.postalCode
    && o.value.stateOrProvince == a.stateOrProvince
    && o.value.street == a.street
    && o.value.streetNumber == a.streetNumber
    && o.value.apartmentNumber == a.apartmentNumber
  }

  /** Address equality is equality of all seven fields, and so an equivalence. */
  lemma EqualsIffSameFields(a: PostalAddress, b: PostalAddress)
    ensures Equals(a, Instance(b)) <==> a == b
    ensures Equals(a, Instance(b)) == Equals(b, Instance(a))
    ensures !Equals(a, Foreign) && !Equals(a, Null)
  {
  }

  /** `hashCode`: 17, then `31 * h + stringHash(field)` for the fields in declaration order. */
  function HashCode(a: PostalAddress, stringHash: string -> int32): int32
  {
    var h := HashStep(HashStep(HashStep(17, stringHash(a.city)), stringHash(a.country)), stringHash(a.postalCode));
    var h' := HashStep(HashStep(h, stringHash(a.stateOrProvince)), stringHash(a.street));
    HashStep(HashStep(h', stringHash(a.streetNumber)), stringHash(a.apartmentNumber))
  }

  /** Equal addresses hash equally, whatever the string hash. */
  lemma HashConsistent(a: PostalAddress, b: PostalAddress, stringHash: string -> int32)
    requires Equals(a, Instance(b))
    ensures HashCode(a, stringHash) == HashCode(b, stringHash)
  {
  }

  /** Some field of the street group (number, street, apartment) is non-empty. */
  predicate HasStreetGroup(a: PostalAddress)
  {
    a.streetNumber != "" || a.street != "" || a.apartmentNumber != ""
  }

  /** Some field of the city group (city, state or province, postal code, country) is non-empty. */
  predicate HasCityGroup(a: PostalAddress)
  {
    a.city != "" || a.stateOrProvince != "" || a.postalCode != "" || a.country != ""
  }

  /** The pattern "%s %s … %s" with `n` placeholders separated by single spaces. */
  function Spaced(n: nat): (items: seq<FormatItem>)
    requires n >= 1
    ensures ArgCount(items) == n
  {
    if n == 1 then [Str] else [Str, Text(" ")] + Spaced(n - 1)
  }

  /** The pattern `toString` builds, step by step as the source does. */
  function Pattern(a: PostalAddress): (items: seq<FormatItem>)
  {
    var street := if HasStreetGroup(a) then Spaced(2) + (if a.apartmentNumber != "" then [Text(" apt. "), Str] else []) else [];
    if HasCityGroup(a) then (if street != [] then street + [LineSep] else Spaced(2)) + Spaced(4)
    else street
  }

  /** The arguments of the pattern; the apartment number is passed only when it is non-empty. */
  function Arguments(a: PostalAddress): seq<string>
  {
    if a.apartmentNumber != "" then [a.streetNumber, a.street, a.apartmentNumber, a.city, a.stateOrProvince, a.postalCode, a.country]
    else [a.streetNumber, a.street, a.city, a.stateOrProvince, a.postalCode, a.country]
  }

  /** The pattern never asks for more arguments than are passed. */
  lemma PatternArgCount(a: PostalAddress)
    ensures ArgCount(Pattern(a)) <= |Arguments(a)|
  {
    if HasStreetGroup(a) && HasCityGroup(a) {
      LayoutBothGroups(a);
    } else if HasStreetGroup(a) {
      LayoutStreetOnly(a);
    } else if HasCityGroup(a) {
      LayoutCityOnly(a);
    }
  }

  lemma {:induction false} FormatCounts(x: seq<FormatItem>, y: seq<FormatItem>)
    ensures ArgCount(x + y) == ArgCount(x) + ArgCount(y)
  {
    if x == [] {
      assert x + y == y;
    } else {
      assert (x + y)[1..] == x[1..] + y;
      FormatCounts(x[1..], y);
    }
  }

  /**
   * `toString`: the empty string when the pattern is empty, otherwise the
   * pattern filled in and trimmed.
   */
  function ToString(a: PostalAddress): (r: string)
    ensures IsTrimmed(r)
  {
    PatternArgCount(a);
    if Pattern(a) == [] then "" else Trim(Format(Pattern(a), Arguments(a)))
  }

  /** The street line: number and street, then " apt. " and the apartment when there is one. */
  function StreetLine(a: PostalAddress): string
  {
    if HasStreetGroup(a) then a.streetNumber + " " + a.street + (if a.apartmentNumber != "" then " apt. " + a.apartmentNumber else "")
    else ""
  }

  /** The city line: city, state or province, postal code and country. */
  function CityLine(a: PostalAddress): string
  {
    if HasCityGroup(a) then a.city + " " + a.stateOrProvince + " " + a.postalCode + " " + a.country else ""
  }

  /** A line break only between two non-empty groups. */
  function Separator(a: PostalAddress): string
  {
    if HasStreetGroup(a) && HasCityGroup(a) then LINE_SEPARATOR else ""
  }

  /** Filling a spaced pattern joins the first `n` arguments with single spaces. */
  lemma {:induction false} FormatSpaced(n: nat, args: seq<string>)
    requires 1 <= n <= |args|
    ensures Format(Spaced(n), args) == SpaceJoined(args[..n])
  {
    if n > 1 {
      var rest := Spaced(n - 1);
      assert Spaced(n) == [Str] + ([Text(" ")] + rest);
      assert ([Str] + ([Text(" ")] + rest))[1..] == [Text(" ")] + rest;
      assert ([Text(" ")] + rest)[1..] == rest;
      FormatSpaced(n - 1, args[1..]);
      assert args[..n][1..] == args[1..][..n - 1];
    }
  }

  /** Strings joined by single spaces. */
  function SpaceJoined(ws: seq<string>): string
    requires |ws| >= 1
  {
    if |ws| == 1 then ws[0] else ws[0] + " " + SpaceJoined(ws[1..])
  }

  /** The street part of the pattern fills in to the street line, using two or three arguments. */
  lemma FormatStreet(a: PostalAddress)
    requires HasStreetGroup(a)
    ensures var items := Spaced(2) + (if a.apartmentNumber != "" then [Text(" apt. "), Str] else []);
      && ArgCount(items) == (if a.apartmentNumber != "" then 3 else 2)
      && Format(items, Arguments(a)) == StreetLine(a)
  {
    var args := Arguments(a);
    var apt: seq<FormatItem> := if a.apartmentNumber != "" then [Text(" apt. "), Str] else [];
    FormatSpaced(2, args);
    assert args[..2][1..] == [a.street];
    FormatCounts(Spaced(2), apt);
    FormatAppend(Spaced(2), apt, args);
    if a.apartmentNumber != "" {
      var tail := args[2..];
      assert tail[0] == a.apartmentNumber;
      assert apt[1..] == [Str];
      assert Format([Str], tail) == tail[0] + Format([], tail[1..]);
      assert Format(apt, tail) == " apt. " + Format([Str], tail);
    }
  }

  /** The city part of the pattern fills in to the city line from the last four arguments. */
  lemma FormatCity(a: PostalAddress, k: nat)
    requires k == |Arguments(a)| - 4
    ensures Format(Spaced(4), Arguments(a)[k..]) == a.city + " " + a.stateOrProvince + " " + a.postalCode + " " + a.country
  {
    var rest := Arguments(a)[k..];
    assert rest == [a.city, a.stateOrProvince, a.postalCode, a.country];
    FormatSpaced(4, rest);
    assert rest[..4] == rest;
    assert SpaceJoined(rest[2..]) == a.postalCode + " " + a.country by {
      assert rest[2..][1..] == [a.country];
    }
    assert rest[1..][1..] == rest[2..];
    assert SpaceJoined(rest[1..]) == a.stateOrProvince + " " + SpaceJoined(rest[2..]);
  }

  /** With both groups present the street pattern, `%n` and the city pattern are filled in one after another. */
  lemma LayoutBothGroups(a: PostalAddress)
    requires HasStreetGroup(a) && HasCityGroup(a)
    ensures ArgCount(Pattern(a)) <= |Arguments(a)|
    ensures Format(Pattern(a), Arguments(a)) == StreetLine(a) + LINE_SEPARATOR + CityLine(a)
  {
    var args := Arguments(a);
    var street := Spaced(2) + (if a.apartmentNumber != "" then [Text(" apt. "), Str] else []);
    assert Pattern(a) == street + [LineSep] + Spaced(4);
    FormatStreet(a);
    FormatCounts(street, [LineSep]);
    FormatAppend(street, [LineSep], args);
    FormatCounts(street + [LineSep], Spaced(4));
    FormatAppend(street + [LineSep], Spaced(4), args);
    assert Format([LineSep], args[ArgCount(street)..]) == LINE_SEPARATOR;
    FormatCity(a, |args| - 4);
  }

  /** With only the city group present the pattern starts with "%s %s" over two empty fields. */
  lemma LayoutCityOnly(a: PostalAddress)
    requires !HasStreetGroup(a) && HasCityGroup(a)
    ensures ArgCount(Pattern(a)) <= |Arguments(a)|
    ensures Format(Pattern(a), Arguments(a)) == " " + CityLine(a)
  {
    var args := Arguments(a);
    assert Pattern(a) == Spaced(2) + Spaced(4);
    FormatCounts(Spaced(2), Spaced(4));
    FormatAppend(Spaced(2), Spaced(4), args);
    FormatSpaced(2, args);
    assert args[..2][1..] == [a.street];
    FormatCity(a, |args| - 4);
  }

  /** With only the street group present the pattern is the street pattern. */
  lemma LayoutStreetOnly(a: PostalAddress)
    requires HasStreetGroup(a) && !HasCityGroup(a)
    ensures ArgCount(Pattern(a)) <= |Arguments(a)|
    ensures Format(Pattern(a), Arguments(a)) == StreetLine(a)
  {
    FormatStreet(a);
  }

  /**
   * What `toString` prints: the street line, a line break only when both
   * groups have a non-empty field, and the city line, trimmed. " apt. "
   * appears only with a non-empty apartment number, and an address whose
   * fields are all empty prints as the empty string.
   */
  lemma ToStringLayout(a: PostalAddress)
    ensures ToString(a) == Trim(StreetLine(a) + Separator(a) + CityLine(a))
  {
    if HasStreetGroup(a) && HasCityGroup(a) {
      LayoutBothGroups(a);
    } else if HasStreetGroup(a) {
      LayoutStreetOnly(a);
      assert StreetLine(a) + Separator(a) + CityLine(a) == StreetLine(a);
    } else if HasCityGroup(a) {
      LayoutCityOnly(a);
      assert StreetLine(a) + Separator(a) + CityLine(a) == CityLine(a);
      TrimLeadingSpace(CityLine(a));
    } else {
      assert StreetLine(a) + Separator(a) + CityLine(a) == "";
    }
  }

  /** The all-empty address prints as the empty string. */
  lemma EmptyAddressPrintsEmpty()
    ensures ToString(PostalAddress("", "", "", "", "", "", "")) == ""
  {
  }
}
