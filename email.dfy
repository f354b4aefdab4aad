/**
 * An e-mail address held as its local part, its domain part and the whole
 * address; equality, hash and string form use only the whole address.
 */
module EmailAddresses {
  import opened Java

  const AT: char := '@'

  datatype EmailAddress = EmailAddress(localName: string, domainName: string, eMail: string)

  /** `s` holds no `@`. */
  predicate NoAt(s: string)
  {
    forall i :: 0 <= i < |s| ==> s[i] != AT
  }

  /** The pieces between the `@`s of `s`, empty pieces included: one more piece than there are `@`s. */
  function Pieces(s: string): (ps: seq<string>)
    ensures |ps| >= 1
    ensures forall k :: 0 <= k < |ps| ==> NoAt(ps[k])
  {
    if s == [] then [[]]
    else
      var rest := Pieces(s[1..]);
      if s[0] == AT then [[]] + rest else [[s[0]] + rest[0]] + rest[1..]
  }

  /** The pieces put back together with `@` between them. */
  function Join(ps: seq<string>): string
    requires |ps| >= 1
  {
    if |ps| == 1 then ps[0] else ps[0] + [AT] + Join(ps[1..])
  }

  /** Splitting and joining give back the string. */
  lemma {:induction false} JoinPieces(s: string)
    ensures Join(Pieces(s)) == s
  {
    if s != [] {
      JoinPieces(s[1..]);
      var rest := Pieces(s[1..]);
      if s[0] != AT && |rest| > 1 {
        assert Join(rest) == rest[0] + [AT] + Join(rest[1..]);
        assert ([[s[0]] + rest[0]] + rest[1..])[1..] == rest[1..];
      }
    }
  }

  /** The trailing empty pieces removed. */
  function DropTrailingEmpty(ps: seq<string>): (r: seq<string>)
    ensures |r| <= |ps| && r == ps[..|r|]
    ensures r != [] ==> r[|r| - 1] != []
    ensures forall k :: |r| <= k < |ps| ==> ps[k] == []
  {
    if ps != [] && ps[|ps| - 1] == [] then DropTrailingEmpty(ps[..|ps| - 1]) else ps
  }

  /**
   * `s.split("@")`: without an `@` the whole string is the only piece;
   * otherwise the pieces with trailing empty pieces removed.
   */
  function Split(s: string): seq<string>
  {
    if NoAt(s) then [s] else DropTrailingEmpty(Pieces(s))
  }

  /**
   * The one-string constructor: `null` throws `NullPointerException`; unless
   * the split gives exactly two pieces, both non-blank, it throws
   * `IllegalArgumentException`; otherwise the parts are the trimmed pieces
   * and the address the trimmed input.
   */
  function NewEmailAddress(eMail: Option<string>): (r: Result<EmailAddress>)
    ensures eMail == None ==> r == Throws(NullPointer)
    ensures eMail != None ==>
      var parts := Split(eMail.value);
      if |parts| == 2 && !IsBlank(parts[0]) && !IsBlank(parts[1])
      then r == Ok(EmailAddress(Trim(parts[0]), Trim(parts[1]), Trim(eMail.value)))
      else r == Throws(IllegalArgument)
  {
    if eMail == None then Throws(NullPointer)
    else
      var parts := Split(eMail.value);
      TrimEmptyIffBlank(if |parts| > 0 then parts[0] else []);
      TrimEmptyIffBlank(if |parts| > 1 then parts[1] else []);
      if |parts| < 2 || |parts| > 2 || Trim(parts[0]) == [] || Trim(parts[1]) == [] then Throws(IllegalArgument)
      else Ok(EmailAddress(Trim(parts[0]), Trim(parts[1]), Trim(eMail.value)))
  }

  /** `n` copies of `@`. */
  function Ats(n: nat): (s: string)
    ensures |s| == n && forall i :: 0 <= i < n ==> s[i] == AT
  {
    seq(n, _ => AT)
  }

  /** Joining pieces followed by empty ones appends one `@` per empty piece. */
  lemma {:induction false} JoinTrailingEmpty(ps: seq<string>, n: nat)
    requires |ps| >= 1
    ensures Join(ps + seq(n, _ => [])) == Join(ps) + Ats(n)
  {
    if |ps| == 1 {
      JoinEmpties(ps[0], n);
    } else {
      assert (ps + seq(n, _ => []))[1..] == ps[1..] + seq(n, _ => []);
      JoinTrailingEmpty(ps[1..], n);
    }
  }

  lemma {:induction false} JoinEmpties(s: string, n: nat)
    ensures Join([s] + seq(n, _ => [])) == s + Ats(n)
    decreases n
  {
    if n > 0 {
      var e: seq<string> := seq(n - 1, _ => []);
      assert ([s] + seq(n, _ => []))[1..] == [[]] + e;
      JoinEmpties([], n - 1);
      assert Ats(n) == [AT] + Ats(n - 1);
    }
  }

  /**
   * The addresses the one-string constructor accepts are exactly a non-blank
   * local part, `@`, a non-blank domain part, then any number of `@`s, with
   * no `@` inside either part.
   */
  lemma AcceptedShape(local: string, domain: string, n: nat)
    requires NoAt(local) && NoAt(domain) && !IsBlank(local) && !IsBlank(domain)
    ensures var s := local + [AT] + domain + Ats(n);
      NewEmailAddress(Some(s)) == Ok(EmailAddress(Trim(local), Trim(domain), Trim(s)))
  {
    var s := local + [AT] + domain + Ats(n);
    var ps := [local, domain];
    assert Join(ps) == local + [AT] + domain;
    PiecesOfJoin(ps, n);
    assert !NoAt(s) by {
      assert s[|local|] == AT;
    }
  }

  /** The pieces of `local@domain@…@` are the two parts followed by one empty piece per trailing `@`. */
  lemma PiecesOfJoin(ps: seq<string>, n: nat)
    requires |ps| == 2 && NoAt(ps[0]) && NoAt(ps[1]) && ps[1] != []
    ensures Pieces(ps[0] + [AT] + ps[1] + Ats(n)) == ps + seq(n, _ => [])
    ensures DropTrailingEmpty(ps + seq(n, _ => [])) == ps
  {
    var tail := ps + seq(n, _ => []);
    JoinTrailingEmpty(ps, n);
    assert Join(ps) == ps[0] + [AT] + ps[1];
    PiecesUnique(tail);
    DropEmpties(ps, n);
  }

  /** Pieces without `@`, joined, split back into themselves. */
  lemma {:induction false} PiecesUnique(ps: seq<string>)
    requires |ps| >= 1 && forall k :: 0 <= k < |ps| ==> NoAt(ps[k])
    ensures Pieces(Join(ps)) == ps
  {
    if |ps| == 1 {
      PiecesNoAt(ps[0]);
    } else {
      PiecesUnique(ps[1..]);
      PiecesPrefix(ps[0], Join(ps[1..]));
      assert ps == [ps[0]] + ps[1..];
    }
  }

  /** A string without `@` is a single piece. */
  lemma {:induction false} PiecesNoAt(s: string)
    requires NoAt(s)
    ensures Pieces(s) == [s]
  {
    if s != [] {
      PiecesNoAt(s[1..]);
      assert [s[0]] + s[1..] == s;
    }
  }

  /** A piece without `@` in front of `@` and a rest becomes the first piece. */
  lemma {:induction false} PiecesPrefix(p: string, rest: string)
    requires NoAt(p)
    ensures Pieces(p + [AT] + rest) == [p] + Pieces(rest)
  {
    if p == [] {
      assert p + [AT] + rest == [AT] + rest;
      assert ([AT] + rest)[1..] == rest;
    } else {
      assert (p + [AT] + rest)[1..] == p[1..] + [AT] + rest;
      PiecesPrefix(p[1..], rest);
      assert [p[0]] + p[1..] == p;
    }
  }

  lemma {:induction false} DropEmpties(ps: seq<string>, n: nat)
    requires |ps| >= 1 && ps[|ps| - 1] != []
    ensures DropTrailingEmpty(ps + seq(n, _ => [])) == ps
  {
    if n > 0 {
      var t := ps + seq(n, _ => []);
      assert t[..|t| - 1] == ps + seq(n - 1, _ => []);
      DropEmpties(ps, n - 1);
    } else {
      assert ps + seq(n, _ => []) == ps;
    }
  }

  /**
   * Conversely, every accepted address has that shape: its input is the
   * two pieces around one `@`, then only `@`s.
   */
  lemma AcceptedHasShape(s: string)
    requires NewEmailAddress(Some(s)).Ok?
    ensures exists n: nat :: s == Split(s)[0] + [AT] + Split(s)[1] + Ats(n)
  {
    var parts := Split(s);
    assert !NoAt(s);
    var ps := Pieces(s);
    var n := |ps| - |parts|;
    assert ps == parts + seq(n, _ => []);
    JoinPieces(s);
    JoinTrailingEmpty(parts, n);
    assert Join(parts) == parts[0] + [AT] + parts[1];
  }

  /** "a@" is refused: its trailing empty piece is dropped, leaving one piece. */
  lemma RejectsMissingDomain()
    ensures NewEmailAddress(Some("a@")) == Throws(IllegalArgument)
  {
    assert "a@"[1] == AT;
    PiecesPrefix("a", "");
    assert "a" + [AT] + "" == "a@";
    assert DropTrailingEmpty(["a", []]) == ["a"];
  }

  /** "@b" is refused: its local part is empty. */
  lemma RejectsMissingLocal()
    ensures NewEmailAddress(Some("@b")) == Throws(IllegalArgument)
  {
    assert "@b"[0] == AT;
    PiecesPrefix("", "b");
    PiecesNoAt("b");
    assert "" + [AT] + "b" == "@b";
    assert IsBlank([]);
  }

  /** "a@b@c" is refused: it has three pieces. */
  lemma RejectsThreePieces()
    ensures NewEmailAddress(Some("a@b@c")) == Throws(IllegalArgument)
  {
    var s := "a@b@c";
    assert s[1] == AT;
    PiecesNoAt("c");
    PiecesPrefix("b", "c");
    assert "b" + [AT] + "c" == "b@c";
    PiecesPrefix("a", "b@c");
    assert "a" + [AT] + "b@c" == s;
    assert Split(s) == ["a", "b", "c"];
  }

  /** "a@b@" is accepted, since the split drops its trailing empty piece; the whole address keeps its last `@`. */
  lemma AcceptsTrailingAt()
    ensures NewEmailAddress(Some("a@b@")) == Ok(EmailAddress("a", "b", "a@b@"))
  {
    var s := "a@b@";
    assert s == "a" + [AT] + "b" + Ats(1);
    assert !IsTrimmable("a"[0]) && !IsTrimmable("b"[0]);
    AcceptedShape("a", "b", 1);
    assert IsTrimmed(s) && IsTrimmed("a") && IsTrimmed("b");
    TrimOfTrimmed("a");
    TrimOfTrimmed("b");
    TrimOfTrimmed(s);
  }

  /**
   * The two-part constructor: a null part throws `NullPointerException`
   * (local part first), a blank part `IllegalArgumentException`; otherwise
   * the parts are kept as given, untrimmed, and joined by `@`.
   */
  function NewEmailFromParts(localName: Option<string>, domainName: Option<string>): (r: Result<EmailAddress>)
    ensures localName == None || domainName == None <==> r == Throws(NullPointer)
    ensures localName != None && domainName != None ==>
      if IsBlank(localName.value) || IsBlank(domainName.value)
      then r == Throws(IllegalArgument)
      else r == Ok(EmailAddress(localName.value, domainName.value, localName.value + [AT] + domainName.value))
  {
    if localName == None then Throws(NullPointer)
    else if domainName == None then Throws(NullPointer)
    else
      TrimEmptyIffBlank(localName.value);
      TrimEmptyIffBlank(domainName.value);
      if Trim(localName.value) == [] then Throws(IllegalArgument)
      else if Trim(domainName.value) == [] then Throws(IllegalArgument)
      else Ok(EmailAddress(localName.value, domainName.value, localName.value + [AT] + domainName.value))
  }

  /** `equals`: another address with the same whole-address string; the parts are not compared. */
  predicate Equals(e: EmailAddress, o: Obj<EmailAddress>)
  {
    o.Instance? && o.value.eMail == e.eMail
  }

  /** `hashCode`: the hash of the whole-address string. */
  function HashCode(e: EmailAddress, stringHash: string -> int32): int32
  {
    stringHash(e.eMail)
  }

  /** `toString`: the whole address. */
  function ToString(e: EmailAddress): string
  {
    e.eMail
  }

  /** Equality is an equivalence that only looks at the whole address; equal addresses hash and print equally. */
  lemma EqualsOnlyByAddress(a: EmailAddress, b: EmailAddress, stringHash: string -> int32)
    ensures Equals(a, Instance(b)) <==> ToString(a) == ToString(b)
    ensures Equals(a, Instance(b)) == Equals(b, Instance(a))
    ensures Equals(a, Instance(b)) ==> HashCode(a, stringHash) == HashCode(b, stringHash)
    ensures !Equals(a, Foreign) && !Equals(a, Null)
  {
  }

  /**
   * Two addresses can be equal while their parts differ: `x` with `y@z`,
   * and `x@y` with `z`, give the same whole address.
   */
  lemma EqualWithDifferentParts(x: string, y: string, z: string)
    requires !IsBlank(x) && !IsBlank(z)
    ensures var a := NewEmailFromParts(Some(x), Some(y + [AT] + z));
      var b := NewEmailFromParts(Some(x + [AT] + y), Some(z));
      a.Ok? && b.Ok? && Equals(a.value, Instance(b.value)) && a.value.localName != b.value.localName
  {
    var yz := y + [AT] + z;
    var xy := x + [AT] + y;
    assert !IsTrimmable(yz[|y|]) && !IsTrimmable(xy[|x|]);
    assert x + [AT] + yz == xy + [AT] + z;
    assert |x| < |xy|;
  }

  /**
   * The string form of an address built from trimmed parts without `@`
   * parses back, through the one-string constructor, to an equal address
   * with the same parts.
   */
  lemma ToStringParsesBack(local: string, domain: string)
    requires NoAt(local) && NoAt(domain) && !IsBlank(local) && !IsBlank(domain)
    requires IsTrimmed(local) && IsTrimmed(domain)
    ensures var e := NewEmailFromParts(Some(local), Some(domain));
      && e.Ok?
      && NewEmailAddress(Some(ToString(e.value))) == e
  {
    var s := local + [AT] + domain;
    AcceptedShape(local, domain, 0);
    assert s + Ats(0) == s;
    TrimOfTrimmed(local);
    TrimOfTrimmed(domain);
    assert local != [] && domain != [];
    assert s[0] == local[0] && s[|s| - 1] == domain[|domain| - 1];
    TrimOfTrimmed(s);
  }
}
