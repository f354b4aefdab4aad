/**
 * The pieces of Java semantics that the modelled classes rely on: exceptions,
 * `null` arguments, 32-bit `int` arithmetic, truncating division and
 * `String.trim`.
 */
module Java {

  /** A possibly-null reference argument: `None` stands for Java's `null`. */
  datatype Option<+T> = None | Some(value: T)

  /** The unchecked exceptions the modelled code throws. */
  datatype Exception =
    | NullPointer
    | IllegalArgument
    | IllegalState
    | NoSuchElement
    | UnsupportedOperation
    | IndexOutOfBounds

  /** The `Object` argument of an `equals`: an instance of the class, an object of another class, or `null`. */
  datatype Obj<+T> = Instance(value: T) | Foreign | Null

  /** The outcome of a Java call: a returned value, or a thrown exception. */
  datatype Result<+T> = Ok(value: T) | Throws(error: Exception)

  /** Java's `int`. */
  newtype int32 = x: int | -0x8000_0000 <= x < 0x8000_0000

  /** The two's-complement wrap-around that Java applies to every `int` result. */
  function Wrap(x: int): (r: int32)
    ensures (x - r as int) % 0x1_0000_0000 == 0
    ensures -0x8000_0000 <= x < 0x8000_0000 ==> r as int == x
  {
    var m := x % 0x1_0000_0000;
    if m < 0x8000_0000 then m as int32 else (m - 0x1_0000_0000) as int32
  }

  /** Values 2^32 apart wrap alike. */
  lemma WrapCongruent(x: int, y: int, k: int)
    requires x == y + k * 0x1_0000_0000
    ensures Wrap(x) == Wrap(y)
  {
    assert x % 0x1_0000_0000 == y % 0x1_0000_0000;
  }

  /** One step `31 * h + v` of the hash recipe used by every `hashCode` here. */
  function HashStep(h: int32, v: int32): int32
  {
    Wrap(31 * h as int + v as int)
  }

  /**
   * Wrapping after every step gives the same value as computing the polynomial
   * exactly and wrapping once at the end.
   */
  lemma HashStepExact(h: int, v: int)
    ensures HashStep(Wrap(h), Wrap(v)) == Wrap(31 * h + v)
  {
    var a := Wrap(h) as int;
    var b := Wrap(v) as int;
    var i := (h - a) / 0x1_0000_0000;
    var j := (v - b) / 0x1_0000_0000;
    assert h == a + i * 0x1_0000_0000;
    assert v == b + j * 0x1_0000_0000;
    WrapCongruent(31 * h + v, 31 * a + b, 31 * i + j);
  }

  /** Java's `/` on integers: the quotient is truncated toward zero. */
  function TruncDiv(a: int, b: int): (q: int)
    requires b > 0
    ensures a >= 0 ==> q == a / b
    ensures a < 0 ==> q == -((-a) / b)
  {
    if a >= 0 then a / b else -((-a) / b)
  }

  /** The characters `String.trim` removes: every code point up to U+0020. */
  predicate IsTrimmable(c: char)
  {
    c <= ' '
  }

  /** `s` begins and ends with a character `trim` keeps (or is empty). */
  predicate IsTrimmed(s: string)
  {
    s == [] || (!IsTrimmable(s[0]) && !IsTrimmable(s[|s| - 1]))
  }

  /** `s.trim().isEmpty()`: every character of `s` is trimmable. */
  predicate IsBlank(s: string)
  {
    forall i :: 0 <= i < |s| ==> IsTrimmable(s[i])
  }

  /** The number of trimmable characters at the start of `s`. */
  function Leading(s: string): (n: nat)
    ensures n <= |s|
    ensures forall k :: 0 <= k < n ==> IsTrimmable(s[k])
    ensures n < |s| ==> !IsTrimmable(s[n])
  {
    if s != [] && IsTrimmable(s[0]) then 1 + Leading(s[1..]) else 0
  }

  /** The number of trimmable characters at the end of `s`. */
  function Trailing(s: string): (n: nat)
    ensures n <= |s|
    ensures forall k :: |s| - n <= k < |s| ==> IsTrimmable(s[k])
    ensures n < |s| ==> !IsTrimmable(s[|s| - 1 - n])
  {
    if s != [] && IsTrimmable(s[|s| - 1]) then 1 + Trailing(s[..|s| - 1]) else 0
  }

  /**
   * `String.trim`: drop the trimmable characters at both ends. The result
   * neither begins nor ends with a trimmable character; it is what remains of
   * `s` after its leading trimmable characters, and everything after it in `s`
   * is trimmable.
   */
  function Trim(s: string): (r: string)
    ensures IsTrimmed(r)
    ensures Leading(s) + |r| <= |s| && r == s[Leading(s)..Leading(s) + |r|]
    ensures forall k :: Leading(s) + |r| <= k < |s| ==> IsTrimmable(s[k])
  {
    var i := Leading(s);
    var t := s[i..];
    var j := Trailing(t);
    assert j < |t| ==> !IsTrimmable(t[0]);
    t[..|t| - j]
  }

  /** Trimming removes nothing from a string that is already trimmed. */
  lemma TrimOfTrimmed(s: string)
    requires IsTrimmed(s)
    ensures Trim(s) == s
  {
  }

  /** `trim` is idempotent. */
  lemma TrimIdempotent(s: string)
    ensures Trim(Trim(s)) == Trim(s)
  {
    TrimOfTrimmed(Trim(s));
  }

  /** `s.trim().isEmpty()` holds exactly when `s` is blank. */
  lemma TrimEmptyIffBlank(s: string)
    ensures Trim(s) == [] <==> IsBlank(s)
  {
  }

  /** The line separator `%n` produces; the platform's value is fixed to a line feed here. */
  const LINE_SEPARATOR: string := "\n"

  /** One piece of a `String.format` pattern: literal text, a `%s`, or a `%n`. */
  datatype FormatItem = Text(text: string) | Str | LineSep

  /** The number of `%s` in a pattern. */
  function ArgCount(items: seq<FormatItem>): nat
  {
    if items == [] then 0 else (if items[0] == Str then 1 else 0) + ArgCount(items[1..])
  }

  /**
   * `String.format` with `%s` and `%n` only: each `%s` takes the next
   * argument; arguments left over are ignored.
   */
  function Format(items: seq<FormatItem>, args: seq<string>): string
    requires ArgCount(items) <= |args|
  {
    if items == [] then []
    else match items[0]
      case Text(t) => t + Format(items[1..], args)
      case LineSep => LINE_SEPARATOR + Format(items[1..], args)
      case Str => args[0] + Format(items[1..], args[1..])
  }

  /** Formatting a pattern made of two parts formats the second with the arguments the first left over. */
  lemma {:induction false} FormatAppend(a: seq<FormatItem>, b: seq<FormatItem>, args: seq<string>)
    requires ArgCount(a) + ArgCount(b) <= |args|
    ensures ArgCount(a + b) == ArgCount(a) + ArgCount(b)
    ensures Format(a + b, args) == Format(a, args) + Format(b, args[ArgCount(a)..])
  {
    if a != [] {
      assert (a + b)[1..] == a[1..] + b;
      if a[0] == Str {
        FormatAppend(a[1..], b, args[1..]);
        assert args[1..][ArgCount(a[1..])..] == args[ArgCount(a)..];
      } else {
        FormatAppend(a[1..], b, args);
      }
    } else {
      assert a + b == b;
    }
  }

  /** A leading space makes no difference once the result is trimmed. */
  lemma TrimLeadingSpace(s: string)
    ensures Trim(" " + s) == Trim(s)
  {
    var t := " " + s;
    assert t[1..] == s;
    assert Leading(t) == 1 + Leading(s);
    assert t[Leading(t)..] == s[Leading(s)..];
  }
}
