/** Release versions, their order, and the tags that spell them. */
module Versions {
  import opened Options
  import opened Text

  datatype Version = Version(major: nat, minor: nat, patch: nat) {
    function At(i: nat): nat
      requires i < 3
    {
      if i == 0 then major else if i == 1 then minor else patch
    }
  }

  /** The precedence of section 11 of Semantic Versioning 2.0.0, for versions without a prerelease. */
  predicate Less(a: Version, b: Version) {
    a.major < b.major || (a.major == b.major && (a.minor < b.minor || (a.minor == b.minor && a.patch < b.patch)))
  }

  lemma LessIsATotalOrder(a: Version, b: Version, c: Version)
    ensures Less(a, b) && Less(b, c) ==> Less(a, c)
    ensures Less(a, b) || a == b || Less(b, a)
    ensures !(Less(a, b) && Less(b, a))
  {
  }

  method CompareVersions(a: Version, b: Version) returns (sign: int)
    ensures sign == if Less(a, b) then -1 else if Less(b, a) then 1 else 0
    ensures sign == 0 <==> a == b
  {
    for i := 0 to 3
      invariant forall k: nat :: k < i ==> a.At(k) == b.At(k)
    {
      if a.At(i) != b.At(i) {
        assert i >= 1 ==> a.At(0) == b.At(0);
        assert i >= 2 ==> a.At(1) == b.At(1);
        return if a.At(i) < b.At(i) then -1 else 1;
      }
    }
    assert a.At(0) == b.At(0) && a.At(1) == b.At(1) && a.At(2) == b.At(2);
    return 0;
  }

  // ----- decimal numbers -----

  predicate IsDigit(c: char) {
    '0' <= c <= '9'
  }

  predicate AllDigits(s: string) {
    forall i :: 0 <= i < |s| ==> IsDigit(s[i])
  }

  function Value(s: string): nat
    requires AllDigits(s)
  {
    if s == [] then 0 else 10 * Value(s[..|s| - 1]) + (s[|s| - 1] as int - '0' as int)
  }

  function Printed(n: nat): (s: string)
    ensures s != [] && AllDigits(s)
  {
    if n < 10 then [('0' as int + n) as char] else Printed(n / 10) + [('0' as int + n % 10) as char]
  }

  lemma {:induction false} ValueOfPrinted(n: nat)
    ensures Value(Printed(n)) == n
  {
    if n >= 10 {
      var front, last := Printed(n / 10), ('0' as int + n % 10) as char;
      ValueOfPrinted(n / 10);
      assert (front + [last])[..|front|] == front;
    } else {
      assert Printed(n)[..0] == [];
    }
  }

  /** The length of the leading run of digits. */
  function DigitRun(s: string): (n: nat)
    ensures n <= |s| && AllDigits(s[..n])
    ensures n < |s| ==> !IsDigit(s[n])
  {
    if s == [] || !IsDigit(s[0]) then 0
    else
      var rest := DigitRun(s[1..]);
      assert s[..1 + rest] == [s[0]] + s[1..][..rest];
      1 + rest
  }

  lemma {:induction false} DigitRunOf(digits: string, rest: string)
    requires AllDigits(digits) && (rest == [] || !IsDigit(rest[0]))
    ensures DigitRun(digits + rest) == |digits|
    ensures (digits + rest)[..|digits|] == digits && (digits + rest)[|digits|..] == rest
  {
    if digits == [] {
      assert digits + rest == rest;
    } else {
      assert (digits + rest)[1..] == digits[1..] + rest;
      DigitRunOf(digits[1..], rest);
    }
  }

  // ----- tags -----

  /** A number, and what follows it. */
  function ParseNumber(s: string): Option<(nat, string)> {
    var n := DigitRun(s);
    if n == 0 then None else Some((Value(s[..n]), s[n..]))
  }

  function AfterDot(s: string): Option<(nat, string)> {
    if s == [] || s[0] != '.' then None else ParseNumber(s[1..])
  }

  /** Exactly three numbers separated by dots. */
  function ParseTriple(s: string): Option<Version> {
    match ParseNumber(s)
    case None => None
    case Some(a) =>
      match AfterDot(a.1)
      case None => None
      case Some(b) =>
        match AfterDot(b.1)
        case None => None
        case Some(c) => if c.1 == [] then Some(Version(a.0, b.0, c.0)) else None
  }

  predicate IsNumeral(s: string) {
    s != [] && AllDigits(s)
  }

  /** Three numerals, with dots between them. */
  ghost predicate IsTriple(s: string) {
    exists a, b, c :: IsNumeral(a) && IsNumeral(b) && IsNumeral(c) && s == a + ("." + (b + ("." + c)))
  }

  lemma NumberExactlyWhen(s: string, digits: string, rest: string)
    requires IsNumeral(digits) && s == digits + rest && (rest == [] || !IsDigit(rest[0]))
    ensures ParseNumber(s) == Some((Value(digits), rest))
    ensures AfterDot("." + s) == Some((Value(digits), rest))
  {
    DigitRunOf(digits, rest);
    assert ("." + s)[1..] == s;
  }

  lemma TripleReads(a: string, b: string, c: string)
    requires IsNumeral(a) && IsNumeral(b) && IsNumeral(c)
    ensures ParseTriple(a + ("." + (b + ("." + c)))) == Some(Version(Value(a), Value(b), Value(c)))
  {
    var second := b + ("." + c);
    assert c + [] == c;
    NumberExactlyWhen(c, c, []);
    NumberExactlyWhen(second, b, "." + c);
    NumberExactlyWhen(a + ("." + second), a, "." + second);
  }

  lemma NumberReads(s: string)
    requires ParseNumber(s).Some?
    ensures var n := DigitRun(s);
            IsNumeral(s[..n]) && s == s[..n] + ParseNumber(s).value.1 && ParseNumber(s).value.0 == Value(s[..n])
  {
  }

  /** A triple is exactly three numerals with dots between them, and reads as their values. */
  lemma TripleExactlyWhen(s: string)
    ensures ParseTriple(s).Some? <==> IsTriple(s)
    ensures forall a, b, c :: IsNumeral(a) && IsNumeral(b) && IsNumeral(c) && s == a + ("." + (b + ("." + c))) ==>
              ParseTriple(s) == Some(Version(Value(a), Value(b), Value(c)))
  {
    if ParseTriple(s).Some? {
      var t := ParseNumber(s).value.1;
      var u := AfterDot(t).value.1;
      NumberReads(s);
      NumberReads(t[1..]);
      NumberReads(u[1..]);
      var a, b, c := s[..DigitRun(s)], t[1..][..DigitRun(t[1..])], u[1..][..DigitRun(u[1..])];
      assert t == "." + t[1..] && u == "." + u[1..] && u[1..] == c;
      assert s == a + ("." + (b + ("." + c)));
    }
    forall a, b, c | IsNumeral(a) && IsNumeral(b) && IsNumeral(c) && s == a + ("." + (b + ("." + c)))
      ensures ParseTriple(s) == Some(Version(Value(a), Value(b), Value(c)))
    {
      TripleReads(a, b, c);
    }
  }

  predicate IsTag(s: string) {
    s != [] && s[0] == 'v' && ParseTriple(s[1..]).Some?
  }

  function ParseReleaseTag(title: string): (v: Option<Version>)
    ensures v.Some? <==> IsTag(Trim(title))
  {
    var t := Trim(title);
    if IsTag(t) then ParseTriple(t[1..]) else None
  }

  function StripV(tag: string): string {
    if tag != [] && tag[0] == 'v' then tag[1..] else tag
  }

  function Numbers(v: Version): string {
    Printed(v.major) + ("." + (Printed(v.minor) + ("." + Printed(v.patch))))
  }

  function FormatVersion(v: Version): string {
    "v" + Numbers(v)
  }

  lemma ParsePrinted(n: nat, rest: string)
    requires rest == [] || !IsDigit(rest[0])
    ensures ParseNumber(Printed(n) + rest) == Some((n, rest))
    ensures AfterDot("." + (Printed(n) + rest)) == Some((n, rest))
  {
    DigitRunOf(Printed(n), rest);
    ValueOfPrinted(n);
    assert ("." + (Printed(n) + rest))[1..] == Printed(n) + rest;
  }

  lemma TripleOfNumbers(v: Version)
    ensures ParseTriple(Numbers(v)) == Some(v)
  {
    var third := Printed(v.patch);
    var second := "." + third;
    var first := "." + (Printed(v.minor) + second);
    assert third + [] == third;
    ParsePrinted(v.patch, []);
    ParsePrinted(v.minor, second);
    ParsePrinted(v.major, first);
  }

  /** A tag ends in a digit, so it has nothing to trim. */
  lemma TripleEndsInDigit(s: string)
    requires ParseTriple(s).Some?
    ensures s != [] && IsDigit(s[|s| - 1])
  {
    var a := ParseNumber(s).value;
    var b := AfterDot(a.1).value;
    var t := b.1[1..];
    var n := DigitRun(t);
    assert t[n..] == [];
    assert IsDigit(t[..n][n - 1]);
    assert s[|s| - 1] == t[n - 1];
  }

  lemma TrimOfSolid(s: string)
    requires s != [] && !IsSpace(s[0]) && !IsSpace(s[|s| - 1])
    ensures Trim(s) == s
  {
  }

  lemma TagIsTrimmed(tag: string)
    requires IsTag(tag)
    ensures Trim(tag) == tag
  {
    TripleEndsInDigit(tag[1..]);
    TrimOfSolid(tag);
  }

  /** Every version has a tag, and the tag reads back as that version. */
  lemma FormatReadsBack(v: Version)
    ensures IsTag(FormatVersion(v)) && ParseReleaseTag(FormatVersion(v)) == Some(v)
    ensures StripV(FormatVersion(v)) == Numbers(v)
  {
    assert FormatVersion(v)[1..] == Numbers(v);
    TripleOfNumbers(v);
    TagIsTrimmed(FormatVersion(v));
  }
}
