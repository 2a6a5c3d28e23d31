/**
 * The PHP string built-ins the core relies on: `explode`, `implode`, `rtrim`
 * with a character list, and the decimal form in which an integer is written
 * to a file.
 */
module PhpStrings {

  /** `implode(sep, parts)`: the parts joined with `sep` between neighbours. */
  function Implode(sep: string, parts: seq<string>): string
    decreases |parts|
  {
    if parts == [] then ""
    else if |parts| == 1 then parts[0]
    else parts[0] + sep + Implode(sep, parts[1..])
  }

  /** An implosion of some parts starts with the first part. */
  lemma {:induction false} ImplodeStartsWith(sep: string, parts: seq<string>)
    requires parts != []
    ensures parts[0] <= Implode(sep, parts)
  {
  }

  /**
   * `explode(sep, s)` for a non-empty separator: `s` is cut at every
   * occurrence of `sep`, found left to right without overlap. The result is
   * never empty, and joining it back with `sep` gives `s` again.
   */
  function Explode(sep: string, s: string): (r: seq<string>)
    requires sep != []
    ensures |r| >= 1
    ensures Implode(sep, r) == s
    decreases |s|
  {
    if |s| < |sep| then
      [s]
    else if s[..|sep|] == sep then
      var rest := Explode(sep, s[|sep|..]);
      assert s == sep + s[|sep|..];
      [""] + rest
    else
      var rest := Explode(sep, s[1..]);
      assert s == [s[0]] + s[1..];
      assert |rest| > 1 ==> Implode(sep, rest) == rest[0] + sep + Implode(sep, rest[1..]);
      [[s[0]] + rest[0]] + rest[1..]
  }

  /** With a one-character separator, no piece contains that character. */
  lemma {:induction false} ExplodeNoSeparator(sep: string, s: string)
    requires |sep| == 1
    ensures forall i :: 0 <= i < |Explode(sep, s)| ==> sep[0] !in Explode(sep, s)[i]
    decreases |s|
  {
    if |s| >= |sep| {
      if s[..|sep|] == sep {
        ExplodeNoSeparator(sep, s[|sep|..]);
      } else {
        ExplodeNoSeparator(sep, s[1..]);
        assert s[0] != sep[0] by {
          assert s[..1] == [s[0]];
        }
      }
    }
  }

  /** A piece without the separator's first character is not cut. */
  lemma {:induction false} ExplodeUncut(sep: string, p: string)
    requires sep != [] && sep[0] !in p
    ensures Explode(sep, p) == [p]
    decreases |p|
  {
    if |p| >= |sep| {
      assert p[..|sep|][0] == p[0];
      ExplodeUncut(sep, p[1..]);
      assert [p[0]] + p[1..] == p;
    }
  }

  /** A piece without the separator's first character, then the separator, is cut exactly there. */
  lemma {:induction false} ExplodeLeading(sep: string, p: string, rest: string)
    requires sep != [] && sep[0] !in p
    ensures Explode(sep, p + sep + rest) == [p] + Explode(sep, rest)
    decreases |p|
  {
    var s := p + sep + rest;
    if p == [] {
      assert s == sep + rest;
      assert s[..|sep|] == sep && s[|sep|..] == rest;
    } else {
      assert s[..|sep|][0] == p[0];
      assert s[1..] == p[1..] + sep + rest;
      ExplodeLeading(sep, p[1..], rest);
      assert [p[0]] + p[1..] == p;
    }
  }

  /** Exploding an implosion gives the parts back, when no part holds the separator's first character. */
  lemma {:induction false} ExplodeImplode(sep: string, parts: seq<string>)
    requires sep != [] && |parts| >= 1
    requires forall i :: 0 <= i < |parts| ==> sep[0] !in parts[i]
    ensures Explode(sep, Implode(sep, parts)) == parts
    decreases |parts|
  {
    if |parts| == 1 {
      ExplodeUncut(sep, parts[0]);
    } else {
      ExplodeLeading(sep, parts[0], Implode(sep, parts[1..]));
      ExplodeImplode(sep, parts[1..]);
      assert [parts[0]] + parts[1..] == parts;
    }
  }

  /**
   * `rtrim(s, chars)`: `s` with every trailing character that belongs to
   * `chars` removed. The result is a prefix of `s` that does not end in one
   * of `chars`, and everything removed belongs to `chars`.
   */
  function RTrim(s: string, chars: set<char>): (r: string)
    ensures r <= s
    ensures r == [] || r[|r| - 1] !in chars
    ensures forall i :: |r| <= i < |s| ==> s[i] in chars
    decreases |s|
  {
    if s != [] && s[|s| - 1] in chars then RTrim(s[..|s| - 1], chars) else s
  }

  /** Those three facts pin the result down: any split of `s` with the same shape is the one `rtrim` makes. */
  lemma RTrimUnique(s: string, chars: set<char>, kept: string, dropped: string)
    requires s == kept + dropped
    requires kept == [] || kept[|kept| - 1] !in chars
    requires forall i :: 0 <= i < |dropped| ==> dropped[i] in chars
    ensures RTrim(s, chars) == kept
  {
    var r := RTrim(s, chars);
    assert kept != [] ==> s[|kept| - 1] !in chars;
    assert r != [] ==> s[|r| - 1] !in chars;
    assert forall i :: |kept| <= i < |s| ==> s[i] == dropped[i - |kept|];
    assert r == s[..|r|] && kept == s[..|kept|];
  }

  predicate IsDigit(c: char)
  {
    '0' <= c <= '9'
  }

  /** The ten decimal digits, as a character list for `rtrim`. */
  const DigitChars: set<char> := {'0', '1', '2', '3', '4', '5', '6', '7', '8', '9'}

  /** The character list holds exactly the digits. */
  lemma DigitCharsAreDigits()
    ensures forall c :: c in DigitChars <==> IsDigit(c)
  {
  }

  predicate IsDigits(s: string)
  {
    forall i :: 0 <= i < |s| ==> IsDigit(s[i])
  }

  function DigitChar(d: nat): (c: char)
    requires d < 10
    ensures IsDigit(c)
  {
    (('0' as int) + d) as char
  }

  /** The decimal text PHP writes for a non-negative integer: non-empty, digits only. */
  function Decimal(n: nat): (r: string)
    ensures |r| >= 1 && IsDigits(r)
    decreases n
  {
    if n < 10 then [DigitChar(n)] else Decimal(n / 10) + [DigitChar(n % 10)]
  }

  /** The number a string of decimal digits denotes. */
  function DecimalValue(s: string): nat
    requires IsDigits(s)
    decreases |s|
  {
    if s == [] then 0
    else 10 * DecimalValue(s[..|s| - 1]) + ((s[|s| - 1] as int) - ('0' as int))
  }

  /** Reading the decimal text back gives the number that was written. */
  lemma {:induction false} DecimalRoundTrip(n: nat)
    ensures DecimalValue(Decimal(n)) == n
    decreases n
  {
    var r := Decimal(n);
    if n >= 10 {
      DecimalRoundTrip(n / 10);
      assert r[..|r| - 1] == Decimal(n / 10);
    }
  }

  /** Different numbers have different decimal texts. */
  lemma DecimalInjective(m: nat, n: nat)
    ensures Decimal(m) == Decimal(n) ==> m == n
  {
    DecimalRoundTrip(m);
    DecimalRoundTrip(n);
  }
}
