/**
 * The PHP string built-ins the package mail relies on: `implode`, `trim`,
 * `strtolower` and the decimal rendering of an integer in a concatenation.
 */
module PhpStrings {

  /** `implode(sep, parts)`: the parts with `sep` between neighbours. */
  function Join(sep: string, parts: seq<string>): string
    decreases |parts|
  {
    if |parts| == 0 then ""
    else if |parts| == 1 then parts[0]
    else parts[0] + sep + Join(sep, parts[1..])
  }

  /** A join is empty for no parts, and otherwise starts with the first part and ends with the last. */
  lemma {:induction false} JoinEnds(sep: string, parts: seq<string>)
    ensures |parts| == 0 ==> Join(sep, parts) == ""
    ensures |parts| > 0 ==> |parts[0]| <= |Join(sep, parts)| && Join(sep, parts)[..|parts[0]|] == parts[0]
    ensures |parts| > 0 ==> var last := parts[|parts| - 1]; var r := Join(sep, parts);
              |last| <= |r| && r[|r| - |last|..] == last
    decreases |parts|
  {
    if |parts| > 1 {
      var rest := Join(sep, parts[1..]);
      var last := parts[|parts| - 1];
      JoinEnds(sep, parts[1..]);
      assert parts[1..][|parts| - 2] == last;
      var r := parts[0] + sep + rest;
      assert r == Join(sep, parts);
      assert r[|r| - |rest|..] == rest;
      assert r[|r| - |last|..] == rest[|rest| - |last|..];
    }
  }

  /** Joining a list of two or more puts the separator after the first part. */
  lemma JoinCons(sep: string, first: string, rest: seq<string>)
    requires |rest| > 0
    ensures Join(sep, [first] + rest) == first + sep + Join(sep, rest)
  {
    assert ([first] + rest)[1..] == rest;
  }

  /** Joining a concatenation joins each half and puts one separator between them. */
  lemma {:induction false} JoinAppend(sep: string, a: seq<string>, b: seq<string>)
    requires |a| > 0 && |b| > 0
    ensures Join(sep, a + b) == Join(sep, a) + sep + Join(sep, b)
    decreases |a|
  {
    if |a| == 1 {
      assert (a + b)[1..] == b;
    } else {
      assert (a + b)[1..] == a[1..] + b;
      JoinAppend(sep, a[1..], b);
    }
  }

  /** The concatenation of a list of line lists. */
  function Flatten(groups: seq<seq<string>>): seq<string>
    decreases |groups|
  {
    if |groups| == 0 then [] else groups[0] + Flatten(groups[1..])
  }

  /** Each line list joined on its own. */
  function JoinEach(sep: string, groups: seq<seq<string>>): seq<string>
  {
    seq(|groups|, i requires 0 <= i < |groups| => Join(sep, groups[i]))
  }

  /** Extending the blocks by one extends their separate joins by one. */
  lemma JoinEachSnoc(sep: string, groups: seq<seq<string>>, i: nat)
    requires i < |groups|
    ensures JoinEach(sep, groups[..i + 1]) == JoinEach(sep, groups[..i]) + [Join(sep, groups[i])]
  {
  }

  /**
   * Joining blocks that were themselves joined with the same separator gives
   * the join of all their lines, provided no block is empty.
   */
  lemma {:induction false} JoinFlatten(sep: string, groups: seq<seq<string>>)
    requires forall i :: 0 <= i < |groups| ==> |groups[i]| > 0
    ensures Join(sep, JoinEach(sep, groups)) == Join(sep, Flatten(groups))
    decreases |groups|
  {
    if |groups| == 1 {
      assert Flatten(groups) == groups[0] + [];
      assert groups[0] + [] == groups[0];
    } else if |groups| > 1 {
      var rest := groups[1..];
      JoinFlatten(sep, rest);
      assert JoinEach(sep, groups) == [Join(sep, groups[0])] + JoinEach(sep, rest);
      JoinAppend(sep, [Join(sep, groups[0])], JoinEach(sep, rest));
      assert |Flatten(rest)| > 0 by { assert Flatten(rest) == rest[0] + Flatten(rest[1..]); }
      JoinAppend(sep, groups[0], Flatten(rest));
    }
  }

  /**
   * A header line followed by blocks that were each joined on their own
   * reads as the header followed by all the blocks' lines.
   */
  lemma JoinUnderHeader(sep: string, header: string, groups: seq<seq<string>>)
    requires forall i :: 0 <= i < |groups| ==> |groups[i]| > 0
    ensures Join(sep, [header] + JoinEach(sep, groups)) == Join(sep, [header] + Flatten(groups))
  {
    if |groups| > 0 {
      JoinAppend(sep, [header], JoinEach(sep, groups));
      JoinFlatten(sep, groups);
      assert Flatten(groups) == groups[0] + Flatten(groups[1..]);
      JoinAppend(sep, [header], Flatten(groups));
    } else {
      assert JoinEach(sep, groups) == [] && Flatten(groups) == [];
    }
  }

  /** The characters `trim` strips by default: space, tab, LF, CR, NUL and vertical tab. */
  predicate IsTrimSpace(c: char)
  {
    c == ' ' || c == '\t' || c == '\n' || c == '\r' || c == '\0' || c as int == 11
  }

  /** Neither end of `s` is a character `trim` would strip. */
  predicate Unpadded(s: string)
  {
    |s| == 0 || (!IsTrimSpace(s[0]) && !IsTrimSpace(s[|s| - 1]))
  }

  /** `ltrim`: a suffix of `s` that drops exactly the leading strippable characters. */
  function TrimLeft(s: string): (r: string)
    ensures |r| <= |s| && r == s[|s| - |r|..]
    ensures |r| == 0 || !IsTrimSpace(r[0])
    ensures forall i :: 0 <= i < |s| - |r| ==> IsTrimSpace(s[i])
    decreases |s|
  {
    if |s| > 0 && IsTrimSpace(s[0]) then TrimLeft(s[1..]) else s
  }

  /** `rtrim`: a prefix of `s` that drops exactly the trailing strippable characters. */
  function TrimRight(s: string): (r: string)
    ensures |r| <= |s| && r == s[..|r|]
    ensures |r| == 0 || !IsTrimSpace(r[|r| - 1])
    ensures forall i :: |r| <= i < |s| ==> IsTrimSpace(s[i])
    decreases |s|
  {
    if |s| > 0 && IsTrimSpace(s[|s| - 1]) then TrimRight(s[..|s| - 1]) else s
  }

  /**
   * `r` is what remains of `s` once the `k` characters in front of position
   * `k` and everything after `r` are dropped, all of them strippable.
   */
  predicate TrimmedAt(s: string, k: nat, r: string)
  {
    && k + |r| <= |s| && r == s[k..k + |r|]
    && (forall i :: 0 <= i < k ==> IsTrimSpace(s[i]))
    && (forall i :: k + |r| <= i < |s| ==> IsTrimSpace(s[i]))
  }

  /**
   * `trim`: the input with only strippable characters dropped from its two
   * ends, and none left at either end; a string with nothing to strip comes
   * back unchanged.
   */
  function Trim(s: string): (r: string)
    ensures exists k: nat :: TrimmedAt(s, k, r)
    ensures Unpadded(r)
    ensures Unpadded(s) ==> r == s
  {
    var t := TrimLeft(s);
    var r := TrimRight(t);
    var k := |s| - |t|;
    assert r == s[k..k + |r|];
    assert forall i :: k + |r| <= i < |s| ==> s[i] == t[i - k];
    assert TrimmedAt(s, k, r);
    assert |r| > 0 ==> r[0] == t[0];
    assert Unpadded(s) && |s| > 0 ==> |t| == |s|;
    r
  }

  /** A strippable character in front of a string does not change what `trim` returns. */
  lemma TrimSkipsLeadingSpace(c: char, s: string)
    requires IsTrimSpace(c)
    ensures Trim([c] + s) == Trim(s)
  {
    assert ([c] + s)[1..] == s;
  }

  /** `strtolower` on one character (ASCII letters only). */
  function LowerChar(c: char): char
  {
    if 'A' <= c <= 'Z' then (c as int + 32) as char else c
  }

  /** `strtolower`: ASCII upper-case letters become lower case, all else is kept. */
  function Lower(s: string): (r: string)
    ensures |r| == |s|
    ensures forall i :: 0 <= i < |r| ==> !('A' <= r[i] <= 'Z')
    ensures forall i :: 0 <= i < |s| && 'A' <= s[i] <= 'Z' ==> r[i] as int == s[i] as int + 32
    ensures forall i :: 0 <= i < |s| && !('A' <= s[i] <= 'Z') ==> r[i] == s[i]
  {
    seq(|s|, i requires 0 <= i < |s| => LowerChar(s[i]))
  }

  /** Lower-casing twice is lower-casing once. */
  lemma LowerIdempotent(s: string)
    ensures Lower(Lower(s)) == Lower(s)
  {
  }

  /** The decimal digit for `d`. */
  function DigitChar(d: nat): char
    requires d < 10
  {
    ('0' as int + d) as char
  }

  /** A decimal digit character. */
  predicate IsDigit(c: char)
  {
    '0' <= c <= '9'
  }

  /**
   * The decimal text PHP produces when a non-negative integer is
   * concatenated: digits only, at least one, and no leading zero.
   */
  function Decimal(n: nat): (r: string)
    ensures |r| > 0 && forall i :: 0 <= i < |r| ==> IsDigit(r[i])
    ensures r[0] == '0' ==> n == 0
    decreases n
  {
    if n < 10 then [DigitChar(n)]
    else
      var init := Decimal(n / 10);
      var r := init + [DigitChar(n % 10)];
      assert r[0] == init[0];
      r
  }

  /** The number a string of decimal digits denotes. */
  function DecimalValue(s: string): nat
    requires forall i :: 0 <= i < |s| ==> IsDigit(s[i])
    decreases |s|
  {
    if |s| == 0 then 0
    else
      assert IsDigit(s[|s| - 1]);
      DecimalValue(s[..|s| - 1]) * 10 + (s[|s| - 1] as int - '0' as int)
  }

  /** Reading the decimal text back gives the number. */
  lemma {:induction false} DecimalRoundTrip(n: nat)
    ensures DecimalValue(Decimal(n)) == n
    decreases n
  {
    var r := Decimal(n);
    if n >= 10 {
      DecimalRoundTrip(n / 10);
      assert r[..|r| - 1] == Decimal(n / 10);
    }
  }
}
