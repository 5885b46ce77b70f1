/** The .NET string operations the resource-script generator relies on, over `seq<char>`. */
module Text {
  import opened Wrappers
  import opened Collections

  /** `t` occurs in `s` starting at position `i`. */
  predicate OccursAt(s: string, t: string, i: int)
  {
    0 <= i && i + |t| <= |s| && s[i..i + |t|] == t
  }

  /**
   * `s.IndexOf(t)` (ordinal comparison): the first position where `t` occurs,
   * or -1 when it does not occur; an empty `t` occurs at 0.
   */
  function IndexOf(s: string, t: string): (r: int)
    ensures -1 <= r <= |s|
    ensures r >= 0 ==> OccursAt(s, t, r)
    ensures forall j | 0 <= j && (r < 0 || j < r) :: !OccursAt(s, t, j)
  {
    if |s| < |t| then -1
    else if s[..|t|] == t then 0
    else
      var r := IndexOf(s[1..], t);
      OccursInTail(s, t);
      if r < 0 then -1 else r + 1
  }

  /** An occurrence after the first position is an occurrence in the tail, one place earlier. */
  lemma OccursInTail(s: string, t: string)
    requires s != []
    ensures forall j | 1 <= j && OccursAt(s, t, j) :: OccursAt(s[1..], t, j - 1)
  {
    forall j | 1 <= j && OccursAt(s, t, j) ensures OccursAt(s[1..], t, j - 1) {
      assert s[1..][j - 1..j - 1 + |t|] == s[j..j + |t|];
    }
  }

  /** Searching for one character finds its first occurrence. */
  lemma IndexOfChar(s: string, c: char)
    ensures IndexOf(s, [c]) == if c in s then FirstIndex(s, c) else -1
  {
    var r := IndexOf(s, [c]);
    var k := FirstIndex(s, c);
    if r >= 0 {
      assert s[r..r + 1] == [s[r]];
    }
  }

  /** A text that lacks one of the characters of `t` does not contain `t`. */
  lemma IndexOfMissingChar(s: string, t: string, i: nat)
    requires i < |t| && t[i] !in s
    ensures IndexOf(s, t) < 0
  {
  }

  /**
   * `s.Replace(pattern, String.Empty)`: every occurrence of the pattern found
   * scanning left to right, without overlaps, is removed.
   */
  function Strip(s: string, pattern: string): (r: string)
    requires pattern != []
    ensures |r| <= |s|
    decreases |s|
  {
    if |s| < |pattern| then s
    else if s[..|pattern|] == pattern then Strip(s[|pattern|..], pattern)
    else [s[0]] + Strip(s[1..], pattern)
  }

  /** Replacing a pattern that does not occur changes nothing. */
  lemma {:induction false} StripAbsent(s: string, pattern: string)
    requires pattern != [] && IndexOf(s, pattern) < 0
    ensures Strip(s, pattern) == s
    decreases |s|
  {
    if |pattern| <= |s| {
      assert !OccursAt(s, pattern, 0);
      StripAbsent(s[1..], pattern);
    }
  }

  predicate IsDigit(c: char)
  {
    '0' <= c <= '9'
  }

  predicate AllDigits(s: string)
  {
    forall k | 0 <= k < |s| :: IsDigit(s[k])
  }

  /** `n.ToString()` for a natural number: its decimal digits, most significant first. */
  function NatToDecimal(n: nat): (r: string)
    ensures |r| >= 1 && AllDigits(r)
    ensures |r| > 1 ==> r[0] != '0'
    decreases n
  {
    if n < 10 then ['0' + n as char]
    else NatToDecimal(n / 10) + ['0' + (n % 10) as char]
  }

  /** The value of a string of decimal digits. */
  function DecimalValue(s: string): (r: nat)
    requires AllDigits(s)
  {
    if s == [] then 0
    else DecimalValue(s[..|s| - 1]) * 10 + (s[|s| - 1] - '0') as nat
  }

  /** Decimal rendering loses nothing: reading the digits back gives the number. */
  lemma {:induction false} DecimalRoundTrip(n: nat)
    ensures DecimalValue(NatToDecimal(n)) == n
    decreases n
  {
    if n >= 10 {
      var s := NatToDecimal(n);
      assert s[..|s| - 1] == NatToDecimal(n / 10);
      DecimalRoundTrip(n / 10);
    }
  }

  /** `n.ToString()` for an integer: a minus sign before the digits of a negative number. */
  function IntToDecimal(n: int): (r: string)
    ensures |r| >= 1
    ensures forall k | 0 <= k < |r| :: IsDigit(r[k]) || r[k] == '-'
    ensures r[0] == '-' <==> n < 0
  {
    if n < 0 then "-" + NatToDecimal(-n) else NatToDecimal(n)
  }

  /** Reads an optionally signed decimal integer; none when the text is not one. */
  function ParseInt(s: string): (r: Option<int>)
  {
    if |s| > 1 && s[0] == '-' && AllDigits(s[1..]) then
      var magnitude: int := DecimalValue(s[1..]);
      Some(-magnitude)
    else if |s| > 0 && AllDigits(s) then Some(DecimalValue(s))
    else None
  }

  /** Rendering an integer and reading it back gives the integer. */
  lemma IntRoundTrip(n: int)
    ensures ParseInt(IntToDecimal(n)) == Some(n)
  {
    var s := IntToDecimal(n);
    if n < 0 {
      var digits := NatToDecimal(-n);
      assert s[0] == '-' && s[1..] == digits;
      DecimalRoundTrip(-n);
      assert ParseInt(s) == Some(n);
    } else {
      assert IsDigit(s[0]);
      DecimalRoundTrip(n);
      assert ParseInt(s) == Some(DecimalValue(s));
    }
  }

  /** `s.Split(separator)`: the pieces between separators, in order (at least one). */
  function SplitOn(s: string, separator: char): (r: seq<string>)
    ensures |r| >= 1
    decreases |s|
  {
    var k := FirstIndex(s, separator);
    if k == |s| then [s] else [s[..k]] + SplitOn(s[k + 1..], separator)
  }

  /** Splitting a separator-free piece followed by the separator peels the piece off. */
  lemma SplitOnCons(a: string, separator: char, b: string)
    requires separator !in a
    ensures SplitOn(a + [separator] + b, separator) == [a] + SplitOn(b, separator)
  {
    var s := a + [separator] + b;
    var k := FirstIndex(s, separator);
    assert s[|a|] == separator;
    assert forall j | 0 <= j < |a| :: s[j] == a[j];
    assert s[..k] == a && s[k + 1..] == b;
  }

  /** `String.Join(separator, fields)` for a non-empty list of fields. */
  function Join(fields: seq<string>, separator: char): (r: string)
    requires |fields| >= 1
  {
    if |fields| == 1 then fields[0] else fields[0] + [separator] + Join(fields[1..], separator)
  }

  /** Splitting fields joined by a separator none of them holds gives the fields back. */
  lemma {:induction false} SplitJoin(fields: seq<string>, separator: char)
    requires |fields| >= 1
    requires forall i | 0 <= i < |fields| :: separator !in fields[i]
    ensures SplitOn(Join(fields, separator), separator) == fields
  {
    if |fields| == 1 {
      assert FirstIndex(fields[0], separator) == |fields[0]|;
    } else {
      SplitJoin(fields[1..], separator);
      SplitOnCons(fields[0], separator, Join(fields[1..], separator));
      assert [fields[0]] + fields[1..] == fields;
    }
  }

  /** Characters absent from a text stay absent after removing a pattern. */
  lemma {:induction false} StripKeepsAbsent(s: string, pattern: string, c: char)
    requires pattern != [] && c !in s
    ensures c !in Strip(s, pattern)
    decreases |s|
  {
    if |pattern| <= |s| {
      if s[..|pattern|] == pattern {
        assert forall k | 0 <= k < |s| - |pattern| :: s[|pattern|..][k] == s[|pattern| + k];
        StripKeepsAbsent(s[|pattern|..], pattern, c);
      } else {
        assert forall k | 0 <= k < |s| - 1 :: s[1..][k] == s[1 + k];
        StripKeepsAbsent(s[1..], pattern, c);
      }
    }
  }

  /** Removing a pattern from a text that starts with it drops that occurrence first. */
  lemma StripLeading(pattern: string, s: string)
    requires pattern != []
    ensures Strip(pattern + s, pattern) == Strip(s, pattern)
  {
    var t := pattern + s;
    assert t[..|pattern|] == pattern;
    assert t[|pattern|..] == s;
  }
}
