/**
  String operations that the core relies on: Go's `strconv.ParseUint(s, 10, 32)`,
  lower-casing, the SQL `LIKE` operator of the relational store and
  Go's `strings.Split` on a one-character separator.
 */
module Text {
  import opened Wrappers

  const MaxUint32: nat := 0xFFFF_FFFF

  predicate IsDigit(c: char) { '0' <= c <= '9' }

  predicate AllDigits(s: string) { forall i :: 0 <= i < |s| ==> IsDigit(s[i]) }

  function DigitChar(d: nat): (c: char)
    requires d < 10
    ensures IsDigit(c)
  {
    ('0' as int + d) as char
  }

  /** The value of a string of decimal digits, most significant first. */
  function DigitsValue(s: string): nat
    requires AllDigits(s)
  {
    if s == [] then 0 else DigitsValue(s[..|s| - 1]) * 10 + (s[|s| - 1] as int - '0' as int)
  }

  /** The shortest decimal spelling of `n` (Go's `strconv.FormatUint(n, 10)`). */
  function Decimal(n: nat): (s: string)
    ensures |s| > 0 && AllDigits(s)
  {
    if n < 10 then [DigitChar(n)] else Decimal(n / 10) + [DigitChar(n % 10)]
  }

  /**
    `strconv.ParseUint(s, 10, 32)`: base 10 admits no sign, no prefix, no
    underscore and no blank, the empty string is a syntax error and a value
    above 2^32 - 1 is a range error. Leading zeros are accepted.
   */
  function ParseUint32(s: string): (r: Option<nat>)
    ensures r.Some? <==> |s| > 0 && AllDigits(s) && DigitsValue(s) <= MaxUint32
    ensures r.Some? ==> r.value == DigitsValue(s) && r.value <= MaxUint32
  {
    if |s| == 0 || !AllDigits(s) then None
    else if DigitsValue(s) <= MaxUint32 then Some(DigitsValue(s))
    else None
  }

  lemma {:induction false} DecimalValue(n: nat)
    ensures DigitsValue(Decimal(n)) == n
  {
    if n >= 10 {
      var s := Decimal(n);
      assert s[..|s| - 1] == Decimal(n / 10);
      DecimalValue(n / 10);
    }
  }

  /** Round trip: every 32-bit unsigned value spelled in decimal parses back to itself. */
  lemma ParseDecimalRoundTrip(n: nat)
    requires n <= MaxUint32
    ensures ParseUint32(Decimal(n)) == Some(n)
  {
    DecimalValue(n);
  }

  /** A leading zero does not change the value of a digit string. */
  lemma {:induction false} LeadingZeroValue(s: string)
    requires AllDigits(s)
    ensures AllDigits("0" + s) && DigitsValue("0" + s) == DigitsValue(s)
  {
    if s != [] {
      var z := "0" + s;
      assert z[..|z| - 1] == "0" + s[..|s| - 1];
      assert z[|z| - 1] == s[|s| - 1];
      LeadingZeroValue(s[..|s| - 1]);
    }
  }

  /** Leading zeros are accepted: "0" followed by a string parses as that string does. */
  lemma ParseLeadingZero(s: string)
    requires |s| > 0
    ensures ParseUint32("0" + s) == ParseUint32(s)
  {
    if AllDigits(s) {
      LeadingZeroValue(s);
    } else {
      var i :| 0 <= i < |s| && !IsDigit(s[i]);
      assert ("0" + s)[i + 1] == s[i];
    }
  }

  /** A value above 2^32 - 1, spelled in decimal, is a range error. */
  lemma ParseRejectsOverflow(n: nat)
    requires n > MaxUint32
    ensures ParseUint32(Decimal(n)) == None
  {
    DecimalValue(n);
  }

  /** A string holding any non-digit (a sign, a blank, a letter) never parses. */
  lemma ParseRejectsNonDigit(s: string, i: nat)
    requires i < |s| && !IsDigit(s[i])
    ensures ParseUint32(s) == None
  {
  }

  // ---------------------------------------------------------------------
  // Lower-casing

  /** Lower-cases the ASCII letters A-Z and leaves every other character alone. */
  function Lower(s: string): (r: string)
    ensures |r| == |s|
    ensures forall i :: 0 <= i < |s| ==> r[i] == (if 'A' <= s[i] <= 'Z' then (s[i] as int + 32) as char else s[i])
  {
    if s == [] then [] else [if 'A' <= s[0] <= 'Z' then (s[0] as int + 32) as char else s[0]] + Lower(s[1..])
  }

  /** Lower-casing twice is lower-casing once. */
  lemma LowerIdempotent(s: string)
    ensures Lower(Lower(s)) == Lower(s)
  {
  }

  // ---------------------------------------------------------------------
  // SQL LIKE

  /**
    `s LIKE p` as the relational store evaluates it: `%` matches any run of
    characters, `_` any single character, and a backslash makes the next
    character literal. The store rejects a pattern that ends in a lone
    backslash with an error; here such a pattern matches nothing, a case the
    core never reaches, since every pattern it builds ends in `%`.
   */
  function Like(s: string, p: string): bool
    decreases |s| + |p|
  {
    if |p| == 0 then |s| == 0
    else if p[0] == '%' then Like(s, p[1..]) || (|s| > 0 && Like(s[1..], p))
    else if p[0] == '_' then |s| > 0 && Like(s[1..], p[1..])
    else if p[0] == '\\' then |p| >= 2 && |s| > 0 && s[0] == p[1] && Like(s[1..], p[2..])
    else |s| > 0 && s[0] == p[0] && Like(s[1..], p[1..])
  }

  /** The `"%" + q + "%"` pattern the repositories build for a substring search. */
  function ContainsPattern(q: string): string { "%" + q + "%" }

  predicate WildcardFree(q: string)
  {
    forall i :: 0 <= i < |q| ==> q[i] != '%' && q[i] != '_' && q[i] != '\\'
  }

  /** `q` occurs in `s` at some position. */
  predicate Contains(s: string, q: string)
  {
    exists i :: 0 <= i <= |s| && q <= s[i..]
  }

  lemma {:induction false} LikeAnything(t: string)
    ensures Like(t, "%")
  {
    if |t| > 0 { LikeAnything(t[1..]); }
  }

  lemma {:induction false} LikePrefix(t: string, q: string)
    requires WildcardFree(q)
    ensures Like(t, q + "%") <==> q <= t
  {
    if q == [] {
      assert q + "%" == "%";
      LikeAnything(t);
    } else {
      var p := q + "%";
      assert p[0] == q[0] && p[1..] == q[1..] + "%";
      if |t| > 0 {
        LikePrefix(t[1..], q[1..]);
        assert q <= t <==> (t[0] == q[0] && q[1..] <= t[1..]);
      }
    }
  }

  /**
    For a query without wildcard characters, `s LIKE '%' || q || '%'` holds
    exactly when `q` occurs in `s`.
   */
  lemma {:induction false} LikeContains(s: string, q: string)
    requires WildcardFree(q)
    ensures Like(s, ContainsPattern(q)) <==> Contains(s, q)
  {
    var p := ContainsPattern(q);
    assert p[0] == '%' && p[1..] == q + "%";
    LikePrefix(s, q);
    assert s[0..] == s;
    if |s| > 0 {
      LikeContains(s[1..], q);
      if Contains(s[1..], q) {
        var i :| 0 <= i <= |s[1..]| && q <= s[1..][i..];
        assert s[1..][i..] == s[i + 1..];
      }
      if Contains(s, q) && !(q <= s) {
        var i :| 0 <= i <= |s| && q <= s[i..];
        assert i > 0;
        assert s[1..][i - 1..] == s[i..];
      }
    } else {
      assert Contains(s, q) <==> q <= s;
    }
  }

  /** The wildcard `_` in a query matches a character that the query does not contain. */
  lemma UnderscoreIsWildcard()
    ensures Like("ab", ContainsPattern("_")) && !Contains("ab", "_")
  {
    assert ContainsPattern("_") == "%_%";
    assert Like("b", "%");
    assert Like("ab", "_%");
    assert !("_" <= "ab"[0..]);
    assert !("_" <= "ab"[1..]);
    assert !("_" <= "ab"[2..]);
  }

  // ---------------------------------------------------------------------
  // strings.Split / strings.Join on a one-character separator

  /** `strings.Split(s, [sep])`: k separators give k + 1 parts, empty parts included. */
  function Split(s: string, sep: char): (parts: seq<string>)
    ensures |parts| >= 1
  {
    if s == [] then [""]
    else
      var rest := Split(s[1..], sep);
      if s[0] == sep then [""] + rest else [[s[0]] + rest[0]] + rest[1..]
  }

  function Join(parts: seq<string>, sep: char): string
    requires |parts| >= 1
  {
    if |parts| == 1 then parts[0] else parts[0] + [sep] + Join(parts[1..], sep)
  }

  /** Splitting loses nothing: joining the parts again gives back the string. */
  lemma {:induction false} JoinSplit(s: string, sep: char)
    ensures Join(Split(s, sep), sep) == s
  {
    if s != [] {
      var rest := Split(s[1..], sep);
      JoinSplit(s[1..], sep);
      if s[0] != sep && |rest| > 1 {
        assert Split(s, sep)[1..] == rest[1..];
        assert rest == [rest[0]] + rest[1..];
      }
    }
  }

  /** No part contains the separator. */
  lemma {:induction false} SplitPartsFree(s: string, sep: char)
    ensures forall k :: 0 <= k < |Split(s, sep)| ==> sep !in Split(s, sep)[k]
  {
    if s != [] {
      SplitPartsFree(s[1..], sep);
    }
  }

  /** The two-part case: `Split(s) == [a, b]` exactly when `s` is `a`, one separator, `b`. */
  lemma SplitTwo(s: string, sep: char, a: string, b: string)
    ensures Split(s, sep) == [a, b] <==> (s == a + [sep] + b && sep !in a && sep !in b)
  {
    if Split(s, sep) == [a, b] {
      JoinSplit(s, sep);
      SplitPartsFree(s, sep);
      assert Split(s, sep)[0] == a && Split(s, sep)[1] == b;
    }
    if s == a + [sep] + b && sep !in a && sep !in b {
      SplitAt(a, b, sep);
      SplitFree(b, sep);
    }
  }

  lemma {:induction false} SplitFree(x: string, sep: char)
    requires sep !in x
    ensures Split(x, sep) == [x]
  {
    if x != [] {
      SplitFree(x[1..], sep);
      assert [x[0]] + x[1..] == x;
    }
  }

  lemma {:induction false} SplitAt(a: string, rest: string, sep: char)
    requires sep !in a
    ensures Split(a + [sep] + rest, sep) == [a] + Split(rest, sep)
  {
    var s := a + [sep] + rest;
    if a == [] {
      assert s[0] == sep && s[1..] == rest;
    } else {
      assert s[0] == a[0] && s[1..] == a[1..] + [sep] + rest;
      SplitAt(a[1..], rest, sep);
      assert [a[0]] + a[1..] == a;
    }
  }

  /** Joining parts free of the separator and splitting again gives the parts back. */
  lemma {:induction false} SplitJoin(parts: seq<string>, sep: char)
    requires |parts| >= 1 && forall k :: 0 <= k < |parts| ==> sep !in parts[k]
    ensures Split(Join(parts, sep), sep) == parts
  {
    if |parts| == 1 {
      SplitFree(parts[0], sep);
    } else {
      SplitJoin(parts[1..], sep);
      SplitAt(parts[0], Join(parts[1..], sep), sep);
      assert [parts[0]] + parts[1..] == parts;
    }
  }
}
