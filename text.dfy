/**
 * The string operations of the .NET base library that the bot relies on,
 * written out: ordinal prefix tests, `string.IsNullOrEmpty`,
 * `string.Split(char)`, `int.ToString()` and `int.Parse(string)`.
 */
module Text {
  import opened Wrappers

  /** `string.IsNullOrEmpty`. */
  predicate IsNullOrEmpty(s: Option<string>)
  {
    s.None? || |s.value| == 0
  }

  /** `s.StartsWith("http")`, read as a literal (ordinal) prefix test. */
  predicate StartsWithHttp(s: string)
  {
    |s| >= 4 && s[..4] == "http"
  }

  /** The prefix test holds exactly of the texts "http" followed by anything, "http" itself included. */
  lemma StartsWithHttpMeans(s: string)
    ensures StartsWithHttp(s) <==> exists rest :: s == "http" + rest
  {
    if StartsWithHttp(s) {
      assert s == "http" + s[4..];
    }
    if exists rest :: s == "http" + rest {
      var rest :| s == "http" + rest;
      assert s[..4] == "http";
    }
  }

  // ---------------------------------------------------------------------
  // string.Split(char): every separator splits, empty pieces are kept.
  // ---------------------------------------------------------------------

  function Split(s: string, sep: char): (parts: seq<string>)
    ensures |parts| >= 1
    ensures forall i :: 0 <= i < |parts| ==> sep !in parts[i]
  {
    if s == [] then [""]
    else
      var rest := Split(s[1..], sep);
      if s[0] == sep then [""] + rest
      else [[s[0]] + rest[0]] + rest[1..]
  }

  /** `string.Join(sep, parts)`: the inverse of Split. */
  function Join(parts: seq<string>, sep: char): string
    requires |parts| >= 1
  {
    if |parts| == 1 then parts[0] else parts[0] + [sep] + Join(parts[1..], sep)
  }

  /** Splitting loses nothing: joining the pieces gives the query back. */
  lemma {:induction false} JoinSplit(s: string, sep: char)
    ensures Join(Split(s, sep), sep) == s
  {
    if s != [] {
      JoinSplit(s[1..], sep);
      var rest := Split(s[1..], sep);
      if s[0] != sep {
        if |rest| == 1 {
          assert Split(s, sep) == [[s[0]] + rest[0]];
        } else {
          assert Split(s, sep)[1..] == rest[1..];
          assert Join(rest, sep) == rest[0] + [sep] + Join(rest[1..], sep);
        }
      }
    }
  }

  lemma {:induction false} SplitWithoutSeparator(a: string, sep: char)
    requires sep !in a
    ensures Split(a, sep) == [a]
  {
    if a != [] {
      SplitWithoutSeparator(a[1..], sep);
      assert [a[0]] + a[1..] == a;
    }
  }

  lemma {:induction false} SplitAtSeparator(a: string, sep: char, b: string)
    requires sep !in a
    ensures Split(a + [sep] + b, sep) == [a] + Split(b, sep)
  {
    if a == [] {
      assert a + [sep] + b == [sep] + b;
      assert ([sep] + b)[1..] == b;
    } else {
      assert (a + [sep] + b)[1..] == a[1..] + [sep] + b;
      SplitAtSeparator(a[1..], sep, b);
      assert [a[0]] + a[1..] == a;
    }
  }

  /** Pieces free of the separator are recovered exactly, empty ones included. */
  lemma {:induction false} SplitJoin(parts: seq<string>, sep: char)
    requires |parts| >= 1
    requires forall i :: 0 <= i < |parts| ==> sep !in parts[i]
    ensures Split(Join(parts, sep), sep) == parts
  {
    if |parts| == 1 {
      SplitWithoutSeparator(parts[0], sep);
    } else {
      SplitJoin(parts[1..], sep);
      SplitAtSeparator(parts[0], sep, Join(parts[1..], sep));
      assert [parts[0]] + parts[1..] == parts;
    }
  }

  // ---------------------------------------------------------------------
  // Integers as decimal text.
  // ---------------------------------------------------------------------

  const Int32Min: int := -0x8000_0000
  const Int32Max: int := 0x7fff_ffff

  predicate InInt32(n: int)
  {
    Int32Min <= n <= Int32Max
  }

  predicate IsDigit(c: char)
  {
    '0' <= c <= '9'
  }

  predicate AllDigits(s: string)
  {
    forall i :: 0 <= i < |s| ==> IsDigit(s[i])
  }

  function DigitChar(d: nat): (c: char)
    requires d < 10
    ensures IsDigit(c) && c as int - '0' as int == d
  {
    ('0' as int + d) as char
  }

  /**
   * `int.ToString()` with the invariant culture: a minus sign for a negative
   * number, then its decimal digits, most significant first, without leading
   * zeros.
   */
  function IntToString(n: int): (s: string)
    ensures |s| >= 1 && IsDigit(s[|s| - 1])
    ensures n >= 0 ==> AllDigits(s)
    ensures n < 0 ==> |s| >= 2 && s[0] == '-' && AllDigits(s[1..])
    decreases if n < 0 then 1 - n else n
  {
    if n < 0 then "-" + IntToString(-n)
    else if n < 10 then [DigitChar(n)]
    else IntToString(n / 10) + [DigitChar(n % 10)]
  }

  /** The value of a string of decimal digits. */
  function DigitsValue(s: string): nat
    requires AllDigits(s)
  {
    if s == [] then 0 else DigitsValue(s[..|s| - 1]) * 10 + (s[|s| - 1] as int - '0' as int)
  }

  /** The white space that `NumberStyles.Integer` lets surround a number. */
  predicate IsWhite(c: char)
  {
    c == ' ' || '\t' <= c <= '\r'
  }

  /** Drops the leading white space: what remains is a suffix of `s`, and all that is dropped is white. */
  function TrimStart(s: string): (r: string)
    ensures r == [] || !IsWhite(r[0])
    ensures |r| <= |s| && r == s[|s| - |r|..]
    ensures forall i :: 0 <= i < |s| - |r| ==> IsWhite(s[i])
  {
    if s != [] && IsWhite(s[0]) then TrimStart(s[1..]) else s
  }

  /** Drops the trailing white space: what remains is a prefix of `s`, and all that is dropped is white. */
  function TrimEnd(s: string): (r: string)
    ensures r == [] || !IsWhite(r[|r| - 1])
    ensures |r| <= |s| && r == s[..|r|]
    ensures forall i :: |r| <= i < |s| ==> IsWhite(s[i])
  {
    if s != [] && IsWhite(s[|s| - 1]) then TrimEnd(s[..|s| - 1]) else s
  }

  /** An optional sign followed by one or more decimal digits, of any magnitude. */
  function ParseInteger(s: string): Option<int>
  {
    if |s| > 0 && (s[0] == '-' || s[0] == '+') then
      if |s| > 1 && AllDigits(s[1..]) then
        Some(if s[0] == '-' then 0 - DigitsValue(s[1..]) as int else DigitsValue(s[1..]))
      else None
    else if |s| > 0 && AllDigits(s) then Some(DigitsValue(s))
    else None
  }

  /**
   * `int.Parse(s)`: white space may surround the number; None stands for the
   * FormatException or OverflowException the call throws.
   */
  function ParseInt32(s: string): (r: Option<int>)
    ensures r.Some? ==> InInt32(r.value)
  {
    match ParseInteger(TrimEnd(TrimStart(s)))
    case Some(n) => if InInt32(n) then Some(n) else None
    case None => None
  }

  /** A character that is neither white space, a sign nor a digit makes `int.Parse` throw. */
  lemma ParseInt32RejectsForeignChar(s: string, i: nat)
    requires i < |s| && !IsWhite(s[i]) && !IsDigit(s[i]) && s[i] != '-' && s[i] != '+'
    ensures ParseInt32(s).None?
  {
    var t1 := TrimStart(s);
    var k := |s| - |t1|;
    assert i >= k && t1[i - k] == s[i];
    var t := TrimEnd(t1);
    assert i - k < |t| && t[i - k] == s[i];
    ParseIntegerRejects(t, i - k);
  }

  lemma ParseIntegerRejects(t: string, j: nat)
    requires j < |t| && !IsDigit(t[j]) && t[j] != '-' && t[j] != '+'
    ensures ParseInteger(t).None?
  {
    assert !AllDigits(t) by {
      assert !IsDigit(t[j]);
    }
    if j > 0 {
      assert !AllDigits(t[1..]) by {
        assert t[1..][j - 1] == t[j];
      }
    }
  }

  lemma {:induction false} DigitsOfNat(n: nat)
    ensures DigitsValue(IntToString(n)) == n
  {
    var s := IntToString(n);
    if n >= 10 {
      DigitsOfNat(n / 10);
      assert s[..|s| - 1] == IntToString(n / 10);
    }
  }

  /** Reading back what IntToString writes gives the same integer. */
  lemma ParseIntegerOfIntToString(n: int)
    ensures ParseInteger(IntToString(n)) == Some(n)
  {
    var s := IntToString(n);
    if n < 0 {
      assert s[1..] == IntToString(-n);
      DigitsOfNat(-n);
      assert DigitsValue(s[1..]) == -n;
    } else {
      DigitsOfNat(n);
      assert IsDigit(s[0]);
    }
  }

  /** The decimal text of a number outside the 32-bit range makes `int.Parse` throw. */
  lemma ParseInt32RejectsOverflow(n: int)
    requires !InInt32(n)
    ensures ParseInt32(IntToString(n)).None?
  {
    var s := IntToString(n);
    assert !IsWhite(s[0]);
    assert TrimStart(s) == s;
    assert !IsWhite(s[|s| - 1]);
    assert TrimEnd(s) == s;
    ParseIntegerOfIntToString(n);
  }

  /** int.Parse(n.ToString()) == n for every 32-bit n: the offset round trip. */
  lemma ParseInt32OfIntToString(n: int)
    requires InInt32(n)
    ensures ParseInt32(IntToString(n)) == Some(n)
  {
    var s := IntToString(n);
    assert !IsWhite(s[0]);
    assert TrimStart(s) == s;
    assert !IsWhite(s[|s| - 1]);
    assert TrimEnd(s) == s;
    ParseIntegerOfIntToString(n);
  }
}
