/** Text helpers shared by the two exporters: ASCII case folding, suffix
    tests, decimal rendering of integers (Python's `f"{n}"`) with its
    parser, and the comma-separated record layout with its splitter. */
module Text {
  import opened Wrappers

  predicate IsDigit(c: char)
  {
    '0' <= c <= '9'
  }

  predicate AllDigits(s: string)
  {
    forall i :: 0 <= i < |s| ==> IsDigit(s[i])
  }

  /** ASCII lower-casing of one character. */
  function LowerChar(c: char): char
  {
    if 'A' <= c <= 'Z' then (c as int + 32) as char else c
  }

  /** `str.lower()` restricted to ASCII case folding. */
  function Lower(s: string): (r: string)
    ensures |r| == |s|
    ensures forall i :: 0 <= i < |s| ==> r[i] == LowerChar(s[i])
  {
    seq(|s|, i requires 0 <= i < |s| => LowerChar(s[i]))
  }

  predicate EndsWith(s: string, suffix: string)
  {
    |suffix| <= |s| && s[|s| - |suffix|..] == suffix
  }

  /** `s.lower().endswith(suffix)` for a lower-case `suffix`. */
  predicate EndsWithIgnoreCase(s: string, suffix: string)
  {
    EndsWith(Lower(s), suffix)
  }

  lemma {:induction false} LowerAppend(s: string, t: string)
    ensures Lower(s + t) == Lower(s) + Lower(t)
  {
    assert forall i :: 0 <= i < |s + t| ==> Lower(s + t)[i] == (Lower(s) + Lower(t))[i];
  }

  lemma {:induction false} EndsWithIgnoreCaseAppend(s: string, suffix: string)
    requires Lower(suffix) == suffix
    ensures EndsWithIgnoreCase(s + suffix, suffix)
  {
    LowerAppend(s, suffix);
    assert Lower(s + suffix)[|s|..] == suffix;
  }

  // ---------------------------------------------------------------------
  // Decimal rendering of integers
  // ---------------------------------------------------------------------

  function DigitChar(d: nat): (c: char)
    requires d < 10
    ensures IsDigit(c)
    ensures c as int - '0' as int == d
  {
    ('0' as int + d) as char
  }

  /** Decimal digits of `n`, most significant first, no leading zeros. */
  function NatToString(n: nat): (s: string)
    ensures |s| > 0 && AllDigits(s)
    ensures |s| > 1 ==> s[0] != '0'
    decreases n
  {
    if n < 10 then [DigitChar(n)] else NatToString(n / 10) + [DigitChar(n % 10)]
  }

  /** Python's `str(i)` / `f"{i}"` for an integer: a minus sign before the
      digits of a negative number. */
  function IntToString(i: int): (s: string)
    ensures |s| > 0
    ensures s[0] == '-' <==> i < 0
  {
    if i < 0 then "-" + NatToString(-i) else NatToString(i)
  }

  /** Value of a string of digits, read left to right. */
  function DigitsValue(s: string): nat
    requires AllDigits(s)
  {
    if |s| == 0 then 0
    else DigitsValue(s[..|s| - 1]) * 10 + (s[|s| - 1] as int - '0' as int)
  }

  function ParseNat(s: string): Option<nat>
  {
    if |s| > 0 && AllDigits(s) then Some(DigitsValue(s)) else None
  }

  /** Reads back what `IntToString` writes: an optional minus sign and digits. */
  function ParseInt(s: string): Option<int>
  {
    if |s| > 0 && s[0] == '-' then
      match ParseNat(s[1..])
      case Some(v) =>
        var negative: int := -(v as int);
        Some(negative)
      case None => None
    else
      match ParseNat(s)
      case Some(v) => Some(v)
      case None => None
  }

  lemma {:induction false} NatRoundTrip(n: nat)
    ensures ParseNat(NatToString(n)) == Some(n)
    decreases n
  {
    var s := NatToString(n);
    if n >= 10 {
      NatRoundTrip(n / 10);
      assert s[..|s| - 1] == NatToString(n / 10);
      assert DigitsValue(s) == DigitsValue(NatToString(n / 10)) * 10 + n % 10;
    } else {
      assert s[..0] == [];
      assert DigitsValue(s) == n;
    }
  }

  /** Every integer written in a record reads back as itself. */
  lemma IntRoundTrip(i: int)
    ensures ParseInt(IntToString(i)) == Some(i)
  {
    if i < 0 {
      NatRoundTrip(-i);
      assert IntToString(i)[1..] == NatToString(-i);
    } else {
      NatRoundTrip(i);
    }
  }

  // ---------------------------------------------------------------------
  // Line-oriented files
  // ---------------------------------------------------------------------

  /** A file's lines: a header, one rendered line per record, a trailer. */
  function Framed<R>(header: seq<string>, records: seq<R>, render: R -> string, trailer: seq<string>)
    : (lines: seq<string>)
    ensures |lines| == |header| + |records| + |trailer|
    ensures lines[..|header|] == header
    ensures lines[|header| + |records|..] == trailer
    ensures forall j :: 0 <= j < |records| ==> lines[|header| + j] == render(records[j])
  {
    header + seq(|records|, j requires 0 <= j < |records| => render(records[j])) + trailer
  }

  // ---------------------------------------------------------------------
  // Comma-separated records
  // ---------------------------------------------------------------------

  predicate NoComma(s: string)
  {
    ',' !in s
  }

  /** The fields joined with `,` between neighbours. The exporters' line
      templates `"{a}, {b}, …"` are this join over fields that carry their
      leading blank. */
  function JoinComma(fields: seq<string>): string
  {
    if |fields| == 0 then ""
    else if |fields| == 1 then fields[0]
    else fields[0] + "," + JoinComma(fields[1..])
  }

  /** Splits at every comma; a string without commas is one field. */
  function SplitComma(s: string): (r: seq<string>)
    ensures |r| > 0
  {
    if |s| == 0 then [""]
    else
      var rest := SplitComma(s[1..]);
      if s[0] == ',' then [""] + rest
      else [[s[0]] + rest[0]] + rest[1..]
  }

  lemma {:induction false} SplitCommaFree(f: string, t: string)
    requires NoComma(f)
    ensures SplitComma(f + t)[0] == f + SplitComma(t)[0]
    ensures SplitComma(f + t)[1..] == SplitComma(t)[1..]
    ensures |SplitComma(f + t)| == |SplitComma(t)|
  {
    if |f| > 0 {
      assert (f + t)[1..] == f[1..] + t;
      SplitCommaFree(f[1..], t);
      assert f[0] != ',' by { assert f[0] in f; }
      assert [f[0]] + f[1..] == f;
    } else {
      assert f + t == t;
    }
  }

  /** Splitting a join gives back the fields, provided none holds a comma. */
  lemma {:induction false} SplitJoin(fields: seq<string>)
    requires |fields| > 0
    requires forall i :: 0 <= i < |fields| ==> NoComma(fields[i])
    ensures SplitComma(JoinComma(fields)) == fields
  {
    if |fields| == 1 {
      SplitCommaFree(fields[0], "");
      assert fields[0] + "" == fields[0];
    } else {
      var tail := JoinComma(fields[1..]);
      SplitJoin(fields[1..]);
      assert fields[0] + "," + tail == fields[0] + ("," + tail);
      SplitCommaFree(fields[0], "," + tail);
      assert ("," + tail)[1..] == tail;
      assert SplitComma("," + tail) == [""] + SplitComma(tail);
      var r := SplitComma(JoinComma(fields));
      assert r[0] == fields[0];
      assert r[1..] == fields[1..];
      assert r == [r[0]] + r[1..];
    }
  }

  lemma DigitsHaveNoComma(s: string)
    requires AllDigits(s)
    ensures NoComma(s)
  {
    assert forall k :: 0 <= k < |s| ==> s[k] != ',';
  }

  lemma IntStringHasNoComma(i: int)
    ensures NoComma(IntToString(i))
  {
    if i < 0 {
      DigitsHaveNoComma(NatToString(-i));
      assert IntToString(i) == "-" + NatToString(-i);
    } else {
      DigitsHaveNoComma(NatToString(i));
    }
  }
}
