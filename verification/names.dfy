/** The two name cleaners of the add-on (GTASceneSync.py:21-28).

    Both are a regular-expression substitution anchored with `$`. Without
    the MULTILINE flag, Python's `$` matches at the very end of the string
    and also just before a newline that ends the string; both positions are
    modelled. `\d` is modelled as the ASCII digits and IGNORECASE as ASCII
    case folding. */
module Names {
  import opened Text

  predicate EndsWithNewline(s: string)
  {
    |s| > 0 && s[|s| - 1] == '\n'
  }

  /** The part of `s` before the last position at which `$` matches. */
  function Body(s: string): string
  {
    if EndsWithNewline(s) then s[..|s| - 1] else s
  }

  /** Length of the longest run of digits that ends `s`. */
  function TrailingDigits(s: string): (n: nat)
    ensures n <= |s|
    ensures AllDigits(s[|s| - n..])
    ensures n < |s| ==> !IsDigit(s[|s| - n - 1])
  {
    if |s| == 0 || !IsDigit(s[|s| - 1]) then 0
    else
      var n := TrailingDigits(s[..|s| - 1]);
      assert s[|s| - (n + 1)..] == s[..|s| - 1][|s| - 1 - n..] + [s[|s| - 1]];
      n + 1
  }

  /** `s` ends with a `.` at index `k` followed by one or more digits: the
      text that `\.\d+$` matches, when `s` does not end with a newline. */
  predicate NumericSuffixAt(s: string, k: int)
  {
    0 <= k < |s| - 1 && s[k] == '.' && AllDigits(s[k + 1..])
  }

  lemma {:induction false} TrailingDigitsAfter(p: string, d: string)
    requires |p| > 0 && !IsDigit(p[|p| - 1])
    requires AllDigits(d)
    ensures TrailingDigits(p + d) == |d|
    decreases |d|
  {
    if |d| == 0 {
      assert p + d == p;
    } else {
      TrailingDigitsAfter(p, d[..|d| - 1]);
      assert (p + d)[..|p + d| - 1] == p + d[..|d| - 1];
    }
  }

  /** The only place `\.\d+$` can match is just before the trailing digits. */
  lemma NumericSuffixIsTrailing(s: string)
    ensures forall k :: NumericSuffixAt(s, k) ==> k == |s| - TrailingDigits(s) - 1
  {
    forall k | NumericSuffixAt(s, k)
      ensures k == |s| - TrailingDigits(s) - 1
    {
      assert s == s[..k + 1] + s[k + 1..];
      TrailingDigitsAfter(s[..k + 1], s[k + 1..]);
    }
  }

  /** `re.sub(r"\.\d+$", "", s)` on a string that does not end with a newline. */
  function StripNumericSuffix(s: string): (r: string)
    ensures forall k :: NumericSuffixAt(s, k) ==> r == s[..k]
    ensures (forall k :: !NumericSuffixAt(s, k)) ==> r == s
  {
    NumericSuffixIsTrailing(s);
    var n := TrailingDigits(s);
    if 0 < n < |s| && s[|s| - n - 1] == '.' then
      assert NumericSuffixAt(s, |s| - n - 1);
      s[..|s| - n - 1]
    else
      s
  }

  /** `clean_name`: drop one trailing `.` followed by digits, the numeric
      duplicate suffix the host adds to repeated object names. */
  function CleanName(name: string): (r: string)
    ensures !EndsWithNewline(name) ==>
      (forall k :: NumericSuffixAt(name, k) ==> r == name[..k]) &&
      ((forall k :: !NumericSuffixAt(name, k)) ==> r == name)
    ensures EndsWithNewline(name) ==>
      EndsWithNewline(r) &&
      (forall k :: NumericSuffixAt(Body(name), k) ==> r == name[..k] + "\n") &&
      ((forall k :: !NumericSuffixAt(Body(name), k)) ==> r == name)
  {
    if EndsWithNewline(name) then
      assert name == Body(name) + "\n";
      StripNumericSuffix(Body(name)) + "\n"
    else
      StripNumericSuffix(name)
  }

  /** `re.sub(r"\.dff$", "", s, flags=re.IGNORECASE)` on a string that does
      not end with a newline. */
  function StripDffSuffix(s: string): string
  {
    if EndsWithIgnoreCase(s, ".dff") then s[..|s| - 4] else s
  }

  /** `clean_collection_name`: drop one trailing `.dff`, in any letter case. */
  function CleanCollectionName(name: string): (r: string)
    ensures !EndsWithNewline(name) ==>
      (r != name <==> EndsWithIgnoreCase(name, ".dff")) &&
      (r != name ==> r == name[..|name| - 4])
    ensures EndsWithNewline(name) ==>
      EndsWithNewline(r) &&
      (r != name <==> EndsWithIgnoreCase(Body(name), ".dff")) &&
      (r != name ==> r == name[..|name| - 5] + "\n")
  {
    if EndsWithNewline(name) then
      assert name == Body(name) + "\n";
      StripDffSuffix(Body(name)) + "\n"
    else
      StripDffSuffix(name)
  }

  /** Exactly one numeric suffix goes, whatever the rest of the name holds. */
  lemma CleanNameStripsOneSuffix(prefix: string, digits: string)
    requires |digits| > 0 && AllDigits(digits)
    ensures CleanName(prefix + "." + digits) == prefix
  {
    var s := prefix + "." + digits;
    assert s[|prefix| + 1..] == digits;
    assert NumericSuffixAt(s, |prefix|);
    assert s[..|prefix|] == prefix;
  }

  /** Exactly one `.dff`, in any case, goes. */
  lemma CleanCollectionNameStripsOneSuffix(prefix: string, suffix: string)
    requires |suffix| == 4 && Lower(suffix) == ".dff"
    ensures CleanCollectionName(prefix + suffix) == prefix
  {
    var s := prefix + suffix;
    LowerAppend(prefix, suffix);
    assert Lower(s)[|s| - 4..] == Lower(suffix);
    assert s[..|s| - 4] == prefix;
  }

  /** A name without a dot has no numeric suffix to lose. */
  lemma CleanNameWithoutDot(name: string)
    requires '.' !in name
    ensures CleanName(name) == name
  {
    forall k | 0 <= k < |name|
      ensures !NumericSuffixAt(name, k)
    {
      assert name[k] in name;
    }
    if EndsWithNewline(name) {
      var b := Body(name);
      forall k | 0 <= k < |b|
        ensures !NumericSuffixAt(b, k)
      {
        assert b[k] == name[k];
        assert name[k] in name;
      }
    }
  }

  /** The examples the add-on's names are meant to produce. */
  lemma CleanNameExamples()
    ensures CleanName("Wall.003") == "Wall"
    ensures CleanName("Wall.1.2") == "Wall.1"
  {
    assert "Wall" + "." + "003" == "Wall.003";
    assert "Wall.1" + "." + "2" == "Wall.1.2";
    CleanNameStripsOneSuffix("Wall", "003");
    CleanNameStripsOneSuffix("Wall.1", "2");
  }

  lemma CleanCollectionNameExamples()
    ensures CleanCollectionName("House.DFF") == "House"
    ensures CleanCollectionName("a.dff.dff") == "a.dff"
  {
    var upper, lower := ".DFF", ".dff";
    assert LowerChar('D') == 'd' && LowerChar('F') == 'f';
    assert Lower(upper)[0] == '.' && Lower(upper)[1] == 'd';
    assert Lower(upper)[2] == 'f' && Lower(upper)[3] == 'f';
    assert Lower(upper) == lower;
    assert Lower(lower) == lower;
    assert "House" + upper == "House.DFF";
    assert "a.dff" + lower == "a.dff.dff";
    CleanCollectionNameStripsOneSuffix("House", upper);
    CleanCollectionNameStripsOneSuffix("a.dff", lower);
  }
}
