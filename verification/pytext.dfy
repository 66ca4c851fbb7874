/** The Python `str` operations that `parse_audio_mime_type` relies on:
    `split`, `strip`, `lower`, `startswith` and `int`. */
module PyText {
  import opened Results

  /** Python's `str.isspace` for one character: the ASCII controls TAB through
      CR, the separators U+001C to U+001F, and the Unicode space characters. */
  predicate IsSpace(c: char)
  {
    var n := c as int;
    || n == 0x20 || 0x09 <= n <= 0x0D || 0x1C <= n <= 0x1F
    || n == 0x85 || n == 0xA0 || n == 0x1680 || 0x2000 <= n <= 0x200A
    || n == 0x2028 || n == 0x2029 || n == 0x202F || n == 0x205F || n == 0x3000
  }

  // ---------------------------------------------------------------------
  // split / join

  /** `sep.join(parts)`: the parts with one separator between neighbours. */
  function Join(parts: seq<string>, sep: char): string
    requires |parts| >= 1
  {
    if |parts| == 1 then parts[0] else parts[0] + [sep] + Join(parts[1..], sep)
  }

  /** `s.split(sep)` for a one-character separator: the maximal separator-free
      pieces of `s`, which rejoin to `s`. An empty string splits to `[""]`. */
  function Split(s: string, sep: char): (parts: seq<string>)
    ensures |parts| >= 1
    ensures Join(parts, sep) == s
    ensures forall i :: 0 <= i < |parts| ==> sep !in parts[i]
    decreases |s|
  {
    if |s| == 0 then [""]
    else
      var rest := Split(s[1..], sep);
      if s[0] == sep then
        [""] + rest
      else
        assert ([[s[0]] + rest[0]] + rest[1..])[1..] == rest[1..];
        [[s[0]] + rest[0]] + rest[1..]
  }

  /** A string without the separator splits to itself alone. */
  lemma {:induction false} SplitWithoutSep(s: string, sep: char)
    requires sep !in s
    ensures Split(s, sep) == [s]
    decreases |s|
  {
    if |s| > 0 {
      assert sep !in s[1..];
      SplitWithoutSep(s[1..], sep);
    }
  }

  /** Appending a separator and a separator-free piece appends exactly one part. */
  lemma {:induction false} SplitAppend(s: string, sep: char, p: string)
    requires sep !in p
    ensures Split(s + [sep] + p, sep) == Split(s, sep) + [p]
    decreases |s|
  {
    if |s| == 0 {
      assert s + [sep] + p == [sep] + p;
      assert ([sep] + p)[1..] == p;
      SplitWithoutSep(p, sep);
    } else {
      assert (s + [sep] + p)[1..] == s[1..] + [sep] + p;
      SplitAppend(s[1..], sep, p);
    }
  }

  /** Splitting at the first separator, found at index `k`: the first part is
      everything before it and the remaining parts rejoin to everything after it. */
  lemma SplitAtFirst(s: string, sep: char, k: nat)
    requires k < |s| && s[k] == sep
    requires forall i :: 0 <= i < k ==> s[i] != sep
    ensures |Split(s, sep)| >= 2
    ensures Split(s, sep)[0] == s[..k]
    ensures Join(Split(s, sep)[1..], sep) == s[k + 1..]
  {
    var ps := Split(s, sep);
    if |ps| == 1 {
      assert false;
    }
    var head := ps[0];
    assert s == head + [sep] + Join(ps[1..], sep);
    assert s[..|head|] == head && s[|head|] == sep;
    assert forall i :: 0 <= i < |head| ==> head[i] != sep;
    assert |head| == k;
  }

  /** `s.split(sep, 1)[1]`: the text after the first separator, or `None`
      where Python raises `IndexError` because the separator does not occur. */
  function AfterFirst(s: string, sep: char): Option<string>
  {
    var parts := Split(s, sep);
    if |parts| < 2 then None else Some(Join(parts[1..], sep))
  }

  /** `AfterFirst` finds the first separator and returns what follows it. */
  lemma AfterFirstAt(s: string, sep: char, k: nat)
    requires k < |s| && s[k] == sep
    requires forall i :: 0 <= i < k ==> s[i] != sep
    ensures AfterFirst(s, sep) == Some(s[k + 1..])
  {
    SplitAtFirst(s, sep, k);
  }

  /** Without the separator there is no second part: `split(sep, 1)[1]` raises. */
  lemma AfterFirstNone(s: string, sep: char)
    requires sep !in s
    ensures AfterFirst(s, sep).None?
  {
    SplitWithoutSep(s, sep);
  }

  // ---------------------------------------------------------------------
  // strip

  /** `s.lstrip()`: the suffix left after removing leading whitespace. */
  function LStrip(s: string): (r: string)
    ensures |r| <= |s| && r == s[|s| - |r|..]
    ensures forall k :: 0 <= k < |s| - |r| ==> IsSpace(s[k])
    ensures |r| > 0 ==> !IsSpace(r[0])
    decreases |s|
  {
    if |s| > 0 && IsSpace(s[0]) then LStrip(s[1..]) else s
  }

  /** `s.rstrip()`: the prefix left after removing trailing whitespace. */
  function RStrip(s: string): (r: string)
    ensures |r| <= |s| && r == s[..|r|]
    ensures forall k :: |r| <= k < |s| ==> IsSpace(s[k])
    ensures |r| > 0 ==> !IsSpace(r[|r| - 1])
    decreases |s|
  {
    if |s| > 0 && IsSpace(s[|s| - 1]) then RStrip(s[..|s| - 1]) else s
  }

  /** `r` sits at index `lo` of `s` and everything around it is whitespace. */
  ghost predicate PaddedBySpace(s: string, r: string, lo: int)
  {
    && 0 <= lo && lo + |r| <= |s|
    && s[lo..lo + |r|] == r
    && (forall k :: 0 <= k < lo ==> IsSpace(s[k]))
    && (forall k :: lo + |r| <= k < |s| ==> IsSpace(s[k]))
  }

  /** `s.strip()`: `s` without its leading and trailing whitespace. */
  function Strip(s: string): (r: string)
    ensures |r| > 0 ==> !IsSpace(r[0]) && !IsSpace(r[|r| - 1])
    ensures exists lo :: PaddedBySpace(s, r, lo)
  {
    var l := LStrip(s);
    var r := RStrip(l);
    assert PaddedBySpace(s, r, |s| - |l|);
    r
  }

  /** A string with no whitespace at either end is its own `strip()`. */
  lemma StripUnpadded(s: string)
    requires |s| > 0 ==> !IsSpace(s[0]) && !IsSpace(s[|s| - 1])
    ensures Strip(s) == s
  {
  }

  /** `strip()` removes exactly the whitespace padding around a string that
      begins and ends with non-whitespace. */
  lemma StripRemovesPadding(pre: string, s: string, post: string)
    requires forall i :: 0 <= i < |pre| ==> IsSpace(pre[i])
    requires forall i :: 0 <= i < |post| ==> IsSpace(post[i])
    requires |s| > 0 && !IsSpace(s[0]) && !IsSpace(s[|s| - 1])
    ensures Strip(pre + s + post) == s
  {
    var t := pre + s + post;
    var r := Strip(t);
    var lo :| PaddedBySpace(t, r, lo);
    assert t[|pre|] == s[0] && t[|pre| + |s| - 1] == s[|s| - 1];
    assert |r| > 0;
    assert t[lo] == r[0] && t[lo + |r| - 1] == r[|r| - 1];
    assert forall i :: 0 <= i < |pre| ==> IsSpace(t[i]);
    assert forall i :: |pre| + |s| <= i < |t| ==> IsSpace(t[i]);
    assert lo == |pre|;
    assert lo + |r| == |pre| + |s|;
    assert t[|pre|..|pre| + |s|] == s;
  }

  // ---------------------------------------------------------------------
  // lower / startswith

  /** Lower-casing of one character, for the ASCII letters. */
  function AsciiLower(c: char): char
  {
    if 'A' <= c <= 'Z' then (c as int + 32) as char else c
  }

  /** `s.lower()` restricted to ASCII letters; every other character is kept. */
  function Lower(s: string): (r: string)
    ensures |r| == |s|
    ensures forall i :: 0 <= i < |s| ==> r[i] == AsciiLower(s[i])
  {
    seq(|s|, i requires 0 <= i < |s| => AsciiLower(s[i]))
  }

  /** Lower-casing works character by character, so it commutes with taking
      a prefix: the first `n` characters of `s.lower()` are `s[:n].lower()`. */
  lemma LowerPrefix(s: string, n: nat)
    requires n <= |s|
    ensures Lower(s)[..n] == Lower(s[..n])
  {
    assert forall i :: 0 <= i < n ==> Lower(s)[..n][i] == AsciiLower(s[i]) == Lower(s[..n])[i];
  }

  /** `s.startswith(prefix)`. */
  predicate StartsWith(s: string, prefix: string)
  {
    |prefix| <= |s| && s[..|prefix|] == prefix
  }

  // ---------------------------------------------------------------------
  // int

  predicate IsDigit(c: char)
  {
    '0' <= c <= '9'
  }

  predicate AllDigits(s: string)
  {
    forall i :: 0 <= i < |s| ==> IsDigit(s[i])
  }

  /** The value of a string of decimal digits, most significant first. */
  function DigitsValue(s: string): nat
    requires AllDigits(s)
    decreases |s|
  {
    if |s| == 0 then 0
    else 10 * DigitsValue(s[..|s| - 1]) + (s[|s| - 1] as int - '0' as int)
  }

  /** `int(s)` for base-10 text made of digits only; `None` where Python
      raises `ValueError`. */
  function ParseInt(s: string): (r: Option<nat>)
    ensures r.Some? <==> |s| > 0 && AllDigits(s)
  {
    if |s| > 0 && AllDigits(s) then Some(DigitsValue(s)) else None
  }

  /** `str(n)`: the shortest decimal text of `n`. */
  function FormatInt(n: nat): (s: string)
    ensures |s| > 0 && AllDigits(s)
  {
    var d := ['0' + (n % 10) as char];
    if n < 10 then d else FormatInt(n / 10) + d
  }

  /** `int(str(n)) == n`. */
  lemma {:induction false} ParseFormatInt(n: nat)
    ensures ParseInt(FormatInt(n)) == Some(n)
  {
    var s := FormatInt(n);
    if n < 10 {
      assert s[..|s| - 1] == [];
    } else {
      ParseFormatInt(n / 10);
      assert s[..|s| - 1] == FormatInt(n / 10);
      assert DigitsValue(s) == 10 * (n / 10) + n % 10;
    }
  }
}
