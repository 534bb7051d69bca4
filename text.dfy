// The Python `str` operations the service relies on, stated over `seq<char>`.
module Text {

  /** Python's `str.isspace()` for one character: the whitespace that
      `strip()` removes. */
  predicate IsSpace(c: char) {
    InRanges(c, Whitespace)
  }

  /** The characters Python classifies as whitespace, as inclusive ranges. */
  const Whitespace: seq<(char, char)> := [
    (' ', ' '), ('\t', '\r'), ('\U{001C}', '\U{001F}'), ('\U{0085}', '\U{0085}'),
    ('\U{00A0}', '\U{00A0}'), ('\U{1680}', '\U{1680}'), ('\U{2000}', '\U{200A}'),
    ('\U{2028}', '\U{2029}'), ('\U{202F}', '\U{202F}'), ('\U{205F}', '\U{205F}'),
    ('\U{3000}', '\U{3000}')]

  /** `c` lies in one of the inclusive ranges `rs`. */
  predicate InRanges(c: char, rs: seq<(char, char)>) {
    |rs| > 0 && (rs[0].0 <= c <= rs[0].1 || InRanges(c, rs[1..]))
  }

  /** A string made only of whitespace (the empty string included): `not s.strip()`. */
  predicate IsBlank(s: string) {
    forall i :: 0 <= i < |s| ==> IsSpace(s[i])
  }

  /** Some character is not whitespace: `bool(s.strip())`. */
  predicate HasContent(s: string) {
    |s| > 0 && (!IsSpace(s[0]) || HasContent(s[1..]))
  }

  lemma {:induction false} HasContentIffNotBlank(s: string)
    ensures HasContent(s) <==> !IsBlank(s)
  {
    if |s| > 0 {
      HasContentIffNotBlank(s[1..]);
      if IsBlank(s[1..]) && IsSpace(s[0]) {
        forall i | 0 <= i < |s| ensures IsSpace(s[i]) {
          if i > 0 { assert s[i] == s[1..][i - 1]; }
        }
      }
      if IsBlank(s) {
        forall i | 0 <= i < |s| - 1 ensures IsSpace(s[1..][i]) {
          assert s[1..][i] == s[i + 1];
        }
      }
    }
  }

  /** No whitespace at either end. */
  predicate Trimmed(s: string) {
    s == [] || (!IsSpace(s[0]) && !IsSpace(s[|s| - 1]))
  }

  /** `s.lstrip()` */
  function LStrip(s: string): (r: string)
    ensures |r| <= |s|
    ensures r == [] || !IsSpace(r[0])
    ensures forall i :: 0 <= i < |s| - |r| ==> IsSpace(s[i])
  {
    if |s| > 0 && IsSpace(s[0]) then LStrip(s[1..]) else s
  }

  /** `s.rstrip()` */
  function RStrip(s: string): (r: string)
    ensures |r| <= |s|
    ensures r == [] || !IsSpace(r[|r| - 1])
    ensures forall i :: |r| <= i < |s| ==> IsSpace(s[i])
  {
    if |s| > 0 && IsSpace(s[|s| - 1]) then RStrip(s[..|s| - 1]) else s
  }

  /** What `lstrip()` keeps is a suffix of its input. */
  lemma {:induction false} LStripSuffix(s: string)
    ensures LStrip(s) == s[|s| - |LStrip(s)|..]
  {
    if |s| > 0 && IsSpace(s[0]) {
      LStripSuffix(s[1..]);
    }
  }

  /** What `rstrip()` keeps is a prefix of its input. */
  lemma {:induction false} RStripPrefix(s: string)
    ensures RStrip(s) == s[..|RStrip(s)|]
  {
    if |s| > 0 && IsSpace(s[|s| - 1]) {
      RStripPrefix(s[..|s| - 1]);
    }
  }

  /** `s.strip()` */
  function Strip(s: string): (r: string)
    ensures Trimmed(r) && |r| <= |s|
  {
    RStripPrefix(LStrip(s));
    RStrip(LStrip(s))
  }

  /** What `strip()` keeps is an infix of the input, and everything it cuts
      off on either side is whitespace. */
  lemma StripInfix(s: string) returns (a: nat)
    ensures a + |Strip(s)| <= |s| && Strip(s) == s[a..a + |Strip(s)|]
    ensures IsBlank(s[..a]) && IsBlank(s[a + |Strip(s)|..])
  {
    var l := LStrip(s);
    var r := RStrip(l);
    LStripSuffix(s);
    RStripPrefix(l);
    a := |s| - |l|;
    assert l == s[a..];
    SliceOfSuffix(s, a, |r|);
    LeftCutBlank(s);
    RightCutBlank(l);
  }

  /** Cutting a suffix of `s` again is cutting `s`. */
  lemma SliceOfSuffix(s: string, a: nat, k: nat)
    requires a + k <= |s|
    ensures s[a..][..k] == s[a..a + k] && s[a..][k..] == s[a + k..]
  {
  }

  lemma LeftCutBlank(s: string)
    ensures IsBlank(s[..|s| - |LStrip(s)|])
  {
    var a := |s| - |LStrip(s)|;
    forall i | 0 <= i < a ensures IsSpace(s[..a][i]) {
    }
  }

  lemma RightCutBlank(l: string)
    ensures IsBlank(l[|RStrip(l)|..])
  {
    var tail := l[|RStrip(l)|..];
    forall i | 0 <= i < |tail| ensures IsSpace(tail[i]) {
      assert tail[i] == l[|RStrip(l)| + i];
    }
  }

  /** Stripping is empty exactly on blank strings. */
  lemma StripEmptyIffBlank(s: string)
    ensures Strip(s) == [] <==> IsBlank(s)
  {
    var a := StripInfix(s);
    var r := Strip(s);
    if r == [] {
      forall i | 0 <= i < |s| ensures IsSpace(s[i]) {
        if i < a { assert s[..a][i] == s[i]; } else { assert s[a..][i - a] == s[i]; }
      }
    } else {
      assert s[a] == r[0];
    }
  }

  /** `s.strip()` is truthy exactly when `s` has a non-whitespace character. */
  lemma StripNonEmptyIffHasContent(s: string)
    ensures Strip(s) != [] <==> HasContent(s)
  {
    StripEmptyIffBlank(s);
    HasContentIffNotBlank(s);
  }

  /** A trimmed string is its own strip. */
  lemma StripTrimmed(s: string)
    requires Trimmed(s)
    ensures Strip(s) == s
  {
    assert LStrip(s) == s;
  }

  lemma StripIdempotent(s: string)
    ensures Strip(Strip(s)) == Strip(s)
  {
    StripTrimmed(Strip(s));
  }

  /** `c.lower()` on one character; only ASCII letters are folded. */
  function LowerChar(c: char): (r: char)
    ensures 'A' <= c <= 'Z' ==> 'a' <= r <= 'z'
    ensures !('A' <= c <= 'Z') ==> r == c
  {
    if 'A' <= c <= 'Z' then (c as int + 32) as char else c
  }

  /** `s.lower()` */
  function Lower(s: string): (r: string)
    ensures |r| == |s|
    ensures forall i :: 0 <= i < |s| ==> r[i] == LowerChar(s[i])
  {
    seq(|s|, i requires 0 <= i < |s| => LowerChar(s[i]))
  }

  /** Printable ASCII characters other than the space are not whitespace. */
  lemma PrintableNotSpace(c: char)
    requires '!' <= c <= '~'
    ensures !IsSpace(c)
  {
    var rs := Whitespace;
    assert !InRanges(c, rs[11..]);
    assert !InRanges(c, rs[10..]) by { assert rs[10..][1..] == rs[11..]; }
    assert !InRanges(c, rs[9..]) by { assert rs[9..][1..] == rs[10..]; }
    assert !InRanges(c, rs[8..]) by { assert rs[8..][1..] == rs[9..]; }
    assert !InRanges(c, rs[7..]) by { assert rs[7..][1..] == rs[8..]; }
    assert !InRanges(c, rs[6..]) by { assert rs[6..][1..] == rs[7..]; }
    assert !InRanges(c, rs[5..]) by { assert rs[5..][1..] == rs[6..]; }
    assert !InRanges(c, rs[4..]) by { assert rs[4..][1..] == rs[5..]; }
    assert !InRanges(c, rs[3..]) by { assert rs[3..][1..] == rs[4..]; }
    assert !InRanges(c, rs[2..]) by { assert rs[2..][1..] == rs[3..]; }
    assert !InRanges(c, rs[1..]) by { assert rs[1..][1..] == rs[2..]; }
    assert rs[0..] == rs;
  }

  /** A word that begins and ends with a printable non-space ASCII character is its own strip. */
  lemma StripWord(s: string)
    requires |s| > 0 && '!' <= s[0] <= '~' && '!' <= s[|s| - 1] <= '~'
    ensures Strip(s) == s
  {
    PrintableNotSpace(s[0]);
    PrintableNotSpace(s[|s| - 1]);
    StripTrimmed(s);
  }

  /** A string with no ASCII capital is its own lower-case form. */
  lemma LowerOfLowercase(s: string)
    requires forall i :: 0 <= i < |s| ==> !('A' <= s[i] <= 'Z')
    ensures Lower(s) == s
  {
  }

  /** Lower-casing distributes over concatenation. */
  lemma LowerAppend(a: string, b: string)
    ensures Lower(a + b) == Lower(a) + Lower(b)
  {
    assert |Lower(a + b)| == |Lower(a) + Lower(b)|;
    forall i | 0 <= i < |a + b| ensures Lower(a + b)[i] == (Lower(a) + Lower(b))[i] {
      if i < |a| { assert (a + b)[i] == a[i]; } else { assert (a + b)[i] == b[i - |a|]; }
    }
  }

  /** `s or default` for a string: the default replaces the empty string. */
  function OrElse(s: string, default: string): (r: string)
    ensures r == [] ==> default == []
  {
    if s == [] then default else s
  }

  /** `s` begins with `p`. */
  predicate StartsWith(s: string, p: string) {
    |p| <= |s| && s[..|p|] == p
  }

  /** `sub in s` for strings: `sub` occurs at some position of `s`. */
  predicate Contains(s: string, sub: string)
    decreases |s|
  {
    StartsWith(s, sub) || (|s| > 0 && Contains(s[1..], sub))
  }

  /** `any(w in s for w in words)` */
  predicate ContainsAny(s: string, words: seq<string>) {
    |words| > 0 && (Contains(s, words[0]) || ContainsAny(s, words[1..]))
  }

  /** `s.find(c)`: the first index of `c`, or -1. */
  function Find(s: string, c: char): (r: int)
    ensures -1 <= r < |s|
    ensures r == -1 <==> c !in s
    ensures r >= 0 ==> s[r] == c && c !in s[..r]
  {
    if |s| == 0 then -1
    else if s[0] == c then 0
    else
      var k := Find(s[1..], c);
      assert s == [s[0]] + s[1..];
      if k == -1 then -1 else k + 1
  }

  /** `s.rfind(c)`: the last index of `c`, or -1. */
  function RFind(s: string, c: char): (r: int)
    ensures -1 <= r < |s|
    ensures r == -1 <==> c !in s
    ensures r >= 0 ==> s[r] == c && c !in s[r + 1..]
  {
    if |s| == 0 then -1
    else if s[|s| - 1] == c then |s| - 1
    else
      assert s == s[..|s| - 1] + [s[|s| - 1]];
      RFind(s[..|s| - 1], c)
  }

  /** A slice bound as Python resolves it: negative counts from the end,
      and the result is clamped to `[0, n]`. */
  function SliceIndex(j: int, n: nat): (r: nat)
    ensures r <= n
    ensures 0 <= j <= n ==> r == j
  {
    if j < 0 then (if j + n < 0 then 0 else j + n) else if j > n then n else j
  }

  /** `s[a:b]` with Python's rules for out-of-range and negative bounds. */
  function PySlice(s: string, a: int, b: int): (r: string)
    ensures |r| <= |s|
    ensures 0 <= b <= a ==> r == []
  {
    var lo := SliceIndex(a, |s|);
    var hi := SliceIndex(b, |s|);
    if lo < hi then s[lo..hi] else []
  }

  /** `s[:n]` for `n >= 0`: the first `n` characters, or all of them. */
  function Prefix(s: string, n: nat): (r: string)
    ensures |r| == if |s| < n then |s| else n
    ensures r == s[..|r|]
  {
    if |s| <= n then s else s[..n]
  }

  /** `sep.join(parts)` */
  function Join(parts: seq<string>, sep: string): (r: string)
    ensures parts == [] ==> r == []
    ensures |parts| == 1 ==> r == parts[0]
  {
    if |parts| == 0 then []
    else if |parts| == 1 then parts[0]
    else parts[0] + sep + Join(parts[1..], sep)
  }

  /** Joining two non-empty lists of parts one after the other puts exactly
      one separator between the two joins. */
  lemma {:induction false} JoinAppend(a: seq<string>, b: seq<string>, sep: string)
    requires a != [] && b != []
    ensures Join(a + b, sep) == Join(a, sep) + sep + Join(b, sep)
  {
    if |a| == 1 {
      assert (a + b)[1..] == b;
    } else {
      assert (a + b)[1..] == a[1..] + b;
      JoinAppend(a[1..], b, sep);
    }
  }

  /** The join of two or more parts is the join of all but the last, a
      separator, and the last part. */
  lemma JoinSnoc(parts: seq<string>, sep: string)
    requires |parts| >= 2
    ensures Join(parts, sep) == Join(parts[..|parts| - 1], sep) + sep + parts[|parts| - 1]
  {
    var n := |parts|;
    assert parts == parts[..n - 1] + [parts[n - 1]];
    JoinAppend(parts[..n - 1], [parts[n - 1]], sep);
  }

  function DigitChar(d: nat): (c: char)
    requires d < 10
    ensures '0' <= c <= '9'
  {
    ('0' as int + d) as char
  }

  /** `str(n)` for a natural number: its decimal digits, no leading zero. */
  function NatToString(n: nat): (r: string)
    ensures |r| >= 1
    ensures forall i :: 0 <= i < |r| ==> '0' <= r[i] <= '9'
    ensures |r| > 1 ==> r[0] != '0'
  {
    if n < 10 then [DigitChar(n)] else NatToString(n / 10) + [DigitChar(n % 10)]
  }

  /** `str(n)` for an integer. */
  function IntToString(n: int): (r: string)
    ensures n >= 0 ==> r == NatToString(n)
    ensures n < 0 ==> r == "-" + NatToString(-n)
  {
    if n >= 0 then NatToString(n) else "-" + NatToString(-n)
  }

  /** Decimal rendering is injective: distinct numbers never share a string. */
  lemma {:induction false} NatToStringInjective(m: nat, n: nat)
    requires NatToString(m) == NatToString(n)
    ensures m == n
  {
    if m >= 10 && n >= 10 {
      var sm, sn := NatToString(m), NatToString(n);
      assert sm[|sm| - 1] == DigitChar(m % 10) && sn[|sn| - 1] == DigitChar(n % 10);
      assert sm[..|sm| - 1] == NatToString(m / 10);
      assert sn[..|sn| - 1] == NatToString(n / 10);
      NatToStringInjective(m / 10, n / 10);
    }
  }
}
