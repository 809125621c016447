/** The pieces of Python's `str` that the modelled code relies on: `isspace`, `isprintable`,
    `lower` and `strip`. */
module PyStrings {

  /** `c.isspace()`: the characters that `str.split()` with no argument and `str.strip()` treat
      as whitespace (the Unicode separators, the ASCII whitespace controls U+0009 to U+000D,
      U+001C to U+001F and U+0085). */
  predicate IsSpace(c: char) {
    || c == ' '
    || ('\U{9}' <= c <= '\U{D}')
    || ('\U{1C}' <= c <= '\U{1F}')
    || c == '\U{85}'
    || c == '\U{A0}'
    || c == '\U{1680}'
    || ('\U{2000}' <= c <= '\U{200A}')
    || c == '\U{2028}'
    || c == '\U{2029}'
    || c == '\U{202F}'
    || c == '\U{205F}'
    || c == '\U{3000}'
  }

  /** Control characters (Unicode category Cc). */
  predicate IsControl(c: char) {
    c < ' ' || ('\U{7F}' <= c <= '\U{9F}')
  }

  /** The format characters (Unicode category Cf, as of Unicode 15.0). U+2065, which lies
      inside one of the ranges, is unassigned, and unassigned code points are not printable
      either. */
  predicate IsFormat(c: char) {
    || c == '\U{AD}'
    || ('\U{600}' <= c <= '\U{605}')
    || c == '\U{61C}'
    || c == '\U{6DD}'
    || c == '\U{70F}'
    || ('\U{890}' <= c <= '\U{891}')
    || c == '\U{8E2}'
    || c == '\U{180E}'
    || ('\U{200B}' <= c <= '\U{200F}')
    || ('\U{202A}' <= c <= '\U{202E}')
    || ('\U{2060}' <= c <= '\U{206F}')
    || c == '\U{FEFF}'
    || ('\U{FFF9}' <= c <= '\U{FFFB}')
    || c == '\U{110BD}'
    || c == '\U{110CD}'
    || ('\U{13430}' <= c <= '\U{1343F}')
    || ('\U{1BCA0}' <= c <= '\U{1BCA3}')
    || ('\U{1D173}' <= c <= '\U{1D17A}')
    || c == '\U{E0001}'
    || ('\U{E0020}' <= c <= '\U{E007F}')
  }

  /** The private-use characters (Unicode category Co). */
  predicate IsPrivateUse(c: char) {
    || ('\U{E000}' <= c <= '\U{F8FF}')
    || ('\U{F0000}' <= c <= '\U{FFFFD}')
    || ('\U{100000}' <= c <= '\U{10FFFD}')
  }

  /** `c.isprintable()`: the ASCII space is printable; every other separator, every control,
      format and private-use character is not. */
  predicate IsPrintable(c: char) {
    c == ' ' || !(IsSpace(c) || IsControl(c) || IsFormat(c) || IsPrivateUse(c))
  }

  /** `c.lower()` on the ASCII letters; every other character is left as it is. */
  function LowerChar(c: char): (r: char)
    ensures 'A' <= c <= 'Z' ==> 'a' <= r <= 'z' && r as int - c as int == 32
    ensures !('A' <= c <= 'Z') ==> r == c
  {
    if 'A' <= c <= 'Z' then (c as int + 32) as char else c
  }

  /** `s.lower()`, character by character. */
  function Lower(s: string): (r: string)
    ensures |r| == |s|
    ensures forall i :: 0 <= i < |s| ==> r[i] == LowerChar(s[i])
  {
    seq(|s|, i requires 0 <= i < |s| => LowerChar(s[i]))
  }

  /** `s.lstrip()`: drops the leading whitespace. */
  function SkipSpace(s: string): (r: string)
    ensures |r| <= |s| && r == s[|s| - |r|..]
    ensures forall i :: 0 <= i < |s| - |r| ==> IsSpace(s[i])
    ensures r == [] || !IsSpace(r[0])
  {
    if s != [] && IsSpace(s[0]) then SkipSpace(s[1..]) else s
  }

  /** `s.rstrip()`: drops the trailing whitespace. */
  function TrimEnd(s: string): (r: string)
    ensures |r| <= |s| && r == s[..|r|]
    ensures forall i :: |r| <= i < |s| ==> IsSpace(s[i])
    ensures r == [] || !IsSpace(r[|r| - 1])
  {
    if s != [] && IsSpace(s[|s| - 1]) then TrimEnd(s[..|s| - 1]) else s
  }

  /** `s.strip()`: the text between the leading and the trailing whitespace. */
  function Strip(s: string): (r: string)
    ensures r == [] || (!IsSpace(r[0]) && !IsSpace(r[|r| - 1]))
    ensures r == [] <==> forall i :: 0 <= i < |s| ==> IsSpace(s[i])
    ensures exists k :: 0 <= k <= |s| - |r| && r == s[k..k + |r|] && StrippedAt(s, k, |r|)
  {
    var t := SkipSpace(s);
    var r := TrimEnd(t);
    PrefixOfSuffix(s, t, r);
    r
  }

  /** A prefix `r` of a suffix `t` of `s`, with only whitespace before `t` and after `r`, is a
      middle part of `s` with whitespace all around it. */
  lemma PrefixOfSuffix(s: string, t: string, r: string)
    requires |t| <= |s| && t == s[|s| - |t|..]
    requires forall i :: 0 <= i < |s| - |t| ==> IsSpace(s[i])
    requires |r| <= |t| && r == t[..|r|]
    requires forall i :: |r| <= i < |t| ==> IsSpace(t[i])
    ensures exists k :: 0 <= k <= |s| - |r| && r == s[k..k + |r|] && StrippedAt(s, k, |r|)
  {
    var k := |s| - |t|;
    forall i | k + |r| <= i < |s| ensures IsSpace(s[i]) {
      assert s[i] == t[i - k];
    }
    assert r == s[k..k + |r|] && StrippedAt(s, k, |r|);
  }

  /** Everything of `s` before `k` and from `k + n` on is whitespace. */
  ghost predicate StrippedAt(s: string, k: int, n: int)
    requires 0 <= k <= k + n <= |s|
  {
    && (forall i :: 0 <= i < k ==> IsSpace(s[i]))
    && (forall i :: k + n <= i < |s| ==> IsSpace(s[i]))
  }

  /** A string with no whitespace character in it. */
  ghost predicate NoSpace(s: string) {
    forall i :: 0 <= i < |s| ==> !IsSpace(s[i])
  }

  /** The longest prefix of `s` that holds no whitespace. */
  function TakeWord(s: string): (w: string)
    ensures |w| <= |s| && w == s[..|w|]
    ensures NoSpace(w)
    ensures |w| < |s| ==> IsSpace(s[|w|])
    ensures s != [] && !IsSpace(s[0]) ==> w != []
  {
    if s == [] || IsSpace(s[0]) then [] else [s[0]] + TakeWord(s[1..])
  }

  /** `text.split()`: the maximal runs of non-whitespace characters, in order. */
  function Split(s: string): seq<string>
    decreases |s|
  {
    var t := SkipSpace(s);
    if t == [] then []
    else
      var w := TakeWord(t);
      [w] + Split(t[|w|..])
  }

  /** `' '.join(words)`. */
  function Join(words: seq<string>): string {
    if words == [] then ""
    else if |words| == 1 then words[0]
    else words[0] + " " + Join(words[1..])
  }
}
