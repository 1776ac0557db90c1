/** The Python string and path operations the upscaler's name rules rely on:
    `str.lower`, `str.endswith`, `str.rfind` and `posixpath.splitext`. */
module PyStrings {

  /** `str.lower` on one character, for ASCII letters. */
  function LowerChar(c: char): (r: char)
    ensures 'A' <= c <= 'Z' ==> r as int == c as int + 32
    ensures !('A' <= c <= 'Z') ==> r == c
  {
    if 'A' <= c <= 'Z' then (c as int + 32) as char else c
  }

  /** `s.lower()`, with only ASCII letters mapped; every other character is kept. */
  function Lower(s: string): (r: string)
    ensures |r| == |s|
    ensures forall i :: 0 <= i < |s| ==> r[i] == LowerChar(s[i])
  {
    seq(|s|, i requires 0 <= i < |s| => LowerChar(s[i]))
  }

  /** Lower-casing leaves no upper-case ASCII letter, so a second `lower()`
      changes nothing; characters that are not upper-case letters, and in
      particular the ".png" suffix characters, are kept. */
  lemma {:induction false} LowerIsLowerCase(s: string)
    ensures forall i :: 0 <= i < |s| ==> !('A' <= Lower(s)[i] <= 'Z')
    ensures forall i :: 0 <= i < |s| && !('A' <= s[i] <= 'Z') ==> Lower(s)[i] == s[i]
    ensures Lower(Lower(s)) == Lower(s)
  {
  }

  /** `s.endswith(suffix)`. */
  predicate EndsWith(s: string, suffix: string) {
    |suffix| <= |s| && s[|s| - |suffix|..] == suffix
  }

  /** `s.rfind(c)`: the index of the last occurrence of `c`, or -1. */
  function RFind(s: string, c: char): (r: int)
    ensures -1 <= r < |s|
    ensures r >= 0 ==> s[r] == c
    ensures forall j :: r < j < |s| ==> s[j] != c
  {
    if |s| == 0 then -1
    else if s[|s| - 1] == c then |s| - 1
    else RFind(s[..|s| - 1], c)
  }

  /** The separator of POSIX paths. */
  const Sep: char := '/'

  /** True iff the last path component of `p` holds a '.' that comes after a
      character other than '.' in that component: the case in which
      `splitext` finds an extension. */
  ghost predicate HasExtension(p: string) {
    exists j, i :: 0 <= j < i < |p| && p[j] != '.' && p[i] == '.' && Sep !in p[j..]
  }

  /** `posixpath.splitext(p)`: the root and the extension. The extension starts
      at the last '.', provided that dot lies in the last path component and
      some character other than '.' precedes it there; otherwise it is empty. */
  function SplitExt(p: string): (r: (string, string))
    ensures r.0 + r.1 == p
    ensures r.1 != "" <==> HasExtension(p)
    ensures r.1 != "" ==> r.1[0] == '.' && forall k :: 1 <= k < |r.1| ==> r.1[k] != '.' && r.1[k] != Sep
  {
    var sepIndex := RFind(p, Sep);
    var dotIndex := RFind(p, '.');
    if dotIndex > sepIndex && exists k :: sepIndex + 1 <= k < dotIndex && p[k] != '.' then
      ExtensionFound(p, sepIndex, dotIndex);
      (p[..dotIndex], p[dotIndex..])
    else
      (p, "")
  }

  lemma ExtensionFound(p: string, sepIndex: int, dotIndex: int)
    requires sepIndex == RFind(p, Sep) && dotIndex == RFind(p, '.')
    requires dotIndex > sepIndex && exists k :: sepIndex + 1 <= k < dotIndex && p[k] != '.'
    ensures HasExtension(p)
  {
    var k :| sepIndex + 1 <= k < dotIndex && p[k] != '.';
    assert Sep !in p[k..] by {
      forall m | 0 <= m < |p[k..]| ensures p[k..][m] != Sep {
        assert p[k..][m] == p[k + m];
      }
    }
  }
}
