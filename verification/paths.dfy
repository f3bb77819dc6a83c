/** String helpers the server relies on: Node's POSIX `path.extname`, and
    JavaScript's `indexOf` and `replace` with a string pattern. */
module Paths {

  /** `pat` occurs in `s` starting at index `i`. */
  predicate OccursAt(s: string, pat: string, i: nat)
  {
    i + |pat| <= |s| && s[i..i + |pat|] == pat
  }

  /** Index of the last `c` in `s`, or -1 when `s` holds no `c`. */
  function LastIndex(s: string, c: char): (r: int)
    ensures -1 <= r < |s|
    ensures 0 <= r ==> s[r] == c
    ensures forall j :: r < j < |s| ==> s[j] != c
  {
    if |s| == 0 then -1
    else if s[|s| - 1] == c then |s| - 1
    else LastIndex(s[..|s| - 1], c)
  }

  /** `s.indexOf(pat, i)`: the first index at or after `i` where `pat` occurs,
      or -1 when it occurs nowhere there. */
  function IndexFrom(s: string, pat: string, i: nat): (r: int)
    requires i <= |s|
    ensures r == -1 || (i <= r && OccursAt(s, pat, r))
    ensures forall j: nat :: i <= j && (r == -1 || j < r) ==> !OccursAt(s, pat, j)
    decreases |s| - i
  {
    if i + |pat| > |s| then -1
    else if s[i..i + |pat|] == pat then i
    else IndexFrom(s, pat, i + 1)
  }

  /** `s.indexOf(pat)`. */
  function IndexOf(s: string, pat: string): int
  {
    IndexFrom(s, pat, 0)
  }

  /** `s.replace(pat, rep)` with a string pattern: only the first occurrence
      of `pat` is replaced (an empty `pat` occurs at index 0). `rep` is taken
      literally, which is right for replacements without a `$`. */
  function ReplaceFirst(s: string, pat: string, rep: string): string
  {
    var i := IndexOf(s, pat);
    if i < 0 then s else s[..i] + rep + s[i + |pat|..]
  }

  /** One past the last character of `p` that is not '/' (trailing separators
      are ignored), or 0 when `p` holds nothing else. */
  function NameEnd(p: string): (end: nat)
    ensures end <= |p|
    ensures end == 0 || p[end - 1] != '/'
    ensures forall i :: end <= i < |p| ==> p[i] == '/'
  {
    if |p| == 0 then 0
    else if p[|p| - 1] == '/' then NameEnd(p[..|p| - 1])
    else |p|
  }

  /** Where the last path component starts: just after the last '/' before `NameEnd(p)`. */
  function NameStart(p: string): (start: nat)
    ensures start <= NameEnd(p)
    ensures forall i :: start <= i < NameEnd(p) ==> p[i] != '/'
  {
    LastIndex(p[..NameEnd(p)], '/') + 1
  }

  /** The last path component of `p`, without trailing separators. */
  function BaseName(p: string): string
  {
    p[NameStart(p)..NameEnd(p)]
  }

  /** Node's POSIX `path.extname`: from the last '.' of the base name to its
      end; the empty string when the base name has no '.', when its only '.'
      is its first character, or when it is "..". */
  function ExtName(p: string): (e: string)
    ensures e == [] || e[0] == '.'
    ensures forall i :: 0 < i < |e| ==> e[i] != '.'
    ensures '/' !in e
  {
    var b := BaseName(p);
    var d := LastIndex(b, '.');
    if d <= 0 || b == ".." then "" else b[d..]
  }

  /** The extension always occurs in the name it was taken from, so the
      replacement that derives the output name always finds a match. */
  lemma ExtNameOccurs(p: string)
    ensures IndexOf(p, ExtName(p)) >= 0
  {
    var b := BaseName(p);
    var d := LastIndex(b, '.');
    if d <= 0 || b == ".." {
      assert OccursAt(p, ExtName(p), 0);
    } else {
      var k := NameStart(p) + d;
      assert p[k..k + |ExtName(p)|] == b[d..];
      assert OccursAt(p, ExtName(p), k);
    }
  }

  /** A name without '/' made of a non-empty stem, a '.', and a tail without
      '.' has exactly that tail (with its dot) as its extension. */
  lemma ExtNameOfFileName(stem: string, ext: string)
    requires stem != [] && '/' !in stem
    requires '.' !in ext && '/' !in ext
    requires stem + "." + ext != ".."
    ensures ExtName(stem + "." + ext) == "." + ext
  {
    var p := stem + "." + ext;
    assert p[|p| - 1] != '/';
    assert NameEnd(p) == |p|;
    assert p[..NameEnd(p)] == p;
    assert '/' !in p;
    assert NameStart(p) == 0;
    assert BaseName(p) == p;
    var d := LastIndex(p, '.');
    assert p[|stem|] == '.';
    assert forall j :: |stem| < j < |p| ==> p[j] == ext[j - |stem| - 1];
    assert d == |stem|;
    assert p[d..] == "." + ext;
  }

  /** A name without any '.' has no extension. */
  lemma ExtNameWithoutDot(p: string)
    requires '.' !in p
    ensures ExtName(p) == ""
  {
  }

  /** A name whose only '.' is its first character ("hidden" file) has no extension. */
  lemma ExtNameOfDotName(rest: string)
    requires '.' !in rest && '/' !in rest
    ensures ExtName("." + rest) == ""
  {
  }
}
