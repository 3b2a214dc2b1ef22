/** The pieces of Python's string and path library that the service relies
    on: `str.rfind`, `str.lower`, the slice `s[:n]` and `os.path.splitext`
    as the POSIX implementation of CPython computes it. */
module PyLib {

  function Min(a: int, b: int): int {
    if a <= b then a else b
  }

  /** `s[:n]`: the slice stops at the end of `s` when `s` is shorter than `n`. */
  function Head(s: string, n: nat): (r: string)
    ensures |r| == Min(n, |s|)
    ensures r <= s
  {
    s[..Min(n, |s|)]
  }

  /** `s.rfind(c)`: the index of the last `c` in `s`, or -1 when `s` has none. */
  function RFind(s: string, c: char): (i: int)
    ensures -1 <= i < |s|
    ensures 0 <= i ==> s[i] == c
    ensures forall k :: i < k < |s| ==> s[k] != c
  {
    if s == [] then -1
    else if s[|s| - 1] == c then |s| - 1
    else RFind(s[..|s| - 1], c)
  }

  predicate IsUpper(c: char) {
    'A' <= c <= 'Z'
  }

  function LowerChar(c: char): char {
    if IsUpper(c) then (c as int + 32) as char else c
  }

  /** `s.lower()` on the ASCII letters: every `A`..`Z` becomes its lower-case
      letter and every other character is kept. */
  function Lower(s: string): (r: string)
    ensures |r| == |s|
    ensures forall i :: 0 <= i < |s| ==>
      if IsUpper(s[i]) then r[i] as int == s[i] as int + 32 else r[i] == s[i]
  {
    seq(|s|, i requires 0 <= i < |s| => LowerChar(s[i]))
  }

  /** `posixpath.splitext(p)` as CPython's `genericpath._splitext` computes it:
      the extension starts at the last '.', provided that dot lies after the
      last '/' and the final path component has a character other than '.'
      before it (so ".png" and "..png" have no extension); otherwise the
      extension is empty. */
  function SplitExt(p: string): (r: (string, string))
    ensures r.0 + r.1 == p
    ensures r.1 == [] || r.1[0] == '.'
    ensures forall k :: 0 < k < |r.1| ==> r.1[k] != '.' && r.1[k] != '/'
  {
    var sepIndex := RFind(p, '/');
    var dotIndex := RFind(p, '.');
    if dotIndex > sepIndex && exists k :: sepIndex < k < dotIndex && p[k] != '.' then
      (p[..dotIndex], p[dotIndex..])
    else
      (p, [])
  }

  /** `os.path.splitext(p)[1]`. */
  function Ext(p: string): string {
    SplitExt(p).1
  }

  /** Independent description of an extension: `d` is a dot after which the
      path has no further '.' or '/', and the final path component has a
      character other than '.' before `d`. */
  ghost predicate ExtensionAt(p: string, d: int) {
    && 0 <= d < |p| && p[d] == '.'
    && (forall k :: d < k < |p| ==> p[k] != '.' && p[k] != '/')
    && exists j :: 0 <= j < d && p[j] != '.' && p[j] != '/' && NoSlashBetween(p, j, d)
  }

  ghost predicate NoSlashBetween(p: string, lo: int, hi: int)
    requires 0 <= lo <= hi <= |p|
  {
    forall k :: lo < k < hi ==> p[k] != '/'
  }

  /** `Ext` agrees with the independent description: the extension is
      non-empty exactly when some dot qualifies, and then it is the suffix
      starting at that dot. */
  lemma ExtMatchesReference(p: string)
    ensures Ext(p) != [] <==> exists d :: ExtensionAt(p, d)
    ensures forall d :: ExtensionAt(p, d) ==> Ext(p) == p[d..]
  {
    var s := RFind(p, '/');
    var t := RFind(p, '.');
    if Ext(p) != [] {
      var j :| s < j < t && p[j] != '.';
      assert NoSlashBetween(p, j, t);
      assert ExtensionAt(p, t);
    }
    forall d | ExtensionAt(p, d)
      ensures Ext(p) == p[d..]
    {
      assert t == d;
      assert s < d;
      var j :| 0 <= j < d && p[j] != '.' && p[j] != '/' && NoSlashBetween(p, j, d);
      assert s < j;
      assert s < j < t && p[j] != '.';
    }
  }
}
