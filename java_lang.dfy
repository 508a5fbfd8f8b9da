/** The few java.lang / java.io string operations the two programs rely on:
    String.lastIndexOf, String.trim and File.getName. A Java `String` is a
    `seq<char>`, and a Java reference that may be null is an `Option`. */
module JavaLang {

  datatype Option<+T> = None | Some(value: T)

  /** The characters String.trim removes: every char whose code is <= ' '
      (space and all control characters). */
  predicate IsTrimmable(c: char) {
    c <= ' '
  }

  predicate AllTrimmable(s: string) {
    forall i :: 0 <= i < |s| ==> IsTrimmable(s[i])
  }

  /** String.lastIndexOf(c): the index of the last occurrence of c, or -1. */
  function LastIndexOf(s: string, c: char): int {
    LastIndexBefore(s, c, |s|)
  }

  /** The last occurrence of c among s[..n], scanning down from n - 1. */
  function LastIndexBefore(s: string, c: char, n: nat): (r: int)
    requires n <= |s|
    ensures -1 <= r < n
  {
    if n == 0 then -1
    else if s[n - 1] == c then n - 1
    else LastIndexBefore(s, c, n - 1)
  }

  /** The scan finds c at r and nowhere after it below n; -1 means c does
      not occur below n at all. */
  lemma {:induction false} LastIndexBeforeSpec(s: string, c: char, n: nat)
    requires n <= |s|
    ensures var r := LastIndexBefore(s, c, n);
            (r == -1 <==> forall j :: 0 <= j < n ==> s[j] != c) &&
            (0 <= r ==> s[r] == c && forall j :: r < j < n ==> s[j] != c)
  {
    if n > 0 && s[n - 1] != c {
      LastIndexBeforeSpec(s, c, n - 1);
    }
  }

  /** lastIndexOf gives -1 exactly when c is absent, and otherwise the
      position of an occurrence of c with none after it. */
  lemma LastIndexOfSpec(s: string, c: char)
    ensures -1 <= LastIndexOf(s, c) < |s|
    ensures LastIndexOf(s, c) == -1 <==> c !in s
    ensures var r := LastIndexOf(s, c);
            0 <= r ==> s[r] == c && forall j :: r < j < |s| ==> s[j] != c
  {
    LastIndexBeforeSpec(s, c, |s|);
  }

  /** The leading-whitespace half of String.trim. */
  function TrimStart(s: string): string {
    if s != [] && IsTrimmable(s[0]) then TrimStart(s[1..]) else s
  }

  /** The trailing-whitespace half of String.trim. */
  function TrimEnd(s: string): string {
    if s != [] && IsTrimmable(s[|s| - 1]) then TrimEnd(s[..|s| - 1]) else s
  }

  /** String.trim: drop every leading and every trailing char <= ' '. */
  function Trim(s: string): string {
    TrimEnd(TrimStart(s))
  }

  /** TrimStart leaves a suffix that does not start with a trimmable char,
      and everything it dropped is trimmable. */
  lemma {:induction false} TrimStartSpec(s: string)
    ensures |TrimStart(s)| <= |s| && TrimStart(s) == s[|s| - |TrimStart(s)|..]
    ensures AllTrimmable(s[..|s| - |TrimStart(s)|])
    ensures TrimStart(s) == [] || !IsTrimmable(TrimStart(s)[0])
  {
    if s != [] && IsTrimmable(s[0]) {
      var r := TrimStart(s[1..]);
      TrimStartSpec(s[1..]);
      assert s[..|s| - |r|] == [s[0]] + s[1..][..|s| - 1 - |r|];
    }
  }

  /** TrimEnd leaves a prefix that does not end with a trimmable char, and
      everything it dropped is trimmable. */
  lemma {:induction false} TrimEndSpec(s: string)
    ensures |TrimEnd(s)| <= |s| && TrimEnd(s) == s[..|TrimEnd(s)|]
    ensures AllTrimmable(s[|TrimEnd(s)|..])
    ensures TrimEnd(s) == [] || !IsTrimmable(TrimEnd(s)[|TrimEnd(s)| - 1])
  {
    if s != [] && IsTrimmable(s[|s| - 1]) {
      var r := TrimEnd(s[..|s| - 1]);
      TrimEndSpec(s[..|s| - 1]);
      assert s[|r|..] == s[..|s| - 1][|r|..] + [s[|s| - 1]];
    }
  }

  /** Trim removes exactly a blank prefix and a blank suffix: the result is a
      contiguous slice s[a..b] of the input that neither starts nor ends with
      a trimmable char, and everything cut off is trimmable. */
  lemma TrimIsSlice(s: string) returns (a: nat, b: nat)
    ensures a <= b <= |s| && Trim(s) == s[a..b]
    ensures AllTrimmable(s[..a]) && AllTrimmable(s[b..])
    ensures Trim(s) == [] || (!IsTrimmable(Trim(s)[0]) && !IsTrimmable(Trim(s)[|Trim(s)| - 1]))
  {
    var t := TrimStart(s);
    TrimStartSpec(s);
    var r := TrimEnd(t);
    TrimEndSpec(t);
    a := |s| - |t|;
    b := a + |r|;
    assert t == s[a..];
    assert r == s[a..b];
    assert t[|r|..] == s[b..];
  }

  /** A line is empty after trimming exactly when every char of it is <= ' '. */
  lemma TrimEmptyIffBlank(s: string)
    ensures Trim(s) == [] <==> AllTrimmable(s)
  {
    var a, b := TrimIsSlice(s);
    if Trim(s) == [] {
      forall i | 0 <= i < |s| ensures IsTrimmable(s[i]) {
        if i < a {
          assert s[..a][i] == s[i];
        } else {
          assert s[b..][i - b] == s[i];
        }
      }
    }
  }

  /** File.getName on a Unix path: everything after the last '/'. */
  function GetName(path: string): string {
    path[LastIndexOf(path, '/') + 1..]
  }

  /** The name is everything after the last '/': a suffix of the path that
      holds no '/' and, unless it is the whole path, is preceded by one. */
  lemma GetNameSpec(path: string)
    ensures |GetName(path)| <= |path|
    ensures GetName(path) == path[|path| - |GetName(path)|..]
    ensures '/' !in GetName(path)
    ensures |GetName(path)| < |path| ==> path[|path| - |GetName(path)| - 1] == '/'
  {
    LastIndexOfSpec(path, '/');
  }

  /** A name taken from a directory listing (it has no '/') comes back
      unchanged from File.getName of the joined path. */
  lemma GetNameOfJoined(dir: string, name: string)
    requires '/' !in name
    ensures GetName(dir + "/" + name) == name
  {
    var p := dir + "/" + name;
    LastIndexOfSpec(p, '/');
    assert p[|dir|] == '/';
    assert p[|dir| + 1..] == name;
  }
}
