/** The parts of `System.IO.Path` that the core uses, as they behave on a Unix-like
    platform: the separator is '/', a path is rooted when it starts with '/', and the only
    invalid path character is NUL. */
module Paths {
  import opened Text

  /** `Path.DirectorySeparatorChar`. */
  const Separator: char := '/'

  /** `Path.GetInvalidPathChars()`. */
  predicate IsInvalidPathChar(c: char) {
    c == '\0'
  }

  /** `Path.IsPathRooted`. */
  predicate IsPathRooted(p: string) {
    |p| > 0 && p[0] == Separator
  }

  /** `Path.EndsInDirectorySeparator`. */
  predicate EndsInDirectorySeparator(p: string) {
    |p| > 0 && p[|p| - 1] == Separator
  }

  /** `Path.Combine(a, b)`: `b` alone when `a` is empty or `b` is rooted, `a` alone when `b`
      is empty, otherwise the two joined by exactly the separators already present, adding
      one only when neither side supplies it. */
  function Combine(a: string, b: string): (r: string)
    ensures b == "" ==> r == a
    ensures b != "" && (a == "" || IsPathRooted(b)) ==> r == b
    ensures a != "" && b != "" && !IsPathRooted(b) ==>
      StartsWith(r, a) && EndsWith(r, b) && |a| + |b| <= |r| <= |a| + |b| + 1
  {
    if b == "" then a
    else if a == "" || IsPathRooted(b) then b
    else if EndsInDirectorySeparator(a) then a + b
    else a + [Separator] + b
  }

  /** Joining onto a root that already ends with the separator is plain concatenation. */
  lemma CombineAfterSeparator(a: string, b: string)
    requires EndsInDirectorySeparator(a) && !IsPathRooted(b)
    ensures Combine(a, b) == a + b
  {
  }
}
