module Sequences {

  ghost predicate Distinct<T>(s: seq<T>) {
    forall i, j :: 0 <= i < j < |s| ==> s[i] != s[j]
  }

  function Last<T>(s: seq<T>): T
    requires s != []
  {
    s[|s| - 1]
  }

  function DropLast<T>(s: seq<T>): (r: seq<T>)
    requires s != []
    ensures |r| == |s| - 1
  {
    s[..|s| - 1]
  }

  /** A prefix that is one longer. */
  lemma PrefixMore<T>(s: seq<T>, i: nat)
    requires i < |s|
    ensures s[..i + 1] != [] && DropLast(s[..i + 1]) == s[..i] && Last(s[..i + 1]) == s[i]
  {
  }
}
