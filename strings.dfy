/** String helpers for splitting on a separator character, as Python's
    `str.split` and JavaScript's `String.prototype.split` do for the first
    two fields. */
module Strings {

  /** Position of the first `c` in `s`, or `|s|` when there is none. */
  function IndexOf(s: string, c: char): (i: nat)
    ensures i <= |s|
    ensures i < |s| ==> s[i] == c
    ensures c !in s[..i]
    ensures i == |s| <==> c !in s
  {
    if s == [] then 0
    else if s[0] == c then 0
    else
      var j := IndexOf(s[1..], c);
      assert s[..j + 1] == [s[0]] + s[1..][..j];
      1 + j
  }

  /** The first field of `s` split on `c` (`s.split(c)[0]`). */
  function Before(s: string, c: char): (r: string)
    ensures c !in r
    ensures r <= s
  {
    s[..IndexOf(s, c)]
  }

  /** Everything after the first `c`; with `Before` it rebuilds `s`. */
  function After(s: string, c: char): (r: string)
    requires c in s
    ensures s == Before(s, c) + [c] + r
  {
    s[IndexOf(s, c) + 1..]
  }

  /** The second field of `s` split on `c` (`s.split(c)[1]`): the text
      between the first and the second `c`, or to the end. */
  function SecondField(s: string, c: char): (r: string)
    requires c in s
    ensures c !in r
    ensures r <= After(s, c)
    ensures c !in After(s, c) ==> r == After(s, c)
  {
    Before(After(s, c), c)
  }

  function Stars(n: nat): (r: string)
    ensures |r| == n && forall k :: 0 <= k < n ==> r[k] == '*'
  {
    seq(n, _ => '*')
  }

  /** `Before` stops at the first separator, so a string that starts with a
      separator-free prefix followed by `c` splits exactly there. */
  lemma {:induction false} SplitAt(u: string, c: char, v: string)
    requires c !in u
    ensures c in u + [c] + v
    ensures Before(u + [c] + v, c) == u
    ensures After(u + [c] + v, c) == v
  {
    var s := u + [c] + v;
    assert s[|u|] == c;
    var i := IndexOf(s, c);
    assert s[..|u|] == u;
    assert i == |u|;
    assert s[..i] == u;
    assert s[i + 1..] == v;
  }
}
