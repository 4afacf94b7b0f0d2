/** String helpers that mirror the Python string methods the handler uses. */
module Text {

  /** `sep` occurs in `s` starting at index `i`. */
  predicate OccursAt(s: string, i: nat, sep: string) {
    i + |sep| <= |s| && s[i..i + |sep|] == sep
  }

  /** The first field of Python's `s.split(sep)`: the text before the first
      occurrence of `sep`, or all of `s` when `sep` does not occur. */
  function BeforeFirst(s: string, sep: string): (r: string)
    requires |sep| > 0
    ensures r <= s
    ensures forall i :: 0 <= i < |r| ==> !OccursAt(s, i, sep)
    ensures |r| == |s| || OccursAt(s, |r|, sep)
    decreases |s|
  {
    if |s| < |sep| then s
    else if s[..|sep|] == sep then []
    else
      var rest := BeforeFirst(s[1..], sep);
      assert !OccursAt(s, 0, sep) by { assert s[0..|sep|] == s[..|sep|]; }
      forall j | 1 <= j ensures OccursAt(s, j, sep) <==> OccursAt(s[1..], j - 1, sep) {
        if j + |sep| <= |s| {
          assert s[1..][j - 1..j - 1 + |sep|] == s[j..j + |sep|];
        }
      }
      [s[0]] + rest
  }

  /** Splitting a joined string at its first separator gives back the part
      before it, provided that part does not itself contain the separator. */
  lemma {:induction false} BeforeFirstOfJoin(a: string, sep: string, b: string)
    requires |sep| > 0
    requires forall i :: 0 <= i < |a| ==> !OccursAt(a + sep + b, i, sep)
    ensures BeforeFirst(a + sep + b, sep) == a
  {
    var s := a + sep + b;
    var r := BeforeFirst(s, sep);
    assert OccursAt(s, |a|, sep) by {
      assert s[|a|..|a| + |sep|] == sep;
    }
    assert |r| == |a|;
    assert r == s[..|r|] == a;
  }
}
