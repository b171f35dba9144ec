/** Small facts about strings shared by the escaping and rendering modules. */
module Text {
  import opened Wrappers

  /** The position of the first occurrence of `x` in `s`, if any. */
  function FirstIndex(s: string, x: char): (r: Option<nat>)
    ensures r.Some? ==> r.value < |s| && s[r.value] == x && x !in s[..r.value]
    ensures r.None? ==> x !in s
  {
    if s == [] then None
    else if s[0] == x then Some(0)
    else match FirstIndex(s[1..], x)
      case None => None
      case Some(i) => Some(i + 1)
  }

  /** Searching `a + [x] + b` for `x` stops at the end of `a` when `a` does not hold `x`. */
  lemma FirstIndexAfter(a: string, x: char, b: string)
    requires x !in a
    ensures FirstIndex(a + [x] + b, x) == Some(|a|)
  {
    var s := a + [x] + b;
    assert s[|a|] == x;
    assert s[..|a|] == a;
  }
}
