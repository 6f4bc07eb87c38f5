/** The two string operations the search uses: `toLowerCase` and `includes`. */
module Text {

  /** One character of `toLowerCase`, restricted to ASCII: 'A'..'Z' become
      'a'..'z' and every other character is left alone. */
  function LowerChar(c: char): (r: char)
    ensures 'A' <= c <= 'Z' ==> 'a' <= r <= 'z' && r as int - c as int == 32
    ensures !('A' <= c <= 'Z') ==> r == c
  {
    if 'A' <= c <= 'Z' then (c as int + 32) as char else c
  }

  /** `s.toLowerCase()`, character by character. */
  function Lower(s: string): (r: string)
    ensures |r| == |s|
    ensures forall i :: 0 <= i < |s| ==> r[i] == LowerChar(s[i])
  {
    seq(|s|, i requires 0 <= i < |s| => LowerChar(s[i]))
  }

  /** `q` occurs in `s` starting at position `i`. */
  predicate OccursAt(s: string, q: string, i: int)
  {
    0 <= i && i + |q| <= |s| && s[i..i + |q|] == q
  }

  /** `s.includes(q)`: scans the start positions of `s` from the left. */
  function Includes(s: string, q: string): (r: bool)
    ensures q == [] ==> r
    ensures |q| <= |s| && s[..|q|] == q ==> r
    ensures r ==> |q| <= |s|
  {
    if |q| <= |s| && s[..|q|] == q then true
    else if s == [] then false
    else Includes(s[1..], q)
  }

  /** `Includes` holds exactly when `q` occurs somewhere in `s`. */
  lemma {:induction false} IncludesIffOccurs(s: string, q: string)
    ensures Includes(s, q) <==> exists i :: OccursAt(s, q, i)
  {
    if |q| <= |s| && s[..|q|] == q {
      assert OccursAt(s, q, 0);
    } else if s == [] {
    } else {
      IncludesIffOccurs(s[1..], q);
      if exists i :: OccursAt(s[1..], q, i) {
        var i :| OccursAt(s[1..], q, i);
        assert s[1..][i..i + |q|] == s[i + 1..i + 1 + |q|];
        assert OccursAt(s, q, i + 1);
      }
      if exists i :: OccursAt(s, q, i) {
        var i :| OccursAt(s, q, i);
        assert i != 0;
        assert s[1..][i - 1..i - 1 + |q|] == s[i..i + |q|];
        assert OccursAt(s[1..], q, i - 1);
      }
    }
  }

  /** Every string includes the empty string. */
  lemma IncludesEmpty(s: string)
    ensures Includes(s, "")
  {
  }

  /** A query whose first character does not occur in `s` is not included in it. */
  lemma {:induction false} IncludesNeedsFirstChar(s: string, q: string)
    requires q != [] && q[0] !in s
    ensures !Includes(s, q)
  {
    if s != [] {
      assert s[0] != q[0];
      IncludesNeedsFirstChar(s[1..], q);
    }
  }
}
