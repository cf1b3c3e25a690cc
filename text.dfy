/** Character and string helpers standing in for the Python string operations the
    application uses: `str.lower()` (on ASCII letters) and the `in` substring test. */
module Text {

  /** Python's `str.lower()` restricted to ASCII: 'A'..'Z' become 'a'..'z', every other
      character is kept. */
  function LowerChar(c: char): (r: char)
    ensures 'A' <= c <= 'Z' ==> 'a' <= r <= 'z' && r as int - c as int == 32
    ensures !('A' <= c <= 'Z') ==> r == c
    ensures !('A' <= r <= 'Z')
  {
    if 'A' <= c <= 'Z' then (c as int + 32) as char else c
  }

  /** `s.lower()`, character by character. */
  function Lower(s: string): (r: string)
    ensures |r| == |s|
    ensures forall i :: 0 <= i < |s| ==> r[i] == LowerChar(s[i])
  {
    seq(|s|, i requires 0 <= i < |s| => LowerChar(s[i]))
  }

  /** A string no lowering would change. */
  predicate IsLower(s: string) {
    forall i :: 0 <= i < |s| ==> !('A' <= s[i] <= 'Z')
  }

  /** Lowering yields a lower-case string and is idempotent. */
  lemma LowerIdempotent(s: string)
    ensures IsLower(Lower(s))
    ensures Lower(Lower(s)) == Lower(s)
  {
    var l := Lower(s);
    assert forall i :: 0 <= i < |l| ==> Lower(l)[i] == LowerChar(l[i]) == l[i];
  }

  /** Lowering commutes with slicing. */
  lemma LowerSlice(s: string, i: nat, j: nat)
    requires i <= j <= |s|
    ensures Lower(s[i..j]) == Lower(s)[i..j]
  {
  }

  /** Lowering commutes with concatenation. */
  lemma LowerAppend(s: string, t: string)
    ensures Lower(s + t) == Lower(s) + Lower(t)
  {
    var l := Lower(s + t);
    assert forall k :: 0 <= k < |l| ==> l[k] == (Lower(s) + Lower(t))[k];
  }

  /** `t` occurs in `s` starting at index `i`. */
  predicate OccursAt(s: string, t: string, i: nat) {
    i + |t| <= |s| && s[i..i + |t|] == t
  }

  /** Python's `t in s`: a left-to-right search for `t` at every position of `s`.
      Its contract is the meaning of substring containment: some position holds `t`. */
  function Contains(s: string, t: string): (r: bool)
    ensures r <==> exists i: nat :: OccursAt(s, t, i)
    decreases |s|
  {
    if |t| <= |s| && s[..|t|] == t then
      assert OccursAt(s, t, 0);
      true
    else if s == [] then
      assert forall i: nat :: !OccursAt(s, t, i);
      false
    else
      var rest := Contains(s[1..], t);
      assert forall i: nat :: OccursAt(s, t, i + 1) <==> OccursAt(s[1..], t, i) by {
        forall i: nat ensures OccursAt(s, t, i + 1) <==> OccursAt(s[1..], t, i) {
          if i + 1 + |t| <= |s| { assert s[i + 1..i + 1 + |t|] == s[1..][i..i + |t|]; }
        }
      }
      assert !OccursAt(s, t, 0);
      assert rest ==> exists i: nat :: OccursAt(s, t, i) by {
        if rest {
          var i: nat :| OccursAt(s[1..], t, i);
          assert OccursAt(s, t, i + 1);
        }
      }
      assert (exists i: nat :: OccursAt(s, t, i)) ==> rest by {
        if exists i: nat :: OccursAt(s, t, i) {
          var i: nat :| OccursAt(s, t, i);
          assert i != 0;
          assert OccursAt(s[1..], t, i - 1);
        }
      }
      rest
  }

  /** Containment is transitive: what occurs in a substring of `b` occurs in `b`. */
  lemma ContainsTransitive(t: string, a: string, b: string)
    requires Contains(a, t) && Contains(b, a)
    ensures Contains(b, t)
  {
    var i: nat :| OccursAt(a, t, i);
    var j: nat :| OccursAt(b, a, j);
    assert i + |t| <= |a| && j + |a| <= |b|;
    assert forall k :: 0 <= k < |t| ==> t[k] == a[i + k] == b[j + i + k];
    assert OccursAt(b, t, j + i);
  }

  /** Lowering preserves containment. */
  lemma ContainsLower(a: string, b: string)
    requires Contains(b, a)
    ensures Contains(Lower(b), Lower(a))
  {
    var j: nat :| OccursAt(b, a, j);
    LowerSlice(b, j, j + |a|);
    assert OccursAt(Lower(b), Lower(a), j);
  }

  /** Every character of a contained string is a character of the container. */
  lemma ContainsChars(s: string, t: string, c: char)
    requires Contains(s, t) && c in t
    ensures c in s
  {
    var i: nat :| OccursAt(s, t, i);
    var k :| 0 <= k < |t| && t[k] == c;
    assert s[i + k] == s[i..i + |t|][k];
  }
}
