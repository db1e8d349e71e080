/** Character and string helpers that the classifier, the context assembly and
    the prompt composer share: ASCII lower-casing, Python's word characters,
    substring occurrence and Python's `str.join`. */
module Text {

  datatype Option<T> = None | Some(value: T)

  /** A character that Python's regular expressions count as `\w`,
      restricted to ASCII: a letter, a digit or the underscore. */
  predicate IsWordChar(c: char) {
    ('a' <= c <= 'z') || ('A' <= c <= 'Z') || ('0' <= c <= '9') || c == '_'
  }

  /** `str.lower` on one character, restricted to ASCII. */
  function LowerChar(c: char): (r: char)
    ensures 'A' <= c <= 'Z' ==> 'a' <= r <= 'z' && r as int - c as int == 'a' as int - 'A' as int
    ensures !('A' <= c <= 'Z') ==> r == c
    ensures IsWordChar(r) == IsWordChar(c)
    ensures !('A' <= r <= 'Z')
  {
    if 'A' <= c <= 'Z' then (c as int - 'A' as int + 'a' as int) as char else c
  }

  /** True when no character of `s` is an upper-case ASCII letter. */
  predicate IsLowerCase(s: string) {
    forall i :: 0 <= i < |s| ==> !('A' <= s[i] <= 'Z')
  }

  /** `str.lower`, restricted to ASCII: the result has the same length, is
      lower case, and agrees with `s` wherever `s` is not an upper-case letter. */
  function Lower(s: string): (r: string)
    ensures |r| == |s|
    ensures forall i :: 0 <= i < |s| ==> r[i] == LowerChar(s[i])
    ensures IsLowerCase(r)
  {
    if s == [] then [] else [LowerChar(s[0])] + Lower(s[1..])
  }

  /** Lower-casing a string that is already lower case changes nothing. */
  lemma LowerOfLowerCase(s: string)
    requires IsLowerCase(s)
    ensures Lower(s) == s
  {
    assert forall i :: 0 <= i < |s| ==> Lower(s)[i] == s[i];
  }

  /** Lower-casing is idempotent. */
  lemma LowerIdempotent(s: string)
    ensures Lower(Lower(s)) == Lower(s)
  {
    LowerOfLowerCase(Lower(s));
  }

  /** Lower-casing works character by character, so it distributes over
      concatenation. */
  lemma LowerConcat(a: string, b: string)
    ensures Lower(a + b) == Lower(a) + Lower(b)
  {
    var l, r := Lower(a + b), Lower(a) + Lower(b);
    forall i | 0 <= i < |a| + |b|
      ensures l[i] == r[i]
    {
      if i < |a| {
        assert (a + b)[i] == a[i] && r[i] == Lower(a)[i];
      } else {
        assert (a + b)[i] == b[i - |a|] && r[i] == Lower(b)[i - |a|];
      }
    }
  }

  /** `w` occurs in `s` starting at index `i`. */
  predicate OccursAt(s: string, w: string, i: nat) {
    i + |w| <= |s| && s[i..i + |w|] == w
  }

  /** `w` is a substring of `s` (Python's `w in s`). */
  ghost predicate Contains(s: string, w: string) {
    exists i: nat :: OccursAt(s, w, i)
  }

  /** Whatever surrounds it, a string contains each of its middle pieces. */
  lemma ContainsMiddle(a: string, w: string, b: string)
    ensures Contains(a + w + b, w)
  {
    assert (a + w + b)[|a|..|a| + |w|] == w;
    assert OccursAt(a + w + b, w, |a|);
  }

  /** Containment survives adding text on either side. */
  lemma ContainsWidened(a: string, s: string, b: string, w: string)
    requires Contains(s, w)
    ensures Contains(a + s + b, w)
  {
    var i: nat :| OccursAt(s, w, i);
    assert (a + s + b)[|a| + i..|a| + i + |w|] == s[i..i + |w|];
    assert OccursAt(a + s + b, w, |a| + i);
  }

  /** Containment survives adding text in front. */
  lemma ContainsPrepend(a: string, s: string, w: string)
    requires Contains(s, w)
    ensures Contains(a + s, w)
  {
    ContainsWidened(a, s, "", w);
    assert a + s + "" == a + s;
  }

  /** Containment survives adding text behind. */
  lemma ContainsAppend(s: string, b: string, w: string)
    requires Contains(s, w)
    ensures Contains(s + b, w)
  {
    ContainsWidened("", s, b, w);
    assert "" + s + b == s + b;
  }

  /** Sum of the lengths of `parts`. */
  function TotalLength(parts: seq<string>): nat {
    if parts == [] then 0 else |parts[0]| + TotalLength(parts[1..])
  }

  /** Python's `sep.join(parts)`: the parts in order with `sep` between
      each pair of neighbours. */
  function Join(sep: string, parts: seq<string>): (r: string)
    ensures |parts| > 0 ==> |r| == TotalLength(parts) + |sep| * (|parts| - 1)
    ensures |parts| == 0 ==> |r| == 0
  {
    if |parts| == 0 then ""
    else if |parts| == 1 then parts[0]
    else parts[0] + sep + Join(sep, parts[1..])
  }

  /** Joining a list with a head and a non-empty rest puts one separator
      between the head and the join of the rest. */
  lemma JoinCons(sep: string, head: string, rest: seq<string>)
    requires rest != []
    ensures Join(sep, [head] + rest) == head + sep + Join(sep, rest)
  {
    assert ([head] + rest)[1..] == rest;
  }

  /** A worked example of `Join`: the words of the product question, joined
      by spaces, are the question "apa syarat kartu kredit Mandiri?". */
  lemma JoinExample()
    ensures Join(" ", ["apa", "syarat", "kartu", "kredit", "Mandiri?"]) == "apa syarat kartu kredit Mandiri?"
  {
    // Naming the one-word join hands the solver the base case.
    var last := Join(" ", ["Mandiri?"]);
    JoinCons(" ", "kredit", ["Mandiri?"]);
    JoinCons(" ", "kartu", ["kredit", "Mandiri?"]);
    JoinCons(" ", "syarat", ["kartu", "kredit", "Mandiri?"]);
    JoinCons(" ", "apa", ["syarat", "kartu", "kredit", "Mandiri?"]);
  }

  /** Joining splits at any inner boundary: the parts before `k`, the
      separator, and the parts from `k` on. */
  lemma {:induction false} JoinSplit(sep: string, parts: seq<string>, k: nat)
    requires 0 < k < |parts|
    ensures Join(sep, parts) == Join(sep, parts[..k]) + sep + Join(sep, parts[k..])
    decreases k
  {
    if k > 1 {
      JoinSplit(sep, parts[1..], k - 1);
      assert parts[..k][1..] == parts[1..][..k - 1];
      assert parts[1..][k - 1..] == parts[k..];
    }
  }

  /** `Join` places part `k` verbatim between the join of the parts before it
      and the join of the parts after it, with one separator on each inner side:
      the parts appear in input order and nothing else is added. */
  lemma JoinPlacesPart(sep: string, parts: seq<string>, k: nat)
    requires k < |parts|
    ensures Join(sep, parts) ==
      (if k == 0 then "" else Join(sep, parts[..k]) + sep) + parts[k] +
      (if k + 1 == |parts| then "" else sep + Join(sep, parts[k + 1..]))
  {
    if k > 0 {
      JoinSplit(sep, parts, k);
    }
    var rest := parts[k..];
    if k + 1 < |parts| {
      JoinSplit(sep, rest, 1);
      assert rest[..1] == [parts[k]];
      assert rest[1..] == parts[k + 1..];
    }
  }
}
