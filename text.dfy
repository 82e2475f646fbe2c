/** String primitives the tutor is built from: Python's substring test `k in s`,
    ASCII `str.lower`, ASCII `str.title`, `str.replace` of one character, and the
    string accumulation a `for` loop with `+=` performs. */
module Text {

  // ---------------------------------------------------------------------------
  // Substring containment
  // ---------------------------------------------------------------------------

  /** `k` occurs in `s` starting at position `i`. */
  ghost predicate OccursAt(s: string, k: string, i: nat) {
    i + |k| <= |s| && s[i..i + |k|] == k
  }

  /** Python's `k in s` on strings: some start position of `s` begins with `k`.
      The empty string is contained in every string. */
  function Contains(s: string, k: string): bool
    decreases |s|
  {
    |k| <= |s| && (s[..|k|] == k || Contains(s[1..], k))
  }

  /** `Contains` is exactly "occurs at some position". */
  lemma {:induction false} ContainsIff(s: string, k: string)
    ensures Contains(s, k) <==> exists i: nat :: OccursAt(s, k, i)
    decreases |s|
  {
    if |k| <= |s| {
      if s[..|k|] == k {
        assert OccursAt(s, k, 0);
      } else {
        ContainsIff(s[1..], k);
        if Contains(s[1..], k) {
          var i: nat :| OccursAt(s[1..], k, i);
          assert s[1..][i..i + |k|] == s[i + 1..i + 1 + |k|];
          assert OccursAt(s, k, i + 1);
        }
        if exists i: nat :: OccursAt(s, k, i) {
          var i: nat :| OccursAt(s, k, i);
          assert i != 0;
          assert s[1..][i - 1..i - 1 + |k|] == s[i..i + |k|];
          assert OccursAt(s[1..], k, i - 1);
        }
      }
    }
  }

  /** A witness position is enough to establish containment. */
  lemma OccursAtContains(s: string, k: string, i: nat)
    requires OccursAt(s, k, i)
    ensures Contains(s, k)
  {
    ContainsIff(s, k);
  }

  /** Containment is transitive: a substring of a substring of `s` is a substring of `s`. */
  lemma ContainsTransitive(s: string, a: string, b: string)
    requires Contains(s, a) && Contains(a, b)
    ensures Contains(s, b)
  {
    ContainsIff(s, a);
    ContainsIff(a, b);
    var i: nat :| OccursAt(s, a, i);
    var j: nat :| OccursAt(a, b, j);
    assert a == s[i..i + |a|];
    forall t | 0 <= t < |b|
      ensures s[i + j..i + j + |b|][t] == b[t]
    {
      assert b[t] == a[j..j + |b|][t] == a[j + t] == s[i + j + t];
    }
    OccursAtContains(s, b, i + j);
  }

  // ---------------------------------------------------------------------------
  // Case mapping (ASCII)
  // ---------------------------------------------------------------------------

  predicate IsUpper(c: char) { 'A' <= c <= 'Z' }

  predicate IsLower(c: char) { 'a' <= c <= 'z' }

  /** The characters `str.title` treats as cased. */
  predicate IsLetter(c: char) { IsUpper(c) || IsLower(c) }

  function LowerChar(c: char): char {
    if IsUpper(c) then (c as int - 'A' as int + 'a' as int) as char else c
  }

  function UpperChar(c: char): char {
    if IsLower(c) then (c as int - 'a' as int + 'A' as int) as char else c
  }

  /** Python's `str.lower`, restricted to ASCII letters. */
  function Lower(s: string): string {
    seq(|s|, i requires 0 <= i < |s| => LowerChar(s[i]))
  }

  predicate NoUpper(s: string) {
    forall i :: 0 <= i < |s| ==> !IsUpper(s[i])
  }

  /** The lower-cased string keeps its length and holds no upper-case letter. */
  lemma LowerIsLower(s: string)
    ensures |Lower(s)| == |s| && NoUpper(Lower(s))
  {
  }

  /** A string without upper-case letters is its own lower-cased form. */
  lemma LowerFixesNoUpper(s: string)
    requires NoUpper(s)
    ensures Lower(s) == s
  {
  }

  /** Lower-casing twice is lower-casing once. */
  lemma LowerIdempotent(s: string)
    ensures Lower(Lower(s)) == Lower(s)
  {
    LowerIsLower(s);
    LowerFixesNoUpper(Lower(s));
  }

  /** Lower-casing commutes with taking a slice. */
  lemma LowerSlice(s: string, i: nat, j: nat)
    requires i <= j <= |s|
    ensures Lower(s)[i..j] == Lower(s[i..j])
  {
  }

  /** If `k` occurs in `s`, the lower-cased `k` occurs in the lower-cased `s`; in particular
      a lower-case keyword found in a question is found in its lower-cased form. */
  lemma ContainsLower(s: string, k: string)
    requires Contains(s, k)
    ensures Contains(Lower(s), Lower(k))
  {
    ContainsIff(s, k);
    var i: nat :| OccursAt(s, k, i);
    LowerSlice(s, i, i + |k|);
    OccursAtContains(Lower(s), Lower(k), i);
  }

  /** How Python's `str.title` treats position `i`: a letter that follows a letter is
      lower-cased, any other letter is upper-cased, everything else is kept. */
  function TitleChar(s: string, i: nat): char
    requires i < |s|
  {
    if !IsLetter(s[i]) then s[i]
    else if i > 0 && IsLetter(s[i - 1]) then LowerChar(s[i])
    else UpperChar(s[i])
  }

  /** `str.title` on the rest of a string, `afterLetter` telling whether the character
      before it was a letter. */
  function TitleFrom(s: string, afterLetter: bool): string {
    if s == [] then []
    else
      var c := s[0];
      [if !IsLetter(c) then c else if afterLetter then LowerChar(c) else UpperChar(c)]
        + TitleFrom(s[1..], IsLetter(c))
  }

  /** Python's `str.title`, restricted to ASCII letters. */
  function Title(s: string): string {
    TitleFrom(s, false)
  }

  lemma {:induction false} TitleFromAt(s: string, afterLetter: bool, i: nat)
    requires i < |s|
    ensures |TitleFrom(s, afterLetter)| == |s|
    ensures TitleFrom(s, afterLetter)[i] ==
      if !IsLetter(s[i]) then s[i]
      else if (if i == 0 then afterLetter else IsLetter(s[i - 1])) then LowerChar(s[i])
      else UpperChar(s[i])
  {
    if i > 0 {
      TitleFromAt(s[1..], IsLetter(s[0]), i - 1);
    } else if |s| > 1 {
      TitleFromAt(s[1..], IsLetter(s[0]), 0);
    }
  }

  /** Title-casing a concatenation title-cases each part, the second part knowing whether
      the first ended in a letter. */
  lemma {:induction false} TitleFromAppend(a: string, b: string, afterLetter: bool)
    ensures TitleFrom(a + b, afterLetter) ==
      TitleFrom(a, afterLetter) + TitleFrom(b, if a == [] then afterLetter else IsLetter(a[|a| - 1]))
  {
    if a == [] {
      assert a + b == b;
    } else {
      assert (a + b)[1..] == a[1..] + b;
      TitleFromAppend(a[1..], b, IsLetter(a[0]));
    }
  }

  /** A lower-case word is title-cased by capitalising its first letter. */
  lemma TitleWord(w: string)
    requires w != [] && forall i :: 0 <= i < |w| ==> IsLower(w[i])
    ensures Title(w) == [UpperChar(w[0])] + w[1..]
  {
    TitleSpec(w);
  }

  /** Title-casing two words joined by a space title-cases each word on its own. */
  lemma TitleTwoWords(a: string, b: string)
    ensures Title(a + " " + b) == Title(a) + " " + Title(b)
  {
    assert a + " " + b == a + (" " + b);
    TitleFromAppend(a, " " + b, false);
    assert (" " + b)[1..] == b;
  }

  /** `Title` agrees with the position-wise description `TitleChar`. */
  lemma TitleSpec(s: string)
    ensures |Title(s)| == |s|
    ensures forall i :: 0 <= i < |s| ==> Title(s)[i] == TitleChar(s, i)
  {
    if |s| > 0 {
      TitleFromAt(s, false, 0);
    }
    forall i | 0 <= i < |s|
      ensures Title(s)[i] == TitleChar(s, i)
    {
      TitleFromAt(s, false, i);
    }
  }

  /** Python's `s.replace(from, to)` for one-character `from` and `to`. */
  function Replace(s: string, from: char, to: char): string {
    seq(|s|, i requires 0 <= i < |s| => if s[i] == from then to else s[i])
  }

  /** Replacing a character that does not occur changes nothing. */
  lemma ReplaceFixes(s: string, from: char, to: char)
    requires from !in s
    ensures Replace(s, from, to) == s
  {
  }

  /** Replacement works piece by piece over a concatenation. */
  lemma ReplaceAppend(a: string, b: string, from: char, to: char)
    ensures Replace(a + b, from, to) == Replace(a, from, to) + Replace(b, from, to)
  {
  }

  // ---------------------------------------------------------------------------
  // Accumulation
  // ---------------------------------------------------------------------------

  /** The string a loop `for x in xs: acc += f(x)` appends, in list order. */
  function ConcatMap<T>(xs: seq<T>, f: T -> string): string {
    if xs == [] then "" else f(xs[0]) + ConcatMap(xs[1..], f)
  }

  /** Rendering a concatenation renders each part in turn. */
  lemma {:induction false} ConcatMapAppend<T>(xs: seq<T>, ys: seq<T>, f: T -> string)
    ensures ConcatMap(xs + ys, f) == ConcatMap(xs, f) + ConcatMap(ys, f)
  {
    if xs == [] {
      assert xs + ys == ys;
    } else {
      assert (xs + ys)[1..] == xs[1..] + ys;
      ConcatMapAppend(xs[1..], ys, f);
    }
  }

  /** One more loop iteration appends the rendering of the next element. */
  lemma ConcatMapSnoc<T>(xs: seq<T>, x: T, f: T -> string)
    ensures ConcatMap(xs + [x], f) == ConcatMap(xs, f) + f(x)
  {
    ConcatMapAppend(xs, [x], f);
  }

  /** Element `i` is rendered after every earlier element and before every later one. */
  lemma ConcatMapAt<T>(xs: seq<T>, i: nat, f: T -> string)
    requires i < |xs|
    ensures ConcatMap(xs, f) == ConcatMap(xs[..i], f) + f(xs[i]) + ConcatMap(xs[i + 1..], f)
  {
    assert xs == xs[..i] + xs[i..];
    ConcatMapAppend(xs[..i], xs[i..], f);
    assert xs[i..][0] == xs[i] && xs[i..][1..] == xs[i + 1..];
    assert ConcatMap(xs[i..], f) == f(xs[i]) + ConcatMap(xs[i + 1..], f);
  }
}
