/** The string operations the source relies on: `strip`, `split(".")[0]`, and code-point order. */
module Text {
  import opened Sorting

  /** The characters Python's `str.strip` removes. */
  predicate IsSpace(c: char) {
    || '\U{9}' <= c <= '\U{d}' || '\U{1c}' <= c <= '\U{20}' || c == '\U{85}' || c == '\U{a0}'
    || c == '\U{1680}' || '\U{2000}' <= c <= '\U{200a}' || c == '\U{2028}' || c == '\U{2029}'
    || c == '\U{202f}' || c == '\U{205f}' || c == '\U{3000}'
  }

  function StripLeft(s: string): string {
    if s != [] && IsSpace(s[0]) then StripLeft(s[1..]) else s
  }

  function StripRight(s: string): string {
    if s != [] && IsSpace(s[|s| - 1]) then StripRight(s[..|s| - 1]) else s
  }

  function Strip(s: string): string { StripRight(StripLeft(s)) }

  /** A string `strip` leaves alone. */
  predicate Stripped(s: string) {
    s == [] || (!IsSpace(s[0]) && !IsSpace(s[|s| - 1]))
  }

  lemma {:induction false} StripRightKeepsStart(s: string)
    requires s == [] || !IsSpace(s[0])
    ensures Stripped(StripRight(s))
  {
    if s != [] && IsSpace(s[|s| - 1]) {
      StripRightKeepsStart(s[..|s| - 1]);
    }
  }

  lemma {:induction false} StripLeftStart(s: string)
    ensures StripLeft(s) == [] || !IsSpace(StripLeft(s)[0])
  {
    if s != [] && IsSpace(s[0]) {
      StripLeftStart(s[1..]);
    }
  }

  /** Stripping yields a stripped string, and changes only strings that are not stripped. */
  lemma StripCorrect(s: string)
    ensures Stripped(Strip(s))
    ensures Strip(s) == s <==> Stripped(s)
  {
    StripLeftStart(s);
    StripRightKeepsStart(StripLeft(s));
  }

  predicate AllSpace(s: string) { forall c :: c in s ==> IsSpace(c) }

  lemma {:induction false} StripLeftIsSuffix(s: string)
    ensures |StripLeft(s)| <= |s| && StripLeft(s) == s[|s| - |StripLeft(s)|..]
    ensures forall i :: 0 <= i < |s| - |StripLeft(s)| ==> IsSpace(s[i])
  {
    hide IsSpace;
    if s != [] && IsSpace(s[0]) {
      StripLeftIsSuffix(s[1..]);
    }
  }

  lemma {:induction false} StripRightIsPrefix(s: string)
    ensures StripRight(s) <= s && forall i :: |StripRight(s)| <= i < |s| ==> IsSpace(s[i])
  {
    hide IsSpace;
    if s != [] && IsSpace(s[|s| - 1]) {
      StripRightIsPrefix(s[..|s| - 1]);
    }
  }

  /** Stripping removes space at the two ends and nothing else. */
  lemma StripRemovesSpace(s: string) returns (lead: string, trail: string)
    ensures AllSpace(lead) && AllSpace(trail) && s == lead + Strip(s) + trail && Stripped(Strip(s))
  {
    hide IsSpace, StripLeft, StripRight;
    var left := StripLeft(s);
    StripLeftIsSuffix(s);
    StripRightIsPrefix(left);
    StripCorrect(s);
    lead, trail := s[..|s| - |left|], left[|Strip(s)|..];
    assert left == Strip(s) + trail;
    Parts(s, lead, Strip(s), trail);
  }

  lemma Parts(s: string, lead: string, middle: string, trail: string)
    requires s == lead + (middle + trail)
    ensures s == lead + middle + trail
  {
  }

  // Lists of dot-separated segments

  predicate DotFree(s: string) { '.' !in s }

  /** `s.split(".")[0]` */
  function FirstSegment(s: string): (r: string)
    ensures DotFree(r) && r <= s
    ensures DotFree(s) ==> r == s
  {
    if s == [] || s[0] == '.' then [] else [s[0]] + FirstSegment(s[1..])
  }

  lemma {:induction false} FirstSegmentOfDotted(s: string, rest: string)
    ensures FirstSegment(s + "." + rest) == FirstSegment(s)
  {
    if s == [] {
      assert (s + "." + rest)[0] == '.';
    } else {
      assert (s + "." + rest)[1..] == s[1..] + "." + rest;
      FirstSegmentOfDotted(s[1..], rest);
    }
  }

  // Code-point order

  predicate StrLe(a: string, b: string) {
    a == [] || (b != [] && (a[0] < b[0] || (a[0] == b[0] && StrLe(a[1..], b[1..]))))
  }

  lemma {:induction false} StrLeTotal(a: string, b: string)
    ensures StrLe(a, b) || StrLe(b, a)
    ensures StrLe(a, b) && StrLe(b, a) ==> a == b
  {
    if a != [] && b != [] && a[0] == b[0] {
      StrLeTotal(a[1..], b[1..]);
      assert a == [a[0]] + a[1..] && b == [b[0]] + b[1..];
    }
  }

  lemma {:induction false} StrLeTransitive(a: string, b: string, c: string)
    requires StrLe(a, b) && StrLe(b, c)
    ensures StrLe(a, c)
  {
    if a != [] && a[0] == b[0] && b[0] == c[0] {
      StrLeTransitive(a[1..], b[1..], c[1..]);
    }
  }

  /** Strings are ordered by the first character in which they differ, a prefix before what extends it. */
  lemma {:induction false} StrLeByFirstDifference(p: string, a: string, b: string)
    ensures StrLe(p, p + b)
    ensures a != [] && b != [] && a[0] != b[0] ==> (StrLe(p + a, p + b) <==> a[0] < b[0])
  {
    if p == [] {
      assert p + a == a && p + b == b;
    } else {
      assert (p + a)[1..] == p[1..] + a && (p + b)[1..] == p[1..] + b;
      StrLeByFirstDifference(p[1..], a, b);
    }
  }

  lemma StrLeIsTotalOrder()
    ensures TotalOrder(StrLe)
  {
    forall a, b {
      StrLeTotal(a, b);
    }
    forall a, b, c | StrLe(a, b) && StrLe(b, c) ensures StrLe(a, c) {
      StrLeTransitive(a, b, c);
    }
  }
}
