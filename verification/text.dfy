/** The JavaScript string operations the app's input handling and search
    rely on: `trim`, `toLowerCase` and `includes`. */
module Text {

  /** The code points `String.prototype.trim` removes: the WhiteSpace
      (tab, vertical tab, form feed, space, no-break space, byte order mark
      and the Zs category) and LineTerminator characters of ECMAScript. */
  predicate IsSpace(c: char)
  {
    || '\t' <= c <= '\r'
    || c == ' ' || c == '\U{00A0}' || c == '\U{1680}'
    || '\U{2000}' <= c <= '\U{200A}'
    || c == '\U{2028}' || c == '\U{2029}' || c == '\U{202F}' || c == '\U{205F}'
    || c == '\U{3000}' || c == '\U{FEFF}'
  }

  predicate AllSpace(s: string)
  {
    forall k :: 0 <= k < |s| ==> IsSpace(s[k])
  }

  /** The index of the first non-space character of `s` at or after `i`,
      or `|s|` when there is none. */
  function SkipSpaces(s: string, i: nat): (j: nat)
    requires i <= |s|
    ensures i <= j <= |s|
    ensures forall k :: i <= k < j ==> IsSpace(s[k])
    ensures j < |s| ==> !IsSpace(s[j])
    decreases |s| - i
  {
    if i == |s| || !IsSpace(s[i]) then i else SkipSpaces(s, i + 1)
  }

  /** The index just past the last non-space character of `s` before `j`,
      or 0 when there is none. */
  function SkipSpacesBack(s: string, j: nat): (i: nat)
    requires j <= |s|
    ensures i <= j
    ensures forall k :: i <= k < j ==> IsSpace(s[k])
    ensures 0 < i ==> !IsSpace(s[i - 1])
  {
    if j == 0 || !IsSpace(s[j - 1]) then j else SkipSpacesBack(s, j - 1)
  }

  /** Where `trim` starts and ends cutting. */
  function TrimStart(s: string): nat
  {
    SkipSpaces(s, 0)
  }

  function TrimEnd(s: string): nat
  {
    SkipSpacesBack(s, |s|)
  }

  /** `s.trim()`: the part of `s` between its leading and its trailing
      white space, or nothing when `s` is all white space. */
  function Trim(s: string): (r: string)
    ensures |r| <= |s|
  {
    if TrimStart(s) < TrimEnd(s) then s[TrimStart(s)..TrimEnd(s)] else ""
  }

  lemma SplitThree<T>(s: seq<T>, i: nat, j: nat)
    requires i <= j <= |s|
    ensures s == s[..i] + s[i..j] + s[j..]
  {
  }

  /** All white space is cut away exactly from an all-white-space string;
      any other string keeps its first and last non-space characters. */
  lemma TrimBounds(s: string)
    ensures AllSpace(s) <==> TrimStart(s) == |s|
    ensures !AllSpace(s) ==> TrimStart(s) < TrimEnd(s)
  {
    var a, b := TrimStart(s), TrimEnd(s);
    if !AllSpace(s) {
      var k :| 0 <= k < |s| && !IsSpace(s[k]);
      assert a <= k < b;
    }
  }

  /** What `trim` promises: the result is empty exactly for all-white-space
      input; otherwise it starts and ends with a non-space character, and
      the input is its leading white space, the result, and its trailing
      white space, in that order. */
  lemma TrimSpec(s: string)
    ensures Trim(s) == "" <==> AllSpace(s)
    ensures Trim(s) != "" ==> !IsSpace(Trim(s)[0]) && !IsSpace(Trim(s)[|Trim(s)| - 1])
    ensures AllSpace(s[..TrimStart(s)]) && AllSpace(s[TrimEnd(s)..])
    ensures AllSpace(s) || s == s[..TrimStart(s)] + Trim(s) + s[TrimEnd(s)..]
  {
    TrimBounds(s);
    TrimEnds(s);
    TrimCuts(s);
    if !AllSpace(s) {
      SplitThree(s, TrimStart(s), TrimEnd(s));
    }
  }

  lemma TrimEnds(s: string)
    ensures Trim(s) != "" ==> !IsSpace(Trim(s)[0]) && !IsSpace(Trim(s)[|Trim(s)| - 1])
  {
    var a, b := TrimStart(s), TrimEnd(s);
    if a < b {
      var t := s[a..b];
      assert t[0] == s[a] && t[|t| - 1] == s[b - 1];
    }
  }

  lemma TrimCuts(s: string)
    ensures AllSpace(s[..TrimStart(s)]) && AllSpace(s[TrimEnd(s)..])
  {
    var a, b := TrimStart(s), TrimEnd(s);
    assert forall k :: 0 <= k < a ==> s[..a][k] == s[k];
    assert forall k :: 0 <= k < |s| - b ==> s[b..][k] == s[b + k];
  }

  /** Trimming a trimmed string changes nothing. */
  lemma TrimIdempotent(s: string)
    ensures Trim(Trim(s)) == Trim(s)
  {
    var t := Trim(s);
    TrimSpec(s);
    if t != "" {
      assert TrimStart(t) == 0;
      assert TrimEnd(t) == |t|;
    }
  }

  /** ASCII lower-casing of one character. */
  function LowerChar(c: char): char
  {
    if 'A' <= c <= 'Z' then (c as int + 32) as char else c
  }

  /** `s.toLowerCase()` on the ASCII letters. */
  function Lower(s: string): (r: string)
    ensures |r| == |s|
    ensures forall k :: 0 <= k < |s| ==> r[k] == LowerChar(s[k])
    ensures forall k :: 0 <= k < |r| ==> !('A' <= r[k] <= 'Z')
  {
    seq(|s|, k requires 0 <= k < |s| => LowerChar(s[k]))
  }

  /** Lower-casing leaves white space exactly where it was. */
  lemma LowerKeepsSpaces(s: string)
    ensures forall k :: 0 <= k < |s| ==> (IsSpace(Lower(s)[k]) <==> IsSpace(s[k]))
  {
  }

  /** Lower-casing a lower-cased string changes nothing. */
  lemma LowerIdempotent(s: string)
    ensures Lower(Lower(s)) == Lower(s)
  {
    var t := Lower(s);
    assert forall k :: 0 <= k < |t| ==> LowerChar(t[k]) == t[k];
  }

  /** Strings with white space at the same positions skip to the same index. */
  lemma {:induction false} SkipSpacesAgree(s: string, t: string, i: nat)
    requires |s| == |t| && i <= |s|
    requires forall k :: 0 <= k < |s| ==> (IsSpace(s[k]) <==> IsSpace(t[k]))
    ensures SkipSpaces(s, i) == SkipSpaces(t, i)
    decreases |s| - i
  {
    if i < |s| && IsSpace(s[i]) {
      SkipSpacesAgree(s, t, i + 1);
    }
  }

  /** The same, skipping backwards. */
  lemma {:induction false} SkipSpacesBackAgree(s: string, t: string, j: nat)
    requires |s| == |t| && j <= |s|
    requires forall k :: 0 <= k < |s| ==> (IsSpace(s[k]) <==> IsSpace(t[k]))
    ensures SkipSpacesBack(s, j) == SkipSpacesBack(t, j)
  {
    if 0 < j && IsSpace(s[j - 1]) {
      SkipSpacesBackAgree(s, t, j - 1);
    }
  }

  /** Trimming and lower-casing commute, and lower-casing keeps a blank
      string blank and a non-blank one non-blank. */
  lemma TrimLower(s: string)
    ensures Lower(Trim(s)) == Trim(Lower(s))
    ensures AllSpace(Lower(s)) <==> AllSpace(s)
  {
    var l := Lower(s);
    AllSpaceLower(s);
    LowerKeepsSpaces(s);
    SkipSpacesAgree(s, l, 0);
    SkipSpacesBackAgree(s, l, |s|);
    if TrimStart(s) < TrimEnd(s) {
      SliceLower(s, TrimStart(s), TrimEnd(s));
    }
  }

  lemma AllSpaceLower(s: string)
    ensures AllSpace(Lower(s)) <==> AllSpace(s)
  {
    var l := Lower(s);
    LowerKeepsSpaces(s);
    if !AllSpace(s) {
      var k :| 0 <= k < |s| && !IsSpace(s[k]);
      assert !IsSpace(l[k]);
    }
  }

  lemma SliceLower(s: string, i: nat, j: nat)
    requires i <= j <= |s|
    ensures Lower(s[i..j]) == Lower(s)[i..j]
  {
  }

  /** `s.includes(q)`, by checking each starting position in turn. */
  predicate Contains(s: string, q: string)
    decreases |s|
  {
    if |q| > |s| then false
    else if s[..|q|] == q then true
    else Contains(s[1..], q)
  }

  /** `q` occurs in `s` starting at position `i`. */
  predicate OccursAt(s: string, q: string, i: int)
  {
    0 <= i <= |s| - |q| && s[i..i + |q|] == q
  }

  /** `Contains` holds exactly when `q` occurs in `s` at some position. */
  lemma {:induction false} ContainsIff(s: string, q: string)
    ensures Contains(s, q) <==> exists i :: OccursAt(s, q, i)
    decreases |s|
  {
    if |q| > |s| {
    } else if s[..|q|] == q {
      assert OccursAt(s, q, 0);
    } else {
      ContainsIff(s[1..], q);
      if Contains(s[1..], q) {
        var i :| OccursAt(s[1..], q, i);
        assert s[i + 1..i + 1 + |q|] == s[1..][i..i + |q|];
        assert OccursAt(s, q, i + 1);
      }
      if exists i :: OccursAt(s, q, i) {
        var i :| OccursAt(s, q, i);
        assert i != 0;
        assert s[1..][i - 1..i - 1 + |q|] == s[i..i + |q|];
        assert OccursAt(s[1..], q, i - 1);
      }
    }
  }
}
