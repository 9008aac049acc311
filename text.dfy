/** String helpers with the meaning Python gives them: `sub in s`, `s.count(sub)`,
    `s.strip()`, `s.lower()` and `sep.join(parts)`. Strings are sequences of characters. */
module Text {

  /** Python's `str.isspace` for one character: the Unicode characters whose
      bidirectional class is WS, B or S, or whose category is Zs. */
  predicate IsSpace(c: char) {
    || ('\U{0009}' <= c <= '\U{000D}')
    || ('\U{001C}' <= c <= '\U{001F}')
    || c == ' ' || c == '\U{0085}' || c == '\U{00A0}' || c == '\U{1680}'
    || ('\U{2000}' <= c <= '\U{200A}')
    || c == '\U{2028}' || c == '\U{2029}' || c == '\U{202F}' || c == '\U{205F}' || c == '\U{3000}'
  }

  /** ASCII digit, the digits `\d` and `int()` are modelled with. */
  predicate IsDigit(c: char) {
    '0' <= c <= '9'
  }

  /** `str.lower()` restricted to ASCII capitals. */
  function LowerChar(c: char): (r: char)
    ensures 'A' <= c <= 'Z' ==> 'a' <= r <= 'z'
    ensures !('A' <= c <= 'Z') ==> r == c
  {
    if 'A' <= c <= 'Z' then (c as int + 32) as char else c
  }

  function Lower(s: string): (r: string)
    ensures |r| == |s|
    ensures forall i :: 0 <= i < |s| ==> r[i] == LowerChar(s[i])
  {
    if s == [] then [] else [LowerChar(s[0])] + Lower(s[1..])
  }

  /** `pat in text`: some window of `text` equals `pat` (the empty pattern is in every text). */
  predicate Contains(text: string, pat: string)
    decreases |text|
  {
    |pat| <= |text| && (text[..|pat|] == pat || Contains(text[1..], pat))
  }

  /** `pat` occurs at position `i` of `text`. */
  predicate OccursAt(text: string, pat: string, i: int) {
    0 <= i && i + |pat| <= |text| && text[i..i + |pat|] == pat
  }

  lemma {:induction false} ContainsIffOccurs(text: string, pat: string)
    ensures Contains(text, pat) <==> exists i :: OccursAt(text, pat, i)
    decreases |text|
  {
    if |pat| <= |text| {
      if text[..|pat|] == pat {
        assert OccursAt(text, pat, 0);
      } else {
        ContainsIffOccurs(text[1..], pat);
        if Contains(text[1..], pat) {
          var i :| OccursAt(text[1..], pat, i);
          assert text[1..][i..i + |pat|] == text[i + 1..i + 1 + |pat|];
          assert OccursAt(text, pat, i + 1);
        }
        if i :| OccursAt(text, pat, i) {
          assert i != 0;
          assert text[1..][i - 1..i - 1 + |pat|] == text[i..i + |pat|];
          assert OccursAt(text[1..], pat, i - 1);
        }
      }
    }
  }

  /** A window of a part is a window of the whole text. */
  lemma ContainsInfix(pre: string, mid: string, post: string, pat: string)
    requires Contains(mid, pat)
    ensures Contains(pre + mid + post, pat)
  {
    ContainsIffOccurs(mid, pat);
    var i :| OccursAt(mid, pat, i);
    var whole := pre + mid + post;
    assert whole[|pre| + i..|pre| + i + |pat|] == mid[i..i + |pat|];
    assert OccursAt(whole, pat, |pre| + i);
    ContainsIffOccurs(whole, pat);
  }

  /** `text.count(pat)`: non-overlapping occurrences scanned left to right; the
      empty pattern is counted once per position, `|text| + 1` times. */
  function Count(text: string, pat: string): nat
    decreases |text|
  {
    if pat == [] then |text| + 1
    else if |text| < |pat| then 0
    else if text[..|pat|] == pat then 1 + Count(text[|pat|..], pat)
    else Count(text[1..], pat)
  }

  /** A non-empty pattern is counted at all exactly when it is contained. */
  lemma {:induction false} CountPositiveIffContains(text: string, pat: string)
    requires pat != []
    ensures Count(text, pat) > 0 <==> Contains(text, pat)
    decreases |text|
  {
    if |pat| <= |text| && text[..|pat|] != pat {
      CountPositiveIffContains(text[1..], pat);
    }
  }

  /** Non-overlapping occurrences of a non-empty pattern cannot outnumber its length's share of the text. */
  lemma {:induction false} CountBound(text: string, pat: string)
    requires pat != []
    ensures Count(text, pat) * |pat| <= |text|
    decreases |text|
  {
    if |pat| <= |text| {
      if text[..|pat|] == pat {
        var rest := text[|pat|..];
        CountBound(rest, pat);
        OneMoreTimes(Count(rest, pat), |pat|);
      } else {
        CountBound(text[1..], pat);
        assert Count(text, pat) == Count(text[1..], pat);
      }
    } else {
      assert Count(text, pat) == 0;
    }
  }

  lemma OneMoreTimes(c: nat, p: nat)
    ensures (1 + c) * p == p + c * p
  {
  }

  /** `sep.join(parts)`. */
  function Join(sep: string, parts: seq<string>): string
    decreases |parts|
  {
    if parts == [] then ""
    else if |parts| == 1 then parts[0]
    else Join(sep, parts[..|parts| - 1]) + sep + parts[|parts| - 1]
  }

  /** Joining one more part appends the separator and the part, so a join of
      a longer list extends the join of its prefix. */
  lemma JoinSnoc(sep: string, parts: seq<string>, p: string)
    requires parts != []
    ensures Join(sep, parts + [p]) == Join(sep, parts) + sep + p
  {
    assert (parts + [p])[..|parts|] == parts;
  }

  /** A join of a non-empty list begins with its first part. */
  lemma {:induction false} JoinStartsWithFirst(sep: string, parts: seq<string>)
    requires parts != []
    ensures |parts[0]| <= |Join(sep, parts)| && Join(sep, parts)[..|parts[0]|] == parts[0]
    decreases |parts|
  {
    if |parts| > 1 {
      var init := parts[..|parts| - 1];
      JoinStartsWithFirst(sep, init);
      assert init[0] == parts[0];
    }
  }

  /** The length of a join is the parts' lengths plus one separator between each two. */
  function TotalLength(parts: seq<string>): nat {
    if parts == [] then 0 else TotalLength(parts[..|parts| - 1]) + |parts[|parts| - 1]|
  }

  lemma {:induction false} JoinLength(sep: string, parts: seq<string>)
    requires parts != []
    ensures |Join(sep, parts)| == TotalLength(parts) + (|parts| - 1) * |sep|
    decreases |parts|
  {
    if |parts| > 1 {
      JoinLength(sep, parts[..|parts| - 1]);
      var init := parts[..|parts| - 1];
      assert init[..|init| - 1] == parts[..|parts| - 2];
      assert TotalLength(init) == TotalLength(parts[..|parts| - 2]) + |init[|init| - 1]|;
    } else {
      assert parts[..0] == [];
    }
  }

  /** Position after the leading whitespace of `s[i..]`. */
  function SkipSpace(s: string, i: nat): (j: nat)
    requires i <= |s|
    ensures i <= j <= |s|
    ensures forall k :: i <= k < j ==> IsSpace(s[k])
    ensures j < |s| ==> !IsSpace(s[j])
    decreases |s| - i
  {
    if i < |s| && IsSpace(s[i]) then SkipSpace(s, i + 1) else i
  }

  /** End of `s[..j]` once its trailing whitespace is dropped, never below `lo`. */
  function DropSpace(s: string, lo: nat, j: nat): (e: nat)
    requires lo <= j <= |s|
    ensures lo <= e <= j
    ensures forall k :: e <= k < j ==> IsSpace(s[k])
    ensures e > lo ==> !IsSpace(s[e - 1])
    decreases j
  {
    if j > lo && IsSpace(s[j - 1]) then DropSpace(s, lo, j - 1) else j
  }

  /** `s.strip()`: the longest infix of `s` that neither begins nor ends with whitespace,
      reached by removing whitespace from both ends only. */
  function Strip(s: string): (r: string)
    ensures r == [] || (!IsSpace(r[0]) && !IsSpace(r[|r| - 1]))
  {
    var i := SkipSpace(s, 0);
    var j := DropSpace(s, i, |s|);
    assert j > i ==> !IsSpace(s[i]);
    s[i..j]
  }

  /** What `Strip` removes is whitespace at the two ends only. */
  lemma StripInfix(s: string)
    ensures exists i, j :: 0 <= i <= j <= |s| && Strip(s) == s[i..j]
              && (forall k :: 0 <= k < i ==> IsSpace(s[k]))
              && (forall k :: j <= k < |s| ==> IsSpace(s[k]))
  {
    var i := SkipSpace(s, 0);
    var j := DropSpace(s, i, |s|);
    assert Strip(s) == s[i..j];
  }

  /** The text with no non-space character strips to "". */
  lemma StripAllSpace(s: string)
    requires forall k :: 0 <= k < |s| ==> IsSpace(s[k])
    ensures Strip(s) == []
  {
  }

  /** Stripping twice is stripping once. */
  lemma StripIdempotent(s: string)
    ensures Strip(Strip(s)) == Strip(s)
  {
    var r := Strip(s);
    if r != [] {
      assert SkipSpace(r, 0) == 0;
      assert DropSpace(r, 0, |r|) == |r|;
      assert r[0..|r|] == r;
    }
  }

  /** The first `k` entries of `s`, or all of them. */
  function Take<T>(s: seq<T>, k: nat): (r: seq<T>)
    ensures |r| == if k <= |s| then k else |s|
    ensures forall i :: 0 <= i < |r| ==> r[i] == s[i]
  {
    if |s| <= k then s else s[..k]
  }
}
