/** String operations the source uses, on ASCII letters. */
module Text {
  function LowerChar(c: char): char {
    if 'A' <= c <= 'Z' then ((c as int) + 32) as char else c
  }

  function Lower(s: string): (r: string)
    ensures |r| == |s|
    ensures forall i :: 0 <= i < |s| ==> r[i] == LowerChar(s[i])
  {
    seq(|s|, i requires 0 <= i < |s| => LowerChar(s[i]))
  }

  function UpperChar(c: char): char {
    if 'a' <= c <= 'z' then ((c as int) - 32) as char else c
  }

  function Upper(s: string): string {
    seq(|s|, i requires 0 <= i < |s| => UpperChar(s[i]))
  }

  predicate IsSpace(c: char) {
    c == ' ' || '\t' <= c <= '\r'
  }

  function StripLeft(s: string): string {
    if s != "" && IsSpace(s[0]) then StripLeft(s[1..]) else s
  }

  function StripRight(s: string): string {
    if s != "" && IsSpace(s[|s| - 1]) then StripRight(s[..|s| - 1]) else s
  }

  function Strip(s: string): string {
    StripRight(StripLeft(s))
  }

  /** `s.find(c)`, or the length of `s` when `c` is absent. */
  function Find(s: string, c: char): (n: nat)
    ensures n <= |s|
    ensures forall i :: 0 <= i < n ==> s[i] != c
    ensures n < |s| ==> s[n] == c
  {
    if s == "" || s[0] == c then 0 else 1 + Find(s[1..], c)
  }

  /** `s.split(c, 1)[0]`: the part of `s` before the first `c`, or all of `s`. */
  function Before(s: string, c: char): string {
    s[..Find(s, c)]
  }

  /** `s.split(c, 1)[1]`: the part of `s` after the first `c`, or nothing. */
  function After(s: string, c: char): string {
    if Find(s, c) < |s| then s[Find(s, c) + 1..] else ""
  }

  lemma SplitFirst(a: string, c: char, b: string)
    requires c !in a
    ensures Before(a + [c] + b, c) == a
    ensures After(a + [c] + b, c) == b
  {
    var s := a + [c] + b;
    assert forall i :: 0 <= i < |a| ==> s[i] == a[i] && a[i] in a;
    assert s[|a|] == c;
    assert Find(s, c) == |a|;
  }

  lemma NothingToSplit(a: string, c: char)
    requires c !in a
    ensures Before(a, c) == a
  {
    assert forall i :: 0 <= i < |a| ==> a[i] in a;
  }

  function TrimSlashes(s: string): string {
    if s != "" && s[|s| - 1] == '/' then TrimSlashes(s[..|s| - 1]) else s
  }

  /** The number of characters up to and including the last `c`; 0 when there is none. */
  function PastLast(s: string, c: char): (n: nat)
    ensures n <= |s|
    ensures c !in s[n..]
    ensures n > 0 ==> s[n - 1] == c
  {
    if s == "" then 0
    else if s[|s| - 1] == c then |s|
    else
      var n := PastLast(s[..|s| - 1], c);
      assert s[n..] == s[..|s| - 1][n..] + [s[|s| - 1]];
      n
  }

  /** `needle in text`. */
  predicate Contains(text: string, needle: string) {
    needle <= text || (text != "" && Contains(text[1..], needle))
  }

  predicate OccursAt(text: string, needle: string, k: int) {
    0 <= k <= |text| - |needle| && text[k..k + |needle|] == needle
  }

  lemma OccursLater(text: string, needle: string, k: int)
    requires text != "" && k > 0
    ensures OccursAt(text, needle, k) <==> OccursAt(text[1..], needle, k - 1)
  {
    if k <= |text| - |needle| {
      assert text[k..k + |needle|] == text[1..][k - 1..k - 1 + |needle|];
    }
  }

  lemma OccursFirst(text: string, needle: string)
    ensures OccursAt(text, needle, 0) <==> needle <= text
  {}

  /** Containment is occurrence at some place. */
  lemma {:induction false} ContainsMeans(text: string, needle: string)
    ensures Contains(text, needle) <==> exists k :: OccursAt(text, needle, k)
  {
    OccursFirst(text, needle);
    if !(needle <= text) && text != "" {
      ContainsMeans(text[1..], needle);
      forall k | OccursAt(text, needle, k) ensures OccursAt(text[1..], needle, k - 1) {
        OccursLater(text, needle, k);
      }
      forall k | OccursAt(text[1..], needle, k) ensures OccursAt(text, needle, k + 1) {
        OccursLater(text, needle, k + 1);
      }
    }
  }

  /** Blank, tab, line feed, vertical tab, form feed, carriage return. */
  predicate White(c: char) {
    c == ' ' || c == '\t' || c == '\n' || c == 11 as char || c == 12 as char || c == '\r'
  }

  predicate AllWhite(s: string) {
    forall k :: 0 <= k < |s| ==> White(s[k])
  }

  lemma {:induction false} StripLeftRemoves(a: string, rest: string)
    requires AllWhite(a) && (rest != "" ==> !White(rest[0]))
    ensures StripLeft(a + rest) == rest
  {
    if a != "" {
      StripLeftRemoves(a[1..], rest);
      assert (a + rest)[1..] == a[1..] + rest;
    } else {
      assert a + rest == rest;
    }
  }

  lemma {:induction false} StripRightRemoves(rest: string, b: string)
    requires AllWhite(b) && (rest != "" ==> !White(rest[|rest| - 1]))
    ensures StripRight(rest + b) == rest
  {
    if b != "" {
      StripRightRemoves(rest, b[..|b| - 1]);
      assert (rest + b)[..|rest + b| - 1] == rest + b[..|b| - 1];
    } else {
      assert rest + b == rest;
    }
  }

  /** Stripping removes the white space at both ends, all of it and nothing else. */
  lemma StripRemovesEnds(a: string, rest: string, b: string)
    requires AllWhite(a) && AllWhite(b)
    requires rest != "" ==> !White(rest[0]) && !White(rest[|rest| - 1])
    ensures Strip(a + rest + b) == rest
  {
    if rest == "" {
      assert a + rest + b == (a + b) + "";
      StripLeftRemoves(a + b, "");
      assert StripRight("") == "";
    } else {
      assert a + rest + b == a + (rest + b);
      StripLeftRemoves(a, rest + b);
      StripRightRemoves(rest, b);
    }
  }

  /** Only slashes at the end are trimmed, and all of them. */
  lemma {:induction false} TrimRemovesSlashes(rest: string, slashes: string)
    requires rest != "" ==> rest[|rest| - 1] != '/'
    requires forall k :: 0 <= k < |slashes| ==> slashes[k] == '/'
    ensures TrimSlashes(rest + slashes) == rest
  {
    if slashes != "" {
      TrimRemovesSlashes(rest, slashes[..|slashes| - 1]);
      assert (rest + slashes)[..|rest + slashes| - 1] == rest + slashes[..|slashes| - 1];
    } else {
      assert rest + slashes == rest;
    }
  }
}
