/** The operations of Go's `strings` package that the reference parsers use. */
module Text {

  /** The index of the first `c` at or after `from`, or the length of `s` when there is none. */
  function FindFrom(s: string, c: char, from: nat): (i: nat)
    requires from <= |s|
    ensures from <= i <= |s|
    ensures i < |s| ==> s[i] == c
    ensures forall k | from <= k < i :: s[k] != c
    decreases |s| - from
  {
    if from == |s| || s[from] == c then from else FindFrom(s, c, from + 1)
  }

  function Find(s: string, c: char): nat {
    FindFrom(s, c, 0)
  }

  /** The index of the last `c` before `to`, or -1 when there is none. */
  function FindLast(s: string, c: char, to: nat): (i: int)
    requires to <= |s|
    ensures -1 <= i < to
    ensures i >= 0 ==> s[i] == c
    ensures forall k | i < k < to :: s[k] != c
  {
    if to == 0 then -1 else if s[to - 1] == c then to - 1 else FindLast(s, c, to - 1)
  }

  /** The pieces between the occurrences of `c`. */
  function Split(s: string, c: char): (pieces: seq<string>)
    ensures pieces != []
    ensures !Lacks(s, c) ==> |pieces| >= 2
    decreases |s|
  {
    var i := Find(s, c);
    if i == |s| then [s] else [s[..i]] + Split(s[i + 1..], c)
  }

  function LowerChar(c: char): char {
    if 'A' <= c <= 'Z' then (c as int + 32) as char else c
  }

  function ToLower(s: string): string {
    seq(|s|, i requires 0 <= i < |s| => LowerChar(s[i]))
  }

  predicate IsLower(s: string) {
    forall i | 0 <= i < |s| :: !('A' <= s[i] <= 'Z')
  }

  predicate Lacks(s: string, c: char) {
    forall i | 0 <= i < |s| :: s[i] != c
  }

  function Join(parts: seq<string>, sep: string): string
    requires |parts| >= 1
  {
    if |parts| == 1 then parts[0] else parts[0] + sep + Join(parts[1..], sep)
  }

  lemma LacksIff(s: string, c: char)
    ensures Lacks(s, c) <==> c !in s
    ensures Lacks(s, c) <==> Find(s, c) == |s|
  {
  }

  /** The first `c` of a text is the first `c` of its head, if there is one in the head. */
  lemma FindInHead(a: string, c: char, b: string)
    requires !Lacks(a, c)
    ensures Find(a + b, c) == Find(a, c) < |a|
    ensures (a + b)[..Find(a, c)] == a[..Find(a, c)]
  {
    var s, i := a + b, Find(a + b, c);
    assert s[Find(a, c)] == c;
    assert i < |a| ==> s[i] == a[i];
  }

  /** Cutting at the first `c` undoes joining with `c`. */
  lemma CutJoined(a: string, c: char, b: string)
    requires Lacks(a, c)
    ensures var s := a + [c] + b; Find(s, c) == |a| && s[..|a|] == a && s[|a| + 1..] == b
  {
    var s := a + [c] + b;
    assert s[|a|] == c;
    assert forall k | 0 <= k < |a| :: s[k] == a[k];
  }

  /** Splitting at `c` undoes joining with `c` up to the next `c`. */
  lemma SplitJoined(a: string, c: char, b: string)
    requires Lacks(a, c)
    ensures var pieces := Split(a + [c] + b, c);
            |pieces| >= 2 && pieces[0] == a && pieces[1] == b[..Find(b, c)]
  {
    CutJoined(a, c, b);
    assert Split(a + [c] + b, c) == [a] + Split(b, c);
  }

  lemma FindLastJoined(a: string, c: char, b: string)
    requires Lacks(b, c)
    ensures var s := a + [c] + b; FindLast(s, c, |s|) == |a| && s[..|a|] == a && s[|a| + 1..] == b
  {
    var s := a + [c] + b;
    assert s[|a|] == c;
    assert forall k | |a| < k < |s| :: s[k] == b[k - |a| - 1];
  }

  /** Cutting at the first `c` leaves `head` exactly when the text starts with `head` and `c`. */
  lemma CutIff(head: string, c: char, s: string)
    requires Lacks(head, c)
    ensures (Find(s, c) < |s| && s[..Find(s, c)] == head) <==> head + [c] <= s
    ensures head + [c] <= s ==> Find(s, c) == |head|
  {
    var i := Find(s, c);
    assert i < |s| ==> s[..i + 1] == s[..i] + [c];
    if head + [c] <= s {
      CutJoined(head, c, s[|head| + 1..]);
      assert s == head + [c] + s[|head| + 1..];
    }
  }

  lemma PrefixTrans(a: string, b: string, s: string)
    ensures a + b <= s ==> a <= s
  {
    if a + b <= s {
      assert s[..|a|] == (a + b)[..|a|] == a;
    }
  }

  lemma LowerFixed(s: string)
    ensures ToLower(s) == s <==> IsLower(s)
  {
    if !IsLower(s) {
      var i :| 0 <= i < |s| && 'A' <= s[i] <= 'Z';
      assert ToLower(s)[i] != s[i];
    }
  }

  const UPPER := "ABCDEFGHIJKLMNOPQRSTUVWXYZ"
  const LOWER := "abcdefghijklmnopqrstuvwxyz"

  /** Each upper-case letter becomes the lower-case letter at its place in the alphabet. */
  lemma LetterLowers(i: nat)
    requires i < 26
    ensures |UPPER| == |LOWER| == 26 && LowerChar(UPPER[i]) == LOWER[i]
  {
    assert UPPER[i] as int == 65 + i && LOWER[i] as int == 97 + i;
  }

  /** Lowering a text keeps its length, and keeps every character that is no upper-case letter. */
  lemma ToLowerIs(s: string, k: nat)
    requires k < |s|
    ensures |ToLower(s)| == |s|
    ensures s[k] !in UPPER ==> ToLower(s)[k] == s[k]
    ensures forall i: nat | i < |UPPER| && s[k] == UPPER[i] :: i < |LOWER| && ToLower(s)[k] == LOWER[i]
  {
    hide LowerChar, UPPER, LOWER;
    OthersStay(s[k]);
    forall i: nat | i < |UPPER| && s[k] == UPPER[i] ensures i < |LOWER| && ToLower(s)[k] == LOWER[i] {
      assert |UPPER| == 26 by { Alphabets(); }
      LetterLowers(i);
    }
  }

  lemma Alphabets()
    ensures |UPPER| == |LOWER| == 26
  {
  }

  lemma OthersStay(c: char)
    ensures c !in UPPER ==> LowerChar(c) == c
  {
    if 'A' <= c <= 'Z' { assert UPPER[c as int - 65] == c; }
  }

  /** The pieces hold no separator, and joining them gives the text back. */
  lemma {:induction false} SplitPieces(s: string, c: char)
    ensures forall piece | piece in Split(s, c) :: Lacks(piece, c)
    ensures Join(Split(s, c), [c]) == s
    decreases |s|
  {
    var i := Find(s, c);
    if i < |s| {
      SplitPieces(s[i + 1..], c);
      var rest := Split(s[i + 1..], c);
      assert Split(s, c)[0] == s[..i] && Split(s, c)[1..] == rest;
      assert s == s[..i] + [c] + s[i + 1..];
    }
  }

  /** Pieces without a separator are recovered from the joined text. */
  lemma {:induction false} JoinSplits(parts: seq<string>, c: char)
    requires parts != [] && forall piece | piece in parts :: Lacks(piece, c)
    ensures Split(Join(parts, [c]), c) == parts
    decreases |parts|
  {
    if |parts| == 1 {
      LacksIff(parts[0], c);
      assert parts == [parts[0]];
    } else {
      assert parts[0] in parts && forall piece | piece in parts[1..] :: piece in parts;
      JoinSplits(parts[1..], c);
      CutJoined(parts[0], c, Join(parts[1..], [c]));
      assert parts == [parts[0]] + parts[1..];
    }
  }
}
