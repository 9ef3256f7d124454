/** The JavaScript string operations the dashboard relies on, over ASCII: case mapping, `includes`,
    `split`, `join`, `trim`, `replace` and number-to-text conversion. Non-ASCII characters are
    left unchanged by the case mappings and are never whitespace. */
module Strings {

  // ---------------------------------------------------------------------------------------------
  // Characters
  // ---------------------------------------------------------------------------------------------

  predicate IsUpper(c: char) { 'A' <= c <= 'Z' }

  predicate IsLower(c: char) { 'a' <= c <= 'z' }

  predicate IsDigit(c: char) { '0' <= c <= '9' }

  /** A character of the regular-expression class `\w`: `[A-Za-z0-9_]`. */
  predicate IsWordChar(c: char) { IsUpper(c) || IsLower(c) || IsDigit(c) || c == '_' }

  /** The ASCII part of what `String.prototype.trim` removes. */
  predicate IsSpace(c: char) {
    c == ' ' || c == '\t' || c == '\n' || c == '\r' || c == '\U{000B}' || c == '\U{000C}'
  }

  function LowerChar(c: char): (r: char)
    ensures !IsUpper(r)
    ensures IsUpper(c) ==> IsLower(r) && r as int == c as int + 32
    ensures !IsUpper(c) ==> r == c
  {
    if IsUpper(c) then (c as int + 32) as char else c
  }

  function UpperChar(c: char): (r: char)
    ensures !IsLower(r)
    ensures IsLower(c) ==> IsUpper(r) && r as int == c as int - 32
    ensures !IsLower(c) ==> r == c
  {
    if IsLower(c) then (c as int - 32) as char else c
  }

  /** `s.toLowerCase()`. */
  function ToLower(s: string): (r: string)
    ensures |r| == |s|
    ensures forall i :: 0 <= i < |s| ==> r[i] == LowerChar(s[i])
  {
    seq(|s|, i requires 0 <= i < |s| => LowerChar(s[i]))
  }

  lemma ToLowerConcat(a: string, b: string)
    ensures ToLower(a + b) == ToLower(a) + ToLower(b)
  {
  }

  /** Upper-casing a character and then lower-casing it gives the same as lower-casing it. */
  lemma LowerOfUpper(c: char)
    ensures LowerChar(UpperChar(c)) == LowerChar(c)
  {
  }

  /** `s.charAt(0).toUpperCase() + s.slice(1)`. */
  function Capitalize(s: string): (r: string)
    ensures |r| == |s|
    ensures |s| > 0 ==> r[0] == UpperChar(s[0]) && r[1..] == s[1..]
  {
    if |s| == 0 then "" else [UpperChar(s[0])] + s[1..]
  }

  // ---------------------------------------------------------------------------------------------
  // Substrings
  // ---------------------------------------------------------------------------------------------

  /** `k` occurs in `s` starting at index `i`. */
  predicate OccursAt(s: string, k: string, i: int) {
    0 <= i && i + |k| <= |s| && s[i..i + |k|] == k
  }

  /** `s.includes(k)`. */
  predicate Includes(s: string, k: string) {
    exists i | 0 <= i <= |s| - |k| :: OccursAt(s, k, i)
  }

  lemma IncludesAt(s: string, k: string, i: int)
    requires OccursAt(s, k, i)
    ensures Includes(s, k)
  {
  }

  lemma IncludesEmpty(s: string)
    ensures Includes(s, "")
  {
    assert OccursAt(s, "", 0);
  }

  /** A text includes every piece it is glued together from. */
  lemma IncludesMiddle(a: string, k: string, b: string)
    ensures Includes(a + k + b, k)
  {
    assert (a + k + b)[|a|..|a| + |k|] == k;
    IncludesAt(a + k + b, k, |a|);
  }

  lemma IncludesSuffix(a: string, k: string)
    ensures Includes(a + k, k)
  {
    assert (a + k)[|a|..|a| + |k|] == k;
    IncludesAt(a + k, k, |a|);
  }

  /** A prefix of a text stays a prefix when the text grows at its end. */
  lemma PrefixExtend(a: string, x: string, y: string)
    requires a <= x
    ensures a <= x + y
  {
    assert (x + y)[..|a|] == x[..|a|];
  }

  lemma IncludesPrefix(k: string, s: string)
    requires k <= s
    ensures Includes(s, k)
  {
    assert s[0..|k|] == k;
    IncludesAt(s, k, 0);
  }

  lemma IncludesExtendRight(a: string, b: string, k: string)
    requires Includes(a, k)
    ensures Includes(a + b, k)
  {
    var i :| 0 <= i <= |a| - |k| && OccursAt(a, k, i);
    assert (a + b)[i..i + |k|] == a[i..i + |k|];
    IncludesAt(a + b, k, i);
  }

  lemma IncludesExtendLeft(a: string, b: string, k: string)
    requires Includes(b, k)
    ensures Includes(a + b, k)
  {
    var i :| 0 <= i <= |b| - |k| && OccursAt(b, k, i);
    assert (a + b)[|a| + i..|a| + i + |k|] == b[i..i + |k|];
    IncludesAt(a + b, k, |a| + i);
  }

  /** Substring containment is transitive: a text that includes `m` includes everything `m` does. */
  lemma IncludesTransitive(s: string, m: string, k: string)
    requires Includes(s, m) && Includes(m, k)
    ensures Includes(s, k)
  {
    var i :| 0 <= i <= |s| - |m| && OccursAt(s, m, i);
    var j :| 0 <= j <= |m| - |k| && OccursAt(m, k, j);
    forall t | 0 <= t < |k|
      ensures s[i + j + t] == k[t]
    {
      assert s[i..i + |m|][j + t] == m[j + t];
      assert m[j..j + |k|][t] == k[t];
    }
    assert s[i + j..i + j + |k|] == k;
    IncludesAt(s, k, i + j);
  }

  /** A keyword with a character the text lacks does not occur in it. */
  lemma NotIncludesMissingChar(s: string, k: string, j: int)
    requires 0 <= j < |k| && k[j] !in s
    ensures !Includes(s, k)
  {
  }

  /** A keyword longer than the text does not occur in it. */
  lemma NotIncludesLonger(s: string, k: string)
    requires |s| < |k|
    ensures !Includes(s, k)
  {
  }

  /** A keyword without spaces occurs in two words joined by a space only if it occurs in one. */
  lemma NotIncludesAcrossSpace(a: string, b: string, k: string)
    requires ' ' !in k && !Includes(a, k) && !Includes(b, k)
    ensures !Includes(a + " " + b, k)
  {
    var s := a + " " + b;
    forall i | 0 <= i <= |s| - |k|
      ensures !OccursAt(s, k, i)
    {
      if i + |k| <= |a| {
        assert !OccursAt(a, k, i);
        assert s[i..i + |k|] == a[i..i + |k|];
      } else if i > |a| {
        var j := i - |a| - 1;
        assert !OccursAt(b, k, j);
        assert s[i..i + |k|] == b[j..j + |k|];
      } else {
        assert s[i..i + |k|][|a| - i] == ' ';
      }
    }
  }

  // ---------------------------------------------------------------------------------------------
  // split, join, trim, replace
  // ---------------------------------------------------------------------------------------------

  /** The text before the first `c`: `s.split(c)[0]`. */
  function TakeUntil(s: string, c: char): (r: string)
    ensures r <= s && c !in r
    ensures |r| < |s| ==> s[|r|] == c
  {
    if |s| == 0 || s[0] == c then "" else [s[0]] + TakeUntil(s[1..], c)
  }

  /** `s.split(c)` for a one-character separator: the pieces between the occurrences of `c`. */
  function Split(s: string, c: char): (parts: seq<string>)
    ensures |parts| > 0
    ensures forall i :: 0 <= i < |parts| ==> c !in parts[i]
    decreases |s|
  {
    var head := TakeUntil(s, c);
    if |head| == |s| then [s] else [head] + Split(s[|head| + 1..], c)
  }

  /** `parts.join(sep)`. */
  function Join(parts: seq<string>, sep: string): string {
    if |parts| == 0 then ""
    else if |parts| == 1 then parts[0]
    else parts[0] + sep + Join(parts[1..], sep)
  }

  /** Splitting on a character and joining with it again gives the original text back. */
  lemma {:induction false} JoinSplit(s: string, c: char)
    ensures Join(Split(s, c), [c]) == s
    decreases |s|
  {
    var head := TakeUntil(s, c);
    var parts := Split(s, c);
    if |head| < |s| {
      var rest := s[|head| + 1..];
      JoinSplit(rest, c);
      assert parts == [head] + Split(rest, c);
      assert parts[0] == head && parts[1..] == Split(rest, c) && |parts| >= 2;
      assert Join(parts, [c]) == head + [c] + Join(Split(rest, c), [c]);
      assert s == head + [c] + rest;
    } else {
      assert head == s && parts == [s];
    }
  }

  predicate AllSpace(t: string) {
    forall k :: 0 <= k < |t| ==> IsSpace(t[k])
  }

  /** The first index at or after `i` that does not hold whitespace (`|s|` when there is none). */
  function SkipSpaces(s: string, i: nat): (j: nat)
    requires i <= |s|
    ensures i <= j <= |s|
    ensures forall k :: i <= k < j ==> IsSpace(s[k])
    ensures j < |s| ==> !IsSpace(s[j])
    decreases |s| - i
  {
    if i < |s| && IsSpace(s[i]) then SkipSpaces(s, i + 1) else i
  }

  /** The end of `s[lo..hi]` once trailing whitespace is dropped. */
  function DropTrailingSpaces(s: string, lo: nat, hi: nat): (e: nat)
    requires lo <= hi <= |s|
    ensures lo <= e <= hi
    ensures forall k :: e <= k < hi ==> IsSpace(s[k])
    ensures e > lo ==> !IsSpace(s[e - 1])
  {
    if hi > lo && IsSpace(s[hi - 1]) then DropTrailingSpaces(s, lo, hi - 1) else hi
  }

  /** `s.trim()`: the middle of `s` once whitespace is dropped from both ends. */
  function Trim(s: string): (r: string)
    ensures exists i :: TrimmedAt(s, r, i)
    ensures |r| > 0 ==> !IsSpace(r[0]) && !IsSpace(r[|r| - 1])
  {
    var i := SkipSpaces(s, 0);
    var e := DropTrailingSpaces(s, i, |s|);
    TrimBothEnds(s, i, e);
    s[i..e]
  }

  /** Whitespace before `i` and from `e` on leaves `s[i..e]` as the trimmed middle. */
  lemma TrimBothEnds(s: string, i: nat, e: nat)
    requires i <= e <= |s|
    requires forall k :: 0 <= k < i ==> IsSpace(s[k])
    requires forall k :: e <= k < |s| ==> IsSpace(s[k])
    ensures TrimmedAt(s, s[i..e], i)
  {
    assert forall k :: 0 <= k < i ==> s[..i][k] == s[k];
    assert forall k :: 0 <= k < |s| - e ==> s[e..][k] == s[e + k];
  }

  /** `r` is `s` with `i` leading and some trailing whitespace characters removed. */
  predicate TrimmedAt(s: string, r: string, i: int) {
    0 <= i && i + |r| <= |s| && r == s[i..i + |r|] && AllSpace(s[..i]) && AllSpace(s[i + |r|..])
  }

  /** A character the text does not contain is not in any trimmed piece of it. */
  lemma TrimKeepsAbsence(s: string, c: char)
    requires c !in s
    ensures c !in Trim(s)
  {
    var r := Trim(s);
    var i :| TrimmedAt(s, r, i);
    assert forall k :: 0 <= k < |r| ==> r[k] == s[i + k];
  }

  /** `s.replace(/a/g, b)` for single characters. */
  function ReplaceAll(s: string, a: char, b: char): (r: string)
    ensures |r| == |s|
    ensures forall i :: 0 <= i < |s| ==> r[i] == (if s[i] == a then b else s[i])
  {
    seq(|s|, i requires 0 <= i < |s| => if s[i] == a then b else s[i])
  }

  /** `s.replace(c, '')` with a string pattern: only the FIRST occurrence of `c` is removed. */
  function RemoveFirst(s: string, c: char): (r: string)
    ensures c !in s ==> r == s
    ensures c in s ==> exists i :: FirstAt(s, c, i) && r == s[..i] + s[i + 1..]
  {
    var head := TakeUntil(s, c);
    if |head| == |s| then s
    else
      assert FirstAt(s, c, |head|) by { assert s[..|head|] == head; }
      head + s[|head| + 1..]
  }

  /** `s.replace(a, b)` with a one-character string pattern: only the FIRST `a` becomes `b`. */
  function ReplaceFirst(s: string, a: char, b: char): (r: string)
    ensures |r| == |s|
    ensures a !in s ==> r == s
    ensures a in s ==> exists i :: FirstAt(s, a, i) && r == s[..i] + [b] + s[i + 1..]
  {
    var head := TakeUntil(s, a);
    if |head| == |s| then s
    else
      assert FirstAt(s, a, |head|) by { assert s[..|head|] == head; }
      head + [b] + s[|head| + 1..]
  }

  /** Index `i` starts a word: `\b\w` matches there (a word character with none before it). */
  predicate WordStart(s: string, i: int)
    requires 0 <= i < |s|
  {
    IsWordChar(s[i]) && (i == 0 || !IsWordChar(s[i - 1]))
  }

  /** The characters at word starts upper-cased, every other character kept. */
  function UpperWordStarts(s: string): (r: string)
    ensures |r| == |s|
  {
    seq(|s|, i requires 0 <= i < |s| => if WordStart(s, i) then UpperChar(s[i]) else s[i])
  }

  /** `s.replace(/\b\w/g, c => c.toUpperCase())`: the first character of every word upper-cased,
      every other character left as it is. */
  function TitleCase(s: string): (r: string)
    ensures |r| == |s|
    ensures ToLower(r) == ToLower(s)
    ensures forall i :: 0 <= i < |s| ==> (IsWordChar(r[i]) <==> IsWordChar(s[i]))
    ensures forall i :: 0 <= i < |s| && WordStart(s, i) ==> !IsLower(r[i])
    ensures forall i :: 0 <= i < |s| && !WordStart(s, i) ==> r[i] == s[i]
  {
    var r := UpperWordStarts(s);
    assert forall i :: 0 <= i < |s| ==> LowerChar(r[i]) == LowerChar(s[i]) by {
      forall i | 0 <= i < |s| ensures LowerChar(r[i]) == LowerChar(s[i]) {
        LowerOfUpper(s[i]);
      }
    }
    r
  }

  /** A non-empty run of word characters. */
  predicate IsWord(w: string) {
    |w| > 0 && forall i :: 0 <= i < |w| ==> IsWordChar(w[i])
  }

  /** A single word only gets its first character capitalised. */
  lemma TitleCaseWord(w: string)
    requires IsWord(w)
    ensures TitleCase(w) == Capitalize(w)
  {
    assert forall i :: 0 < i < |w| ==> !WordStart(w, i);
    assert TitleCase(w) == UpperWordStarts(w);
  }

  lemma UpperWordStartsSplit(a: string, c: char, b: string)
    requires !IsWordChar(c)
    ensures UpperWordStarts(a + [c] + b) == UpperWordStarts(a) + [c] + UpperWordStarts(b)
  {
    var s := a + [c] + b;
    var lhs := UpperWordStarts(s);
    var rhs := UpperWordStarts(a) + [c] + UpperWordStarts(b);
    forall i | 0 <= i < |s|
      ensures lhs[i] == rhs[i]
    {
      if i < |a| {
        assert WordStart(s, i) == WordStart(a, i);
      } else if i > |a| {
        var j := i - |a| - 1;
        assert s[i] == b[j];
        assert WordStart(s, i) == WordStart(b, j);
      }
    }
  }

  /** Text on either side of a non-word character is capitalised independently. */
  lemma TitleCaseSplit(a: string, c: char, b: string)
    requires !IsWordChar(c)
    ensures TitleCase(a + [c] + b) == TitleCase(a) + [c] + TitleCase(b)
  {
    UpperWordStartsSplit(a, c, b);
    assert TitleCase(a + [c] + b) == UpperWordStarts(a + [c] + b);
    assert TitleCase(a) == UpperWordStarts(a);
    assert TitleCase(b) == UpperWordStarts(b);
  }

  /** The text before the first `c` of `a + [c] + rest` is `a` when `a` has no `c`. */
  lemma {:induction false} TakeUntilAfter(a: string, c: char, rest: string)
    requires c !in a
    ensures TakeUntil(a + [c] + rest, c) == a
  {
    if |a| == 0 {
      assert a + [c] + rest == [c] + rest;
    } else {
      assert (a + [c] + rest)[1..] == a[1..] + [c] + rest;
      TakeUntilAfter(a[1..], c, rest);
    }
  }

  /** Replacing the first `c` touches exactly the first occurrence. */
  lemma ReplaceFirstAfter(a: string, c: char, b: char, rest: string)
    requires c !in a
    ensures ReplaceFirst(a + [c] + rest, c, b) == a + [b] + rest
  {
    var s := a + [c] + rest;
    TakeUntilAfter(a, c, rest);
    assert s[|a| + 1..] == rest;
  }

  /** Upper-casing word starts a second time changes nothing. */
  lemma TitleCaseIdempotent(s: string)
    ensures TitleCase(TitleCase(s)) == TitleCase(s)
  {
    var r := TitleCase(s);
    assert forall i :: 0 <= i < |s| ==> (WordStart(r, i) <==> WordStart(s, i));
  }

  /** Index `i` holds the first `c` of `s`. */
  predicate FirstAt(s: string, c: char, i: int) {
    0 <= i < |s| && s[i] == c && c !in s[..i]
  }

  // ---------------------------------------------------------------------------------------------
  // Numbers as text
  // ---------------------------------------------------------------------------------------------

  function DigitChar(d: int): (c: char)
    requires 0 <= d < 10
    ensures IsDigit(c)
  {
    ('0' as int + d) as char
  }

  /** Decimal digits of a natural number, without leading zeros. */
  function NatToString(n: nat): (r: string)
    ensures |r| > 0
    ensures forall i :: 0 <= i < |r| ==> IsDigit(r[i])
    ensures n < 10 <==> |r| == 1
  {
    if n < 10 then [DigitChar(n)] else NatToString(n / 10) + [DigitChar(n % 10)]
  }

  /** `String(n)` for an integer-valued number. */
  function IntToString(n: int): (r: string)
    ensures |r| > 0
    ensures n < 0 <==> r[0] == '-'
  {
    if n < 0 then "-" + NatToString(-n) else NatToString(n)
  }
}
