/**
 * The few Python string built-ins the layout editor relies on:
 * `str.lower`, `str.strip`, `str.split()`, `in` on strings,
 * `str.startswith` and `f"{n}"` for integers. Whitespace is Python's;
 * letters, digits and case mapping are ASCII's.
 */
module Text {

  /**
   * Python's `str.isspace`, the whitespace `strip()` and `split()` remove:
   * tab to carriage return, the four separators U+001C..U+001F, space, and
   * the Unicode spaces and line separators.
   */
  predicate IsSpace(c: char) {
    if c < '\U{0085}' then '\t' <= c <= '\r' || '\U{001C}' <= c <= ' ' else IsWideSpace(c)
  }

  /** The whitespace characters beyond ASCII. */
  predicate IsWideSpace(c: char) {
    || c == '\U{0085}' || c == '\U{00A0}' || c == '\U{1680}'
    || '\U{2000}' <= c <= '\U{200A}'
    || c == '\U{2028}' || c == '\U{2029}' || c == '\U{202F}' || c == '\U{205F}' || c == '\U{3000}'
  }

  predicate IsUpper(c: char) { 'A' <= c <= 'Z' }
  predicate IsLowerLetter(c: char) { 'a' <= c <= 'z' }
  predicate IsDigit(c: char) { '0' <= c <= '9' }
  predicate IsAlpha(c: char) { IsUpper(c) || IsLowerLetter(c) }
  predicate IsAlnum(c: char) { IsAlpha(c) || IsDigit(c) }

  function LowerChar(c: char): char {
    if IsUpper(c) then (c as int + 32) as char else c
  }

  function UpperChar(c: char): char {
    if IsLowerLetter(c) then (c as int - 32) as char else c
  }

  /** `s.lower()`. */
  function Lower(s: string): (r: string)
    ensures |r| == |s|
    ensures forall i :: 0 <= i < |s| ==> r[i] == LowerChar(s[i])
  {
    if s == [] then [] else [LowerChar(s[0])] + Lower(s[1..])
  }

  /** `s.lstrip()`: the suffix left after the leading whitespace. */
  function StripLeft(s: string): (r: string)
    ensures |r| <= |s| && r == s[|s| - |r|..]
    ensures r == [] || !IsSpace(r[0])
  {
    if s != [] && IsSpace(s[0]) then StripLeft(s[1..]) else s
  }

  /** `s.lstrip()` removes only whitespace. */
  lemma {:induction false} StripLeftRemoves(s: string)
    ensures forall i :: 0 <= i < |s| - |StripLeft(s)| ==> IsSpace(s[i])
    decreases |s|
  {
    if s != [] && IsSpace(s[0]) {
      StripLeftRemoves(s[1..]);
      assert forall i :: 1 <= i < |s| ==> s[i] == s[1..][i - 1];
    }
  }

  /** `s.rstrip()`: the prefix left before the trailing whitespace. */
  function StripRight(s: string): (r: string)
    ensures |r| <= |s| && r == s[..|r|]
    ensures r == [] || !IsSpace(r[|r| - 1])
  {
    if s != [] && IsSpace(s[|s| - 1]) then StripRight(s[..|s| - 1]) else s
  }

  /** `s.rstrip()` removes only whitespace. */
  lemma {:induction false} StripRightRemoves(s: string)
    ensures forall i :: |StripRight(s)| <= i < |s| ==> IsSpace(s[i])
    decreases |s|
  {
    if s != [] && IsSpace(s[|s| - 1]) {
      var t := s[..|s| - 1];
      StripRightRemoves(t);
      assert forall i :: 0 <= i < |t| ==> s[i] == t[i];
    }
  }

  /** `s.strip()`: the piece of `s` between its leading and trailing whitespace. */
  function Strip(s: string): (r: string)
    ensures r == [] || (!IsSpace(r[0]) && !IsSpace(r[|r| - 1]))
  {
    StripRight(StripLeft(s))
  }

  /** `s.strip()` keeps a slice of `s` and removes only whitespace on either side of it. */
  lemma StripSlice(s: string)
    ensures var r, k := Strip(s), |s| - |StripLeft(s)|;
      && k + |r| <= |s| && (forall i :: 0 <= i < |r| ==> r[i] == s[k + i])
      && (forall i :: 0 <= i < k ==> IsSpace(s[i]))
      && (forall i :: k + |r| <= i < |s| ==> IsSpace(s[i]))
  {
    var left := StripLeft(s);
    StripLeftRemoves(s);
    StripRightRemoves(left);
    SpaceAround(s, left, Strip(s));
  }

  /**
   * A prefix `r` of a suffix `t` of `s` is a slice of `s`; whitespace
   * before `t` in `s` and after `r` in `t` is whitespace around the slice.
   */
  lemma SpaceAround(s: string, t: string, r: string)
    requires |t| <= |s| && t == s[|s| - |t|..] && |r| <= |t| && r == t[..|r|]
    requires forall i :: 0 <= i < |s| - |t| ==> IsSpace(s[i])
    requires forall i :: |r| <= i < |t| ==> IsSpace(t[i])
    ensures var k := |s| - |t|;
      && k + |r| <= |s| && (forall i :: 0 <= i < |r| ==> r[i] == s[k + i])
      && (forall i :: 0 <= i < k ==> IsSpace(s[i]))
      && (forall i :: k + |r| <= i < |s| ==> IsSpace(s[i]))
  {
    var k := |s| - |t|;
    forall i | k + |r| <= i < |s|
      ensures IsSpace(s[i])
    {
      assert s[i] == t[i - k];
    }
  }

  /**
   * `s.strip(c)` for a single character `c`: the piece of `s` left when the
   * runs of `c` at either end are removed, so it neither starts nor ends
   * with `c`.
   */
  function StripChar(s: string, c: char): (r: string)
    ensures r == [] || (r[0] != c && r[|r| - 1] != c)
    ensures (s == [] || (s[0] != c && s[|s| - 1] != c)) ==> r == s
  {
    StripCharRight(StripCharLeft(s, c), c)
  }

  /** `s.strip(c)` keeps a slice of `s` and removes only `c` on either side of it. */
  lemma StripCharSlice(s: string, c: char)
    ensures var r, k := StripChar(s, c), |s| - |StripCharLeft(s, c)|;
      && k + |r| <= |s| && (forall i :: 0 <= i < |r| ==> r[i] == s[k + i])
      && (forall i :: 0 <= i < k ==> s[i] == c)
      && (forall i :: k + |r| <= i < |s| ==> s[i] == c)
  {
    var left := StripCharLeft(s, c);
    StripCharLeftRemoves(s, c);
    StripCharRightRemoves(left, c);
    CharAround(s, left, StripChar(s, c), c);
  }

  /** As `SpaceAround`, for runs of one character `c`. */
  lemma CharAround(s: string, t: string, r: string, c: char)
    requires |t| <= |s| && t == s[|s| - |t|..] && |r| <= |t| && r == t[..|r|]
    requires forall i :: 0 <= i < |s| - |t| ==> s[i] == c
    requires forall i :: |r| <= i < |t| ==> t[i] == c
    ensures var k := |s| - |t|;
      && k + |r| <= |s| && (forall i :: 0 <= i < |r| ==> r[i] == s[k + i])
      && (forall i :: 0 <= i < k ==> s[i] == c)
      && (forall i :: k + |r| <= i < |s| ==> s[i] == c)
  {
    var k := |s| - |t|;
    forall i | k + |r| <= i < |s|
      ensures s[i] == c
    {
      assert s[i] == t[i - k];
    }
  }

  /** Stripping keeps a piece of the string, so a property of every character still holds. */
  lemma StripCharKeeps(s: string, c: char, p: char -> bool)
    requires forall j :: 0 <= j < |s| ==> p(s[j])
    ensures forall j :: 0 <= j < |StripChar(s, c)| ==> p(StripChar(s, c)[j])
  {
    StripCharSlice(s, c);
  }

  /** Stripping `c` leaves nothing exactly when every character is `c`. */
  lemma StripCharEmpty(s: string, c: char)
    ensures StripChar(s, c) == [] <==> forall i :: 0 <= i < |s| ==> s[i] == c
  {
    StripCharSlice(s, c);
  }

  /** `s.lstrip(c)`: the suffix left after the leading run of `c`. */
  function StripCharLeft(s: string, c: char): (r: string)
    ensures |r| <= |s| && r == s[|s| - |r|..]
    ensures r == [] || r[0] != c
  {
    if s != [] && s[0] == c then StripCharLeft(s[1..], c) else s
  }

  /** `s.lstrip(c)` removes only `c`. */
  lemma {:induction false} StripCharLeftRemoves(s: string, c: char)
    ensures forall i :: 0 <= i < |s| - |StripCharLeft(s, c)| ==> s[i] == c
    decreases |s|
  {
    if s != [] && s[0] == c {
      StripCharLeftRemoves(s[1..], c);
      assert forall i :: 1 <= i < |s| ==> s[i] == s[1..][i - 1];
    }
  }

  /** `s.rstrip(c)`: the prefix left before the trailing run of `c`. */
  function StripCharRight(s: string, c: char): (r: string)
    ensures |r| <= |s| && r == s[..|r|]
    ensures r == [] || r[|r| - 1] != c
  {
    if s != [] && s[|s| - 1] == c then StripCharRight(s[..|s| - 1], c) else s
  }

  /** `s.rstrip(c)` removes only `c`. */
  lemma {:induction false} StripCharRightRemoves(s: string, c: char)
    ensures forall i :: |StripCharRight(s, c)| <= i < |s| ==> s[i] == c
    decreases |s|
  {
    if s != [] && s[|s| - 1] == c {
      var t := s[..|s| - 1];
      StripCharRightRemoves(t, c);
      assert forall i :: 0 <= i < |t| ==> s[i] == t[i];
    }
  }

  /** `s.replace(a, b)` for single characters. */
  function ReplaceChar(s: string, a: char, b: char): (r: string)
    ensures |r| == |s|
    ensures forall i :: 0 <= i < |s| ==> r[i] == (if s[i] == a then b else s[i])
  {
    seq(|s|, i requires 0 <= i < |s| => if s[i] == a then b else s[i])
  }

  /**
   * `s.title()` once a character before `s` has been seen: a letter after a
   * letter is lower-cased, a letter after anything else upper-cased.
   */
  function TitleAfter(s: string, afterLetter: bool): (r: string)
    ensures |r| == |s|
    ensures forall i :: 0 <= i < |s| ==> IsAlpha(r[i]) == IsAlpha(s[i])
    ensures forall i :: 0 <= i < |s| ==>
      r[i] == if (i == 0 && !afterLetter) || (i > 0 && !IsAlpha(s[i - 1])) then UpperChar(s[i]) else LowerChar(s[i])
  {
    if s == [] then []
    else
      var c := if afterLetter then LowerChar(s[0]) else UpperChar(s[0]);
      [c] + TitleAfter(s[1..], IsAlpha(s[0]))
  }

  /** `s.title()`. */
  function Title(s: string): string {
    TitleAfter(s, false)
  }

  /** Title-casing twice changes nothing more. */
  lemma {:induction false} TitleAfterIdempotent(s: string, afterLetter: bool)
    ensures TitleAfter(TitleAfter(s, afterLetter), afterLetter) == TitleAfter(s, afterLetter)
    decreases |s|
  {
    if s != [] {
      var t := TitleAfter(s, afterLetter);
      assert t[1..] == TitleAfter(s[1..], IsAlpha(s[0]));
      assert IsAlpha(t[0]) == IsAlpha(s[0]);
      TitleAfterIdempotent(s[1..], IsAlpha(s[0]));
    }
  }

  /** The longest prefix of `s` holding no whitespace. */
  function Word(s: string): string {
    if s == [] || IsSpace(s[0]) then [] else [s[0]] + Word(s[1..])
  }

  /** `s.split()`: the maximal runs of non-whitespace characters, in order. */
  function Split(s: string): seq<string>
    decreases |s|
  {
    var t := StripLeft(s);
    if t == [] then []
    else
      WordLength(t);
      [Word(t)] + Split(t[|Word(t)|..])
  }

  lemma WordLength(s: string)
    requires s != [] && !IsSpace(s[0])
    ensures 0 < |Word(s)| <= |s|
  {
  }

  /** A non-empty string holding no whitespace. */
  predicate IsWord(w: string) {
    w != [] && NoSpace(w)
  }

  /** `w` holds no whitespace. */
  predicate NoSpace(w: string) {
    w == [] || (!IsSpace(w[0]) && NoSpace(w[1..]))
  }

  /** No whitespace at the front, at every position. */
  lemma {:induction false} NoSpaceAll(w: string)
    ensures NoSpace(w) <==> forall i :: 0 <= i < |w| ==> !IsSpace(w[i])
    decreases |w|
  {
    if w != [] {
      NoSpaceAll(w[1..]);
      assert forall i :: 1 <= i < |w| ==> w[i] == w[1..][i - 1];
    }
  }

  /** The word at the front of `w + rest` is `w` when `rest` is empty or starts with whitespace. */
  lemma {:induction false} WordOfPrefix(w: string, rest: string)
    requires NoSpace(w)
    requires rest == [] || IsSpace(rest[0])
    ensures Word(w + rest) == w
    decreases |w|
  {
    if w == [] {
      assert w + rest == rest;
    } else {
      assert (w + rest)[1..] == w[1..] + rest;
      WordOfPrefix(w[1..], rest);
    }
  }

  /** Leading whitespace does not change the split. */
  lemma SplitSpace(rest: string)
    ensures Split(" " + rest) == Split(rest)
  {
    assert (" " + rest)[1..] == rest;
  }

  /** A single word splits into itself. */
  lemma SplitWord(w: string)
    requires IsWord(w)
    ensures Split(w) == [w]
  {
    assert w + [] == w;
    WordOfPrefix(w, []);
    assert w[|w|..] == [];
  }

  /** A word, a space and more text split into the word and the split of the rest. */
  lemma SplitWordThen(w: string, rest: string)
    requires IsWord(w)
    ensures Split(w + " " + rest) == [w] + Split(rest)
  {
    var s := w + " " + rest;
    assert s == w + (" " + rest);
    WordOfPrefix(w, " " + rest);
    assert StripLeft(s) == s;
    assert s[|w|..] == " " + rest;
    SplitSpace(rest);
  }

  /** `" ".join(words).split()` gives the words back. */
  lemma {:induction false} SplitJoin(words: seq<string>)
    requires forall k :: 0 <= k < |words| ==> IsWord(words[k])
    ensures Split(Join(" ", words)) == words
    decreases |words|
  {
    if words == [] {
      assert Join(" ", words) == [];
    } else if |words| == 1 {
      assert Join(" ", words) == words[0];
      SplitWord(words[0]);
      assert [words[0]] == words;
    } else {
      var rest := words[1..];
      assert forall k :: 0 <= k < |rest| ==> rest[k] == words[k + 1];
      SplitJoin(rest);
      HeadTail(words);
      SplitJoinFront(words[0], rest);
    }
  }

  /** A non-empty sequence is its head followed by its tail. */
  lemma HeadTail<T>(s: seq<T>)
    requires s != []
    ensures s == [s[0]] + s[1..]
  {
  }

  /** One more word in front of a join that splits back. */
  lemma SplitJoinFront(w: string, rest: seq<string>)
    requires IsWord(w) && rest != [] && Split(Join(" ", rest)) == rest
    ensures Split(Join(" ", [w] + rest)) == [w] + rest
  {
    var j := Join(" ", rest);
    assert ([w] + rest)[1..] == rest;
    assert Join(" ", [w] + rest) == w + " " + j;
    SplitWordThen(w, j);
  }

  /** `prefix` starts `s`: `s.startswith(prefix)`. */
  predicate StartsWith(s: string, prefix: string) {
    |prefix| <= |s| && s[..|prefix|] == prefix
  }

  /** `needle in haystack` for strings. */
  predicate Contains(haystack: string, needle: string) {
    exists i | 0 <= i <= |haystack| - |needle| :: OccursAt(haystack, needle, i)
  }

  /** `needle` occurs in `haystack` starting at position `i`. */
  predicate OccursAt(haystack: string, needle: string, i: int) {
    0 <= i <= |haystack| - |needle| && haystack[i..i + |needle|] == needle
  }

  /** `sep.join(parts)`. */
  function Join(sep: string, parts: seq<string>): string {
    if parts == [] then []
    else if |parts| == 1 then parts[0]
    else parts[0] + sep + Join(sep, parts[1..])
  }

  /** A join starts with its first part. */
  lemma JoinStartsWithFirst(parts: seq<string>)
    requires parts != [] && parts[0] != []
    ensures Join(" ", parts) != [] && Join(" ", parts)[0] == parts[0][0]
  {
  }

  /** Joining a part in front of more parts puts a space between it and their join. */
  lemma JoinFront(w: string, rest: seq<string>)
    requires rest != []
    ensures Join(" ", [w] + rest) == w + " " + Join(" ", rest)
  {
    assert ([w] + rest)[1..] == rest;
  }

  /** A join ends with its last part. */
  lemma {:induction false} JoinEndsWithLast(parts: seq<string>)
    requires parts != [] && parts[|parts| - 1] != []
    ensures var j := Join(" ", parts); j != [] && j[|j| - 1] == parts[|parts| - 1][|parts[|parts| - 1]| - 1]
    decreases |parts|
  {
    if |parts| > 1 {
      assert parts[1..][|parts| - 2] == parts[|parts| - 1];
      JoinEndsWithLast(parts[1..]);
    }
  }

  /** Words joined by single spaces have no surrounding whitespace to strip. */
  lemma JoinOfWordsStripped(words: seq<string>)
    requires words != [] && forall k :: 0 <= k < |words| ==> IsWord(words[k])
    ensures Strip(Join(" ", words)) == Join(" ", words)
  {
    assert IsWord(words[0]) && IsWord(words[|words| - 1]);
    JoinBetweenWordsStripped(words);
  }

  /** Parts whose first and last are words join into a string that is its own strip. */
  lemma JoinBetweenWordsStripped(words: seq<string>)
    requires words != [] && IsWord(words[0]) && IsWord(words[|words| - 1])
    ensures Strip(Join(" ", words)) == Join(" ", words)
  {
    var j := Join(" ", words);
    var first, last := words[0], words[|words| - 1];
    assert !IsSpace(first[0]) && !IsSpace(last[|last| - 1]) by {
      WordEndsNotSpace(first);
      WordEndsNotSpace(last);
    }
    assert j != [] && j[0] == first[0] && j[|j| - 1] == last[|last| - 1] by {
      JoinStartsWithFirst(words);
      JoinEndsWithLast(words);
    }
    StrippedAlready(j);
  }

  /** A word neither starts nor ends with whitespace. */
  lemma WordEndsNotSpace(w: string)
    requires IsWord(w)
    ensures !IsSpace(w[0]) && !IsSpace(w[|w| - 1])
  {
    NoSpaceAll(w);
  }

  /** A string with no whitespace at either end is its own strip. */
  lemma StrippedAlready(s: string)
    requires s == [] || (!IsSpace(s[0]) && !IsSpace(s[|s| - 1]))
    ensures Strip(s) == s
  {
    assert StripLeft(s) == s;
  }

  /** A string without capitals is its own lower case. */
  lemma LowerAlready(s: string)
    requires forall i :: 0 <= i < |s| ==> !IsUpper(s[i])
    ensures Lower(s) == s
  {
    assert forall i :: 0 <= i < |s| ==> Lower(s)[i] == s[i];
  }

  /** Every piece of a split is a word. */
  lemma {:induction false} SplitWords(s: string)
    ensures forall k :: 0 <= k < |Split(s)| ==> IsWord(Split(s)[k])
    decreases |s|
  {
    var t := StripLeft(s);
    if t != [] {
      WordLength(t);
      WordNoSpace(t);
      var rest := t[|Word(t)|..];
      SplitWords(rest);
      var r := Split(s);
      assert r == [Word(t)] + Split(rest);
      forall k | 0 <= k < |r|
        ensures IsWord(r[k])
      {
        if k > 0 {
          assert r[k] == Split(rest)[k - 1];
        }
      }
    }
  }

  /** The word at the front of a string holds no whitespace. */
  lemma {:induction false} WordNoSpace(s: string)
    ensures NoSpace(Word(s))
    decreases |s|
  {
    if s != [] && !IsSpace(s[0]) {
      WordNoSpace(s[1..]);
      assert ([s[0]] + Word(s[1..]))[1..] == Word(s[1..]);
    }
  }

  /** A string that starts with a non-space character splits into at least one word, the first one at the front. */
  lemma SplitFront(s: string)
    requires s != [] && !IsSpace(s[0])
    ensures Split(s) != [] && Split(s)[0] == Word(s)
  {
  }

  /** A string found in one of the parts is found in their join. */
  lemma {:induction false} ContainsJoinPart(sep: string, parts: seq<string>, k: nat, needle: string)
    requires k < |parts| && Contains(parts[k], needle)
    ensures Contains(Join(sep, parts), needle)
    decreases |parts|
  {
    var whole := Join(sep, parts);
    if k == 0 {
      var i: int :| OccursAt(parts[0], needle, i);
      assert OccursAt(parts[0], needle, i);
      assert whole[..|parts[0]|] == parts[0];
      assert whole[i..i + |needle|] == parts[0][i..i + |needle|];
      assert OccursAt(whole, needle, i);
    } else {
      var rest := Join(sep, parts[1..]);
      ContainsJoinPart(sep, parts[1..], k - 1, needle);
      var i: int :| OccursAt(rest, needle, i);
      assert OccursAt(rest, needle, i);
      var offset := |parts[0]| + |sep|;
      assert |parts| > 1;
      assert whole == parts[0] + sep + rest;
      assert whole[offset + i..offset + i + |needle|] == rest[i..i + |needle|];
      assert OccursAt(whole, needle, offset + i);
    }
  }

  function DigitChar(d: nat): char
    requires d < 10
  {
    ('0' as int + d) as char
  }

  /** The decimal digits of a natural number, as `f"{n}"` writes them. */
  function NatToString(n: nat): (r: string)
    ensures |r| > 0
    ensures forall i :: 0 <= i < |r| ==> IsDigit(r[i])
    ensures n < 10 <==> |r| == 1
  {
    if n < 10 then [DigitChar(n)] else NatToString(n / 10) + [DigitChar(n % 10)]
  }

  /** `f"{n}"` for any integer: a leading `-` for negative values. */
  function IntToString(n: int): (r: string)
    ensures |r| > 0
    ensures forall i :: 0 <= i < |r| ==> r[i] == '-' || IsDigit(r[i])
  {
    if n < 0 then "-" + NatToString(-n) else NatToString(n)
  }

  /** Different numbers are written differently. */
  lemma {:induction false} NatToStringInjective(a: nat, b: nat)
    requires a != b
    ensures NatToString(a) != NatToString(b)
  {
    var ra, rb := NatToString(a), NatToString(b);
    if a >= 10 && b >= 10 {
      assert ra[..|ra| - 1] == NatToString(a / 10);
      assert rb[..|rb| - 1] == NatToString(b / 10);
      if a / 10 != b / 10 {
        NatToStringInjective(a / 10, b / 10);
      } else {
        assert ra[|ra| - 1] != rb[|rb| - 1];
      }
    }
  }
}
