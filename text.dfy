/** String helpers standing in for the parts of Go's `strings`, `unicode`
    and `fmt` packages that the client relies on: lower-casing, trimming
    white space, joining with a separator (and splitting, its inverse) and
    printing an integer in decimal (and parsing it back). */
module Text {

  // ---------------------------------------------------------------------
  // Lower-casing (strings.ToLower)
  // ---------------------------------------------------------------------

  /** unicode.ToLower, for every character whose lower-case form is an
      ASCII character: the ASCII capitals, U+0130 (capital I with dot
      above), which becomes `i`, and U+212A (Kelvin sign), which becomes
      `k`. Every other character is left as it is. */
  function LowerChar(c: char): char {
    if 'A' <= c <= 'Z' then (c as int - 'A' as int + 'a' as int) as char
    else if c == '\U{0130}' then 'i'
    else if c == '\U{212A}' then 'k'
    else c
  }

  /** strings.ToLower, character by character. */
  function ToLower(s: string): (r: string)
    ensures |r| == |s|
  {
    if s == [] then [] else [LowerChar(s[0])] + ToLower(s[1..])
  }

  /** Lower-casing works character by character. */
  lemma {:induction false} ToLowerAt(s: string, i: nat)
    requires i < |s|
    ensures ToLower(s)[i] == LowerChar(s[i])
  {
    if i > 0 {
      ToLowerAt(s[1..], i - 1);
    }
  }

  /** The characters lower-casing changes. */
  predicate IsUpper(c: char) {
    'A' <= c <= 'Z' || c == '\U{0130}' || c == '\U{212A}'
  }

  /** No character of `s` is changed by lower-casing. */
  predicate NoUpper(s: string) {
    forall i :: 0 <= i < |s| ==> !IsUpper(s[i])
  }

  /** Lower-casing leaves a string without upper-case letters alone, and
      only such strings. */
  lemma ToLowerFixes(s: string)
    ensures ToLower(s) == s <==> NoUpper(s)
  {
    if ToLower(s) == s {
      forall i | 0 <= i < |s| ensures !IsUpper(s[i]) {
        ToLowerAt(s, i);
      }
    }
    if NoUpper(s) {
      forall i | 0 <= i < |s| ensures ToLower(s)[i] == s[i] {
        ToLowerAt(s, i);
      }
    }
  }

  /** `s` consists of lower-case ASCII letters only. */
  predicate LowerLetters(s: string) {
    forall i :: 0 <= i < |s| ==> 'a' <= s[i] <= 'z'
  }

  /** The spellings of the lower-case letter `l`: the letter itself, its
      ASCII capital, and the non-ASCII capitals U+0130 for `i` and U+212A
      for `k`. */
  predicate CaseVariant(c: char, l: char) {
    c == l || c as int == l as int - 32 || (l == 'i' && c == '\U{0130}') || (l == 'k' && c == '\U{212A}')
  }

  /** `s` spells the lower-case word `name` letter by letter, each letter
      in any of its spellings. */
  predicate SpelledAs(s: string, name: string) {
    |s| == |name| && forall i :: 0 <= i < |s| ==> CaseVariant(s[i], name[i])
  }

  /** The characters lower-casing turns into a given lower-case letter are
      exactly its spellings. */
  lemma LowerCharToLetter(c: char, l: char)
    requires 'a' <= l <= 'z'
    ensures LowerChar(c) == l <==> CaseVariant(c, l)
  {
  }

  /** A string lower-cases to a lower-case word exactly when it spells that
      word, in both directions. */
  lemma ToLowerIffSpelledAs(s: string, name: string)
    requires LowerLetters(name)
    ensures ToLower(s) == name <==> SpelledAs(s, name)
  {
    if ToLower(s) == name {
      forall i | 0 <= i < |s| ensures CaseVariant(s[i], name[i]) {
        ToLowerAt(s, i);
        LowerCharToLetter(s[i], name[i]);
      }
    }
    if SpelledAs(s, name) {
      forall i | 0 <= i < |s| ensures ToLower(s)[i] == name[i] {
        ToLowerAt(s, i);
        LowerCharToLetter(s[i], name[i]);
      }
    }
  }

  // ---------------------------------------------------------------------
  // Trimming white space (strings.TrimSpace)
  // ---------------------------------------------------------------------

  /** The characters unicode.IsSpace accepts: the Latin-1 spaces plus the
      other characters with the Unicode White_Space property. */
  const Spaces: set<char> := {
    '\t', '\n', '\U{000B}', '\U{000C}', '\r', ' ', '\U{0085}', '\U{00A0}', '\U{1680}',
    '\U{2000}', '\U{2001}', '\U{2002}', '\U{2003}', '\U{2004}', '\U{2005}', '\U{2006}',
    '\U{2007}', '\U{2008}', '\U{2009}', '\U{200A}',
    '\U{2028}', '\U{2029}', '\U{202F}', '\U{205F}', '\U{3000}'
  }

  /** unicode.IsSpace. */
  predicate IsSpace(c: char) {
    c in Spaces
  }

  /** Lower-case ASCII letters are not white space. */
  lemma LetterIsNotSpace(c: char)
    requires 'a' <= c <= 'z'
    ensures !IsSpace(c)
  {
  }

  predicate AllSpace(s: string) {
    forall i :: 0 <= i < |s| ==> IsSpace(s[i])
  }

  /** `s` is empty or neither starts nor ends with white space. */
  predicate Trimmed(s: string) {
    s == [] || (!IsSpace(s[0]) && !IsSpace(s[|s| - 1]))
  }

  /** Number of white-space characters `s` starts with. */
  function LeadingSpace(s: string): (n: nat)
    ensures n <= |s|
    ensures forall i :: 0 <= i < n ==> IsSpace(s[i])
    ensures n == |s| || !IsSpace(s[n])
  {
    if s != [] && IsSpace(s[0]) then 1 + LeadingSpace(s[1..]) else 0
  }

  /** Number of white-space characters `s` ends with. */
  function TrailingSpace(s: string): (n: nat)
    ensures n <= |s|
    ensures forall i :: |s| - n <= i < |s| ==> IsSpace(s[i])
    ensures n == |s| || !IsSpace(s[|s| - 1 - n])
  {
    if s != [] && IsSpace(s[|s| - 1]) then 1 + TrailingSpace(s[..|s| - 1]) else 0
  }

  /** strings.TrimSpace: drops the leading white space, then the trailing
      white space of what is left. */
  function TrimSpace(s: string): (r: string)
    ensures Trimmed(r)
  {
    var rest := s[LeadingSpace(s)..];
    rest[..|rest| - TrailingSpace(rest)]
  }

  lemma {:induction false} LeadingSpaceOf(pre: string, t: string)
    requires AllSpace(pre)
    requires t == [] || !IsSpace(t[0])
    ensures LeadingSpace(pre + t) == |pre|
    decreases |pre|
  {
    if pre != [] {
      assert (pre + t)[1..] == pre[1..] + t;
      LeadingSpaceOf(pre[1..], t);
    }
  }

  lemma {:induction false} TrailingSpaceOf(t: string, post: string)
    requires AllSpace(post)
    requires t == [] || !IsSpace(t[|t| - 1])
    ensures TrailingSpace(t + post) == |post|
    decreases |post|
  {
    if post != [] {
      assert (t + post)[..|t + post| - 1] == t + post[..|post| - 1];
      TrailingSpaceOf(t, post[..|post| - 1]);
    }
  }

  /** TrimSpace is determined by the decomposition it undoes: whenever `s`
      is white space, then a trimmed core, then white space, the result is
      that core. */
  lemma TrimSpaceOfPadded(pre: string, core: string, post: string)
    requires AllSpace(pre) && AllSpace(post) && Trimmed(core)
    ensures TrimSpace(pre + core + post) == core
  {
    var s := pre + core + post;
    if core == [] {
      assert s == (pre + post) + [];
      LeadingSpaceOf(pre + post, []);
      assert s[LeadingSpace(s)..] == [];
    } else {
      assert s == pre + (core + post);
      LeadingSpaceOf(pre, core + post);
      assert s[LeadingSpace(s)..] == core + post;
      TrailingSpaceOf(core, post);
      assert (core + post)[..|core|] == core;
    }
  }

  /** Every string is white space, its trimmed form, then white space. */
  lemma TrimSpaceSplits(s: string) returns (pre: string, post: string)
    ensures s == pre + TrimSpace(s) + post
    ensures AllSpace(pre) && AllSpace(post)
  {
    var start := LeadingSpace(s);
    var rest := s[start..];
    var stop := |rest| - TrailingSpace(rest);
    pre, post := s[..start], rest[stop..];
    assert AllSpace(pre) by {
      forall i | 0 <= i < |pre| ensures IsSpace(pre[i]) {
        assert pre[i] == s[i];
      }
    }
    assert AllSpace(post) by {
      forall i | 0 <= i < |post| ensures IsSpace(post[i]) {
        assert post[i] == rest[stop + i];
      }
    }
    assert TrimSpace(s) == rest[..stop];
    SplitInThree(s, start, stop);
  }

  /** Cutting a sequence at two points and gluing the pieces back gives
      the sequence. */
  lemma SplitInThree<T>(s: seq<T>, start: nat, stop: nat)
    requires start <= |s| && stop <= |s| - start
    ensures s == s[..start] + s[start..][..stop] + s[start..][stop..]
  {
    var rest := s[start..];
    assert rest == rest[..stop] + rest[stop..];
    assert s == s[..start] + rest;
    ConcatAssoc(s[..start], rest[..stop], rest[stop..]);
  }

  /** Trimming twice is trimming once. */
  lemma TrimSpaceIdempotent(s: string)
    ensures TrimSpace(TrimSpace(s)) == TrimSpace(s)
  {
    TrimSpaceOfPadded([], TrimSpace(s), []);
    assert [] + TrimSpace(s) + [] == TrimSpace(s);
  }

  /** Appending white space does not change the trimmed form. */
  lemma TrimSpaceIgnoresTrailingSpace(s: string, extra: string)
    requires AllSpace(extra)
    ensures TrimSpace(s + extra) == TrimSpace(s)
  {
    var pre, post := TrimSpaceSplits(s);
    assert s + extra == pre + TrimSpace(s) + (post + extra);
    TrimSpaceOfPadded(pre, TrimSpace(s), post + extra);
  }

  // ---------------------------------------------------------------------
  // Joining and splitting (strings.Join, strings.Split)
  // ---------------------------------------------------------------------

  /** strings.Join with a one-character separator. */
  function Join(parts: seq<string>, sep: char): string {
    if |parts| == 0 then ""
    else if |parts| == 1 then parts[0]
    else parts[0] + [sep] + Join(parts[1..], sep)
  }

  /** Concatenation regroups freely. */
  lemma ConcatAssoc<T>(a: seq<T>, b: seq<T>, c: seq<T>)
    ensures a + b + c == a + (b + c)
  {
  }

  /** A character missing from both halves is missing from the whole. */
  lemma NotInConcat(a: string, b: string, c: char)
    requires c !in a && c !in b
    ensures c !in a + b
  {
  }

  /** Joining one more piece adds a separator and that piece. */
  lemma {:induction false} JoinSnoc(parts: seq<string>, last: string, sep: char)
    requires |parts| >= 1
    ensures Join(parts + [last], sep) == Join(parts, sep) + [sep] + last
    decreases |parts|
  {
    if |parts| == 1 {
      assert (parts + [last])[1..] == [last];
    } else {
      assert (parts + [last])[1..] == parts[1..] + [last];
      JoinSnoc(parts[1..], last, sep);
    }
  }

  /** Three pieces joined: the separator goes between each pair. */
  lemma JoinThree(p1: string, p2: string, p3: string, sep: char)
    ensures Join([p1, p2, p3], sep) == p1 + [sep] + p2 + [sep] + p3
  {
    assert [p1, p2, p3][1..] == [p2, p3];
    assert [p2, p3][1..] == [p3];
    assert Join([p2, p3], sep) == p2 + [sep] + p3;
    ConcatAssoc(p1 + [sep], p2 + [sep], p3);
    ConcatAssoc(p1 + [sep], p2, [sep]);
  }

  /** A character other than the separator occurs in a join only if it
      occurs in one of the pieces. */
  lemma {:induction false} JoinHasNo(parts: seq<string>, sep: char, c: char)
    requires c != sep
    requires forall i :: 0 <= i < |parts| ==> c !in parts[i]
    ensures c !in Join(parts, sep)
    decreases |parts|
  {
    if |parts| > 1 {
      JoinHasNo(parts[1..], sep, c);
    }
  }

  /** Position of the first occurrence of `c` in `s`. */
  function IndexOf(s: string, c: char): (i: nat)
    requires c in s
    ensures i < |s| && s[i] == c && c !in s[..i]
  {
    if s[0] == c then 0 else 1 + IndexOf(s[1..], c)
  }

  /** The first occurrence is the one position holding `c` with no `c`
      before it. */
  lemma IndexOfUnique(s: string, c: char, j: nat)
    requires j < |s| && s[j] == c && c !in s[..j]
    ensures IndexOf(s, c) == j
  {
  }

  /** strings.Split with a one-character separator: the pieces between the
      separators, never containing one, always at least one piece. */
  function Split(s: string, sep: char): (parts: seq<string>)
    ensures |parts| >= 1
    ensures forall i :: 0 <= i < |parts| ==> sep !in parts[i]
    decreases |s|
  {
    if sep !in s then [s]
    else
      var i := IndexOf(s, sep);
      [s[..i]] + Split(s[i + 1..], sep)
  }

  /** Splitting undoes joining, provided there is something to join and no
      piece contains the separator. */
  lemma {:induction false} SplitJoin(parts: seq<string>, sep: char)
    requires |parts| >= 1
    requires forall i :: 0 <= i < |parts| ==> sep !in parts[i]
    ensures Split(Join(parts, sep), sep) == parts
    decreases |parts|
  {
    if |parts| > 1 {
      var head, rest := parts[0], parts[1..];
      var tail := Join(rest, sep);
      var s := Join(parts, sep);
      assert Split(s, sep) == [head] + Split(tail, sep) by {
        assert s == head + [sep] + tail;
        FirstSeparator(head, sep, tail);
      }
      assert Split(tail, sep) == rest by {
        SplitJoin(rest, sep);
      }
      assert parts == [head] + rest;
    }
  }

  /** In a piece without the separator, the separator and the rest, the
      first separator is the one right after the piece. */
  lemma FirstSeparator(head: string, sep: char, tail: string)
    requires sep !in head
    ensures var s := head + [sep] + tail;
      sep in s && IndexOf(s, sep) == |head| && s[..|head|] == head && s[|head| + 1..] == tail
  {
    var s := head + [sep] + tail;
    assert s[|head|] == sep;
    assert s[..|head|] == head;
    assert s[|head| + 1..] == tail;
  }

  /** Joining undoes splitting, for every string. */
  lemma {:induction false} JoinSplit(s: string, sep: char)
    ensures Join(Split(s, sep), sep) == s
    decreases |s|
  {
    if sep in s {
      var i := IndexOf(s, sep);
      var head, tail := s[..i], s[i + 1..];
      var rest := Split(tail, sep);
      var parts := [head] + rest;
      assert Split(s, sep) == parts;
      assert |parts| >= 2 && parts[0] == head && parts[1..] == rest;
      assert Join(parts, sep) == head + [sep] + Join(rest, sep);
      JoinSplit(tail, sep);
      assert s == head + [sep] + tail;
    }
  }

  // ---------------------------------------------------------------------
  // Decimal integers (fmt's %d)
  // ---------------------------------------------------------------------

  predicate IsDigit(c: char) {
    '0' <= c <= '9'
  }

  function DigitChar(d: nat): (c: char)
    requires d < 10
    ensures IsDigit(c)
  {
    ('0' as int + d) as char
  }

  function DigitValue(c: char): nat
    requires IsDigit(c)
  {
    c as int - '0' as int
  }

  /** Decimal digits of `n`, most significant first, no leading zero. */
  function NatDigits(n: nat): (s: string)
    ensures |s| >= 1
    ensures forall i :: 0 <= i < |s| ==> IsDigit(s[i])
    ensures s[0] == '0' ==> n == 0
  {
    if n < 10 then [DigitChar(n)] else NatDigits(n / 10) + [DigitChar(n % 10)]
  }

  /** Value of a string of decimal digits. */
  function DigitsValue(s: string): nat
    requires forall i :: 0 <= i < |s| ==> IsDigit(s[i])
  {
    if s == [] then 0 else DigitsValue(s[..|s| - 1]) * 10 + DigitValue(s[|s| - 1])
  }

  /** fmt's %d: decimal with a leading minus sign for negative values. */
  function Itoa(n: int): (s: string)
    ensures forall i :: 0 <= i < |s| ==> IsDigit(s[i]) || s[i] == '-'
  {
    if n < 0 then "-" + NatDigits(-n) else NatDigits(n)
  }

  /** Reads back an optional minus sign followed by at least one digit. */
  function ParseInt(s: string): (r: Option<int>) {
    if s != [] && s[0] == '-' then
      var digits := s[1..];
      if digits != [] && forall i :: 0 <= i < |digits| ==> IsDigit(digits[i])
      then Some(-(DigitsValue(digits) as int)) else None
    else if s != [] && forall i :: 0 <= i < |s| ==> IsDigit(s[i])
    then Some(DigitsValue(s)) else None
  }

  datatype Option<T> = None | Some(value: T)

  lemma {:induction false} DigitsRoundTrip(n: nat)
    ensures DigitsValue(NatDigits(n)) == n
  {
    if n >= 10 {
      var s := NatDigits(n);
      assert s[..|s| - 1] == NatDigits(n / 10);
      DigitsRoundTrip(n / 10);
    }
  }

  lemma ParseNonNegative(s: string)
    requires |s| >= 1 && s[0] != '-'
    requires forall i :: 0 <= i < |s| ==> IsDigit(s[i])
    ensures ParseInt(s) == Some(DigitsValue(s) as int)
  {
  }

  lemma ParseNegative(s: string)
    requires |s| >= 2 && s[0] == '-'
    requires forall i :: 1 <= i < |s| ==> IsDigit(s[i])
    ensures ParseInt(s) == Some(-(DigitsValue(s[1..]) as int))
  {
    var digits := s[1..];
    assert forall i :: 0 <= i < |digits| ==> IsDigit(digits[i]) by {
      forall i | 0 <= i < |digits| ensures IsDigit(digits[i]) {
        assert digits[i] == s[i + 1];
      }
    }
  }

  /** Printing an integer in decimal and reading it back gives it again. */
  lemma ItoaRoundTrip(n: int)
    ensures ParseInt(Itoa(n)) == Some(n)
  {
    if n < 0 {
      var digits := NatDigits(-n);
      var s := "-" + digits;
      assert s[1..] == digits;
      forall i | 1 <= i < |s| ensures IsDigit(s[i]) {
        assert s[i] == digits[i - 1];
      }
      ParseNegative(s);
      DigitsRoundTrip(-n);
    } else {
      var s := NatDigits(n);
      ParseNonNegative(s);
      DigitsRoundTrip(n);
    }
  }
}
