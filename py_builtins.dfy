/**
 * The few Python builtins the scrobbler relies on, over `string` (= seq<char>)
 * and `seq<int>`: str.strip(), str.strip(ch), the `in` test for substrings,
 * str.split(sep) and str.split(sep, 1), startswith/endswith, comparing
 * str.lower() with a lower-case ASCII word, int <-> decimal text, and
 * sorted() / sorted(set()) on lists of integers.
 */
module PyBuiltins {

  import opened Wrappers

  // ---------------------------------------------------------------------
  // Whitespace and strip()
  // ---------------------------------------------------------------------

  /** The characters for which Python's str.isspace() holds; str.strip() with
      no argument removes exactly these from both ends. */
  predicate IsSpace(c: char) {
    || c == ' '
    || ('\t' <= c <= '\r')
    || ('\U{1C}' <= c <= '\U{1F}')
    || c == '\U{85}' || c == '\U{A0}' || c == '\U{1680}'
    || ('\U{2000}' <= c <= '\U{200A}')
    || c == '\U{2028}' || c == '\U{2029}' || c == '\U{202F}' || c == '\U{205F}' || c == '\U{3000}'
  }

  /** Blanks, tabs and line ends are whitespace; a double quote, a comma, a
      digit or an ASCII letter never is, so strip() leaves them in place. */
  lemma SpaceClass(c: char)
    ensures c == ' ' || c == '\t' || c == '\n' || c == '\r' ==> IsSpace(c)
    ensures IsSpace(c) ==> c != '"' && c != ',' && !('0' <= c <= '9') && !('a' <= c <= 'z') && !('A' <= c <= 'Z')
  {
  }

  /** The characters a strip removes: whitespace (strip()) or one given
      character (strip(ch)). */
  datatype CharClass = Whitespace | Only(ch: char)

  predicate InClass(c: char, drop: CharClass) {
    match drop
    case Whitespace => IsSpace(c)
    case Only(x) => c == x
  }

  /** Removes the longest prefix of `s` whose characters are all in `drop`. */
  function TrimStart(s: string, drop: CharClass): (r: string)
    ensures |r| <= |s| && r == s[|s| - |r|..]
    ensures r == [] || !InClass(r[0], drop)
    ensures forall i :: 0 <= i < |s| - |r| ==> InClass(s[i], drop)
  {
    if s != [] && InClass(s[0], drop) then TrimStart(s[1..], drop) else s
  }

  /** Removes the longest suffix of `s` whose characters are all in `drop`. */
  function TrimEnd(s: string, drop: CharClass): (r: string)
    ensures |r| <= |s| && r == s[..|r|]
    ensures r == [] || !InClass(r[|r| - 1], drop)
    ensures forall i :: |r| <= i < |s| ==> InClass(s[i], drop)
  {
    if s != [] && InClass(s[|s| - 1], drop) then TrimEnd(s[..|s| - 1], drop) else s
  }

  /** `s` has no leading and no trailing whitespace (what strip() leaves). */
  predicate Trimmed(s: string) {
    s == [] || (!IsSpace(s[0]) && !IsSpace(s[|s| - 1]))
  }

  /** Python's s.strip(). */
  function Strip(s: string): (r: string)
    ensures Trimmed(r)
  {
    TrimEnd(TrimStart(s, Whitespace), Whitespace)
  }

  /** Python's s.strip(ch) for a single character ch. */
  function StripChar(s: string, ch: char): (r: string)
    ensures |r| <= |s|
    ensures r == [] || (r[0] != ch && r[|r| - 1] != ch)
    ensures s == [] || (s[0] != ch && s[|s| - 1] != ch) ==> r == s
  {
    TrimEnd(TrimStart(s, Only(ch)), Only(ch))
  }

  /** strip() keeps a contiguous part of its argument, starting at `k`, and
      removes only whitespace around it. */
  lemma StripSpec(s: string) returns (k: nat)
    ensures k + |Strip(s)| <= |s| && Strip(s) == s[k..k + |Strip(s)|]
    ensures forall i :: 0 <= i < k ==> IsSpace(s[i])
    ensures forall i :: k + |Strip(s)| <= i < |s| ==> IsSpace(s[i])
  {
    var t := TrimStart(s, Whitespace);
    var r := TrimEnd(t, Whitespace);
    assert r == Strip(s);
    k := |s| - |t|;
    assert t == s[k..];
    assert r == t[..|r|];
    assert t[..|r|] == s[k..k + |r|];
    forall i | 0 <= i < k ensures IsSpace(s[i]) {
      assert InClass(s[i], Whitespace);
    }
    forall i | k + |r| <= i < |s| ensures IsSpace(s[i]) {
      assert s[i] == t[i - k];
      assert InClass(t[i - k], Whitespace);
    }
  }

  /** Trimming a text whose first character is kept changes nothing. */
  lemma TrimStartKeeps(s: string, drop: CharClass)
    requires s == [] || !InClass(s[0], drop)
    ensures TrimStart(s, drop) == s
  {
  }

  /** Trimming a text whose last character is kept changes nothing. */
  lemma TrimEndKeeps(s: string, drop: CharClass)
    requires s == [] || !InClass(s[|s| - 1], drop)
    ensures TrimEnd(s, drop) == s
  {
  }

  /** strip() changes nothing on a string with no whitespace at either end. */
  lemma StripTrimmed(s: string)
    requires Trimmed(s)
    ensures Strip(s) == s
  {
    TrimStartKeeps(s, Whitespace);
    TrimEndKeeps(s, Whitespace);
  }

  // ---------------------------------------------------------------------
  // Substrings: `in`, startswith, endswith, split
  // ---------------------------------------------------------------------

  /** `sep` occurs in `s` starting at index i. */
  predicate OccursAt(s: string, sep: string, i: nat) {
    i + |sep| <= |s| && s[i..i + |sep|] == sep
  }

  /** The first index at or after `from` where `sep` occurs in `s` (Python's s.find(sep, from)). */
  function IndexOf(s: string, sep: string, from: nat): (r: Option<nat>)
    ensures r.Some? ==> from <= r.value && OccursAt(s, sep, r.value)
    ensures r.Some? ==> forall j :: from <= j < r.value ==> !OccursAt(s, sep, j)
    ensures r.None? ==> forall j :: from <= j ==> !OccursAt(s, sep, j)
    decreases |s| - from
  {
    if from + |sep| > |s| then None
    else if s[from..from + |sep|] == sep then Some(from)
    else IndexOf(s, sep, from + 1)
  }

  /** Python's `sep in s`. */
  predicate Contains(s: string, sep: string)
    ensures Contains(s, sep) <==> exists i: nat :: OccursAt(s, sep, i)
  {
    IndexOf(s, sep, 0).Some?
  }

  /** Python's s.startswith(p). */
  predicate StartsWith(s: string, p: string) {
    |p| <= |s| && s[..|p|] == p
  }

  /** Python's s.endswith(p). */
  predicate EndsWith(s: string, p: string) {
    |p| <= |s| && s[|s| - |p|..] == p
  }

  /** startswith and endswith hold exactly when `s` is `p` followed, or
      preceded, by some text. */
  lemma AffixShapes(s: string, p: string)
    ensures StartsWith(s, p) <==> exists rest :: s == p + rest
    ensures EndsWith(s, p) <==> exists rest :: s == rest + p
  {
    if StartsWith(s, p) {
      assert s == p + s[|p|..];
    }
    if EndsWith(s, p) {
      assert s == s[..|s| - |p|] + p;
    }
    if exists rest :: s == p + rest {
      var rest :| s == p + rest;
      assert s[..|p|] == p;
    }
    if exists rest :: s == rest + p {
      var rest :| s == rest + p;
      assert s[|s| - |p|..] == p;
    }
  }

  /** The inverse of split: the parts glued back together with `sep` between them. */
  function Join(parts: seq<string>, sep: string): string
    requires |parts| >= 1
  {
    if |parts| == 1 then parts[0] else parts[0] + sep + Join(parts[1..], sep)
  }

  /** The text before the first occurrence of `sep` does not contain `sep`. */
  lemma PrefixBeforeFirst(s: string, sep: string, i: nat)
    requires sep != []
    requires IndexOf(s, sep, 0) == Some(i)
    ensures !Contains(s[..i], sep)
  {
    var head := s[..i];
    forall j | 0 <= j ensures !OccursAt(head, sep, j) {
      if j + |sep| <= |head| {
        assert head[j..j + |sep|] == s[j..j + |sep|];
        assert !OccursAt(s, sep, j);
      }
    }
  }

  /** Python's s.split(sep) for a non-empty separator: cut at every
      occurrence, scanning left to right without overlap. */
  function Split(s: string, sep: string): (parts: seq<string>)
    requires sep != []
    ensures |parts| >= 1
    ensures forall k :: 0 <= k < |parts| ==> !Contains(parts[k], sep)
    ensures |parts| >= 2 ==> IndexOf(s, sep, 0) == Some(|parts[0]|)
    decreases |s|
  {
    match IndexOf(s, sep, 0)
    case None => [s]
    case Some(i) =>
      var head := s[..i];
      PrefixBeforeFirst(s, sep, i);
      [head] + Split(s[i + |sep|..], sep)
  }

  /** Python's s.split(sep, 1): cut at the first occurrence only. */
  function SplitOnce(s: string, sep: string): (parts: seq<string>)
    requires sep != []
    ensures |parts| == 2 <==> Contains(s, sep)
    ensures !Contains(s, sep) ==> parts == [s]
    ensures |parts| == 2 ==> parts[0] + sep + parts[1] == s && !Contains(parts[0], sep)
    ensures |parts| == 2 ==> IndexOf(s, sep, 0) == Some(|parts[0]|)
  {
    match IndexOf(s, sep, 0)
    case None => [s]
    case Some(i) =>
      var head := s[..i];
      PrefixBeforeFirst(s, sep, i);
      assert s == head + sep + s[i + |sep|..];
      [head, s[i + |sep|..]]
  }

  /** Splitting and joining again gives back the original text. */
  lemma {:induction false} SplitJoin(s: string, sep: string)
    requires sep != []
    ensures Join(Split(s, sep), sep) == s
    decreases |s|
  {
    match IndexOf(s, sep, 0)
    case None =>
    case Some(i) =>
      var rest := s[i + |sep|..];
      var parts := Split(rest, sep);
      SplitJoin(rest, sep);
      assert Split(s, sep) == [s[..i]] + parts;
      assert ([s[..i]] + parts)[1..] == parts;
      assert s == s[..i] + sep + rest;
  }

  /** split(sep) yields at least two parts exactly when `sep` occurs. */
  lemma SplitCount(s: string, sep: string)
    requires sep != []
    ensures |Split(s, sep)| >= 2 <==> Contains(s, sep)
  {
    match IndexOf(s, sep, 0)
    case None =>
    case Some(i) =>
  }

  /** A text with no occurrence of a one-character pattern has none of any
      longer pattern that contains that character either. */
  lemma NotContainsWider(s: string, narrow: char, wide: string, at: nat)
    requires at < |wide| && wide[at] == narrow
    requires !Contains(s, [narrow])
    ensures !Contains(s, wide)
  {
    forall i | 0 <= i ensures !OccursAt(s, wide, i) {
      if i + |wide| <= |s| {
        assert !OccursAt(s, [narrow], i + at);
        assert s[i + at..i + at + 1] == [s[i + at]];
        assert s[i..i + |wide|][at] == s[i + at];
      }
    }
  }

  /** A substring of a text with no occurrence of `sep` has none either. */
  lemma NotContainsInfix(s: string, sep: string, lo: nat, hi: nat)
    requires lo <= hi <= |s|
    requires !Contains(s, sep)
    ensures !Contains(s[lo..hi], sep)
  {
    var t := s[lo..hi];
    forall i | 0 <= i ensures !OccursAt(t, sep, i) {
      if i + |sep| <= |t| {
        var u, w := t[i..i + |sep|], s[lo + i..lo + i + |sep|];
        forall m | 0 <= m < |sep| ensures u[m] == w[m] {
          assert u[m] == t[i + m] == s[lo + i + m];
        }
        assert u == w;
        assert !OccursAt(s, sep, lo + i);
      }
    }
  }

  // ---------------------------------------------------------------------
  // Case: str.lower() compared with an ASCII word
  // ---------------------------------------------------------------------

  /** The one-character lower-casing that matters when str.lower() is compared
      with a word of lower-case ASCII letters: A-Z become a-z, and KELVIN SIGN
      (U+212A) becomes 'k' as in Python. Every other character is left as it is:
      its Python lower case is either itself or not an ASCII letter, so it can
      never equal a letter of such a word either way. */
  function LowerChar(c: char): char {
    if 'A' <= c <= 'Z' then (c as int + 32) as char
    else if c == '\U{212A}' then 'k'
    else c
  }

  /** Python's `s.lower() == word`, for `word` made of lower-case ASCII letters:
      `s` is `word` with each letter in either case, and KELVIN SIGN for `k`. */
  predicate LowerEquals(s: string, word: string)
    ensures (forall i :: 0 <= i < |word| ==> 'a' <= word[i] <= 'z') ==>
      (LowerEquals(s, word) <==> |s| == |word| && forall i :: 0 <= i < |s| ==>
        s[i] == word[i] || s[i] as int == word[i] as int - 32 || (word[i] == 'k' && s[i] == '\U{212A}'))
  {
    |s| == |word| && forall i :: 0 <= i < |s| ==> LowerChar(s[i]) == word[i]
  }

  // ---------------------------------------------------------------------
  // Decimal numbers
  // ---------------------------------------------------------------------

  /** An ASCII decimal digit (what `\d` matches in ASCII text). */
  predicate IsDigit(c: char) {
    '0' <= c <= '9'
  }

  predicate AllDigits(s: string) {
    forall i :: 0 <= i < |s| ==> IsDigit(s[i])
  }

  /** Python's int(s) for a string of decimal digits (leading zeros allowed). */
  function DigitsValue(s: string): (v: nat)
    requires AllDigits(s)
    ensures v == 0 <==> forall i :: 0 <= i < |s| ==> s[i] == '0'
  {
    if s == [] then 0 else DigitsValue(s[..|s| - 1]) * 10 + (s[|s| - 1] as int - '0' as int)
  }

  /** Python's str(n) for n >= 0. */
  function NatToDecimal(n: nat): (s: string)
    ensures |s| >= 1 && AllDigits(s)
    ensures |s| > 1 ==> s[0] != '0'
  {
    if n < 10 then [('0' as int + n) as char]
    else NatToDecimal(n / 10) + [('0' as int + n % 10) as char]
  }

  /** Python's str(n) for any integer. */
  function IntToDecimal(n: int): (s: string)
    ensures n >= 0 ==> AllDigits(s) && DigitsValue(s) == n
    ensures n < 0 ==> |s| >= 2 && s[0] == '-' && AllDigits(s[1..]) && DigitsValue(s[1..]) == -n
  {
    if n < 0 then
      DecimalRoundTrip(-n);
      assert ("-" + NatToDecimal(-n))[1..] == NatToDecimal(-n);
      "-" + NatToDecimal(-n)
    else
      DecimalRoundTrip(n);
      NatToDecimal(n)
  }

  /** int(str(n)) == n: reading back the decimal text of n gives n. */
  lemma {:induction false} DecimalRoundTrip(n: nat)
    ensures DigitsValue(NatToDecimal(n)) == n
  {
    if n >= 10 {
      DecimalRoundTrip(n / 10);
      var s := NatToDecimal(n);
      assert s[..|s| - 1] == NatToDecimal(n / 10);
    }
  }

  // ---------------------------------------------------------------------
  // sorted() and sorted(set())
  // ---------------------------------------------------------------------

  predicate Ascending(s: seq<int>) {
    forall i, j :: 0 <= i < j < |s| ==> s[i] <= s[j]
  }

  predicate StrictlyAscending(s: seq<int>) {
    forall i, j :: 0 <= i < j < |s| ==> s[i] < s[j]
  }

  /** A list holding the elements of the tail of an ascending list s, and
      one more element above s[0], holds nothing below s[0]. */
  lemma HeadBelow(x: int, s: seq<int>, tail: seq<int>)
    requires Ascending(s) && s != [] && s[0] < x
    requires multiset(tail) == multiset(s[1..]) + multiset{x}
    ensures forall j :: 0 <= j < |tail| ==> s[0] <= tail[j]
  {
    forall j | 0 <= j < |tail| ensures s[0] <= tail[j] {
      var y := tail[j];
      assert y in multiset(tail);
      if y != x {
        assert y in multiset(s[1..]);
        var k :| 0 <= k < |s[1..]| && s[1..][k] == y;
        assert s[k + 1] == y;
      }
    }
  }

  /** Puts x into an ascending list at its place. */
  function Insert(x: int, s: seq<int>): (r: seq<int>)
    requires Ascending(s)
    ensures Ascending(r)
    ensures multiset(r) == multiset(s) + multiset{x}
  {
    if s == [] || x <= s[0] then
      [x] + s
    else
      var tail := Insert(x, s[1..]);
      assert s == [s[0]] + s[1..];
      HeadBelow(x, s, tail);
      ConsAscending(s[0], tail);
      [s[0]] + tail
  }

  /** An element no greater than anything in an ascending list can go in front of it. */
  lemma ConsAscending(h: int, tail: seq<int>)
    requires Ascending(tail)
    requires forall j :: 0 <= j < |tail| ==> h <= tail[j]
    ensures Ascending([h] + tail)
  {
    var r := [h] + tail;
    forall i, j | 0 <= i < j < |r| ensures r[i] <= r[j] {
      assert r[j] == tail[j - 1];
      if i > 0 {
        assert r[i] == tail[i - 1];
      }
    }
  }

  /** The elements of Insert(x, s) are those of s and x. */
  lemma InsertMembers(x: int, s: seq<int>)
    requires Ascending(s)
    ensures forall y :: y in Insert(x, s) <==> y in s || y == x
  {
    var r := Insert(x, s);
    forall y ensures y in r <==> y in s || y == x {
      assert y in r <==> y in multiset(r);
      assert y in s <==> y in multiset(s);
    }
  }

  /** Inserting a new element into a strictly ascending list keeps it strictly ascending. */
  lemma {:induction false} InsertFresh(x: int, s: seq<int>)
    requires StrictlyAscending(s) && x !in s
    ensures StrictlyAscending(Insert(x, s))
  {
    if s != [] && x > s[0] {
      var tail := Insert(x, s[1..]);
      InsertFresh(x, s[1..]);
      InsertMembers(x, s[1..]);
      var r := [s[0]] + tail;
      assert Insert(x, s) == r;
      forall j | 0 < j < |r| ensures r[0] < r[j] {
        assert r[j] == tail[j - 1];
        assert r[j] in tail;
        if r[j] != x {
          assert r[j] in s[1..];
          var k :| 0 <= k < |s[1..]| && s[1..][k] == r[j];
          assert s[k + 1] == r[j];
        }
      }
    }
  }

  /** Python's sorted(s): the same elements, counted with multiplicity, in ascending order. */
  function Sorted(s: seq<int>): (r: seq<int>)
    ensures Ascending(r)
    ensures multiset(r) == multiset(s)
  {
    if s == [] then [] else
      assert s == [s[0]] + s[1..];
      Insert(s[0], Sorted(s[1..]))
  }

  /** Python's sorted(set(s)): each element of s once, in strictly ascending order. */
  function SortedSet(s: seq<int>): (r: seq<int>)
    ensures StrictlyAscending(r)
    ensures forall x :: x in r <==> x in s
  {
    if s == [] then [] else
      assert s == [s[0]] + s[1..];
      var rest := SortedSet(s[1..]);
      if s[0] in rest then rest else
        InsertFresh(s[0], rest);
        InsertMembers(s[0], rest);
        Insert(s[0], rest)
  }
}
