/**
 * ASCII models of the few `strings`/`strconv` functions the package relies on:
 * ToLower, Title, Split, the "parent.child" path join and Itoa.
 */
module Text {

  /** One byte of raw input. */
  type byte = b: int | 0 <= b < 256

  // ---------------------------------------------------------------------
  // Lower-casing (strings.ToLower, ASCII only)
  // ---------------------------------------------------------------------

  function LowerChar(c: char): char {
    if 'A' <= c <= 'Z' then (c as int + 32) as char else c
  }

  /** No ASCII upper-case letter occurs in `s`. */
  predicate IsLowerCase(s: string) {
    forall i | 0 <= i < |s| :: !('A' <= s[i] <= 'Z')
  }

  function Lower(s: string): (r: string)
    ensures |r| == |s| && IsLowerCase(r)
  {
    seq(|s|, i requires 0 <= i < |s| => LowerChar(s[i]))
  }

  lemma LowerOfLowerCase(s: string)
    requires IsLowerCase(s)
    ensures Lower(s) == s
  {
  }

  lemma LowerConcat(a: string, b: string)
    ensures Lower(a + b) == Lower(a) + Lower(b)
  {
  }

  // ---------------------------------------------------------------------
  // strings.Title (ASCII): upper-case every letter that starts a word
  // ---------------------------------------------------------------------

  /** Go's isSeparator for ASCII; other runes are treated as word characters. */
  predicate IsSeparator(c: char) {
    c as int <= 0x7F && !('0' <= c <= '9' || 'a' <= c <= 'z' || 'A' <= c <= 'Z' || c == '_')
  }

  function TitleChar(c: char): char {
    if 'a' <= c <= 'z' then (c as int - 32) as char else c
  }

  /** Title-casing of `s` when the rune before it was `prev`. */
  function TitleAfter(prev: char, s: string): (r: string)
    ensures |r| == |s|
    decreases |s|
  {
    if s == [] then []
    else [if IsSeparator(prev) then TitleChar(s[0]) else s[0]] + TitleAfter(s[0], s[1..])
  }

  function Title(s: string): string {
    TitleAfter(' ', s)
  }

  /** On lower-case strings, title-casing loses no information. */
  lemma {:induction false} TitleAfterInjective(prev: char, a: string, b: string)
    requires IsLowerCase(a) && IsLowerCase(b)
    requires TitleAfter(prev, a) == TitleAfter(prev, b)
    ensures a == b
    decreases |a|
  {
    if a != [] {
      var ta, tb := TitleAfter(prev, a), TitleAfter(prev, b);
      assert ta[0] == tb[0];
      assert a[0] == b[0];
      assert ta[1..] == TitleAfter(a[0], a[1..]);
      assert tb[1..] == TitleAfter(b[0], b[1..]);
      TitleAfterInjective(a[0], a[1..], b[1..]);
      assert a == [a[0]] + a[1..];
      assert b == [b[0]] + b[1..];
    }
  }

  /**
   * `Title(Lower(x)) == Title(Lower(y))` exactly when `Lower(x) == Lower(y)`:
   * the table keys built with strings.Title behave as plain lower-case keys.
   */
  lemma TitleLowerInjective(x: string, y: string)
    ensures Title(Lower(x)) == Title(Lower(y)) <==> Lower(x) == Lower(y)
  {
    if Title(Lower(x)) == Title(Lower(y)) {
      TitleAfterInjective(' ', Lower(x), Lower(y));
    }
  }

  // ---------------------------------------------------------------------
  // strings.Split with a one-character separator
  // ---------------------------------------------------------------------

  /** Index of the first `c` in `s`, or |s| when there is none. */
  function IndexOf(s: string, c: char): (r: nat)
    ensures r <= |s|
    ensures r < |s| ==> s[r] == c
    ensures forall i | 0 <= i < r :: s[i] != c
  {
    if s == [] then 0
    else if s[0] == c then 0
    else 1 + IndexOf(s[1..], c)
  }

  function Split(s: string, sep: char): (parts: seq<string>)
    ensures |parts| >= 1
    decreases |s|
  {
    var i := IndexOf(s, sep);
    if i == |s| then [s] else [s[..i]] + Split(s[i + 1..], sep)
  }

  /** Number of occurrences of `c` in `s`. */
  function Count(s: string, c: char): nat {
    if s == [] then 0 else (if s[0] == c then 1 else 0) + Count(s[1..], c)
  }

  lemma {:induction false} CountConcat(a: string, b: string, c: char)
    ensures Count(a + b, c) == Count(a, c) + Count(b, c)
  {
    if a == [] {
      assert a + b == b;
    } else {
      assert (a + b)[1..] == a[1..] + b;
      CountConcat(a[1..], b, c);
    }
  }

  lemma {:induction false} CountAbsent(s: string, c: char)
    requires forall i | 0 <= i < |s| :: s[i] != c
    ensures Count(s, c) == 0
  {
    if s != [] {
      CountAbsent(s[1..], c);
    }
  }

  /** Split yields one more part than there are separators. */
  lemma {:induction false} SplitLength(s: string, sep: char)
    ensures |Split(s, sep)| == Count(s, sep) + 1
    decreases |s|
  {
    var i := IndexOf(s, sep);
    if i == |s| {
      CountAbsent(s, sep);
    } else {
      assert s == s[..i] + ([s[i]] + s[i + 1..]);
      CountConcat(s[..i], [s[i]] + s[i + 1..], sep);
      CountConcat([s[i]], s[i + 1..], sep);
      CountAbsent(s[..i], sep);
      SplitLength(s[i + 1..], sep);
    }
  }

  lemma {:induction false} CountLower(s: string)
    ensures Count(Lower(s), '.') == Count(s, '.')
  {
    if s != [] {
      assert Lower(s)[1..] == Lower(s[1..]);
      CountLower(s[1..]);
    }
  }

  /** Number of `.`-separated segments of a dotted path. */
  function Segments(s: string): (n: nat)
    ensures n == Count(s, '.') + 1
  {
    SplitLength(s, '.');
    |Split(s, '.')|
  }

  lemma SegmentsLower(s: string)
    ensures Segments(Lower(s)) == Segments(s)
  {
    CountLower(s);
  }

  lemma SegmentsJoin(a: string, b: string)
    ensures Segments(a + "." + b) == Segments(a) + Segments(b)
  {
    CountConcat(a + ".", b, '.');
    CountConcat(a, ".", '.');
  }

  // ---------------------------------------------------------------------
  // Dotted paths
  // ---------------------------------------------------------------------

  /** `parent.segment`, or the bare segment at the root (empty parent). */
  function Join(parent: string, segment: string): string {
    if |parent| > 0 then parent + "." + segment else segment
  }

  lemma JoinLowerCase(parent: string, segment: string)
    requires IsLowerCase(parent) && IsLowerCase(segment)
    ensures IsLowerCase(Join(parent, segment))
  {
  }

  /** Every path in a list is lower-case. */
  predicate AllLowerCase(ps: seq<string>) {
    forall i | 0 <= i < |ps| :: IsLowerCase(ps[i])
  }

  lemma AllLowerCaseConcat(a: seq<string>, b: seq<string>)
    requires AllLowerCase(a) && AllLowerCase(b)
    ensures AllLowerCase(a + b)
  {
    assert forall i | 0 <= i < |a + b| :: (a + b)[i] == if i < |a| then a[i] else b[i - |a|];
  }

  // ---------------------------------------------------------------------
  // strconv.Itoa for non-negative numbers
  // ---------------------------------------------------------------------

  predicate IsDigits(s: string) {
    forall i | 0 <= i < |s| :: '0' <= s[i] <= '9'
  }

  function Itoa(n: nat): (r: string)
    ensures |r| >= 1 && IsDigits(r) && IsLowerCase(r)
  {
    if n < 10 then [('0' as int + n) as char] else Itoa(n / 10) + [('0' as int + n % 10) as char]
  }

  /** The value of a decimal numeral (strconv.Atoi on digit strings). */
  function DecimalValue(s: string): nat
    requires IsDigits(s)
  {
    if s == [] then 0 else 10 * DecimalValue(s[..|s| - 1]) + (s[|s| - 1] as int - '0' as int)
  }

  /** Itoa is inverted by reading the numeral back. */
  lemma {:induction false} ItoaRoundTrip(n: nat)
    ensures DecimalValue(Itoa(n)) == n
  {
    if n >= 10 {
      var r := Itoa(n);
      assert r[..|r| - 1] == Itoa(n / 10);
      ItoaRoundTrip(n / 10);
    }
  }
}
