/**
 * ResolveJSONError: a type error reported by the JSON decoder at byte offset o
 * is augmented with the `"key":value` fragment in front of o; every other
 * error passes through unchanged. Input bytes are read one char per byte.
 */
module ErrorContext {
  import opened Values

  /** The errors the entry points see: the decoder's type error (with its offset) or any other error. */
  datatype GoError = TypeError(msg: string, offset: nat) | PlainError(msg: string)

  /** What decoding the input into a map yields: the top-level object's members, or an error. */
  datatype Decoded = Decoded(members: seq<(string, JValue)>) | DecodeFailed(err: GoError)

  /** Bytes at which the backward scan stops once it has passed a `:`. */
  predicate IsDelimiter(c: char) {
    c == '\n' || c == '{' || c == '[' || c == ',' || c == ' '
  }

  /**
   * The backward scan from index i down to -1, `getKey` recording that a `:`
   * was passed: the index where it stops (a delimiter), or -1.
   */
  function ScanBack(data: string, i: int, getKey: bool): (r: int)
    requires -1 <= i < |data|
    ensures -1 <= r <= i
    decreases i + 1
  {
    if i == -1 then -1
    else if data[i] == ':' then ScanBack(data, i - 1, true)
    else if IsDelimiter(data[i]) && getKey then i
    else ScanBack(data, i - 1, getKey)
  }

  /** First index of the context fragment for offset o. */
  function ContextStart(data: string, o: nat): (j: nat)
    requires o <= |data|
    ensures j <= o
  {
    ScanBack(data, o - 1, false) + 1
  }

  /** A `:` occurs in data[k..o]. */
  predicate ColonBetween(data: string, k: nat, o: nat)
    requires k <= o <= |data|
  {
    ':' in data[k..o]
  }

  /** Position k may begin the fragment: it follows a delimiter and a `:` lies in data[k..o]. */
  predicate Anchor(data: string, o: nat, k: nat)
    requires o <= |data|
  {
    1 <= k <= o && IsDelimiter(data[k - 1]) && ColonBetween(data, k, o)
  }

  lemma ColonBetweenStep(data: string, i: nat, o: nat)
    requires i < o <= |data|
    ensures ColonBetween(data, i, o) <==> data[i] == ':' || ColonBetween(data, i + 1, o)
  {
    assert data[i..o] == [data[i]] + data[i + 1..o];
  }

  /** No position in (lo, hi] is an anchor. */
  predicate NoAnchorIn(data: string, o: nat, lo: nat, hi: nat)
    requires o <= |data|
  {
    forall k | lo < k <= hi :: !Anchor(data, o, k)
  }

  /** Where the scan stops from i is the greatest anchor at or below i + 1 (or 0). */
  lemma {:induction false} ScanBackIsLastAnchor(data: string, o: nat, i: int, getKey: bool)
    requires o <= |data| && -1 <= i < o
    requires getKey <==> ColonBetween(data, i + 1, o)
    ensures var j := ScanBack(data, i, getKey) + 1;
      (j == 0 || Anchor(data, o, j)) && NoAnchorIn(data, o, j, i + 1)
    decreases i + 1
  {
    if i >= 0 {
      ColonBetweenStep(data, i, o);
      var j := ScanBack(data, i, getKey) + 1;
      if data[i] == ':' || !(IsDelimiter(data[i]) && getKey) {
        ScanBackIsLastAnchor(data, o, i - 1, data[i] == ':' || getKey);
        assert !Anchor(data, o, i + 1);
        assert NoAnchorIn(data, o, j, i);
      } else {
        assert j == i + 1;
      }
    }
  }

  /**
   * The fragment starts at the last position in data[..o] that follows a
   * delimiter and is followed by a `:` before o, or at 0 when there is none;
   * no other start has that description.
   */
  lemma ContextStartCharacterized(data: string, o: nat, j': nat)
    requires o <= |data|
    ensures var j := ContextStart(data, o);
      (j == 0 || Anchor(data, o, j)) && NoAnchorIn(data, o, j, o)
    ensures ((j' == 0 || Anchor(data, o, j')) && NoAnchorIn(data, o, j', o))
      <==> j' == ContextStart(data, o)
  {
    assert !ColonBetween(data, o, o);
    ScanBackIsLastAnchor(data, o, o - 1, false);
  }

  // ---------------------------------------------------------------------
  // strings.TrimSpace on bytes
  // ---------------------------------------------------------------------

  /** ASCII white space; a lone byte 0x85 or 0xA0 is not a valid rune and is kept. */
  predicate IsSpace(c: char) {
    c == ' ' || c == '\t' || c == '\n' || c == '\U{000B}' || c == '\U{000C}' || c == '\r'
  }

  /** The first index at or after i that is not white space (or |s|). */
  function SpaceEnd(s: string, i: nat): (n: nat)
    requires i <= |s|
    ensures i <= n <= |s|
    ensures forall k | i <= k < n :: IsSpace(s[k])
    ensures n < |s| ==> !IsSpace(s[n])
    decreases |s| - i
  {
    if i == |s| || !IsSpace(s[i]) then i else SpaceEnd(s, i + 1)
  }

  /** The index just past the last character of s[lo..j] that is not white space (or lo). */
  function SpaceStart(s: string, lo: nat, j: nat): (n: nat)
    requires lo <= j <= |s|
    ensures lo <= n <= j
    ensures forall k | n <= k < j :: IsSpace(s[k])
    ensures n > lo ==> !IsSpace(s[n - 1])
    decreases j
  {
    if j == lo || !IsSpace(s[j - 1]) then j else SpaceStart(s, lo, j - 1)
  }

  /** Everything in s before a and from b on is white space. */
  predicate SpaceOutside(s: string, a: nat, b: nat)
    requires a <= b <= |s|
  {
    (forall i | 0 <= i < a :: IsSpace(s[i])) && (forall i | b <= i < |s| :: IsSpace(s[i]))
  }

  /** s without its leading and trailing white space. */
  function TrimSpace(s: string): (r: string)
    ensures exists a, b | 0 <= a <= b <= |s| :: r == s[a..b] && SpaceOutside(s, a, b)
    ensures r != [] ==> !IsSpace(r[0]) && !IsSpace(r[|r| - 1])
  {
    var a := SpaceEnd(s, 0);
    var b := SpaceStart(s, a, |s|);
    assert SpaceOutside(s, a, b);
    s[a..b]
  }

  /** The error ResolveJSONError returns. */
  function Resolved(data: string, err: GoError): GoError
    requires err.TypeError? ==> err.offset <= |data|
  {
    match err
    case TypeError(msg, o) => PlainError(msg + " - at: " + TrimSpace(data[ContextStart(data, o)..o]))
    case PlainError(_) => err
  }

  /** The backward scan as the source writes it: a down-counting loop with a `:` flag. */
  method ScanContext(data: string, o: nat) returns (j: nat)
    requires o <= |data|
    ensures j == ContextStart(data, o)
  {
    var i: int := o - 1;
    var getKey := false;
    while i != -1
      invariant -1 <= i < o
      invariant ScanBack(data, i, getKey) == ScanBack(data, o - 1, false)
      decreases i + 1
    {
      if data[i] == ':' {
        getKey := true;
      } else if IsDelimiter(data[i]) && getKey {
        break;
      }
      i := i - 1;
    }
    j := i + 1;
  }

  method ResolveJSONError(data: string, err: GoError) returns (r: GoError)
    requires err.TypeError? ==> err.offset <= |data|
    ensures r == Resolved(data, err)
    ensures err.PlainError? ==> r == err
  {
    if err.TypeError? {
      var j := ScanContext(data, err.offset);
      return PlainError(err.msg + " - at: " + TrimSpace(data[j..err.offset]));
    }
    return err;
  }
}
