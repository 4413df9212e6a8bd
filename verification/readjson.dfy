/**
 * ReadJSONFile / getJSONObject: JSON objects pulled one at a time out of a
 * byte buffer that may carry free text between objects and `#` comments
 * inside them. White space outside string literals and comments are dropped;
 * bytes inside string literals are kept verbatim.
 */
module ReadJson {
  import opened Text
  import opened Values

  const LeftBrace: byte := 0x7B
  const RightBrace: byte := 0x7D
  const Quote: byte := 0x22
  const Backslash: byte := 0x5C
  const Hash: byte := 0x23
  const Newline: byte := 0x0A

  /** The bytes " \a\b\f\n\r\t\v", dropped outside string literals. */
  predicate IsStripped(b: byte) {
    b == 0x20 || b == 0x07 || b == 0x08 || b == 0x0C || b == 0x0A || b == 0x0D || b == 0x09 || b == 0x0B
  }

  /** The error getJSONObject reports: the input ended inside an object; `partial` is what was collected. */
  datatype ExtractError = UnmatchedBraces(partial: seq<byte>)

  /** The error ReadJSONFile reports: object number `n` (from 1) could not be completed. */
  datatype FileError = ObjectError(n: nat, cause: ExtractError)

  // ---------------------------------------------------------------------
  // Specification: the extractor as a state machine
  // ---------------------------------------------------------------------

  /** The extractor's local state: the flags, the previous kept byte and the bytes kept so far. */
  datatype Scan = Scan(braces: bool, braceCnt: int, literal: bool, comment: bool, lastB: byte, result: seq<byte>)

  const Start: Scan := Scan(false, 0, false, false, 0, [])

  /** After one byte: go on in a new state, or the object is complete. */
  datatype StepResult = Next(st: Scan) | Done(obj: seq<byte>)

  /** The brace and quote cases of the switch. */
  function Switch(st: Scan, b: byte): (r: Scan)
    ensures r.result == st.result && r.comment == st.comment && r.lastB == st.lastB
  {
    if b == LeftBrace && !st.literal then st.(braceCnt := st.braceCnt + 1, braces := true)
    else if b == RightBrace && !st.literal then st.(braceCnt := st.braceCnt - 1)
    else if b == Quote then
      if !st.literal then st.(literal := true)
      else if st.lastB != Backslash then st.(literal := false)
      else st
    else st
  }

  /** One byte read from the buffer; at most that byte is kept. */
  function Step(st: Scan, b: byte): (r: StepResult)
    ensures r.Done? ==> r.obj == st.result + [b]
    ensures r.Next? ==> r.st.result == st.result || r.st.result == st.result + [b]
  {
    if !st.braces && b != LeftBrace then Next(st)
    else if st.comment && b != Newline then Next(st)
    else if b == Hash && !st.literal then Next(st.(comment := true))
    else if b == Newline && st.comment then Next(st.(comment := false))
    else
      var st1 := Switch(st, b);
      if !st1.literal && IsStripped(b) then Next(st1)
      else if st1.braceCnt == 0 then Done(st1.result + [b])
      else Next(st1.(result := st1.result + [b], lastB := b))
  }

  /** What one call returns: the object (or partial object), where reading stopped, and whether the input ended inside an object. */
  datatype Extracted = Extracted(obj: seq<byte>, used: nat, unmatched: bool)

  /** The bytes data[i..] fed to the machine in state `st`. */
  function Run(st: Scan, data: seq<byte>, i: nat): (e: Extracted)
    requires i <= |data|
    ensures i <= e.used <= |data|
    ensures st.result <= e.obj
    ensures e.unmatched ==> e.used == |data|
    ensures e.used == i ==> e.obj == st.result
    decreases |data| - i
  {
    if i == |data| then Extracted(st.result, i, st.braceCnt != 0)
    else
      match Step(st, data[i])
      case Done(obj) => Extracted(obj, i + 1, false)
      case Next(st') => Run(st', data, i + 1)
  }

  /** getJSONObject on a buffer holding data[i..]. */
  function Extract(data: seq<byte>, i: nat): Extracted
    requires i <= |data|
  {
    Run(Start, data, i)
  }

  // ---------------------------------------------------------------------
  // Properties of one extraction
  // ---------------------------------------------------------------------

  /** Bytes before the first `{` are consumed and dropped: extraction may as well start after them. */
  lemma {:induction false} SkipsToFirstBrace(data: seq<byte>, i: nat, j: nat)
    requires i <= j <= |data|
    requires forall k | i <= k < j :: data[k] != LeftBrace
    ensures Extract(data, i) == Extract(data, j)
    decreases j - i
  {
    if i < j {
      assert Step(Start, data[i]) == Next(Start);
      SkipsToFirstBrace(data, i + 1, j);
    }
  }

  /** Input without `{` gives an empty result and no error, having read everything. */
  lemma NoBraceNoObject(data: seq<byte>, i: nat)
    requires i <= |data|
    requires forall k | i <= k < |data| :: data[k] != LeftBrace
    ensures Extract(data, i) == Extracted([], |data|, false)
  {
    SkipsToFirstBrace(data, i, |data|);
  }

  /**
   * The states the machine passes through from Start: before the first `{`
   * nothing is kept and no flag is set; after it the kept bytes start with
   * `{` and the count of open braces is positive.
   */
  predicate Reachable(st: Scan) {
    if !st.braces then st.result == [] && st.braceCnt == 0 && !st.literal && !st.comment
    else |st.result| > 0 && st.result[0] == LeftBrace && st.braceCnt > 0
  }

  /**
   * A completed object starts with `{` and ends with `}`; an input that ends
   * inside an object is the only way to get an error; an input that ends
   * with braces balanced yields no bytes at all.
   */
  lemma {:induction false} ObjectDelimited(st: Scan, data: seq<byte>, i: nat)
    requires i <= |data| && Reachable(st)
    ensures var e := Run(st, data, i);
      (!e.unmatched && e.obj != [] ==> e.obj[0] == LeftBrace && e.obj[|e.obj| - 1] == RightBrace)
      && (e.unmatched ==> e.obj != [] && e.obj[0] == LeftBrace)
    decreases |data| - i
  {
    if i < |data| {
      var b := data[i];
      match Step(st, b) {
        case Done(obj) =>
          assert b == RightBrace;
        case Next(st') =>
          assert Reachable(st');
          ObjectDelimited(st', data, i + 1);
      }
    }
  }

  /**
   * Inside a string literal of an open object every byte is kept as it is
   * and leaves the brace count alone; only a `"` not preceded by `\` ends
   * the literal.
   */
  lemma LiteralBytesVerbatim(st: Scan, b: byte)
    requires Reachable(st) && st.braces && st.literal && !st.comment
    ensures Step(st, b) == Next(st.(result := st.result + [b], lastB := b,
                                    literal := !(b == Quote && st.lastB != Backslash)))
  {
  }

  /** Outside literals and comments, white space is consumed and nothing changes. */
  lemma BlankOutsideLiteralDropped(st: Scan, b: byte)
    requires st.braces && !st.literal && !st.comment && IsStripped(b)
    ensures Step(st, b) == Next(st)
  {
  }

  /** Outside literals and comments, `#` opens a comment and is not kept. */
  lemma HashOpensComment(st: Scan)
    requires st.braces && !st.literal && !st.comment
    ensures Step(st, Hash) == Next(st.(comment := true))
  {
  }

  /** Inside a comment every byte is dropped; `\n` closes the comment and is dropped too. */
  lemma CommentByteDropped(st: Scan, b: byte)
    requires st.braces && st.comment
    ensures Step(st, b) == Next(if b == Newline then st.(comment := false) else st)
  {
  }

  /**
   * A comment is dropped through the next `\n`: the bytes up to it leave the
   * state untouched, and reading resumes after it with the comment closed.
   */
  lemma {:induction false} CommentDropped(st: Scan, data: seq<byte>, i: nat, j: nat)
    requires i <= j <= |data| && st.braces && st.comment
    requires forall k | i <= k < j :: data[k] != Newline
    ensures Run(st, data, i) == Run(st, data, j)
    ensures j < |data| && data[j] == Newline ==> Run(st, data, i) == Run(st.(comment := false), data, j + 1)
    decreases j - i
  {
    if i < j {
      CommentByteDropped(st, data[i]);
      CommentDropped(st, data, i + 1, j);
    } else if j < |data| && data[j] == Newline {
      CommentByteDropped(st, data[j]);
    }
  }

  /** The last byte of r, or 0 (the extractor's initial previous byte) when r is empty. */
  function LastOf(r: seq<byte>): byte {
    if r == [] then 0 else r[|r| - 1]
  }

  /**
   * Whether the kept bytes r end inside a string literal: a `"` opens a
   * literal, and closes one unless the kept byte before it is `\`.
   */
  function InLiteral(r: seq<byte>): bool
    decreases |r|
  {
    if r == [] then false
    else
      var p := r[..|r| - 1];
      if r[|r| - 1] != Quote then InLiteral(p)
      else !InLiteral(p) || LastOf(p) == Backslash
  }

  /** The literal flag and the previous byte are those the kept bytes determine. */
  predicate Tracks(st: Scan) {
    st.literal == InLiteral(st.result) && st.lastB == LastOf(st.result)
  }

  /** Every white-space or `#` byte of r lies inside a string literal. */
  predicate BlanksOnlyInLiterals(r: seq<byte>) {
    forall k | 0 <= k < |r| :: IsStripped(r[k]) || r[k] == Hash ==> InLiteral(r[..k + 1])
  }

  lemma InLiteralAppend(r: seq<byte>, b: byte)
    ensures InLiteral(r + [b]) == if b != Quote then InLiteral(r) else !InLiteral(r) || LastOf(r) == Backslash
  {
    assert (r + [b])[..|r|] == r;
  }

  lemma BlanksAppend(r: seq<byte>, b: byte)
    requires BlanksOnlyInLiterals(r)
    requires IsStripped(b) || b == Hash ==> InLiteral(r + [b])
    ensures BlanksOnlyInLiterals(r + [b])
  {
    var r' := r + [b];
    forall k | 0 <= k < |r'|
      ensures IsStripped(r'[k]) || r'[k] == Hash ==> InLiteral(r'[..k + 1])
    {
      if k < |r| {
        assert r'[..k + 1] == r[..k + 1];
      } else {
        assert r'[..k + 1] == r';
      }
    }
  }

  /** One step keeps the flags tracking the kept bytes and keeps white space and `#` only inside literals. */
  lemma StepKeepsBlanksInLiterals(st: Scan, b: byte)
    requires Tracks(st) && BlanksOnlyInLiterals(st.result)
    ensures match Step(st, b)
      case Done(obj) => BlanksOnlyInLiterals(obj)
      case Next(st') => Tracks(st') && BlanksOnlyInLiterals(st'.result)
  {
    InLiteralAppend(st.result, b);
    match Step(st, b) {
      case Done(obj) =>
        BlanksAppend(st.result, b);
      case Next(st') =>
        if st'.result != st.result {
          BlanksAppend(st.result, b);
        }
    }
  }

  /**
   * For every input: white space and `#` reach the result only inside string
   * literals, so outside them blanks are stripped and comments dropped.
   */
  lemma {:induction false} BlanksKeptOnlyInLiterals(st: Scan, data: seq<byte>, i: nat)
    requires i <= |data| && Tracks(st) && BlanksOnlyInLiterals(st.result)
    ensures BlanksOnlyInLiterals(Run(st, data, i).obj)
    decreases |data| - i
  {
    if i < |data| {
      StepKeepsBlanksInLiterals(st, data[i]);
      match Step(st, data[i]) {
        case Done(obj) =>
        case Next(st') =>
          BlanksKeptOnlyInLiterals(st', data, i + 1);
      }
    }
  }

  /** getJSONObject keeps white space and `#` only inside string literals. */
  lemma ExtractBlanksOnlyInLiterals(data: seq<byte>, i: nat)
    requires i <= |data|
    ensures BlanksOnlyInLiterals(Extract(data, i).obj)
  {
    BlanksKeptOnlyInLiterals(Start, data, i);
  }

  /** The result holds no white space and no `#`. */
  predicate Compact(r: seq<byte>) {
    forall k | 0 <= k < |r| :: !IsStripped(r[k]) && r[k] != Hash
  }

  /** A `"`-free prefix never ends inside a literal. */
  lemma {:induction false} NoQuoteNoLiteral(r: seq<byte>)
    requires forall k | 0 <= k < |r| :: r[k] != Quote
    ensures !InLiteral(r)
    decreases |r|
  {
    if r != [] {
      NoQuoteNoLiteral(r[..|r| - 1]);
    }
  }

  /** An extracted object without string literals holds no white space and no `#`. */
  lemma ExtractCompact(data: seq<byte>, i: nat)
    requires i <= |data|
    ensures var r := Extract(data, i).obj;
      (forall k | 0 <= k < |r| :: r[k] != Quote) ==> Compact(r)
  {
    ExtractBlanksOnlyInLiterals(data, i);
    var r := Extract(data, i).obj;
    if forall k | 0 <= k < |r| :: r[k] != Quote {
      forall k | 0 <= k < |r|
        ensures !IsStripped(r[k]) && r[k] != Hash
      {
        NoQuoteNoLiteral(r[..k + 1]);
      }
    }
  }

  /** `a` can be obtained from `b` by deleting bytes. */
  predicate IsSubsequence(a: seq<byte>, b: seq<byte>)
    decreases |b|
  {
    if a == [] then true
    else if b == [] then false
    else if a[|a| - 1] == b[|b| - 1] then IsSubsequence(a[..|a| - 1], b[..|b| - 1])
    else IsSubsequence(a, b[..|b| - 1])
  }

  lemma {:induction false} SubsequenceDropLast(a: seq<byte>, b: seq<byte>)
    requires a != [] && IsSubsequence(a, b)
    ensures IsSubsequence(a[..|a| - 1], b)
    decreases |b|, 0
  {
    var a' := a[..|a| - 1];
    if a' != [] && b != [] {
      var b' := b[..|b| - 1];
      if a[|a| - 1] == b[|b| - 1] {
        SubsequenceExtend(a', b', b[|b| - 1]);
        assert b' + [b[|b| - 1]] == b;
      } else {
        SubsequenceDropLast(a, b');
        SubsequenceExtend(a', b', b[|b| - 1]);
        assert b' + [b[|b| - 1]] == b;
      }
    }
  }

  /** A subsequence stays one when the longer sequence grows. */
  lemma {:induction false} SubsequenceExtend(a: seq<byte>, b: seq<byte>, x: byte)
    requires IsSubsequence(a, b)
    ensures IsSubsequence(a, b + [x])
    decreases |b|, 1
  {
    assert (b + [x])[..|b|] == b;
    if a != [] && a[|a| - 1] == x {
      SubsequenceDropLast(a, b);
    }
  }

  lemma SubsequenceAppendBoth(a: seq<byte>, b: seq<byte>, x: byte)
    requires IsSubsequence(a, b)
    ensures IsSubsequence(a + [x], b + [x])
  {
    assert (a + [x])[..|a|] == a;
    assert (b + [x])[..|b|] == b;
  }

  /** A step keeps the kept bytes a subsequence of the bytes read. */
  lemma StepKeepsSubsequence(st: Scan, b: byte, read: seq<byte>)
    requires IsSubsequence(st.result, read)
    ensures match Step(st, b)
      case Done(obj) => IsSubsequence(obj, read + [b])
      case Next(st') => IsSubsequence(st'.result, read + [b])
  {
    SubsequenceAppendBoth(st.result, read, b);
    SubsequenceExtend(st.result, read, b);
  }

  /** Only bytes read are kept, in the order read: the result is a subsequence of the bytes consumed. */
  lemma {:induction false} ResultIsSubsequence(st: Scan, data: seq<byte>, i: nat, from: nat)
    requires from <= i <= |data| && IsSubsequence(st.result, data[from..i])
    ensures IsSubsequence(Run(st, data, i).obj, data[from..Run(st, data, i).used])
    decreases |data| - i
  {
    if i < |data| {
      var b := data[i];
      assert data[from..i + 1] == data[from..i] + [b];
      StepKeepsSubsequence(st, b, data[from..i]);
      match Step(st, b) {
        case Done(obj) =>
        case Next(st') =>
          ResultIsSubsequence(st', data, i + 1, from);
      }
    }
  }

  /** The state with the comment flag cleared: what re-reading only the kept bytes would be in. */
  function Clean(st: Scan): Scan {
    st.(comment := false)
  }

  /**
   * Feeding the kept bytes back in from the cleaned state reproduces the
   * result exactly: skipped bytes never changed anything but the comment
   * flag, and a byte is kept only outside a comment.
   */
  lemma {:induction false} ReplayKeptBytes(st: Scan, data: seq<byte>, i: nat)
    requires i <= |data|
    ensures var e := Run(st, data, i);
      Run(Clean(st), e.obj, |st.result|) == Extracted(e.obj, |e.obj|, e.unmatched)
    decreases |data| - i
  {
    var e := Run(st, data, i);
    if i < |data| {
      var b := data[i];
      StepOnKeptByte(st, b);
      match Step(st, b) {
        case Done(obj) =>
          assert obj[|st.result|] == b;
        case Next(st') =>
          ReplayKeptBytes(st', data, i + 1);
          if st'.result != st.result {
            assert e.obj[|st.result|] == b;
          }
      }
    }
  }

  /**
   * A byte that is skipped changes at most the comment flag; a byte that is
   * kept is read outside a comment, so the cleaned state takes the same step.
   */
  lemma StepOnKeptByte(st: Scan, b: byte)
    ensures match Step(st, b)
      case Done(obj) => Step(Clean(st), b) == Done(obj)
      case Next(st') =>
        if st'.result == st.result then Clean(st') == Clean(st)
        else st'.result == st.result + [b] && Step(Clean(st), b) == Next(st') && Clean(st') == st'
  {
  }

  /** Re-extracting an extracted object gives it back, reading all of it, with the same verdict. */
  lemma ExtractIdempotent(data: seq<byte>, i: nat)
    requires i <= |data|
    ensures var e := Extract(data, i);
      Extract(e.obj, 0) == Extracted(e.obj, |e.obj|, e.unmatched)
  {
    ReplayKeptBytes(Start, data, i);
    assert Clean(Start) == Start;
  }

  /**
   * An escaped backslash at the end of a string, as in {"k":"\\"}, leaves the
   * literal open: the closing quote is taken for an escaped one and the input
   * ends inside the object.
   */
  lemma EscapedBackslashKeepsLiteralOpen()
    ensures var data: seq<byte> := [0x7B, 0x22, 0x6B, 0x22, 0x3A, 0x22, 0x5C, 0x5C, 0x22, 0x7D];
      Extract(data, 0) == Extracted(data, 10, true)
  {
    var data: seq<byte> := [0x7B, 0x22, 0x6B, 0x22, 0x3A, 0x22, 0x5C, 0x5C, 0x22, 0x7D];
    var s1 := Scan(true, 1, false, false, 0x7B, data[..1]);
    assert Step(Start, data[0]) == Next(s1);
    var s2 := Scan(true, 1, true, false, 0x22, data[..2]);
    assert Step(s1, data[1]) == Next(s2);
    var s3 := Scan(true, 1, true, false, 0x6B, data[..3]);
    assert Step(s2, data[2]) == Next(s3);
    var s4 := Scan(true, 1, false, false, 0x22, data[..4]);
    assert Step(s3, data[3]) == Next(s4);
    var s5 := Scan(true, 1, false, false, 0x3A, data[..5]);
    assert Step(s4, data[4]) == Next(s5);
    var s6 := Scan(true, 1, true, false, 0x22, data[..6]);
    assert Step(s5, data[5]) == Next(s6);
    var s7 := Scan(true, 1, true, false, 0x5C, data[..7]);
    assert Step(s6, data[6]) == Next(s7);
    var s8 := Scan(true, 1, true, false, 0x5C, data[..8]);
    assert Step(s7, data[7]) == Next(s8);
    var s9 := Scan(true, 1, true, false, 0x22, data[..9]);
    assert Step(s8, data[8]) == Next(s9);
    var s10 := Scan(true, 1, true, false, 0x7D, data[..10]);
    assert Step(s9, data[9]) == Next(s10);
    assert data[..10] == data;
  }

  // ---------------------------------------------------------------------
  // The buffer and the extractor
  // ---------------------------------------------------------------------

  /** A bytes.Buffer being drained: its contents and the read offset. */
  class Buffer {
    var data: seq<byte>
    var off: nat

    predicate Valid()
      reads this
    {
      off <= |data|
    }

    constructor (content: seq<byte>)
      ensures data == content && off == 0 && Valid()
    {
      data := content;
      off := 0;
    }

    /** The next unread byte, or `ok` false (io.EOF) when none is left. */
    method ReadByte() returns (b: byte, ok: bool)
      requires Valid()
      modifies this
      ensures Valid() && data == old(data)
      ensures old(off) < |data| ==> ok && b == data[old(off)] && off == old(off) + 1
      ensures old(off) == |data| ==> !ok && off == old(off)
    {
      if off == |data| {
        return 0, false;
      }
      b := data[off];
      off := off + 1;
      ok := true;
    }
  }

  /**
   * getJSONObject: reads bytes until an object closes or the buffer is
   * exhausted; the buffer is left just past the last byte read.
   */
  method GetJSONObject(buf: Buffer) returns (result: seq<byte>, err: Option<ExtractError>)
    requires buf.Valid()
    modifies buf
    ensures buf.Valid() && buf.data == old(buf.data)
    ensures var e := Extract(old(buf.data), old(buf.off));
      result == e.obj && buf.off == e.used && (err.Some? <==> e.unmatched)
    ensures err.Some? ==> err.value == UnmatchedBraces(result)
  {
    var braces := false;
    var braceCnt := 0;
    var literal := false;
    var comment := false;
    var lastB: byte := 0;
    result := [];
    ghost var data := buf.data;
    ghost var goal := Extract(buf.data, buf.off);
    while true
      invariant buf.Valid() && buf.data == data
      invariant Run(Scan(braces, braceCnt, literal, comment, lastB, result), data, buf.off) == goal
      decreases |data| - buf.off
    {
      ghost var st := Scan(braces, braceCnt, literal, comment, lastB, result);
      var b, ok := buf.ReadByte();
      if !ok {
        break;
      }
      ghost var step := Step(st, b);
      if !braces && b != LeftBrace {
        continue;
      }
      if comment && b != Newline {
        continue;
      }
      if b == Hash && !literal {
        comment := true;
        continue;
      }
      if b == Newline && comment {
        comment := false;
        continue;
      }
      if b == LeftBrace && !literal {
        braceCnt := braceCnt + 1;
        if !braces {
          braces := true;
        }
      } else if b == RightBrace && !literal {
        braceCnt := braceCnt - 1;
      } else if b == Quote {
        if !literal {
          literal := true;
        } else if lastB != Backslash {
          literal := false;
        }
      }
      assert Scan(braces, braceCnt, literal, comment, lastB, result) == Switch(st, b);
      if !literal && IsStripped(b) {
        continue;
      }
      result := result + [b];
      if braceCnt == 0 {
        assert step == Done(result);
        return result, None;
      }
      lastB := b;
    }
    if braceCnt != 0 {
      return result, Some(UnmatchedBraces(result));
    }
    return result, None;
  }

  // ---------------------------------------------------------------------
  // ReadJSONFile: every object of the file's contents
  // ---------------------------------------------------------------------

  /** What ReadJSONFile returns: the objects extracted, then an error or none. */
  datatype Collected = Collected(objects: seq<seq<byte>>, err: Option<FileError>)

  /** Objects n, n + 1, ... from data[i..], stopping at an empty result or the first error. */
  function ReadAll(data: seq<byte>, i: nat, n: nat): Collected
    requires i <= |data|
    decreases |data| - i
  {
    var e := Extract(data, i);
    if e.unmatched then Collected([], Some(ObjectError(n, UnmatchedBraces(e.obj))))
    else if e.obj == [] then Collected([], None)
    else
      var rest := ReadAll(data, e.used, n + 1);
      Collected([e.obj] + rest.objects, rest.err)
  }

  /**
   * Every object collected is non-empty, delimited by braces and a fixed
   * point of extraction; an error names the object after the last one
   * collected.
   */
  lemma {:induction false} ReadAllObjects(data: seq<byte>, i: nat, n: nat)
    requires i <= |data|
    ensures var c := ReadAll(data, i, n);
      (forall k | 0 <= k < |c.objects| :: WellFormedObject(c.objects[k]))
      && (c.err.Some? ==> c.err.value.n == n + |c.objects|)
    decreases |data| - i
  {
    var e := Extract(data, i);
    ObjectDelimited(Start, data, i);
    ExtractIdempotent(data, i);
    if !e.unmatched && e.obj != [] {
      ReadAllObjects(data, e.used, n + 1);
    }
  }

  /** An object as ReadJSONFile returns it. */
  predicate WellFormedObject(obj: seq<byte>) {
    obj != [] && obj[0] == LeftBrace && obj[|obj| - 1] == RightBrace
    && Extract(obj, 0) == Extracted(obj, |obj|, false)
  }

  /** The collection loop of ReadJSONFile over the file's contents. */
  method ReadJSONFile(content: seq<byte>) returns (a: seq<seq<byte>>, err: Option<FileError>)
    ensures Collected(a, err) == ReadAll(content, 0, 1)
  {
    var buf := new Buffer(content);
    a := [];
    var n := 1;
    while true
      invariant buf.Valid() && buf.data == content
      invariant n == |a| + 1
      invariant Resumes(a, ReadAll(content, buf.off, n), ReadAll(content, 0, 1))
      decreases |content| - buf.off
    {
      ghost var off := buf.off;
      ghost var r := ReadAll(content, off, n);
      var b, e := GetJSONObject(buf);
      if e.Some? {
        assert r == Collected([], Some(ObjectError(n, e.value)));
        assert a + [] == a;
        return a, Some(ObjectError(n, e.value));
      }
      if |b| == 0 {
        assert r == Collected([], None);
        assert a + [] == a;
        break;
      }
      ghost var rest := ReadAll(content, buf.off, n + 1);
      assert r == Collected([b] + rest.objects, rest.err);
      assert (a + [b]) + rest.objects == a + ([b] + rest.objects);
      a := a + [b];
      n := n + 1;
    }
    err := None;
  }

  /** Objects `a` followed by what remains to be read make up the whole collection. */
  predicate Resumes(a: seq<seq<byte>>, remaining: Collected, whole: Collected) {
    Collected(a + remaining.objects, remaining.err) == whole
  }
}
