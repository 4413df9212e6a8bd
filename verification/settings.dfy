/**
 * The package's process-wide settings: the dotted struct members to leave
 * out of the missing/existing reports (with their depth), the omitempty
 * policy, and the JSON keys to leave out of Validate and the unknown report.
 */
module Settings {
  import opened Text

  /** One SetMembersToIgnore entry: lower-cased dotted path and its segment count. */
  datatype SkipMember = SkipMember(val: string, depth: nat)

  /** A snapshot of the three settings, read by the walkers. */
  datatype Config = Config(skipMembers: seq<SkipMember>, omitemptyOK: bool, skipKeys: seq<string>)

  function SkipEntry(v: string): SkipMember {
    SkipMember(Lower(v), Segments(v))
  }

  /** Every entry's depth is the segment count of its path, as SetMembersToIgnore makes them. */
  predicate WellFormedSkips(skips: seq<SkipMember>) {
    forall q | 0 <= q < |skips| :: skips[q].depth == Segments(skips[q].val)
  }

  lemma SkipEntriesWellFormed(s: seq<string>)
    ensures WellFormedSkips(seq(|s|, i requires 0 <= i < |s| => SkipEntry(s[i])))
  {
    forall i | 0 <= i < |s| ensures SkipEntry(s[i]).depth == Segments(SkipEntry(s[i]).val) {
      SegmentsLower(s[i]);
    }
  }

  class Settings {
    var skipMembers: seq<SkipMember>
    var omitemptyOK: bool
    var skipKeys: seq<string>

    /** Package initialisation: no members skipped, omitempty honoured, key "config" skipped. */
    constructor ()
      ensures skipMembers == [] && omitemptyOK && skipKeys == ["config"]
    {
      skipMembers := [];
      omitemptyOK := true;
      skipKeys := ["config"];
    }

    function Snapshot(): Config
      reads this
    {
      Config(skipMembers, omitemptyOK, skipKeys)
    }

    /**
     * No arguments clear the list; otherwise it is replaced wholesale, entry i
     * being the lower-cased path s[i] with its number of segments.
     */
    method SetMembersToIgnore(s: seq<string>)
      modifies this
      ensures |skipMembers| == |s|
      ensures forall i | 0 <= i < |s| :: skipMembers[i] == SkipEntry(s[i])
      ensures WellFormedSkips(skipMembers)
      ensures omitemptyOK == old(omitemptyOK) && skipKeys == old(skipKeys)
    {
      if |s| == 0 {
        skipMembers := [];
        return;
      }
      var entries: seq<SkipMember> := [];
      for i := 0 to |s|
        invariant |entries| == i
        invariant forall j | 0 <= j < i :: entries[j] == SkipEntry(s[j])
      {
        entries := entries + [SkipEntry(s[i])];
      }
      skipMembers := entries;
      SkipEntriesWellFormed(s);
      assert skipMembers == seq(|s|, i requires 0 <= i < |s| => SkipEntry(s[i]));
    }

    /** No argument toggles the policy; an argument sets it. */
    method IgnoreOmitemptyTag(ok: seq<bool>)
      modifies this
      ensures omitemptyOK == if |ok| == 0 then !old(omitemptyOK) else ok[0]
      ensures skipMembers == old(skipMembers) && skipKeys == old(skipKeys)
    {
      if |ok| == 0 {
        omitemptyOK := !omitemptyOK;
        return;
      }
      omitemptyOK := ok[0];
    }

    /** No arguments empty the list (dropping "config"); otherwise it becomes the lower-cased arguments. */
    method SetKeysToIgnore(s: seq<string>)
      modifies this
      ensures |skipKeys| == |s|
      ensures forall i | 0 <= i < |s| :: skipKeys[i] == Lower(s[i])
      ensures skipMembers == old(skipMembers) && omitemptyOK == old(omitemptyOK)
    {
      if |s| == 0 {
        skipKeys := [];
        return;
      }
      var keys: seq<string> := [];
      for i := 0 to |s|
        invariant |keys| == i
        invariant forall j | 0 <= j < i :: keys[j] == Lower(s[j])
      {
        keys := keys + [Lower(s[i])];
      }
      skipKeys := keys;
    }
  }

  // ---------------------------------------------------------------------
  // Member suppression (step 5 of checkMembers / findMembers)
  // ---------------------------------------------------------------------

  /** The depth of the fields below `cmem`: 1 at the root, one more than cmem's segments below. */
  function Depth(cmem: string): nat {
    if |cmem| > 0 then Segments(cmem) + 1 else 1
  }

  /** The path a skip entry must equal: lower(cmem).lower(name), or lower(name) at the root. */
  function SkipPath(cmem: string, name: string): string {
    if |cmem| > 0 then Lower(cmem) + "." + Lower(name) else Lower(name)
  }

  /** Entry `sm` suppresses field `name` below `cmem`. */
  predicate SuppressesAt(sm: SkipMember, cmem: string, name: string) {
    sm.depth == Depth(cmem) && sm.val == SkipPath(cmem, name)
  }

  predicate Suppressed(skips: seq<SkipMember>, cmem: string, name: string) {
    exists q | 0 <= q < |skips| :: SuppressesAt(skips[q], cmem, name)
  }

  /** The skip loop of step 5: any entry at this depth whose path is this field's. */
  method IsSuppressed(skips: seq<SkipMember>, cmem: string, name: string) returns (skip: bool)
    ensures skip == Suppressed(skips, cmem, name)
  {
    var cmemdepth := 1;
    if |cmem| > 0 {
      cmemdepth := Segments(cmem) + 1;
    }
    var lcmem := Lower(cmem);
    var lm := Lower(name);
    for q := 0 to |skips|
      invariant forall q' | 0 <= q' < q :: !SuppressesAt(skips[q'], cmem, name)
    {
      if cmemdepth != skips[q].depth {
        continue;
      }
      if |cmem| > 0 {
        if lcmem + "." + lm == skips[q].val {
          return true;
        }
      } else if lm == skips[q].val {
        return true;
      }
    }
    return false;
  }

  /**
   * The depth test never changes the outcome: with entries made by
   * SetMembersToIgnore and a Go field name (which has no `.`), a field is
   * suppressed exactly when some entry spells its lower-cased path.
   */
  lemma DepthTestRedundant(skips: seq<SkipMember>, cmem: string, name: string)
    requires WellFormedSkips(skips)
    requires forall i | 0 <= i < |name| :: name[i] != '.'
    ensures Suppressed(skips, cmem, name) <==>
      exists q | 0 <= q < |skips| :: skips[q].val == SkipPath(cmem, name)
  {
    CountAbsent(Lower(name), '.');
    SegmentsLower(cmem);
    SegmentsJoin(Lower(cmem), Lower(name));
    if exists q | 0 <= q < |skips| :: skips[q].val == SkipPath(cmem, name) {
      var q :| 0 <= q < |skips| && skips[q].val == SkipPath(cmem, name);
      assert SuppressesAt(skips[q], cmem, name);
    }
  }

  // ---------------------------------------------------------------------
  // Key suppression
  // ---------------------------------------------------------------------

  /**
   * unknownkeys.go: the key `lk` below path `key` is skipped when the dotted
   * path key.lk (bare lk at the root) is on the list.
   */
  predicate KeySkipped(skipKeys: seq<string>, key: string, lk: string) {
    Join(key, lk) in skipKeys
  }

  /** The skip loop of unknownkeys.go step 5. */
  method IsKeySkipped(skipKeys: seq<string>, key: string, lk: string) returns (skip: bool)
    ensures skip == KeySkipped(skipKeys, key, lk)
  {
    for q := 0 to |skipKeys|
      invariant Join(key, lk) !in skipKeys[..q]
    {
      if key == "" && lk == skipKeys[q] {
        return true;
      } else if key != "" && key + "." + lk == skipKeys[q] {
        return true;
      }
      assert skipKeys[..q + 1] == skipKeys[..q] + [skipKeys[q]];
    }
    assert skipKeys[..|skipKeys|] == skipKeys;
    return false;
  }
}
