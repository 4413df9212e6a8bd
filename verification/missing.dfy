/**
 * MissingJSONKeys / checkMembers: the struct fields the JSON object gives no
 * value, as dotted paths, depth first in declaration order.
 */
module MissingKeys {
  import opened Text
  import opened Values
  import opened Settings
  import opened ErrorContext

  // ---------------------------------------------------------------------
  // Specification
  // ---------------------------------------------------------------------

  /** The paths checkMembers appends for value `mv` against `sch` below path `cmem`. */
  function Missing(c: Config, mv: JValue, sch: Schema, cmem: string): seq<string>
    decreases sch, 2, 0
  {
    match sch
    case Slice(typeName, elem) =>
      if mv.JArray? then MissingElems(c, mv.elems, elem, cmem, 0) else [typeName]
    case Struct(typeName, fields) =>
      MembersIndexInto(fields, true);
      (if mv.JObject? then [] else [typeName])
        + MissingFields(c, KeyMap(mv), sch, Members(fields, true), 0, cmem)
    case _ => []
  }

  /** Array elements i.. are each checked against the element schema, with the unchanged path. */
  function MissingElems(c: Config, elems: seq<JValue>, elem: Schema, cmem: string, i: nat): seq<string>
    requires i <= |elems|
    decreases elem, 3, |elems| - i
  {
    if i == |elems| then []
    else Missing(c, elems[i], elem, cmem) + MissingElems(c, elems, elem, cmem, i + 1)
  }

  /** Listed fields ms[i..] of struct `sch`, in order. */
  function MissingFields(c: Config, mkeys: map<string, JValue>, sch: Schema, ms: seq<Member>, i: nat, cmem: string): seq<string>
    requires sch.Struct? && IndexesInto(ms, sch.fields) && i <= |ms|
    decreases sch, 1, |ms| - i
  {
    if i == |ms| then []
    else MissingField(c, mkeys, sch, ms[i], cmem) + MissingFields(c, mkeys, sch, ms, i + 1, cmem)
  }

  /**
   * One listed field: nothing when suppressed; its path when absent; else the
   * check of its value (nil when the key is absent but excused) one level down.
   */
  function MissingField(c: Config, mkeys: map<string, JValue>, sch: Schema, m: Member, cmem: string): seq<string>
    requires sch.Struct? && m.index < |sch.fields|
    decreases sch, 0, 0
  {
    if Suppressed(c.skipMembers, cmem, m.name) then []
    else if Absent(mkeys, m, c.omitemptyOK) then [Join(cmem, PathSegment(m))]
    else Missing(c, Lookup(mkeys, LookupKey(m)), sch.fields[m.index].schema, Join(cmem, PathSegment(m)))
  }

  /**
   * Keys are matched ignoring case: when member i is the last whose
   * lower-cased key is the field's lookup key (so "whyNot" for the tag
   * `whynot`), the field is not absent and, unless suppressed, is checked
   * against that member's value one level down.
   */
  lemma PresentKeyNotMissing(c: Config, mm: seq<(string, JValue)>, sch: Schema, m: Member, cmem: string, i: nat)
    requires sch.Struct? && m.index < |sch.fields| && i < |mm|
    requires Lower(mm[i].0) == LookupKey(m)
    requires forall i' | i < i' < |mm| :: Lower(mm[i'].0) != Lower(mm[i].0)
    ensures !Absent(KeyMap(JObject(mm)), m, c.omitemptyOK)
    ensures !Suppressed(c.skipMembers, cmem, m.name) ==>
      MissingField(c, KeyMap(JObject(mm)), sch, m, cmem)
        == Missing(c, mm[i].1, sch.fields[m.index].schema, Join(cmem, PathSegment(m)))
  {
    LowerKeysLastWins(mm, i);
  }

  // ---------------------------------------------------------------------
  // The walker
  // ---------------------------------------------------------------------

  /** checkMembers: appends to `s` the report `Missing` describes for the settings in `c`. */
  method CheckMembers(c: Config, mv: JValue, sch: Schema, s: seq<string>, cmem: string) returns (out: seq<string>)
    ensures out == s + Missing(c, mv, sch, cmem)
    decreases sch, 2, 0
  {
    match sch {
      case Slice(typeName, elem) =>
        if !mv.JArray? {
          return s + [typeName];
        }
        out := CheckElems(c, mv.elems, elem, s, cmem);
      case Struct(typeName, fields) =>
        ghost var tail := MissingFields(c, KeyMap(mv), sch, Members(fields, true), 0, cmem);
        assert Missing(c, mv, sch, cmem) == (if mv.JObject? then [] else [typeName]) + tail;
        out := s;
        if !mv.JObject? {
          out := out + [typeName];
        }
        ghost var head := out;
        out := CheckStruct(c, mv, sch, out, cmem);
        assert out == head + tail;
      case _ =>
        return s;
    }
  }

  /** Step 2.1: every array element against the element schema, path unchanged. */
  method CheckElems(c: Config, elems: seq<JValue>, elem: Schema, s: seq<string>, cmem: string) returns (out: seq<string>)
    ensures out == s + MissingElems(c, elems, elem, cmem, 0)
    decreases elem, 3, 0
  {
    out := s;
    for i := 0 to |elems|
      invariant out + MissingElems(c, elems, elem, cmem, i) == s + MissingElems(c, elems, elem, cmem, 0)
    {
      ghost var here := Missing(c, elems[i], elem, cmem);
      ghost var rest := MissingElems(c, elems, elem, cmem, i + 1);
      assert MissingElems(c, elems, elem, cmem, i) == here + rest;
      ghost var prev := out;
      out := CheckMembers(c, elems[i], elem, out, cmem);
      assert out + rest == prev + (here + rest);
    }
  }

  /** Steps 3c-5: the lower-cased key map, the field list, then each listed field in order. */
  method CheckStruct(c: Config, mv: JValue, sch: Schema, s: seq<string>, cmem: string) returns (out: seq<string>)
    requires sch.Struct?
    ensures out == s + MissingFields(c, KeyMap(mv), sch, Members(sch.fields, true), 0, cmem)
    decreases sch, 1, 3
  {
    var mkeys: map<string, JValue> := map[];
    if mv.JObject? {
      mkeys := BuildLowerKeys(mv.members);
    }
    var ms := CollectMembers(sch.fields, true);
    MembersIndexInto(sch.fields, true);
    out := CheckFieldList(c, mkeys, sch, ms, s, cmem);
  }

  /** Step 5: the listed fields in declaration order. */
  method CheckFieldList(c: Config, mkeys: map<string, JValue>, sch: Schema, ms: seq<Member>, s: seq<string>, cmem: string)
    returns (out: seq<string>)
    requires sch.Struct? && IndexesInto(ms, sch.fields)
    ensures out == s + MissingFields(c, mkeys, sch, ms, 0, cmem)
    decreases sch, 1, 2
  {
    out := s;
    for i := 0 to |ms|
      invariant out + MissingFields(c, mkeys, sch, ms, i, cmem) == s + MissingFields(c, mkeys, sch, ms, 0, cmem)
    {
      ghost var prev := out;
      out := CheckFieldAt(c, mkeys, sch, ms, i, out, cmem);
      assert out + MissingFields(c, mkeys, sch, ms, i + 1, cmem) == prev + MissingFields(c, mkeys, sch, ms, i, cmem);
    }
  }

  /** One iteration of step 5: listed field ms[i]. */
  method CheckFieldAt(c: Config, mkeys: map<string, JValue>, sch: Schema, ms: seq<Member>, i: nat, s: seq<string>, cmem: string)
    returns (out: seq<string>)
    requires sch.Struct? && IndexesInto(ms, sch.fields) && i < |ms|
    ensures out + MissingFields(c, mkeys, sch, ms, i + 1, cmem) == s + MissingFields(c, mkeys, sch, ms, i, cmem)
    decreases sch, 1, 1
  {
    ghost var rest := MissingFields(c, mkeys, sch, ms, i + 1, cmem);
    out := CheckField(c, mkeys, sch, ms[i], s, cmem);
    assert out + rest == s + (MissingField(c, mkeys, sch, ms[i], cmem) + rest);
  }

  /** Step 5 of checkMembers for one listed field. */
  method CheckField(c: Config, mkeys: map<string, JValue>, sch: Schema, m: Member, s: seq<string>, cmem: string)
    returns (out: seq<string>)
    requires sch.Struct? && m.index < |sch.fields|
    ensures out == s + MissingField(c, mkeys, sch, m, cmem)
    decreases sch, 1, 0
  {
    var skip := IsSuppressed(c.skipMembers, cmem, m.name);
    if skip {
      return s;
    }
    var name := m.name;
    var key := Lower(m.name);
    if |m.tag| > 0 {
      name := m.tag;
      key := m.tag;
    }
    var ok := key in mkeys;
    if !ok && (!m.omitempty || !c.omitemptyOK) {
      return s + [Join(cmem, name)];
    }
    var v := if ok then mkeys[key] else JNull;
    out := CheckMembers(c, v, sch.fields[m.index].schema, s, Join(cmem, name));
  }

  /**
   * MissingJSONKeys: a decoding failure is returned through ResolveJSONError
   * with an empty list; otherwise the top-level object is checked from the root.
   */
  method MissingJSONKeys(settings: Settings, data: string, decoded: Decoded, val: Schema)
    returns (keys: seq<string>, err: Option<GoError>)
    requires decoded.DecodeFailed? && decoded.err.TypeError? ==> decoded.err.offset <= |data|
    ensures decoded.DecodeFailed? ==> keys == [] && err == Some(Resolved(data, decoded.err))
    ensures decoded.Decoded? ==> err == None && keys == Missing(settings.Snapshot(), JObject(decoded.members), val, "")
  {
    if decoded.DecodeFailed? {
      var e := ResolveJSONError(data, decoded.err);
      return [], Some(e);
    }
    keys := CheckMembers(settings.Snapshot(), JObject(decoded.members), val, [], "");
    err := None;
  }
}
