/**
 * ExistingJSONKeys / findMembers: the struct fields the JSON object sets (or
 * may leave out under an honoured omitempty), each listed before its own
 * fields, in declaration order.
 */
module ExistingKeys {
  import opened Text
  import opened Values
  import opened Settings
  import opened ErrorContext

  // ---------------------------------------------------------------------
  // Specification
  // ---------------------------------------------------------------------

  /**
   * The entries findMembers appends for value `mv` against `sch` below path
   * `cmem`. The source looks tags up as written (`lowerTags` false);
   * `lowerTags` true is the same walk with tags lower-cased first, as
   * checkMembers does.
   */
  function Existing(c: Config, mv: JValue, sch: Schema, cmem: string, lowerTags: bool): seq<string>
    decreases sch, 2, 0
  {
    match sch
    case Slice(typeName, elem) =>
      if mv.JArray? then ExistingElems(c, mv.elems, elem, cmem, lowerTags, 0) else [typeName]
    case Struct(typeName, fields) =>
      MembersIndexInto(fields, lowerTags);
      (if mv.JObject? then [] else [typeName])
        + ExistingFields(c, KeyMap(mv), sch, Members(fields, lowerTags), 0, cmem, lowerTags)
    case _ => []
  }

  /** Array elements i.. are each checked against the element schema, with the unchanged path. */
  function ExistingElems(c: Config, elems: seq<JValue>, elem: Schema, cmem: string, lowerTags: bool, i: nat): seq<string>
    requires i <= |elems|
    decreases elem, 3, |elems| - i
  {
    if i == |elems| then []
    else Existing(c, elems[i], elem, cmem, lowerTags) + ExistingElems(c, elems, elem, cmem, lowerTags, i + 1)
  }

  /** Listed fields ms[i..] of struct `sch`, in order. */
  function ExistingFields(c: Config, mkeys: map<string, JValue>, sch: Schema, ms: seq<Member>, i: nat, cmem: string, lowerTags: bool)
    : seq<string>
    requires sch.Struct? && IndexesInto(ms, sch.fields) && i <= |ms|
    decreases sch, 1, |ms| - i
  {
    if i == |ms| then []
    else ExistingField(c, mkeys, sch, ms[i], cmem, lowerTags) + ExistingFields(c, mkeys, sch, ms, i + 1, cmem, lowerTags)
  }

  /**
   * One listed field: nothing when suppressed or absent; otherwise its Go name
   * under `cmem`, followed by the entries of its value, whose path is extended
   * by the tag (or the Go name when untagged).
   */
  function ExistingField(c: Config, mkeys: map<string, JValue>, sch: Schema, m: Member, cmem: string, lowerTags: bool): seq<string>
    requires sch.Struct? && m.index < |sch.fields|
    decreases sch, 0, 0
  {
    if Suppressed(c.skipMembers, cmem, m.name) || Absent(mkeys, m, c.omitemptyOK) then []
    else
      var sub := Existing(c, Lookup(mkeys, LookupKey(m)), sch.fields[m.index].schema, Join(cmem, PathSegment(m)), lowerTags);
      [Join(cmem, m.name)] + sub
  }

  // ---------------------------------------------------------------------
  // The walker
  // ---------------------------------------------------------------------

  /**
   * findMembers: appends to `s` the report `Existing` describes for the settings
   * in `c`. The source looks tags up as written (`lowerTags` false); with
   * `lowerTags` true the same walker computes the corrected report.
   */
  method FindMembers(c: Config, mv: JValue, sch: Schema, s: seq<string>, cmem: string, lowerTags: bool) returns (out: seq<string>)
    ensures out == s + Existing(c, mv, sch, cmem, lowerTags)
    decreases sch, 2, 0
  {
    match sch {
      case Slice(typeName, elem) =>
        if !mv.JArray? {
          return s + [typeName];
        }
        out := FindInElems(c, mv.elems, elem, s, cmem, lowerTags);
      case Struct(typeName, fields) =>
        ghost var tail := ExistingFields(c, KeyMap(mv), sch, Members(fields, lowerTags), 0, cmem, lowerTags);
        assert Existing(c, mv, sch, cmem, lowerTags) == (if mv.JObject? then [] else [typeName]) + tail;
        out := s;
        if !mv.JObject? {
          out := out + [typeName];
        }
        ghost var head := out;
        out := FindInStruct(c, mv, sch, out, cmem, lowerTags);
        assert out == head + tail;
      case _ =>
        return s;
    }
  }

  /** Step 2.1: every array element against the element schema, path unchanged. */
  method FindInElems(c: Config, elems: seq<JValue>, elem: Schema, s: seq<string>, cmem: string, lowerTags: bool) returns (out: seq<string>)
    ensures out == s + ExistingElems(c, elems, elem, cmem, lowerTags, 0)
    decreases elem, 3, 0
  {
    out := s;
    for i := 0 to |elems|
      invariant out + ExistingElems(c, elems, elem, cmem, lowerTags, i) == s + ExistingElems(c, elems, elem, cmem, lowerTags, 0)
    {
      ghost var here := Existing(c, elems[i], elem, cmem, lowerTags);
      ghost var rest := ExistingElems(c, elems, elem, cmem, lowerTags, i + 1);
      assert ExistingElems(c, elems, elem, cmem, lowerTags, i) == here + rest;
      ghost var prev := out;
      out := FindMembers(c, elems[i], elem, out, cmem, lowerTags);
      assert out + rest == prev + (here + rest);
    }
  }

  /** Steps 3c-5: the lower-cased key map, the field list (raw tags as written), then each listed field. */
  method FindInStruct(c: Config, mv: JValue, sch: Schema, s: seq<string>, cmem: string, lowerTags: bool) returns (out: seq<string>)
    requires sch.Struct?
    ensures out == s + ExistingFields(c, KeyMap(mv), sch, Members(sch.fields, lowerTags), 0, cmem, lowerTags)
    decreases sch, 1, 3
  {
    var mkeys: map<string, JValue> := map[];
    if mv.JObject? {
      mkeys := BuildLowerKeys(mv.members);
    }
    var ms := CollectMembers(sch.fields, lowerTags);
    MembersIndexInto(sch.fields, lowerTags);
    out := FindInFieldList(c, mkeys, sch, ms, s, cmem, lowerTags);
  }

  /** Step 5: the listed fields in declaration order. */
  method FindInFieldList(c: Config, mkeys: map<string, JValue>, sch: Schema, ms: seq<Member>, s: seq<string>, cmem: string, lowerTags: bool)
    returns (out: seq<string>)
    requires sch.Struct? && IndexesInto(ms, sch.fields)
    ensures out == s + ExistingFields(c, mkeys, sch, ms, 0, cmem, lowerTags)
    decreases sch, 1, 2
  {
    out := s;
    for i := 0 to |ms|
      invariant out + ExistingFields(c, mkeys, sch, ms, i, cmem, lowerTags) == s + ExistingFields(c, mkeys, sch, ms, 0, cmem, lowerTags)
    {
      ghost var prev := out;
      out := FindFieldAt(c, mkeys, sch, ms, i, out, cmem, lowerTags);
      assert out + ExistingFields(c, mkeys, sch, ms, i + 1, cmem, lowerTags) == prev + ExistingFields(c, mkeys, sch, ms, i, cmem, lowerTags);
    }
  }

  /** One iteration of step 5: listed field ms[i]. */
  method FindFieldAt(c: Config, mkeys: map<string, JValue>, sch: Schema, ms: seq<Member>, i: nat, s: seq<string>, cmem: string, lowerTags: bool)
    returns (out: seq<string>)
    requires sch.Struct? && IndexesInto(ms, sch.fields) && i < |ms|
    ensures out + ExistingFields(c, mkeys, sch, ms, i + 1, cmem, lowerTags) == s + ExistingFields(c, mkeys, sch, ms, i, cmem, lowerTags)
    decreases sch, 1, 1
  {
    ghost var rest := ExistingFields(c, mkeys, sch, ms, i + 1, cmem, lowerTags);
    out := FindField(c, mkeys, sch, ms[i], s, cmem, lowerTags);
    assert out + rest == s + (ExistingField(c, mkeys, sch, ms[i], cmem, lowerTags) + rest);
  }

  /** Step 5 of findMembers for one listed field. */
  method FindField(c: Config, mkeys: map<string, JValue>, sch: Schema, m: Member, s: seq<string>, cmem: string, lowerTags: bool)
    returns (out: seq<string>)
    requires sch.Struct? && m.index < |sch.fields|
    ensures out == s + ExistingField(c, mkeys, sch, m, cmem, lowerTags)
    decreases sch, 1, 0
  {
    var skip := IsSuppressed(c.skipMembers, cmem, m.name);
    if skip {
      return s;
    }
    var name := m.name;
    var key := Lower(m.name);
    if |m.tag| > 0 {
      name := m.tag;
      key := m.tag;
    }
    var ok := key in mkeys;
    if !ok && (!m.omitempty || !c.omitemptyOK) {
      return s;
    }
    out := s + [Join(cmem, m.name)];
    var v := if ok then mkeys[key] else JNull;
    out := FindMembers(c, v, sch.fields[m.index].schema, out, Join(cmem, name), lowerTags);
  }

  /**
   * ExistingJSONKeys: a decoding failure is returned through ResolveJSONError
   * with an empty list; otherwise the top-level object is walked from the root.
   */
  method ExistingJSONKeys(settings: Settings, data: string, decoded: Decoded, val: Schema)
    returns (keys: seq<string>, err: Option<GoError>)
    requires decoded.DecodeFailed? && decoded.err.TypeError? ==> decoded.err.offset <= |data|
    ensures decoded.DecodeFailed? ==> keys == [] && err == Some(Resolved(data, decoded.err))
    ensures decoded.Decoded? ==> err == None && keys == Existing(settings.Snapshot(), JObject(decoded.members), val, "", false)
  {
    if decoded.DecodeFailed? {
      var e := ResolveJSONError(data, decoded.err);
      return [], Some(e);
    }
    keys := FindMembers(settings.Snapshot(), JObject(decoded.members), val, [], "", false);
    err := None;
  }
}
