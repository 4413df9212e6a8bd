/**
 * UnknownJSONKeys / checkAllFields: the JSON keys that no struct field would
 * take, as lower-cased dotted paths with 1-based ordinals for array elements.
 * The first unknown key of an object ends the scan of that object.
 */
module UnknownKeys {
  import opened Text
  import opened Values
  import opened Settings
  import opened ErrorContext

  /** What one key contributes: a path after which the object is abandoned, or the paths found below it. */
  datatype KeyOutcome = Abandon(path: string) | Descend(paths: seq<string>)

  // ---------------------------------------------------------------------
  // Specification
  // ---------------------------------------------------------------------

  /** The paths checkAllFields appends for value `mv` against `sch` at path `key`. */
  function Unknown(skipKeys: seq<string>, mv: JValue, sch: Schema, key: string): seq<string>
    decreases sch, 2, 0
  {
    match sch
    case Slice(_, elem) =>
      if mv.JArray? then UnknownElems(skipKeys, mv.elems, elem, key, 0) else [key]
    case Struct(_, _) =>
      if mv.JObject? then UnknownMembers(skipKeys, mv.members, sch, key, 0) else [key]
    case _ => []
  }

  /** Element i sits at path key.(i + 1), or at the bare ordinal at the root. */
  function UnknownElems(skipKeys: seq<string>, elems: seq<JValue>, elem: Schema, key: string, i: nat): seq<string>
    requires i <= |elems|
    decreases elem, 3, |elems| - i
  {
    if i == |elems| then []
    else Unknown(skipKeys, elems[i], elem, Join(key, Itoa(i + 1))) + UnknownElems(skipKeys, elems, elem, key, i + 1)
  }

  /** Keys mm[i..] in iteration order, skipped keys passed over, stopping after the first abandoning key. */
  function UnknownMembers(skipKeys: seq<string>, mm: seq<(string, JValue)>, sch: Schema, key: string, i: nat): seq<string>
    requires sch.Struct? && i <= |mm|
    decreases sch, 1, |mm| - i
  {
    if i == |mm| then []
    else if KeySkipped(skipKeys, key, Lower(mm[i].0)) then UnknownMembers(skipKeys, mm, sch, key, i + 1)
    else
      match UnknownKey(skipKeys, mm[i].0, mm[i].1, sch, key)
      case Abandon(path) => [path]
      case Descend(paths) => paths + UnknownMembers(skipKeys, mm, sch, key, i + 1)
  }

  /**
   * One key: no field under Title(lower(k)) gives its path; a non-empty tag
   * other than lower(k) gives the bracketed tag; otherwise its value is
   * checked one level down at path key.lower(k).
   */
  function UnknownKey(skipKeys: seq<string>, k: string, v: JValue, sch: Schema, key: string): KeyOutcome
    requires sch.Struct?
    decreases sch, 0, 0
  {
    var fields := FieldTable(sch.fields, FirstTagPart);
    var lk := Lower(k);
    var tkey := Join(key, lk);
    if Title(lk) !in fields then Abandon(tkey)
    else
      var spec := fields[Title(lk)];
      if |spec.tag| > 0 && spec.tag != lk then Abandon(if k == "" then "[" + spec.tag + "]" else key + ".[" + spec.tag + "]")
      else Descend(Unknown(skipKeys, v, sch.fields[spec.index].schema, tkey))
  }

  // ---------------------------------------------------------------------
  // Properties
  // ---------------------------------------------------------------------

  /**
   * The bracketed-tag branch cannot be taken: a field found under Title(lk)
   * for a lower-cased lk is untagged or carries exactly lk as its tag.
   */
  lemma BracketBranchUnreachable(fields: seq<Field>, lk: string)
    requires IsLowerCase(lk) && Title(lk) in FieldTable(fields, FirstTagPart)
    ensures var spec := FieldTable(fields, FirstTagPart)[Title(lk)];
      spec.index < |fields| && (spec.tag == "" || spec.tag == lk)
      && LastMatch(fields, lk, FirstTagPart) == Some(spec.index)
  {
    FieldTableLookup(fields, FirstTagPart, lk);
    var j := LastMatch(fields, lk, FirstTagPart).value;
    var t := TableTag(fields[j], FirstTagPart);
    if t != "" {
      LowerOfLowerCase(t);
    }
  }

  /** A field tagged `-` is still found under its own name, so its key is never reported. */
  lemma DashTaggedFieldKnown(fields: seq<Field>, i: nat)
    requires i < |fields| && fields[i].exported && PrimaryTag(fields[i].jsonTag) == "-"
    ensures Title(Lower(fields[i].name)) in FieldTable(fields, FirstTagPart)
  {
    assert Lower("-") == "-";
    assert KeyedBy(fields[i], Lower(fields[i].name), FirstTagPart);
    FieldTableLookup(fields, FirstTagPart, Lower(fields[i].name));
  }

  /**
   * A value is recognized when it has the JSON kind its schema needs and every
   * key below it is skipped or names (ignoring case) some exported field, by
   * its name or the first part of its tag, whose value is recognized in turn.
   */
  predicate Recognized(skipKeys: seq<string>, mv: JValue, sch: Schema, key: string)
    decreases sch, 2
  {
    match sch
    case Slice(_, elem) =>
      mv.JArray? && ElemsRecognized(skipKeys, mv.elems, elem, key, 0)
    case Struct(_, _) =>
      mv.JObject? && MembersRecognized(skipKeys, mv.members, sch, key, 0)
    case _ => true
  }

  /** Elements i.. are recognized. */
  predicate ElemsRecognized(skipKeys: seq<string>, elems: seq<JValue>, elem: Schema, key: string, i: nat)
    decreases elem, 4
  {
    forall n | i <= n < |elems| :: ElemRecognized(skipKeys, elems, elem, key, n)
  }

  /** Keys i.. are recognized. */
  predicate MembersRecognized(skipKeys: seq<string>, mm: seq<(string, JValue)>, sch: Schema, key: string, i: nat)
    requires sch.Struct?
    decreases sch, 1
  {
    forall j | i <= j < |mm| :: MemberRecognized(skipKeys, mm, sch, key, j)
  }

  /** Element n (from 0) is recognized at path key.(n + 1). */
  predicate ElemRecognized(skipKeys: seq<string>, elems: seq<JValue>, elem: Schema, key: string, n: nat)
    requires n < |elems|
    decreases elem, 3
  {
    Recognized(skipKeys, elems[n], elem, Join(key, Itoa(n + 1)))
  }

  /** Key i is skipped, or the last field it names has a recognized value at path key.lower(k). */
  predicate MemberRecognized(skipKeys: seq<string>, mm: seq<(string, JValue)>, sch: Schema, key: string, i: nat)
    requires sch.Struct? && i < |mm|
    decreases sch, 0
  {
    var lk := Lower(mm[i].0);
    KeySkipped(skipKeys, key, lk) ||
      match LastMatch(sch.fields, lk, FirstTagPart)
      case None => false
      case Some(j) => Recognized(skipKeys, mm[i].1, sch.fields[j].schema, Join(key, lk))
  }

  /** The report is empty exactly when every key is recognized. */
  lemma {:induction false} UnknownEmptyIffRecognized(skipKeys: seq<string>, mv: JValue, sch: Schema, key: string)
    ensures Unknown(skipKeys, mv, sch, key) == [] <==> Recognized(skipKeys, mv, sch, key)
    decreases sch, 2, 0
  {
    match sch {
      case Slice(_, elem) =>
        if mv.JArray? {
          ElemsEmptyIffRecognized(skipKeys, mv.elems, elem, key, 0);
        }
      case Struct(_, _) =>
        if mv.JObject? {
          MembersEmptyIffRecognized(skipKeys, mv.members, sch, key, 0);
        }
      case _ =>
    }
  }

  lemma {:induction false} ElemsEmptyIffRecognized(skipKeys: seq<string>, elems: seq<JValue>, elem: Schema, key: string, i: nat)
    requires i <= |elems|
    ensures UnknownElems(skipKeys, elems, elem, key, i) == []
      <==> ElemsRecognized(skipKeys, elems, elem, key, i)
    decreases elem, 3, |elems| - i
  {
    if i < |elems| {
      ElemsEmptyIffRecognized(skipKeys, elems, elem, key, i + 1);
      UnknownEmptyIffRecognized(skipKeys, elems[i], elem, Join(key, Itoa(i + 1)));
      ElemsUnknownStep(skipKeys, elems, elem, key, i);
      ElemsRecognizedStep(skipKeys, elems, elem, key, i);
    }
  }

  /** One step of the report side of ElemsEmptyIffRecognized. */
  lemma ElemsUnknownStep(skipKeys: seq<string>, elems: seq<JValue>, elem: Schema, key: string, i: nat)
    requires i < |elems|
    ensures UnknownElems(skipKeys, elems, elem, key, i) == []
      <==> Unknown(skipKeys, elems[i], elem, Join(key, Itoa(i + 1))) == [] && UnknownElems(skipKeys, elems, elem, key, i + 1) == []
  {
    assert UnknownElems(skipKeys, elems, elem, key, i)
      == Unknown(skipKeys, elems[i], elem, Join(key, Itoa(i + 1))) + UnknownElems(skipKeys, elems, elem, key, i + 1);
  }

  /** One step of the predicate side of ElemsEmptyIffRecognized. */
  lemma ElemsRecognizedStep(skipKeys: seq<string>, elems: seq<JValue>, elem: Schema, key: string, i: nat)
    requires i < |elems|
    ensures ElemsRecognized(skipKeys, elems, elem, key, i)
      <==> ElemRecognized(skipKeys, elems, elem, key, i) && ElemsRecognized(skipKeys, elems, elem, key, i + 1)
  {
    if ElemsRecognized(skipKeys, elems, elem, key, i) {
      assert ElemRecognized(skipKeys, elems, elem, key, i);
    }
  }

  lemma {:induction false} MembersEmptyIffRecognized(skipKeys: seq<string>, mm: seq<(string, JValue)>, sch: Schema, key: string, i: nat)
    requires sch.Struct? && i <= |mm|
    ensures UnknownMembers(skipKeys, mm, sch, key, i) == []
      <==> MembersRecognized(skipKeys, mm, sch, key, i)
    decreases sch, 1, |mm| - i
  {
    if i < |mm| {
      MembersEmptyIffRecognized(skipKeys, mm, sch, key, i + 1);
      if !KeySkipped(skipKeys, key, Lower(mm[i].0)) {
        KeyEmptyIffRecognized(skipKeys, mm, sch, key, i);
      }
      assert MembersRecognized(skipKeys, mm, sch, key, i)
        <==> MemberRecognized(skipKeys, mm, sch, key, i) && MembersRecognized(skipKeys, mm, sch, key, i + 1);
    }
  }

  lemma KeyEmptyIffRecognized(skipKeys: seq<string>, mm: seq<(string, JValue)>, sch: Schema, key: string, i: nat)
    requires sch.Struct? && i < |mm| && !KeySkipped(skipKeys, key, Lower(mm[i].0))
    ensures UnknownKey(skipKeys, mm[i].0, mm[i].1, sch, key) == Descend([]) <==> MemberRecognized(skipKeys, mm, sch, key, i)
    decreases sch, 0, 0
  {
    var lk := Lower(mm[i].0);
    FieldTableLookup(sch.fields, FirstTagPart, lk);
    if Title(lk) in FieldTable(sch.fields, FirstTagPart) {
      BracketBranchUnreachable(sch.fields, lk);
      var j := LastMatch(sch.fields, lk, FirstTagPart).value;
      UnknownEmptyIffRecognized(skipKeys, mm[i].1, sch.fields[j].schema, Join(key, lk));
    }
  }

  /** Below a lower-case path every reported path is lower-case. */
  lemma {:induction false} UnknownPathsLowerCase(skipKeys: seq<string>, mv: JValue, sch: Schema, key: string)
    requires IsLowerCase(key)
    ensures AllLowerCase(Unknown(skipKeys, mv, sch, key))
    decreases sch, 2, 0
  {
    match sch {
      case Slice(_, elem) =>
        if mv.JArray? {
          ElemsPathsLowerCase(skipKeys, mv.elems, elem, key, 0);
        }
      case Struct(_, _) =>
        if mv.JObject? {
          MembersPathsLowerCase(skipKeys, mv.members, sch, key, 0);
        }
      case _ =>
    }
  }

  lemma {:induction false} ElemsPathsLowerCase(skipKeys: seq<string>, elems: seq<JValue>, elem: Schema, key: string, i: nat)
    requires IsLowerCase(key) && i <= |elems|
    ensures AllLowerCase(UnknownElems(skipKeys, elems, elem, key, i))
    decreases elem, 3, |elems| - i
  {
    if i < |elems| {
      JoinLowerCase(key, Itoa(i + 1));
      UnknownPathsLowerCase(skipKeys, elems[i], elem, Join(key, Itoa(i + 1)));
      ElemsPathsLowerCase(skipKeys, elems, elem, key, i + 1);
      AllLowerCaseConcat(Unknown(skipKeys, elems[i], elem, Join(key, Itoa(i + 1))), UnknownElems(skipKeys, elems, elem, key, i + 1));
    }
  }

  lemma {:induction false} MembersPathsLowerCase(skipKeys: seq<string>, mm: seq<(string, JValue)>, sch: Schema, key: string, i: nat)
    requires sch.Struct? && IsLowerCase(key) && i <= |mm|
    ensures AllLowerCase(UnknownMembers(skipKeys, mm, sch, key, i))
    decreases sch, 1, |mm| - i
  {
    if i < |mm| {
      MembersPathsLowerCase(skipKeys, mm, sch, key, i + 1);
      var lk := Lower(mm[i].0);
      if !KeySkipped(skipKeys, key, lk) {
        JoinLowerCase(key, lk);
        var fields := FieldTable(sch.fields, FirstTagPart);
        if Title(lk) in fields {
          BracketBranchUnreachable(sch.fields, lk);
          var spec := fields[Title(lk)];
          var sub := Unknown(skipKeys, mm[i].1, sch.fields[spec.index].schema, Join(key, lk));
          UnknownPathsLowerCase(skipKeys, mm[i].1, sch.fields[spec.index].schema, Join(key, lk));
          AllLowerCaseConcat(sub, UnknownMembers(skipKeys, mm, sch, key, i + 1));
        }
      }
    }
  }

  // ---------------------------------------------------------------------
  // The walker
  // ---------------------------------------------------------------------

  /** checkAllFields: appends to `s` the report `Unknown` describes. */
  method CheckAllFields(skipKeys: seq<string>, mv: JValue, sch: Schema, s: seq<string>, key: string) returns (out: seq<string>)
    ensures out == s + Unknown(skipKeys, mv, sch, key)
    decreases sch, 2, 0
  {
    match sch {
      case Slice(_, elem) =>
        if !mv.JArray? {
          return s + [key];
        }
        out := CheckElems(skipKeys, mv.elems, elem, s, key);
      case Struct(_, _) =>
        if !mv.JObject? {
          return s + [key];
        }
        out := CheckMembers(skipKeys, mv.members, sch, s, key);
      case _ =>
        return s;
    }
  }

  /** Step 2.1: element n (from 0) is checked at path key.(n + 1). */
  method CheckElems(skipKeys: seq<string>, elems: seq<JValue>, elem: Schema, s: seq<string>, key: string) returns (out: seq<string>)
    ensures out == s + UnknownElems(skipKeys, elems, elem, key, 0)
    decreases elem, 4, 0
  {
    out := s;
    for n := 0 to |elems|
      invariant out + UnknownElems(skipKeys, elems, elem, key, n) == s + UnknownElems(skipKeys, elems, elem, key, 0)
    {
      ghost var prev := out;
      out := CheckElem(skipKeys, elems, elem, n, out, key);
      assert out + UnknownElems(skipKeys, elems, elem, key, n + 1) == prev + UnknownElems(skipKeys, elems, elem, key, n);
    }
  }

  /** One element of step 2.1. */
  method CheckElem(skipKeys: seq<string>, elems: seq<JValue>, elem: Schema, n: nat, s: seq<string>, key: string) returns (out: seq<string>)
    requires n < |elems|
    ensures out + UnknownElems(skipKeys, elems, elem, key, n + 1) == s + UnknownElems(skipKeys, elems, elem, key, n)
    decreases elem, 3, 0
  {
    var tkey := ElementKey(key, n + 1);
    ghost var rest := UnknownElems(skipKeys, elems, elem, key, n + 1);
    out := CheckAllFields(skipKeys, elems[n], elem, s, tkey);
    assert out + rest == s + (Unknown(skipKeys, elems[n], elem, tkey) + rest);
  }

  /** The path of the element with ordinal `ord`. */
  method ElementKey(key: string, ord: nat) returns (tkey: string)
    ensures tkey == Join(key, Itoa(ord))
  {
    if key == "" {
      tkey := Itoa(ord);
    } else {
      tkey := key + "." + Itoa(ord);
    }
  }

  /** Steps 4-5: build the field table, then check the keys until one is abandoned. */
  method CheckMembers(skipKeys: seq<string>, mm: seq<(string, JValue)>, sch: Schema, s: seq<string>, key: string) returns (out: seq<string>)
    requires sch.Struct?
    ensures out == s + UnknownMembers(skipKeys, mm, sch, key, 0)
    decreases sch, 1, 1
  {
    var fields := BuildFieldTable(sch.fields, FirstTagPart);
    out := s;
    for i := 0 to |mm|
      invariant out + UnknownMembers(skipKeys, mm, sch, key, i) == s + UnknownMembers(skipKeys, mm, sch, key, 0)
    {
      var lk := Lower(mm[i].0);
      var skip := IsKeySkipped(skipKeys, key, lk);
      if skip {
        continue;
      }
      ghost var rest := UnknownMembers(skipKeys, mm, sch, key, i + 1);
      ghost var prev := out;
      var stop;
      out, stop := CheckKey(skipKeys, fields, mm[i].0, mm[i].1, sch, out, key);
      if stop {
        assert out == prev + UnknownMembers(skipKeys, mm, sch, key, i);
        return;
      }
      assert out + rest == prev + UnknownMembers(skipKeys, mm, sch, key, i);
    }
  }

  /** Step 5 for one key not on the skip list; `stop` ends the scan of the object. */
  method CheckKey(skipKeys: seq<string>, fields: map<string, Entry>, k: string, v: JValue, sch: Schema, s: seq<string>, key: string)
    returns (out: seq<string>, stop: bool)
    requires sch.Struct? && fields == FieldTable(sch.fields, FirstTagPart)
    ensures match UnknownKey(skipKeys, k, v, sch, key)
      case Abandon(p) => stop && out == s + [p]
      case Descend(ps) => !stop && out == s + ps
    decreases sch, 1, 0
  {
    var lk := Lower(k);
    var tkey := lk;
    if key != "" {
      tkey := key + "." + lk;
    }
    if Title(lk) !in fields {
      return s + [tkey], true;
    }
    var spec := fields[Title(lk)];
    if |spec.tag| > 0 && spec.tag != lk {
      if k == "" {
        tkey := "[" + spec.tag + "]";
      } else {
        tkey := key + ".[" + spec.tag + "]";
      }
      return s + [tkey], true;
    }
    out := CheckAllFields(skipKeys, v, sch.fields[spec.index].schema, s, tkey);
    stop := false;
  }

  /**
   * UnknownJSONKeys: a decoding failure is returned through ResolveJSONError
   * with no keys; otherwise the top-level object is checked from the root
   * against the keys skipped at the time of the call.
   */
  method UnknownJSONKeys(settings: Settings, data: string, decoded: Decoded, val: Schema)
    returns (keys: seq<string>, err: Option<GoError>)
    requires decoded.DecodeFailed? && decoded.err.TypeError? ==> decoded.err.offset <= |data|
    ensures decoded.DecodeFailed? ==> keys == [] && err == Some(Resolved(data, decoded.err))
    ensures decoded.Decoded? ==> err == None && keys == Unknown(settings.skipKeys, JObject(decoded.members), val, "")
  {
    if decoded.DecodeFailed? {
      var e := ResolveJSONError(data, decoded.err);
      return [], Some(e);
    }
    keys := CheckAllFields(settings.skipKeys, JObject(decoded.members), val, [], "");
    err := None;
  }
}
