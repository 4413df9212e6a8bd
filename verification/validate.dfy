/**
 * Validate / checkFields: walks the keys of the JSON object and stops at the
 * first key that would not decode into a member of the struct, with an error
 * whose breadcrumbs say where it is.
 */
module Validation {
  import opened Text
  import opened Values
  import opened Settings
  import opened ErrorContext

  /** The failures of checkFields; the last two wrap a failure one level down. */
  datatype VError =
    | NotAnArray
    | NotKeyValue(typeName: string)
    | NoMember(key: string)
    | TagMismatch(key: string, tag: string)
    | InElement(ordinal: nat, inner: VError)
    | InSubkeys(key: string, inner: VError)

  /** The text of the error as fmt.Errorf builds it. */
  function Message(e: VError): string {
    match e
    case NotAnArray => "JSON value not an array"
    case NotKeyValue(typeName) => "JSON object does not have k:v pairs for member: " + typeName
    case NoMember(key) => "no member for JSON key: " + key
    case TagMismatch(key, tag) => "key: " + key + " -  does not match tag: " + tag
    case InElement(ordinal, inner) => "[array element #" + Itoa(ordinal) + "] " + Message(inner)
    case InSubkeys(key, inner) => "checking subkeys of JSON key: " + key + " - " + Message(inner)
  }

  // ---------------------------------------------------------------------
  // checkFields
  // ---------------------------------------------------------------------

  /** checkFields: None for nil, or the first failure. */
  function CheckFields(skipKeys: seq<string>, mv: JValue, sch: Schema): Option<VError>
    decreases sch, 2, 0
  {
    match sch
    case Slice(_, elem) =>
      if mv.JArray? then CheckElems(skipKeys, mv.elems, elem, 0) else Some(NotAnArray)
    case Struct(typeName, _) =>
      if mv.JObject? then CheckKeys(skipKeys, mv.members, sch, 0) else Some(NotKeyValue(typeName))
    case _ => None
  }

  /** Elements i.. in order; the first failure is reported with its 1-based ordinal. */
  function CheckElems(skipKeys: seq<string>, elems: seq<JValue>, elem: Schema, i: nat): Option<VError>
    requires i <= |elems|
    decreases elem, 3, |elems| - i
  {
    if i == |elems| then None
    else
      match CheckFields(skipKeys, elems[i], elem)
      case Some(e) => Some(InElement(i + 1, e))
      case None => CheckElems(skipKeys, elems, elem, i + 1)
  }

  /** Keys mm[i..] in iteration order; keys whose lower-cased form is on the skip list are passed over. */
  function CheckKeys(skipKeys: seq<string>, mm: seq<(string, JValue)>, sch: Schema, i: nat): Option<VError>
    requires sch.Struct? && i <= |mm|
    decreases sch, 1, |mm| - i
  {
    if i == |mm| then None
    else if Lower(mm[i].0) in skipKeys then CheckKeys(skipKeys, mm, sch, i + 1)
    else
      match CheckKey(skipKeys, mm[i].0, mm[i].1, sch)
      case Some(e) => Some(e)
      case None => CheckKeys(skipKeys, mm, sch, i + 1)
  }

  /**
   * One key: it must find a field under Title(lower(k)) in the table keyed by
   * whole tags, equal a non-empty tag byte for byte, and its value must pass.
   */
  function CheckKey(skipKeys: seq<string>, k: string, v: JValue, sch: Schema): Option<VError>
    requires sch.Struct?
    decreases sch, 0, 0
  {
    var fields := FieldTable(sch.fields, WholeTag);
    var lk := Lower(k);
    if Title(lk) !in fields then Some(NoMember(k))
    else
      var spec := fields[Title(lk)];
      if |spec.tag| > 0 && spec.tag != k then Some(TagMismatch(k, spec.tag))
      else
        match CheckFields(skipKeys, v, sch.fields[spec.index].schema)
        case Some(e) => Some(InSubkeys(k, e))
        case None => None
  }

  // ---------------------------------------------------------------------
  // What a passing value is
  // ---------------------------------------------------------------------

  /**
   * A value conforms to a schema: an array for a slice with every element
   * conforming, an object for a struct with every key conforming; any other
   * kind of field accepts anything.
   */
  predicate Conforms(skipKeys: seq<string>, mv: JValue, sch: Schema)
    decreases sch, 1
  {
    match sch
    case Slice(_, elem) =>
      mv.JArray? && forall i | 0 <= i < |mv.elems| :: Conforms(skipKeys, mv.elems[i], elem)
    case Struct(_, _) =>
      mv.JObject? && forall i | 0 <= i < |mv.members| :: KeyConforms(skipKeys, mv.members[i].0, mv.members[i].1, sch)
    case _ => true
  }

  /**
   * A key conforms when its lower-cased form is skipped, or the last exported
   * field whose name or whole tag lower-cases to it exists, is untagged or
   * tagged exactly `k`, and the value conforms to that field.
   */
  predicate KeyConforms(skipKeys: seq<string>, k: string, v: JValue, sch: Schema)
    requires sch.Struct?
    decreases sch, 0
  {
    Lower(k) in skipKeys ||
      match LastMatch(sch.fields, Lower(k), WholeTag)
      case None => false
      case Some(j) =>
        (sch.fields[j].jsonTag == "" || sch.fields[j].jsonTag == k) && Conforms(skipKeys, v, sch.fields[j].schema)
  }

  /** checkFields returns nil exactly for conforming values. */
  lemma {:induction false} CheckFieldsSound(skipKeys: seq<string>, mv: JValue, sch: Schema)
    ensures CheckFields(skipKeys, mv, sch).None? <==> Conforms(skipKeys, mv, sch)
    decreases sch, 2, 0
  {
    match sch {
      case Slice(_, elem) =>
        if mv.JArray? {
          CheckElemsSound(skipKeys, mv.elems, elem, 0);
        }
      case Struct(_, _) =>
        if mv.JObject? {
          CheckKeysSound(skipKeys, mv.members, sch, 0);
        }
      case _ =>
    }
  }

  lemma {:induction false} CheckElemsSound(skipKeys: seq<string>, elems: seq<JValue>, elem: Schema, i: nat)
    requires i <= |elems|
    ensures CheckElems(skipKeys, elems, elem, i).None? <==> forall j | i <= j < |elems| :: Conforms(skipKeys, elems[j], elem)
    decreases elem, 3, |elems| - i
  {
    if i < |elems| {
      CheckFieldsSound(skipKeys, elems[i], elem);
      CheckElemsSound(skipKeys, elems, elem, i + 1);
    }
  }

  lemma {:induction false} CheckKeysSound(skipKeys: seq<string>, mm: seq<(string, JValue)>, sch: Schema, i: nat)
    requires sch.Struct? && i <= |mm|
    ensures CheckKeys(skipKeys, mm, sch, i).None? <==> forall j | i <= j < |mm| :: KeyConforms(skipKeys, mm[j].0, mm[j].1, sch)
    decreases sch, 1, |mm| - i
  {
    if i < |mm| {
      if Lower(mm[i].0) !in skipKeys {
        CheckKeySound(skipKeys, mm[i].0, mm[i].1, sch);
      }
      CheckKeysSound(skipKeys, mm, sch, i + 1);
    }
  }

  lemma CheckKeySound(skipKeys: seq<string>, k: string, v: JValue, sch: Schema)
    requires sch.Struct? && Lower(k) !in skipKeys
    ensures CheckKey(skipKeys, k, v, sch).None? <==> KeyConforms(skipKeys, k, v, sch)
    decreases sch, 0, 0
  {
    FieldTableLookup(sch.fields, WholeTag, Lower(k));
    var r := LastMatch(sch.fields, Lower(k), WholeTag);
    if r.Some? {
      CheckFieldsSound(skipKeys, v, sch.fields[r.value].schema);
    }
  }

  /**
   * Only the keys present are checked: dropping members from a passing object
   * (for instance leaving fields out) never makes it fail.
   */
  lemma AbsentFieldsNeverFail(skipKeys: seq<string>, mm: seq<(string, JValue)>, fewer: seq<(string, JValue)>, sch: Schema)
    requires sch.Struct?
    requires forall i | 0 <= i < |fewer| :: fewer[i] in mm
    requires CheckFields(skipKeys, JObject(mm), sch).None?
    ensures CheckFields(skipKeys, JObject(fewer), sch).None?
  {
    CheckFieldsSound(skipKeys, JObject(mm), sch);
    CheckFieldsSound(skipKeys, JObject(fewer), sch);
    forall i | 0 <= i < |fewer|
      ensures KeyConforms(skipKeys, fewer[i].0, fewer[i].1, sch)
    {
      var j :| 0 <= j < |mm| && mm[j] == fewer[i];
      assert KeyConforms(skipKeys, mm[j].0, mm[j].1, sch);
    }
  }

  lemma LowerOkLiterals()
    ensures Lower("Ok") == "ok" && Lower("ok") == "ok"
  {
  }

  lemma LowerWhyNotLiterals()
    ensures Lower("whynot") == "whynot" && Lower("whyNot") == "whynot"
  {
  }

  lemma TitleLiterals()
    ensures Title("ok") == "Ok" && Title("whynot") == "Whynot"
  {
  }

  /** The table entry of the first field alone. */
  lemma CamelCaseFirstEntry(f0: Field)
    requires f0 == Field("Ok", true, "", Leaf)
    ensures FieldTable([f0], WholeTag) == map["Ok" := Entry(0, "")]
  {
    LowerOkLiterals();
    TitleLiterals();
    assert TableKey(f0, WholeTag) == "ok";
    assert [f0][..0] == [];
  }

  /** The table of struct { Ok bool; Whynot string `json:"whynot"` }. */
  lemma CamelCaseTable(f0: Field, f1: Field)
    requires f0 == Field("Ok", true, "", Leaf) && f1 == Field("Whynot", true, "whynot", Leaf)
    ensures FieldTable([f0, f1], WholeTag) == map["Ok" := Entry(0, ""), "Whynot" := Entry(1, "whynot")]
  {
    LowerWhyNotLiterals();
    TitleLiterals();
    assert TableKey(f1, WholeTag) == "whynot";
    assert [f0, f1][..1] == [f0];
    CamelCaseFirstEntry(f0);
  }

  /** Key `ok` of {"ok":false, "whyNot":"..."} passes against that struct. */
  lemma CamelCaseOk(f0: Field, f1: Field, sch: Schema)
    requires f0 == Field("Ok", true, "", Leaf) && f1 == Field("Whynot", true, "whynot", Leaf)
    requires sch == Struct("test", [f0, f1])
    ensures CheckKey(["config"], "ok", JScalar, sch) == None
  {
    CamelCaseTable(f0, f1);
    LowerOkLiterals();
    TitleLiterals();
  }

  /** Key `whyNot` of {"ok":false, "whyNot":"..."} fails against that struct. */
  lemma CamelCaseWhyNot(f0: Field, f1: Field, sch: Schema)
    requires f0 == Field("Ok", true, "", Leaf) && f1 == Field("Whynot", true, "whynot", Leaf)
    requires sch == Struct("test", [f0, f1])
    ensures CheckKey(["config"], "whyNot", JScalar, sch) == Some(TagMismatch("whyNot", "whynot"))
  {
    CamelCaseTable(f0, f1);
    LowerWhyNotLiterals();
    TitleLiterals();
  }

  /**
   * A key `whyNot` for a field tagged `whynot` is found (lookup ignores case)
   * but rejected, because the tag is compared with the key as written.
   */
  lemma CamelCaseKeyRejected()
    ensures var sch := Struct("test", [Field("Ok", true, "", Leaf), Field("Whynot", true, "whynot", Leaf)]);
      CheckFields(["config"], JObject([("ok", JScalar), ("whyNot", JScalar)]), sch)
        == Some(TagMismatch("whyNot", "whynot"))
  {
    var f0, f1 := Field("Ok", true, "", Leaf), Field("Whynot", true, "whynot", Leaf);
    var sch := Struct("test", [f0, f1]);
    var mm := [("ok", JScalar), ("whyNot", JScalar)];
    CamelCaseSecondKey(f0, f1, sch, mm);
    CamelCaseOk(f0, f1, sch);
    LowerOkLiterals();
    assert CheckKeys(["config"], mm, sch, 0) == CheckKeys(["config"], mm, sch, 1);
  }

  /** The second key of that object is the first failure from index 1 on. */
  lemma CamelCaseSecondKey(f0: Field, f1: Field, sch: Schema, mm: seq<(string, JValue)>)
    requires f0 == Field("Ok", true, "", Leaf) && f1 == Field("Whynot", true, "whynot", Leaf)
    requires sch == Struct("test", [f0, f1]) && mm == [("ok", JScalar), ("whyNot", JScalar)]
    ensures CheckKeys(["config"], mm, sch, 1) == Some(TagMismatch("whyNot", "whynot"))
  {
    CamelCaseWhyNot(f0, f1, sch);
    LowerWhyNotLiterals();
    assert Lower(mm[1].0) !in ["config"];
  }

  // ---------------------------------------------------------------------
  // Validate
  // ---------------------------------------------------------------------

  /**
   * Validate: a decoding failure goes through ResolveJSONError; otherwise the
   * first failure of checkFields is returned as a plain error with its text,
   * and nil exactly when the object conforms.
   */
  method Validate(settings: Settings, data: string, decoded: Decoded, val: Schema) returns (err: Option<GoError>)
    requires decoded.DecodeFailed? && decoded.err.TypeError? ==> decoded.err.offset <= |data|
    ensures decoded.DecodeFailed? ==> err == Some(Resolved(data, decoded.err))
    ensures decoded.Decoded? ==>
      match CheckFields(settings.skipKeys, JObject(decoded.members), val)
      case None => err == None
      case Some(e) => err == Some(PlainError(Message(e)))
    ensures decoded.Decoded? ==> (err.None? <==> Conforms(settings.skipKeys, JObject(decoded.members), val))
  {
    if decoded.DecodeFailed? {
      var e := ResolveJSONError(data, decoded.err);
      return Some(e);
    }
    CheckFieldsSound(settings.skipKeys, JObject(decoded.members), val);
    var r := CheckFields(settings.skipKeys, JObject(decoded.members), val);
    if r.Some? {
      return Some(PlainError(Message(r.value)));
    }
    return None;
  }
}
