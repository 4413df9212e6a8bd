/**
 * checkMembers and findMembers make the same walk over a struct and its JSON
 * value and differ only in what they write down. The walk is spelled out
 * once here as a trace of events; each report is a view of that trace, which
 * makes the missing and the existing lists complementary.
 */
module Reconcile {
  import opened Text
  import opened Values
  import opened Settings
  import MissingKeys
  import ExistingKeys

  /**
   * What the walk meets: a value of the wrong JSON kind for a slice or struct,
   * or a listed field that is not suppressed, with its parent path, Go name,
   * path segment and whether it counts as absent.
   */
  datatype Event =
    | Mismatch(typeName: string)
    | Visited(parent: string, name: string, segment: string, absent: bool)

  /** The walk common to both reports. Absent fields are not descended into. */
  function Walk(c: Config, mv: JValue, sch: Schema, cmem: string, lowerTags: bool): seq<Event>
    decreases sch, 2, 0
  {
    match sch
    case Slice(typeName, elem) =>
      if mv.JArray? then WalkElems(c, mv.elems, elem, cmem, lowerTags, 0) else [Mismatch(typeName)]
    case Struct(typeName, fields) =>
      MembersIndexInto(fields, lowerTags);
      (if mv.JObject? then [] else [Mismatch(typeName)])
        + WalkFields(c, KeyMap(mv), sch, Members(fields, lowerTags), 0, cmem, lowerTags)
    case _ => []
  }

  function WalkElems(c: Config, elems: seq<JValue>, elem: Schema, cmem: string, lowerTags: bool, i: nat): seq<Event>
    requires i <= |elems|
    decreases elem, 3, |elems| - i
  {
    if i == |elems| then []
    else Walk(c, elems[i], elem, cmem, lowerTags) + WalkElems(c, elems, elem, cmem, lowerTags, i + 1)
  }

  function WalkFields(c: Config, mkeys: map<string, JValue>, sch: Schema, ms: seq<Member>, i: nat, cmem: string, lowerTags: bool)
    : seq<Event>
    requires sch.Struct? && IndexesInto(ms, sch.fields) && i <= |ms|
    decreases sch, 1, |ms| - i
  {
    if i == |ms| then []
    else WalkField(c, mkeys, sch, ms[i], cmem, lowerTags) + WalkFields(c, mkeys, sch, ms, i + 1, cmem, lowerTags)
  }

  function WalkField(c: Config, mkeys: map<string, JValue>, sch: Schema, m: Member, cmem: string, lowerTags: bool): seq<Event>
    requires sch.Struct? && m.index < |sch.fields|
    decreases sch, 0, 0
  {
    if Suppressed(c.skipMembers, cmem, m.name) then []
    else if Absent(mkeys, m, c.omitemptyOK) then [Visited(cmem, m.name, PathSegment(m), true)]
    else
      var sub := Walk(c, Lookup(mkeys, LookupKey(m)), sch.fields[m.index].schema, Join(cmem, PathSegment(m)), lowerTags);
      [Visited(cmem, m.name, PathSegment(m), false)] + sub
  }

  // ---------------------------------------------------------------------
  // The two views
  // ---------------------------------------------------------------------

  /** The missing report: type names of mismatches, and the path of every absent field. */
  function MissingView(t: seq<Event>): seq<string> {
    if t == [] then []
    else
      var e := t[0];
      (match e
       case Mismatch(typeName) => [typeName]
       case Visited(parent, _, segment, absent) => if absent then [Join(parent, segment)] else [])
      + MissingView(t[1..])
  }

  /** The existing report: type names of mismatches, and the Go-name path of every present field. */
  function ExistingView(t: seq<Event>): seq<string> {
    if t == [] then []
    else
      var e := t[0];
      (match e
       case Mismatch(typeName) => [typeName]
       case Visited(parent, name, _, absent) => if absent then [] else [Join(parent, name)])
      + ExistingView(t[1..])
  }

  function Mismatches(t: seq<Event>): nat {
    if t == [] then 0 else (if t[0].Mismatch? then 1 else 0) + Mismatches(t[1..])
  }

  lemma {:induction false} MissingViewConcat(a: seq<Event>, b: seq<Event>)
    ensures MissingView(a + b) == MissingView(a) + MissingView(b)
  {
    if a == [] {
      assert a + b == b;
    } else {
      assert (a + b)[0] == a[0];
      assert (a + b)[1..] == a[1..] + b;
      MissingViewConcat(a[1..], b);
    }
  }

  lemma {:induction false} ExistingViewConcat(a: seq<Event>, b: seq<Event>)
    ensures ExistingView(a + b) == ExistingView(a) + ExistingView(b)
  {
    if a == [] {
      assert a + b == b;
    } else {
      assert (a + b)[0] == a[0];
      assert (a + b)[1..] == a[1..] + b;
      ExistingViewConcat(a[1..], b);
    }
  }

  /** Both views distribute over concatenation of traces. */
  lemma ViewsConcat(a: seq<Event>, b: seq<Event>)
    ensures MissingView(a + b) == MissingView(a) + MissingView(b)
    ensures ExistingView(a + b) == ExistingView(a) + ExistingView(b)
  {
    MissingViewConcat(a, b);
    ExistingViewConcat(a, b);
  }

  /**
   * Every visited field lands in exactly one of the two views and every
   * mismatch in both: together they hold one entry per event plus one per
   * mismatch.
   */
  lemma {:induction false} ViewLengths(t: seq<Event>)
    ensures |MissingView(t)| + |ExistingView(t)| == |t| + Mismatches(t)
  {
    if t != [] {
      ViewLengths(t[1..]);
    }
  }

  // ---------------------------------------------------------------------
  // checkMembers reports the missing view
  // ---------------------------------------------------------------------

  lemma {:induction false} MissingIsView(c: Config, mv: JValue, sch: Schema, cmem: string)
    ensures MissingKeys.Missing(c, mv, sch, cmem) == MissingView(Walk(c, mv, sch, cmem, true))
    decreases sch, 2, 0
  {
    match sch {
      case Slice(typeName, elem) =>
        if mv.JArray? {
          MissingElemsIsView(c, mv.elems, elem, cmem, 0);
        }
      case Struct(typeName, fields) =>
        MembersIndexInto(fields, true);
        var ms := Members(fields, true);
        MissingFieldsIsView(c, KeyMap(mv), sch, ms, 0, cmem);
        ViewsConcat(if mv.JObject? then [] else [Mismatch(typeName)], WalkFields(c, KeyMap(mv), sch, ms, 0, cmem, true));
      case _ =>
    }
  }

  lemma {:induction false} MissingElemsIsView(c: Config, elems: seq<JValue>, elem: Schema, cmem: string, i: nat)
    requires i <= |elems|
    ensures MissingKeys.MissingElems(c, elems, elem, cmem, i) == MissingView(WalkElems(c, elems, elem, cmem, true, i))
    decreases elem, 3, |elems| - i
  {
    if i < |elems| {
      MissingIsView(c, elems[i], elem, cmem);
      MissingElemsIsView(c, elems, elem, cmem, i + 1);
      ViewsConcat(Walk(c, elems[i], elem, cmem, true), WalkElems(c, elems, elem, cmem, true, i + 1));
    }
  }

  lemma {:induction false} MissingFieldsIsView(c: Config, mkeys: map<string, JValue>, sch: Schema, ms: seq<Member>, i: nat, cmem: string)
    requires sch.Struct? && IndexesInto(ms, sch.fields) && i <= |ms|
    ensures MissingKeys.MissingFields(c, mkeys, sch, ms, i, cmem) == MissingView(WalkFields(c, mkeys, sch, ms, i, cmem, true))
    decreases sch, 1, |ms| - i
  {
    if i < |ms| {
      MissingFieldIsView(c, mkeys, sch, ms[i], cmem);
      MissingFieldsIsView(c, mkeys, sch, ms, i + 1, cmem);
      ViewsConcat(WalkField(c, mkeys, sch, ms[i], cmem, true), WalkFields(c, mkeys, sch, ms, i + 1, cmem, true));
    }
  }

  lemma {:induction false} MissingFieldIsView(c: Config, mkeys: map<string, JValue>, sch: Schema, m: Member, cmem: string)
    requires sch.Struct? && m.index < |sch.fields|
    ensures MissingKeys.MissingField(c, mkeys, sch, m, cmem) == MissingView(WalkField(c, mkeys, sch, m, cmem, true))
    decreases sch, 0, 0
  {
    if !Suppressed(c.skipMembers, cmem, m.name) && !Absent(mkeys, m, c.omitemptyOK) {
      var path := Join(cmem, PathSegment(m));
      var sub := Walk(c, Lookup(mkeys, LookupKey(m)), sch.fields[m.index].schema, path, true);
      MissingIsView(c, Lookup(mkeys, LookupKey(m)), sch.fields[m.index].schema, path);
      ViewsConcat([Visited(cmem, m.name, PathSegment(m), false)], sub);
    }
  }

  // ---------------------------------------------------------------------
  // findMembers reports the existing view
  // ---------------------------------------------------------------------

  lemma {:induction false} ExistingIsView(c: Config, mv: JValue, sch: Schema, cmem: string, lowerTags: bool)
    ensures ExistingKeys.Existing(c, mv, sch, cmem, lowerTags) == ExistingView(Walk(c, mv, sch, cmem, lowerTags))
    decreases sch, 2, 0
  {
    match sch {
      case Slice(typeName, elem) =>
        if mv.JArray? {
          ExistingElemsIsView(c, mv.elems, elem, cmem, lowerTags, 0);
        }
      case Struct(typeName, fields) =>
        MembersIndexInto(fields, lowerTags);
        var ms := Members(fields, lowerTags);
        ExistingFieldsIsView(c, KeyMap(mv), sch, ms, 0, cmem, lowerTags);
        ViewsConcat(if mv.JObject? then [] else [Mismatch(typeName)], WalkFields(c, KeyMap(mv), sch, ms, 0, cmem, lowerTags));
      case _ =>
    }
  }

  lemma {:induction false} ExistingElemsIsView(c: Config, elems: seq<JValue>, elem: Schema, cmem: string, lowerTags: bool, i: nat)
    requires i <= |elems|
    ensures ExistingKeys.ExistingElems(c, elems, elem, cmem, lowerTags, i) == ExistingView(WalkElems(c, elems, elem, cmem, lowerTags, i))
    decreases elem, 3, |elems| - i
  {
    if i < |elems| {
      ExistingIsView(c, elems[i], elem, cmem, lowerTags);
      ExistingElemsIsView(c, elems, elem, cmem, lowerTags, i + 1);
      ViewsConcat(Walk(c, elems[i], elem, cmem, lowerTags), WalkElems(c, elems, elem, cmem, lowerTags, i + 1));
    }
  }

  lemma {:induction false} ExistingFieldsIsView(c: Config, mkeys: map<string, JValue>, sch: Schema, ms: seq<Member>, i: nat, cmem: string,
                                                lowerTags: bool)
    requires sch.Struct? && IndexesInto(ms, sch.fields) && i <= |ms|
    ensures ExistingKeys.ExistingFields(c, mkeys, sch, ms, i, cmem, lowerTags)
      == ExistingView(WalkFields(c, mkeys, sch, ms, i, cmem, lowerTags))
    decreases sch, 1, |ms| - i
  {
    if i < |ms| {
      ExistingFieldIsView(c, mkeys, sch, ms[i], cmem, lowerTags);
      ExistingFieldsIsView(c, mkeys, sch, ms, i + 1, cmem, lowerTags);
      ViewsConcat(WalkField(c, mkeys, sch, ms[i], cmem, lowerTags), WalkFields(c, mkeys, sch, ms, i + 1, cmem, lowerTags));
    }
  }

  lemma {:induction false} ExistingFieldIsView(c: Config, mkeys: map<string, JValue>, sch: Schema, m: Member, cmem: string, lowerTags: bool)
    requires sch.Struct? && m.index < |sch.fields|
    ensures ExistingKeys.ExistingField(c, mkeys, sch, m, cmem, lowerTags) == ExistingView(WalkField(c, mkeys, sch, m, cmem, lowerTags))
    decreases sch, 0, 0
  {
    if !Suppressed(c.skipMembers, cmem, m.name) && !Absent(mkeys, m, c.omitemptyOK) {
      var path := Join(cmem, PathSegment(m));
      var sub := Walk(c, Lookup(mkeys, LookupKey(m)), sch.fields[m.index].schema, path, lowerTags);
      ExistingIsView(c, Lookup(mkeys, LookupKey(m)), sch.fields[m.index].schema, path, lowerTags);
      ViewsConcat([Visited(cmem, m.name, PathSegment(m), false)], sub);
    }
  }

  // ---------------------------------------------------------------------
  // Complement
  // ---------------------------------------------------------------------

  /** Every primary tag in the schema, at any depth, is already lower-case. */
  predicate LowerCaseTags(sch: Schema)
    decreases sch
  {
    match sch
    case Slice(_, elem) => LowerCaseTags(elem)
    case Struct(_, fields) =>
      forall i | 0 <= i < |fields| :: IsLowerCase(PrimaryTag(fields[i].jsonTag)) && LowerCaseTags(fields[i].schema)
    case _ => true
  }

  /** With lower-case tags, lower-casing them first changes nothing about the walk. */
  lemma {:induction false} WalkAgrees(c: Config, mv: JValue, sch: Schema, cmem: string)
    requires LowerCaseTags(sch)
    ensures Walk(c, mv, sch, cmem, true) == Walk(c, mv, sch, cmem, false)
    decreases sch, 2, 0
  {
    match sch {
      case Slice(typeName, elem) =>
        if mv.JArray? {
          WalkElemsAgree(c, mv.elems, elem, cmem, 0);
        }
      case Struct(typeName, fields) =>
        MembersAgreeOnLowerCaseTags(fields, 0);
        MembersIndexInto(fields, true);
        WalkFieldsAgree(c, KeyMap(mv), sch, Members(fields, true), 0, cmem);
      case _ =>
    }
  }

  lemma {:induction false} WalkElemsAgree(c: Config, elems: seq<JValue>, elem: Schema, cmem: string, i: nat)
    requires LowerCaseTags(elem) && i <= |elems|
    ensures WalkElems(c, elems, elem, cmem, true, i) == WalkElems(c, elems, elem, cmem, false, i)
    decreases elem, 3, |elems| - i
  {
    if i < |elems| {
      WalkAgrees(c, elems[i], elem, cmem);
      WalkElemsAgree(c, elems, elem, cmem, i + 1);
    }
  }

  lemma {:induction false} WalkFieldsAgree(c: Config, mkeys: map<string, JValue>, sch: Schema, ms: seq<Member>, i: nat, cmem: string)
    requires sch.Struct? && IndexesInto(ms, sch.fields) && i <= |ms| && LowerCaseTags(sch)
    ensures WalkFields(c, mkeys, sch, ms, i, cmem, true) == WalkFields(c, mkeys, sch, ms, i, cmem, false)
    decreases sch, 1, |ms| - i
  {
    if i < |ms| {
      var m := ms[i];
      assert LowerCaseTags(sch.fields[m.index].schema);
      if !Suppressed(c.skipMembers, cmem, m.name) && !Absent(mkeys, m, c.omitemptyOK) {
        WalkAgrees(c, Lookup(mkeys, LookupKey(m)), sch.fields[m.index].schema, Join(cmem, PathSegment(m)));
      }
      WalkFieldsAgree(c, mkeys, sch, ms, i + 1, cmem);
    }
  }

  /**
   * With the tag lower-cased before the lookup, as checkMembers does, the
   * existing-keys report is the complement of the missing-keys report for
   * every struct and value: both are views of one walk, every visited field
   * is in exactly one of them, and every type mismatch is in both.
   */
  lemma MissingExistingComplement(c: Config, mv: JValue, sch: Schema, cmem: string)
    ensures var t := Walk(c, mv, sch, cmem, true);
      && MissingKeys.Missing(c, mv, sch, cmem) == MissingView(t)
      && ExistingKeys.Existing(c, mv, sch, cmem, true) == ExistingView(t)
      && |MissingKeys.Missing(c, mv, sch, cmem)| + |ExistingKeys.Existing(c, mv, sch, cmem, true)| == |t| + Mismatches(t)
  {
    MissingIsView(c, mv, sch, cmem);
    ExistingIsView(c, mv, sch, cmem, true);
    ViewLengths(Walk(c, mv, sch, cmem, true));
  }

  /**
   * findMembers as written, which looks tags up without lower-casing them, is
   * the complement of checkMembers whenever no tag has an upper-case letter.
   */
  lemma ExistingComplementsMissing(c: Config, mv: JValue, sch: Schema, cmem: string)
    requires LowerCaseTags(sch)
    ensures var t := Walk(c, mv, sch, cmem, true);
      && MissingKeys.Missing(c, mv, sch, cmem) == MissingView(t)
      && ExistingKeys.Existing(c, mv, sch, cmem, false) == ExistingView(t)
  {
    MissingIsView(c, mv, sch, cmem);
    ExistingIsView(c, mv, sch, cmem, false);
    WalkAgrees(c, mv, sch, cmem);
  }

  /**
   * A field tagged `WhyNot`, present in the object under the key `WhyNot`, is
   * in neither report as written: checkMembers finds it under `whynot`, while
   * findMembers looks for `WhyNot` among lower-cased keys. Lower-casing the tag
   * puts it in the existing report.
   */
  lemma UpperCaseTagInNeither()
    ensures var c := Config([], true, ["config"]);
      var sch := Struct("T", [Field("Why", true, "WhyNot", Leaf)]);
      var mv := JObject([("WhyNot", JScalar)]);
      && MissingKeys.Missing(c, mv, sch, "") == []
      && ExistingKeys.Existing(c, mv, sch, "", false) == []
      && ExistingKeys.Existing(c, mv, sch, "", true) == ["Why"]
  {
    var f := Field("Why", true, "WhyNot", Leaf);
    var mv := JObject([("WhyNot", JScalar)]);
    WhyNotPreprocessing(f, mv);
    WhyNotNotMissing(f, mv);
    WhyNotNotExisting(f, mv, false);
    WhyNotNotExisting(f, mv, true);
  }

  lemma WhyNotNotMissing(f: Field, mv: JValue)
    requires f == Field("Why", true, "WhyNot", Leaf) && mv == JObject([("WhyNot", JScalar)])
    requires KeyMap(mv) == map["whynot" := JScalar]
    requires Members([f], true) == [Member(0, "Why", "whynot", false)]
    ensures MissingKeys.Missing(Config([], true, ["config"]), mv, Struct("T", [f]), "") == []
  {
    var c := Config([], true, ["config"]);
    var sch := Struct("T", [f]);
    var ms := [Member(0, "Why", "whynot", false)];
    assert !Suppressed(c.skipMembers, "", "Why");
    assert LookupKey(ms[0]) == "whynot";
    assert MissingKeys.MissingField(c, KeyMap(mv), sch, ms[0], "") == [];
    assert MissingKeys.MissingFields(c, KeyMap(mv), sch, ms, 1, "") == [];
    assert MissingKeys.MissingFields(c, KeyMap(mv), sch, ms, 0, "") == [];
  }

  lemma WhyNotNotExisting(f: Field, mv: JValue, lowerTags: bool)
    requires f == Field("Why", true, "WhyNot", Leaf) && mv == JObject([("WhyNot", JScalar)])
    requires KeyMap(mv) == map["whynot" := JScalar]
    requires Members([f], lowerTags) == [Member(0, "Why", if lowerTags then "whynot" else "WhyNot", false)]
    ensures ExistingKeys.Existing(Config([], true, ["config"]), mv, Struct("T", [f]), "", lowerTags)
      == if lowerTags then ["Why"] else []
  {
    var c := Config([], true, ["config"]);
    var sch := Struct("T", [f]);
    var ms := Members([f], lowerTags);
    var r: seq<string> := if lowerTags then ["Why"] else [];
    WhyNotFieldExisting(f, lowerTags);
    assert ExistingKeys.ExistingField(c, KeyMap(mv), sch, ms[0], "", lowerTags) == r;
    assert ExistingKeys.ExistingFields(c, KeyMap(mv), sch, ms, 1, "", lowerTags) == [];
    assert ExistingKeys.ExistingFields(c, KeyMap(mv), sch, ms, 0, "", lowerTags) == r;
    assert ExistingKeys.Existing(c, mv, sch, "", lowerTags) == [] + r;
  }

  /** The one field of that struct is reported exactly when tags are lower-cased. */
  lemma WhyNotFieldExisting(f: Field, lowerTags: bool)
    requires f == Field("Why", true, "WhyNot", Leaf)
    ensures ExistingKeys.ExistingField(Config([], true, ["config"]), map["whynot" := JScalar], Struct("T", [f]),
      Member(0, "Why", if lowerTags then "whynot" else "WhyNot", false), "", lowerTags)
      == if lowerTags then ["Why"] else []
  {
    var m := Member(0, "Why", if lowerTags then "whynot" else "WhyNot", false);
    assert !Suppressed([], "", "Why");
    assert LookupKey(m) == m.tag;
    assert Join("", "Why") == "Why";
  }

  /** The key map and the two field lists of the example above. */
  lemma WhyNotPreprocessing(f: Field, mv: JValue)
    requires f == Field("Why", true, "WhyNot", Leaf) && mv == JObject([("WhyNot", JScalar)])
    ensures KeyMap(mv) == map["whynot" := JScalar]
    ensures Members([f], true) == [Member(0, "Why", "whynot", false)]
    ensures Members([f], false) == [Member(0, "Why", "WhyNot", false)]
  {
    WhyNotTagParts();
    assert Checked(f);
    assert MembersFrom([f], true, 1) == [] && MembersFrom([f], false, 1) == [];
    assert MemberOf([f], 0, true) == Member(0, "Why", "whynot", false);
  }

  /** The tag `WhyNot` has no options and lower-cases to `whynot`. */
  lemma WhyNotTagParts()
    ensures PrimaryTag("WhyNot") == "WhyNot" && !HasOmitempty("WhyNot")
    ensures Lower("WhyNot") == "whynot"
  {
    assert IndexOf("WhyNot", ',') == 6;
    assert Split("WhyNot", ',') == ["WhyNot"];
  }
}
