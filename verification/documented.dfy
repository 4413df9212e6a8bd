/**
 * The outputs the package documents for its own examples, derived from the
 * specification functions: the struct and object of ex_test.go (missing and
 * unknown keys), the Person example of the ExistingJSONKeys doc comment and
 * ExampleMissingJSONKeys of example_test.go. The members of each JSON object
 * are listed in the order the expected output assumes.
 *
 * The struct of ex_test.go is written over the tag of its field Subelem, so
 * that only the two facts the walkers use about `subelem,omitempty` (its
 * first part and its option) are in scope while the walks are unfolded.
 */
module Documented {
  import opened Text
  import opened Values
  import opened Settings
  import opened MissingKeys
  import opened ExistingKeys
  import opened UnknownKeys

  /** The settings after package initialisation. */
  const Initial: Config := Config([], true, ["config"])

  // ---------------------------------------------------------------------
  // Tags
  // ---------------------------------------------------------------------

  /** A tag without a comma is its own first part and carries no option. */
  lemma PlainTag(t: string)
    requires forall i | 0 <= i < |t| :: t[i] != ','
    ensures PrimaryTag(t) == t && !HasOmitempty(t)
  {
    assert Split(t, ',') == [t];
  }

  /** A tag `a,b` with comma-free parts splits into those parts. */
  lemma TagWithOption(a: string, b: string)
    requires forall i | 0 <= i < |a| :: a[i] != ','
    requires forall i | 0 <= i < |b| :: b[i] != ','
    ensures Split(a + "," + b, ',') == [a, b]
  {
    var s := a + "," + b;
    assert s[|a|] == ',';
    assert forall i | 0 <= i < |a| :: s[i] == a[i];
    var n := IndexOf(s, ',');
    assert n == |a|;
    assert s[..n] == a && s[n + 1..] == b;
    assert Split(b, ',') == [b];
  }

  /** What the walkers read from the tag of Subelem. */
  predicate SubelemParsed(t: string) {
    PrimaryTag(t) == "subelem" && HasOmitempty(t)
  }

  lemma SubelemTag()
    ensures SubelemParsed("subelem,omitempty")
  {
    assert "subelem" + "," + "omitempty" == "subelem,omitempty";
    TagWithOption("subelem", "omitempty");
  }

  /** A plain lower-case tag lists as itself. */
  lemma PlainMember(f: Field, t: string)
    requires f.exported && f.jsonTag == t && t != "-"
    requires forall i | 0 <= i < |t| :: t[i] != ','
    requires IsLowerCase(t)
    ensures Checked(f) && Lower(PrimaryTag(f.jsonTag)) == t && !HasOmitempty(f.jsonTag)
  {
    PlainTag(t);
    LowerOfLowerCase(t);
  }

  /** The lower-case names and keys of the examples. */
  lemma LowerElem1() ensures Lower("elem1") == "elem1" { LowerOfLowerCase("elem1"); }
  lemma LowerElem2() ensures Lower("elem2") == "elem2" { LowerOfLowerCase("elem2"); }
  lemma LowerElem3() ensures Lower("elem3") == "elem3" { LowerOfLowerCase("elem3"); }
  lemma LowerElem4() ensures Lower("elem4") == "elem4" { LowerOfLowerCase("elem4"); }
  lemma LowerNotes() ensures Lower("notes") == "notes" { LowerOfLowerCase("notes"); }
  lemma LowerSubelem() ensures Lower("subelem") == "subelem" { LowerOfLowerCase("subelem"); }
  lemma LowerAnother() ensures Lower("another") == "another" { LowerOfLowerCase("another"); }

  // ---------------------------------------------------------------------
  // ex_test.go
  // ---------------------------------------------------------------------

  /** type sub struct { Subelem string `json:"subelem,omitempty"`; Another string `json:"another"` } */
  function Sub(t: string): Schema {
    Struct("sub", [Field("Subelem", true, t, Leaf), Field("Another", true, "another", Leaf)])
  }

  /** type elem struct { Elem1 string `json:"elem1"`; Elem2 sub `json:"elem2"`; Elem3 bool `json:"elem3"` } */
  function Elem(t: string): Schema {
    Struct("elem", [Field("Elem1", true, "elem1", Leaf), Field("Elem2", true, "elem2", Sub(t)), Field("Elem3", true, "elem3", Leaf)])
  }

  /** The value of "elem2": {"subelem": ..., "notes": ...}. */
  const Elem2Value: JValue := JObject([("subelem", JScalar), ("notes", JScalar)])

  /** {"elem1": ..., "elem2": {...}, "elem4": ...} */
  const ExData: JValue := JObject([("elem1", JScalar), ("elem2", Elem2Value), ("elem4", JScalar)])

  lemma AnotherMember()
    ensures Checked(Field("Another", true, "another", Leaf))
    ensures Lower(PrimaryTag("another")) == "another" && !HasOmitempty("another")
  {
    PlainMember(Field("Another", true, "another", Leaf), "another");
  }

  lemma SubMembers(t: string)
    requires SubelemParsed(t)
    ensures Members(Sub(t).fields, true) == [Member(0, "Subelem", "subelem", true), Member(1, "Another", "another", false)]
  {
    var fs := Sub(t).fields;
    LowerSubelem();
    AnotherMember();
    assert MembersFrom(fs, true, 2) == [];
    assert MembersFrom(fs, true, 1) == [Member(1, "Another", "another", false)];
  }

  lemma ElemMembersFrom2(t: string)
    ensures MembersFrom(Elem(t).fields, true, 2) == [Member(2, "Elem3", "elem3", false)]
  {
    var fs := Elem(t).fields;
    PlainMember(fs[2], "elem3");
    assert MembersFrom(fs, true, 3) == [];
  }

  lemma ElemMembersFrom1(t: string)
    ensures MembersFrom(Elem(t).fields, true, 1) == [Member(1, "Elem2", "elem2", false), Member(2, "Elem3", "elem3", false)]
  {
    var fs := Elem(t).fields;
    PlainMember(fs[1], "elem2");
    ElemMembersFrom2(t);
  }

  lemma ElemMembers(t: string)
    ensures Members(Elem(t).fields, true)
      == [Member(0, "Elem1", "elem1", false), Member(1, "Elem2", "elem2", false), Member(2, "Elem3", "elem3", false)]
  {
    var fs := Elem(t).fields;
    PlainMember(fs[0], "elem1");
    ElemMembersFrom1(t);
  }

  lemma ExDataKeys()
    ensures KeyMap(ExData) == map["elem1" := JScalar, "elem2" := Elem2Value, "elem4" := JScalar]
  {
    LowerElem1();
    LowerElem2();
    LowerElem4();
    var mm := ExData.members;
    assert mm[..2][..1] == [("elem1", JScalar)];
    assert mm[..2][..1][..0] == [];
    assert mm[..2] == [("elem1", JScalar), ("elem2", Elem2Value)];
    assert LowerKeys(mm[..2][..1]) == map["elem1" := JScalar];
    assert LowerKeys(mm[..2]) == map["elem1" := JScalar, "elem2" := Elem2Value];
  }

  lemma Elem2Keys()
    ensures KeyMap(Elem2Value) == map["subelem" := JScalar, "notes" := JScalar]
  {
    LowerSubelem();
    LowerNotes();
    var mm := Elem2Value.members;
    assert mm[..1] == [("subelem", JScalar)];
    assert mm[..1][..0] == [];
    assert LowerKeys(mm[..1]) == map["subelem" := JScalar];
  }

  lemma MissingSubFields(t: string)
    ensures MissingField(Initial, KeyMap(Elem2Value), Sub(t), Member(0, "Subelem", "subelem", true), "elem2") == []
    ensures MissingField(Initial, KeyMap(Elem2Value), Sub(t), Member(1, "Another", "another", false), "elem2") == ["elem2.another"]
  {
    Elem2Keys();
    assert "subelem" in KeyMap(Elem2Value);
    assert "another" !in KeyMap(Elem2Value);
    assert Join("elem2", "another") == "elem2.another";
  }

  /** Below "elem2", only `another` is missing: `subelem` is present. */
  lemma MissingBelowElem2(t: string)
    requires SubelemParsed(t)
    ensures Missing(Initial, Elem2Value, Sub(t), "elem2") == ["elem2.another"]
  {
    MissingOfObject(Elem2Value.members, Sub(t), "elem2");
    SubMembers(t);
    MissingFieldsOf2(Sub(t), Members(Sub(t).fields, true), KeyMap(Elem2Value), "elem2");
    MissingSubFields(t);
  }

  /** The report of a two-field list is the two fields' reports in order. */
  lemma MissingFieldsOf2(sch: Schema, ms: seq<Member>, mk: map<string, JValue>, cmem: string)
    requires sch.Struct? && IndexesInto(ms, sch.fields) && |ms| == 2
    ensures MissingFields(Initial, mk, sch, ms, 0, cmem)
      == MissingField(Initial, mk, sch, ms[0], cmem) + MissingField(Initial, mk, sch, ms[1], cmem)
  {
    assert MissingFields(Initial, mk, sch, ms, 2, cmem) == [];
  }

  /** The report of a three-field list is the three fields' reports in order. */
  lemma MissingFieldsOf3(sch: Schema, ms: seq<Member>, mk: map<string, JValue>, cmem: string)
    requires sch.Struct? && IndexesInto(ms, sch.fields) && |ms| == 3
    ensures MissingFields(Initial, mk, sch, ms, 0, cmem)
      == MissingField(Initial, mk, sch, ms[0], cmem) + MissingField(Initial, mk, sch, ms[1], cmem)
        + MissingField(Initial, mk, sch, ms[2], cmem)
  {
    assert MissingFields(Initial, mk, sch, ms, 3, cmem) == [];
    assert MissingFields(Initial, mk, sch, ms, 2, cmem) == MissingField(Initial, mk, sch, ms[2], cmem);
  }

  lemma MissingElem1And3(t: string)
    ensures MissingField(Initial, KeyMap(ExData), Elem(t), Member(0, "Elem1", "elem1", false), "") == []
    ensures MissingField(Initial, KeyMap(ExData), Elem(t), Member(2, "Elem3", "elem3", false), "") == ["elem3"]
  {
    ExDataKeys();
  }

  lemma MissingElem2(t: string)
    requires SubelemParsed(t)
    ensures MissingField(Initial, KeyMap(ExData), Elem(t), Member(1, "Elem2", "elem2", false), "") == ["elem2.another"]
  {
    ExDataKeys();
    MissingBelowElem2(t);
  }

  /** An object checked against a struct yields the reports of its listed fields. */
  lemma MissingOfObject(mm: seq<(string, JValue)>, sch: Schema, cmem: string)
    requires sch.Struct?
    ensures IndexesInto(Members(sch.fields, true), sch.fields)
    ensures Missing(Initial, JObject(mm), sch, cmem) == MissingFields(Initial, KeyMap(JObject(mm)), sch, Members(sch.fields, true), 0, cmem)
  {
    MembersIndexInto(sch.fields, true);
  }

  lemma MissingInElem(t: string)
    requires SubelemParsed(t)
    ensures Missing(Initial, ExData, Elem(t), "") == ["elem2.another", "elem3"]
  {
    MissingOfObject(ExData.members, Elem(t), "");
    ElemMembers(t);
    MissingFieldsOf3(Elem(t), Members(Elem(t).fields, true), KeyMap(ExData), "");
    MissingElem1And3(t);
    MissingElem2(t);
  }

  /** MissingJSONKeys on the data of ex_test.go: [elem2.another elem3]. */
  lemma ExTestMissing()
    ensures Missing(Initial, ExData, Elem("subelem,omitempty"), "") == ["elem2.another", "elem3"]
  {
    SubelemTag();
    MissingInElem("subelem,omitempty");
  }

  // ---------------------------------------------------------------------
  // ex_test.go, UnknownJSONKeys
  // ---------------------------------------------------------------------

  const InitialKeys: seq<string> := ["config"]


  /** A plain lower-case tag is the key of its field in the table of unknownkeys.go. */
  lemma PlainTableKey(f: Field, t: string)
    requires f.exported && f.jsonTag == t && t != "-" && t != ""
    requires forall i | 0 <= i < |t| :: t[i] != ','
    requires IsLowerCase(t)
    ensures TableTag(f, FirstTagPart) == t && TableKey(f, FirstTagPart) == t
  {
    PlainMember(f, t);
    LowerOfLowerCase(t);
  }

  lemma ElemTableFirst(t: string)
    ensures FieldTable(Elem(t).fields[..1], FirstTagPart) == map[Title("elem1") := Entry(0, "elem1")]
  {
    var fs := Elem(t).fields;
    PlainTableKey(fs[0], "elem1");
    assert fs[..1][..0] == [];
  }

  lemma ElemTableTwo(t: string)
    ensures FieldTable(Elem(t).fields[..2], FirstTagPart) == map[Title("elem1") := Entry(0, "elem1"), Title("elem2") := Entry(1, "elem2")]
  {
    var fs := Elem(t).fields;
    PlainTableKey(fs[1], "elem2");
    assert fs[..2][..1] == fs[..1];
    ElemTableFirst(t);
  }

  /** The table of elem: Elem1, Elem2 and Elem3 under their tags. */
  lemma ElemTable(t: string)
    ensures FieldTable(Elem(t).fields, FirstTagPart)
      == map[Title("elem1") := Entry(0, "elem1"), Title("elem2") := Entry(1, "elem2"), Title("elem3") := Entry(2, "elem3")]
  {
    var fs := Elem(t).fields;
    PlainTableKey(fs[2], "elem3");
    assert fs[..2] == fs[..|fs| - 1];
    ElemTableTwo(t);
  }

  lemma SubelemTableKey(t: string)
    requires SubelemParsed(t)
    ensures TableTag(Sub(t).fields[0], FirstTagPart) == "subelem" && TableKey(Sub(t).fields[0], FirstTagPart) == "subelem"
  {
    LowerSubelem();
  }

  /** The table of a single exported field. */
  lemma FieldTableOne(f: Field)
    requires f.exported
    ensures FieldTable([f], FirstTagPart) == map[Title(TableKey(f, FirstTagPart)) := Entry(0, TableTag(f, FirstTagPart))]
  {
    assert [f][..0] == [];
  }

  lemma SubTableFirst(t: string)
    requires SubelemParsed(t)
    ensures FieldTable(Sub(t).fields[..1], FirstTagPart) == map[Title("subelem") := Entry(0, "subelem")]
  {
    var fs := Sub(t).fields;
    assert fs[..1] == [fs[0]];
    FieldTableOne(fs[0]);
    SubelemTableKey(t);
  }

  /** The table of sub: Subelem and Another under their tags. */
  lemma SubTable(t: string)
    requires SubelemParsed(t)
    ensures FieldTable(Sub(t).fields, FirstTagPart) == map[Title("subelem") := Entry(0, "subelem"), Title("another") := Entry(1, "another")]
  {
    var fs := Sub(t).fields;
    PlainTableKey(fs[1], "another");
    assert fs[..|fs| - 1] == fs[..1];
    SubTableFirst(t);
  }

  /** A lower-case key that differs from both keys of a two-entry table is not in it. */
  lemma AbsentFromTwo(k: string, a: string, b: string, ea: Entry, eb: Entry)
    requires Lower(k) == k && Lower(a) == a && Lower(b) == b && k != a && k != b
    ensures Title(k) !in map[Title(a) := ea, Title(b) := eb]
  {
    TitleLowerInjective(k, a);
    TitleLowerInjective(k, b);
  }

  /** A lower-case key that differs from all keys of a three-entry table is not in it. */
  lemma AbsentFromThree(k: string, a: string, b: string, c: string, ea: Entry, eb: Entry, ec: Entry)
    requires Lower(k) == k && Lower(a) == a && Lower(b) == b && Lower(c) == c
    requires k != a && k != b && k != c
    ensures Title(k) !in map[Title(a) := ea, Title(b) := eb, Title(c) := ec]
  {
    TitleLowerInjective(k, a);
    TitleLowerInjective(k, b);
    TitleLowerInjective(k, c);
  }

  /** Entries of a three-entry table with distinct lower-case keys. */
  lemma LookupThree(a: string, b: string, c: string, ea: Entry, eb: Entry, ec: Entry)
    requires Lower(a) == a && Lower(b) == b && Lower(c) == c && a != b && a != c && b != c
    ensures var tbl := map[Title(a) := ea, Title(b) := eb, Title(c) := ec];
      Title(a) in tbl && tbl[Title(a)] == ea && Title(b) in tbl && tbl[Title(b)] == eb
  {
    TitleLowerInjective(a, b);
    TitleLowerInjective(a, c);
    TitleLowerInjective(b, c);
  }

  /** Entries of a two-entry table with distinct lower-case keys. */
  lemma LookupTwo(a: string, b: string, ea: Entry, eb: Entry)
    requires Lower(a) == a && Lower(b) == b && a != b
    ensures var tbl := map[Title(a) := ea, Title(b) := eb];
      Title(a) in tbl && tbl[Title(a)] == ea
  {
    TitleLowerInjective(a, b);
  }

  /** What looking keys up in the table of sub finds. */
  lemma SubLookups(t: string)
    requires SubelemParsed(t)
    ensures var tbl := FieldTable(Sub(t).fields, FirstTagPart);
      Title("subelem") in tbl && tbl[Title("subelem")] == Entry(0, "subelem") && Title("notes") !in tbl
  {
    SubTable(t);
    LowerSubelem();
    LowerAnother();
    LowerNotes();
    LookupTwo("subelem", "another", Entry(0, "subelem"), Entry(1, "another"));
    AbsentFromTwo("notes", "subelem", "another", Entry(0, "subelem"), Entry(1, "another"));
  }

  /** What looking keys up in the table of elem finds. */
  lemma ElemLookups(t: string)
    ensures var tbl := FieldTable(Elem(t).fields, FirstTagPart);
      Title("elem1") in tbl && tbl[Title("elem1")] == Entry(0, "elem1")
      && Title("elem2") in tbl && tbl[Title("elem2")] == Entry(1, "elem2")
      && Title("elem4") !in tbl
  {
    ElemTable(t);
    LowerElem1();
    LowerElem2();
    LowerElem3();
    LowerElem4();
    LookupThree("elem1", "elem2", "elem3", Entry(0, "elem1"), Entry(1, "elem2"), Entry(2, "elem3"));
    AbsentFromThree("elem4", "elem1", "elem2", "elem3", Entry(0, "elem1"), Entry(1, "elem2"), Entry(2, "elem3"));
  }

  lemma SubelemKnown(t: string)
    requires SubelemParsed(t)
    ensures UnknownKey(InitialKeys, "subelem", JScalar, Sub(t), "elem2") == Descend([])
  {
    SubLookups(t);
    LowerSubelem();
  }

  lemma NotesUnknown(t: string)
    requires SubelemParsed(t)
    ensures UnknownKey(InitialKeys, "notes", JScalar, Sub(t), "elem2") == Abandon("elem2.notes")
  {
    SubLookups(t);
    LowerNotes();
    JoinElem2Notes();
  }

  lemma JoinElem2Notes()
    ensures Join("elem2", "notes") == "elem2.notes"
  {
  }

  lemma JoinElem2Subelem()
    ensures Join("elem2", "subelem") == "elem2.subelem"
  {
  }

  /** A key that is not skipped and descends contributes the paths found below it, then the scan goes on. */
  lemma MembersDescend(mm: seq<(string, JValue)>, sch: Schema, key: string, i: nat, paths: seq<string>)
    requires sch.Struct? && i < |mm| && !KeySkipped(InitialKeys, key, Lower(mm[i].0))
    requires UnknownKey(InitialKeys, mm[i].0, mm[i].1, sch, key) == Descend(paths)
    ensures UnknownMembers(InitialKeys, mm, sch, key, i) == paths + UnknownMembers(InitialKeys, mm, sch, key, i + 1)
  {
  }

  /** A key that is not skipped and abandons contributes its path, and the scan stops. */
  lemma MembersAbandon(mm: seq<(string, JValue)>, sch: Schema, key: string, i: nat, path: string)
    requires sch.Struct? && i < |mm| && !KeySkipped(InitialKeys, key, Lower(mm[i].0))
    requires UnknownKey(InitialKeys, mm[i].0, mm[i].1, sch, key) == Abandon(path)
    ensures UnknownMembers(InitialKeys, mm, sch, key, i) == [path]
  {
  }

  lemma SubelemKeyPassed(t: string)
    requires SubelemParsed(t)
    ensures UnknownMembers(InitialKeys, Elem2Value.members, Sub(t), "elem2", 0)
      == UnknownMembers(InitialKeys, Elem2Value.members, Sub(t), "elem2", 1)
  {
    SubelemKnown(t);
    SubelemNotSkipped();
    MembersDescend(Elem2Value.members, Sub(t), "elem2", 0, []);
  }

  lemma SubelemNotSkipped()
    ensures !KeySkipped(InitialKeys, "elem2", Lower(Elem2Value.members[0].0))
  {
    LowerSubelem();
    JoinElem2Subelem();
  }

  lemma NotesKeyReported(t: string)
    requires SubelemParsed(t)
    ensures UnknownMembers(InitialKeys, Elem2Value.members, Sub(t), "elem2", 1) == ["elem2.notes"]
  {
    NotesUnknown(t);
    LowerNotes();
    JoinElem2Notes();
    MembersAbandon(Elem2Value.members, Sub(t), "elem2", 1, "elem2.notes");
  }

  /** Below "elem2", `subelem` is known and `notes` is not. */
  lemma UnknownBelowElem2(t: string)
    requires SubelemParsed(t)
    ensures Unknown(InitialKeys, Elem2Value, Sub(t), "elem2") == ["elem2.notes"]
  {
    SubelemKeyPassed(t);
    NotesKeyReported(t);
  }

  lemma Elem1Known(t: string)
    ensures UnknownKey(InitialKeys, "elem1", JScalar, Elem(t), "") == Descend([])
  {
    ElemLookups(t);
    LowerElem1();
  }

  lemma Elem2Known(t: string)
    requires SubelemParsed(t)
    ensures UnknownKey(InitialKeys, "elem2", Elem2Value, Elem(t), "") == Descend(["elem2.notes"])
  {
    ElemLookups(t);
    LowerElem2();
    UnknownBelowElem2(t);
  }

  lemma Elem4Unknown(t: string)
    ensures UnknownKey(InitialKeys, "elem4", JScalar, Elem(t), "") == Abandon("elem4")
  {
    ElemLookups(t);
    LowerElem4();
  }

  lemma Elem1KeyPassed(t: string)
    ensures UnknownMembers(InitialKeys, ExData.members, Elem(t), "", 0) == UnknownMembers(InitialKeys, ExData.members, Elem(t), "", 1)
  {
    Elem1Known(t);
    LowerElem1();
    MembersDescend(ExData.members, Elem(t), "", 0, []);
  }

  lemma Elem2KeyDescends(t: string)
    requires SubelemParsed(t)
    ensures UnknownMembers(InitialKeys, ExData.members, Elem(t), "", 1)
      == ["elem2.notes"] + UnknownMembers(InitialKeys, ExData.members, Elem(t), "", 2)
  {
    Elem2Known(t);
    LowerElem2();
    MembersDescend(ExData.members, Elem(t), "", 1, ["elem2.notes"]);
  }

  lemma Elem4KeyReported(t: string)
    ensures UnknownMembers(InitialKeys, ExData.members, Elem(t), "", 2) == ["elem4"]
  {
    Elem4Unknown(t);
    LowerElem4();
    MembersAbandon(ExData.members, Elem(t), "", 2, "elem4");
  }

  lemma UnknownInElem(t: string)
    requires SubelemParsed(t)
    ensures Unknown(InitialKeys, ExData, Elem(t), "") == ["elem2.notes", "elem4"]
  {
    Elem1KeyPassed(t);
    Elem2KeyDescends(t);
    Elem4KeyReported(t);
  }

  /**
   * UnknownJSONKeys on the data of ex_test.go: [elem2.notes elem4]. The
   * unknown `notes` ends the scan of the "elem2" object; `elem4` ends the
   * top-level one.
   */
  lemma ExTestUnknown()
    ensures Unknown(InitialKeys, ExData, Elem("subelem,omitempty"), "") == ["elem2.notes", "elem4"]
  {
    SubelemTag();
    UnknownInElem("subelem,omitempty");
  }

  // ---------------------------------------------------------------------
  // The Person example of ExistingJSONKeys
  // ---------------------------------------------------------------------

  /** Lower-casing a capitalised name lower-cases its first letter only. */
  lemma LowerCapitalised(c: char, rest: string)
    requires 'A' <= c <= 'Z' && IsLowerCase(rest)
    ensures Lower([c] + rest) == [LowerChar(c)] + rest
  {
    LowerConcat([c], rest);
    LowerOfLowerCase(rest);
  }

  lemma LowerName() ensures Lower("Name") == "name" { LowerCapitalised('N', "ame"); }
  lemma LowerSex() ensures Lower("Sex") == "sex" { LowerCapitalised('S', "ex"); }
  lemma LowerFirst() ensures Lower("First") == "first" { LowerCapitalised('F', "irst"); }
  lemma LowerMiddle() ensures Lower("Middle") == "middle" { LowerCapitalised('M', "iddle"); }
  lemma LowerLast() ensures Lower("Last") == "last" { LowerCapitalised('L', "ast"); }

  /** type NameInfo struct { First, Middle, Last string } */
  const NameInfo: Schema :=
    Struct("NameInfo", [Field("First", true, "", Leaf), Field("Middle", true, "", Leaf), Field("Last", true, "", Leaf)])

  /** type Person struct { Name NameInfo; Sex string } */
  const Person: Schema := Struct("Person", [Field("Name", true, "", NameInfo), Field("Sex", true, "", Leaf)])

  /** {"first": ..., "middle": ..., "last": ...} */
  const NameValue: JValue := JObject([("first", JScalar), ("middle", JScalar), ("last", JScalar)])

  /** {"name": {...}, "sex": ...} */
  const PersonData: JValue := JObject([("name", NameValue), ("sex", JScalar)])

  /** An untagged exported field is listed with an empty tag and no option. */
  lemma UntaggedMember(f: Field)
    requires f.exported && f.jsonTag == ""
    ensures Checked(f) && PrimaryTag(f.jsonTag) == "" && !HasOmitempty(f.jsonTag)
  {
    PlainTag("");
  }

  lemma NameInfoMembersFrom1()
    ensures MembersFrom(NameInfo.fields, false, 1) == [Member(1, "Middle", "", false), Member(2, "Last", "", false)]
  {
    var fs := NameInfo.fields;
    UntaggedMember(fs[1]);
    UntaggedMember(fs[2]);
    assert MembersFrom(fs, false, 3) == [];
  }

  lemma NameInfoMembers()
    ensures Members(NameInfo.fields, false)
      == [Member(0, "First", "", false), Member(1, "Middle", "", false), Member(2, "Last", "", false)]
  {
    UntaggedMember(NameInfo.fields[0]);
    NameInfoMembersFrom1();
  }

  lemma PersonMembers()
    ensures Members(Person.fields, false) == [Member(0, "Name", "", false), Member(1, "Sex", "", false)]
  {
    var fs := Person.fields;
    UntaggedMember(fs[0]);
    UntaggedMember(fs[1]);
    assert MembersFrom(fs, false, 2) == [];
    assert MembersFrom(fs, false, 1) == [Member(1, "Sex", "", false)];
  }

  lemma NameKeys()
    ensures KeyMap(NameValue) == map["first" := JScalar, "middle" := JScalar, "last" := JScalar]
  {
    LowerOfLowerCase("first");
    LowerOfLowerCase("middle");
    LowerOfLowerCase("last");
    var mm := NameValue.members;
    assert mm[..2][..1] == [("first", JScalar)];
    assert mm[..2][..1][..0] == [];
    assert mm[..2] == [("first", JScalar), ("middle", JScalar)];
    assert LowerKeys(mm[..2][..1]) == map["first" := JScalar];
    assert LowerKeys(mm[..2]) == map["first" := JScalar, "middle" := JScalar];
  }

  lemma PersonKeys()
    ensures KeyMap(PersonData) == map["name" := NameValue, "sex" := JScalar]
  {
    LowerOfLowerCase("name");
    LowerOfLowerCase("sex");
    var mm := PersonData.members;
    assert mm[..1] == [("name", NameValue)];
    assert mm[..1][..0] == [];
    assert LowerKeys(mm[..1]) == map["name" := NameValue];
  }

  /** An object checked against a struct yields the entries of its listed fields. */
  lemma ExistingOfObject(mm: seq<(string, JValue)>, sch: Schema, cmem: string)
    requires sch.Struct?
    ensures IndexesInto(Members(sch.fields, false), sch.fields)
    ensures Existing(Initial, JObject(mm), sch, cmem, false)
      == ExistingFields(Initial, KeyMap(JObject(mm)), sch, Members(sch.fields, false), 0, cmem, false)
  {
    MembersIndexInto(sch.fields, false);
  }

  /** The entries of a two-field list are the two fields' entries in order. */
  lemma ExistingFieldsOf2(sch: Schema, ms: seq<Member>, mk: map<string, JValue>, cmem: string)
    requires sch.Struct? && IndexesInto(ms, sch.fields) && |ms| == 2
    ensures ExistingFields(Initial, mk, sch, ms, 0, cmem, false)
      == ExistingField(Initial, mk, sch, ms[0], cmem, false) + ExistingField(Initial, mk, sch, ms[1], cmem, false)
  {
    assert ExistingFields(Initial, mk, sch, ms, 2, cmem, false) == [];
  }

  /** The entries of a three-field list are the three fields' entries in order. */
  lemma ExistingFieldsOf3(sch: Schema, ms: seq<Member>, mk: map<string, JValue>, cmem: string)
    requires sch.Struct? && IndexesInto(ms, sch.fields) && |ms| == 3
    ensures ExistingFields(Initial, mk, sch, ms, 0, cmem, false)
      == ExistingField(Initial, mk, sch, ms[0], cmem, false) + ExistingField(Initial, mk, sch, ms[1], cmem, false)
        + ExistingField(Initial, mk, sch, ms[2], cmem, false)
  {
    assert ExistingFields(Initial, mk, sch, ms, 3, cmem, false) == [];
    assert ExistingFields(Initial, mk, sch, ms, 2, cmem, false) == ExistingField(Initial, mk, sch, ms[2], cmem, false);
  }

  /** A present untagged field contributes its path, then the entries of its value under that path. */
  lemma PresentField(mk: map<string, JValue>, sch: Schema, m: Member, cmem: string)
    requires sch.Struct? && m.index < |sch.fields|
    requires m.tag == "" && Lower(m.name) in mk
    ensures ExistingField(Initial, mk, sch, m, cmem, false)
      == [Join(cmem, m.name)] + Existing(Initial, mk[Lower(m.name)], sch.fields[m.index].schema, Join(cmem, m.name), false)
  {
  }

  /** A present untagged scalar field contributes its path and nothing below it. */
  lemma PresentLeaf(mk: map<string, JValue>, sch: Schema, m: Member, cmem: string)
    requires sch.Struct? && m.index < |sch.fields| && sch.fields[m.index].schema == Leaf
    requires m.tag == "" && Lower(m.name) in mk
    ensures ExistingField(Initial, mk, sch, m, cmem, false) == [Join(cmem, m.name)]
  {
    PresentField(mk, sch, m, cmem);
  }

  lemma JoinNameFirst() ensures Join("Name", "First") == "Name.First" {}
  lemma JoinNameMiddle() ensures Join("Name", "Middle") == "Name.Middle" {}
  lemma JoinNameLast() ensures Join("Name", "Last") == "Name.Last" {}

  /** At the top level a field's path is its own segment. */
  lemma JoinTop(segment: string)
    ensures Join("", segment) == segment
  {
  }

  lemma ExistingFirst()
    ensures ExistingField(Initial, KeyMap(NameValue), NameInfo, Member(0, "First", "", false), "Name", false) == ["Name.First"]
  {
    NameKeys();
    LowerFirst();
    JoinNameFirst();
    PresentLeaf(KeyMap(NameValue), NameInfo, Member(0, "First", "", false), "Name");
  }

  lemma ExistingMiddle()
    ensures ExistingField(Initial, KeyMap(NameValue), NameInfo, Member(1, "Middle", "", false), "Name", false) == ["Name.Middle"]
  {
    NameKeys();
    LowerMiddle();
    JoinNameMiddle();
    PresentLeaf(KeyMap(NameValue), NameInfo, Member(1, "Middle", "", false), "Name");
  }

  lemma ExistingLast()
    ensures ExistingField(Initial, KeyMap(NameValue), NameInfo, Member(2, "Last", "", false), "Name", false) == ["Name.Last"]
  {
    NameKeys();
    LowerLast();
    JoinNameLast();
    PresentLeaf(KeyMap(NameValue), NameInfo, Member(2, "Last", "", false), "Name");
  }

  /** Below "Name", every field of NameInfo is present. */
  lemma ExistingBelowName()
    ensures Existing(Initial, NameValue, NameInfo, "Name", false) == ["Name.First", "Name.Middle", "Name.Last"]
  {
    ExistingOfObject(NameValue.members, NameInfo, "Name");
    NameInfoMembers();
    ExistingFieldsOf3(NameInfo, Members(NameInfo.fields, false), KeyMap(NameValue), "Name");
    ExistingFirst();
    ExistingMiddle();
    ExistingLast();
  }

  lemma ExistingName()
    ensures ExistingField(Initial, KeyMap(PersonData), Person, Member(0, "Name", "", false), "", false)
      == ["Name", "Name.First", "Name.Middle", "Name.Last"]
  {
    NamePresent();
    ExistingBelowName();
  }

  lemma NamePresent()
    ensures ExistingField(Initial, KeyMap(PersonData), Person, Member(0, "Name", "", false), "", false)
      == ["Name"] + Existing(Initial, NameValue, NameInfo, "Name", false)
  {
    PersonKeys();
    LowerName();
    JoinTop("Name");
    PresentField(KeyMap(PersonData), Person, Member(0, "Name", "", false), "");
  }

  lemma ExistingSex()
    ensures ExistingField(Initial, KeyMap(PersonData), Person, Member(1, "Sex", "", false), "", false) == ["Sex"]
  {
    PersonKeys();
    LowerSex();
    JoinTop("Sex");
    PresentLeaf(KeyMap(PersonData), Person, Member(1, "Sex", "", false), "");
  }

  /** ExistingJSONKeys on the Person example: [Name Name.First Name.Middle Name.Last Sex]. */
  lemma PersonExisting()
    ensures Existing(Initial, PersonData, Person, "", false) == ["Name", "Name.First", "Name.Middle", "Name.Last", "Sex"]
  {
    ExistingOfObject(PersonData.members, Person, "");
    PersonMembers();
    ExistingFieldsOf2(Person, Members(Person.fields, false), KeyMap(PersonData), "");
    ExistingName();
    ExistingSex();
  }

  // ---------------------------------------------------------------------
  // ExampleMissingJSONKeys (example_test.go)
  // ---------------------------------------------------------------------

  lemma LowerOk() ensures Lower("Ok") == "ok" { LowerCapitalised('O', "k"); }
  lemma LowerWhy() ensures Lower("Why") == "why" { LowerCapitalised('W', "hy"); }
  lemma LowerMore() ensures Lower("More") == "more" { LowerCapitalised('M', "ore"); }
  lemma LowerNot() ensures Lower("Not") == "not" { LowerCapitalised('N', "ot"); }
  lemma LowerAnotherName() ensures Lower("Another") == "another" { LowerCapitalised('A', "nother"); }
  lemma LowerSomething() ensures Lower("Something") == "something" { LowerCapitalised('S', "omething"); }
  lemma LowerElse() ensures Lower("Else") == "else" { LowerCapitalised('E', "lse"); }

  /** type test3 struct { Something string; Else string } */
  const Test3: Schema := Struct("test3", [Field("Something", true, "", Leaf), Field("Else", true, "", Leaf)])

  /** type test2 struct { Why string; Not string; Another test3 } */
  const Test2: Schema :=
    Struct("test2", [Field("Why", true, "", Leaf), Field("Not", true, "", Leaf), Field("Another", true, "", Test3)])

  /** type test struct { Ok bool; Why string; More test2 } */
  const Test: Schema := Struct("test", [Field("Ok", true, "", Leaf), Field("Why", true, "", Leaf), Field("More", true, "", Test2)])

  /** {"else": "ok"} */
  const AnotherValue: JValue := JObject([("else", JScalar)])

  /** {"why": "again", "another": {...}} */
  const MoreValue: JValue := JObject([("why", JScalar), ("another", AnotherValue)])

  /** {"ok": true, "more": {...}} */
  const ExampleData: JValue := JObject([("ok", JScalar), ("more", MoreValue)])

  /** Missing keys list an untagged field with an empty tag. */
  lemma UntaggedLowerMember(f: Field)
    requires f.exported && f.jsonTag == ""
    ensures Checked(f) && Lower(PrimaryTag(f.jsonTag)) == "" && !HasOmitempty(f.jsonTag)
  {
    UntaggedMember(f);
  }

  lemma Test3Members()
    ensures Members(Test3.fields, true) == [Member(0, "Something", "", false), Member(1, "Else", "", false)]
  {
    var fs := Test3.fields;
    UntaggedLowerMember(fs[0]);
    UntaggedLowerMember(fs[1]);
    assert MembersFrom(fs, true, 2) == [];
    assert MembersFrom(fs, true, 1) == [Member(1, "Else", "", false)];
  }

  lemma Test2MembersFrom1()
    ensures MembersFrom(Test2.fields, true, 1) == [Member(1, "Not", "", false), Member(2, "Another", "", false)]
  {
    var fs := Test2.fields;
    UntaggedLowerMember(fs[1]);
    UntaggedLowerMember(fs[2]);
    assert MembersFrom(fs, true, 3) == [];
  }

  lemma Test2Members()
    ensures Members(Test2.fields, true)
      == [Member(0, "Why", "", false), Member(1, "Not", "", false), Member(2, "Another", "", false)]
  {
    UntaggedLowerMember(Test2.fields[0]);
    Test2MembersFrom1();
  }

  lemma TestMembersFrom1()
    ensures MembersFrom(Test.fields, true, 1) == [Member(1, "Why", "", false), Member(2, "More", "", false)]
  {
    var fs := Test.fields;
    UntaggedLowerMember(fs[1]);
    UntaggedLowerMember(fs[2]);
    assert MembersFrom(fs, true, 3) == [];
  }

  lemma TestMembers()
    ensures Members(Test.fields, true)
      == [Member(0, "Ok", "", false), Member(1, "Why", "", false), Member(2, "More", "", false)]
  {
    UntaggedLowerMember(Test.fields[0]);
    TestMembersFrom1();
  }

  lemma AnotherKeys()
    ensures KeyMap(AnotherValue) == map["else" := JScalar]
  {
    LowerOfLowerCase("else");
    assert AnotherValue.members[..0] == [];
  }

  lemma MoreKeys()
    ensures KeyMap(MoreValue) == map["why" := JScalar, "another" := AnotherValue]
  {
    LowerOfLowerCase("why");
    LowerAnother();
    var mm := MoreValue.members;
    assert mm[..1] == [("why", JScalar)];
    assert mm[..1][..0] == [];
    assert LowerKeys(mm[..1]) == map["why" := JScalar];
  }

  lemma ExampleKeys()
    ensures KeyMap(ExampleData) == map["ok" := JScalar, "more" := MoreValue]
  {
    LowerOfLowerCase("ok");
    LowerOfLowerCase("more");
    var mm := ExampleData.members;
    assert mm[..1] == [("ok", JScalar)];
    assert mm[..1][..0] == [];
    assert LowerKeys(mm[..1]) == map["ok" := JScalar];
  }

  /** An untagged field whose key is absent is reported under its Go name. */
  lemma MissingAbsent(mk: map<string, JValue>, sch: Schema, m: Member, cmem: string)
    requires sch.Struct? && m.index < |sch.fields|
    requires m.tag == "" && !m.omitempty && Lower(m.name) !in mk
    ensures MissingField(Initial, mk, sch, m, cmem) == [Join(cmem, m.name)]
  {
  }

  /** An untagged field whose key is present is checked one level down, under its Go name. */
  lemma MissingPresent(mk: map<string, JValue>, sch: Schema, m: Member, cmem: string)
    requires sch.Struct? && m.index < |sch.fields|
    requires m.tag == "" && Lower(m.name) in mk
    ensures MissingField(Initial, mk, sch, m, cmem)
      == Missing(Initial, mk[Lower(m.name)], sch.fields[m.index].schema, Join(cmem, m.name))
  {
  }

  lemma JoinMoreAnother() ensures Join("More", "Another") == "More.Another" {}
  lemma JoinMoreNot() ensures Join("More", "Not") == "More.Not" {}
  lemma JoinSomething() ensures Join("More.Another", "Something") == "More.Another.Something" {}

  lemma SomethingMissing()
    ensures MissingField(Initial, KeyMap(AnotherValue), Test3, Member(0, "Something", "", false), "More.Another")
      == ["More.Another.Something"]
  {
    AnotherKeys();
    LowerSomething();
    JoinSomething();
    MissingAbsent(KeyMap(AnotherValue), Test3, Member(0, "Something", "", false), "More.Another");
  }

  lemma ElsePresent()
    ensures MissingField(Initial, KeyMap(AnotherValue), Test3, Member(1, "Else", "", false), "More.Another") == []
  {
    AnotherKeys();
    LowerElse();
    MissingPresent(KeyMap(AnotherValue), Test3, Member(1, "Else", "", false), "More.Another");
  }

  /** Below "More.Another", only Something is missing. */
  lemma MissingBelowAnother()
    ensures Missing(Initial, AnotherValue, Test3, "More.Another") == ["More.Another.Something"]
  {
    MissingOfObject(AnotherValue.members, Test3, "More.Another");
    Test3Members();
    MissingFieldsOf2(Test3, Members(Test3.fields, true), KeyMap(AnotherValue), "More.Another");
    SomethingMissing();
    ElsePresent();
  }

  lemma MoreWhyPresent()
    ensures MissingField(Initial, KeyMap(MoreValue), Test2, Member(0, "Why", "", false), "More") == []
  {
    MoreKeys();
    LowerWhy();
    MissingPresent(KeyMap(MoreValue), Test2, Member(0, "Why", "", false), "More");
  }

  lemma NotMissing()
    ensures MissingField(Initial, KeyMap(MoreValue), Test2, Member(1, "Not", "", false), "More") == ["More.Not"]
  {
    MoreKeys();
    LowerNot();
    JoinMoreNot();
    MissingAbsent(KeyMap(MoreValue), Test2, Member(1, "Not", "", false), "More");
  }

  lemma AnotherPresent()
    ensures MissingField(Initial, KeyMap(MoreValue), Test2, Member(2, "Another", "", false), "More")
      == Missing(Initial, AnotherValue, Test3, "More.Another")
  {
    MoreKeys();
    LowerAnotherName();
    JoinMoreAnother();
    MissingPresent(KeyMap(MoreValue), Test2, Member(2, "Another", "", false), "More");
  }

  /** Below "More", Not and More.Another.Something are missing. */
  lemma MissingBelowMore()
    ensures Missing(Initial, MoreValue, Test2, "More") == ["More.Not", "More.Another.Something"]
  {
    MissingOfObject(MoreValue.members, Test2, "More");
    Test2Members();
    MissingFieldsOf3(Test2, Members(Test2.fields, true), KeyMap(MoreValue), "More");
    MoreWhyPresent();
    NotMissing();
    AnotherPresent();
    MissingBelowAnother();
  }

  lemma OkPresent()
    ensures MissingField(Initial, KeyMap(ExampleData), Test, Member(0, "Ok", "", false), "") == []
  {
    ExampleKeys();
    LowerOk();
    MissingPresent(KeyMap(ExampleData), Test, Member(0, "Ok", "", false), "");
  }

  lemma WhyMissing()
    ensures MissingField(Initial, KeyMap(ExampleData), Test, Member(1, "Why", "", false), "") == ["Why"]
  {
    ExampleKeys();
    LowerWhy();
    JoinTop("Why");
    MissingAbsent(KeyMap(ExampleData), Test, Member(1, "Why", "", false), "");
  }

  lemma MorePresent()
    ensures MissingField(Initial, KeyMap(ExampleData), Test, Member(2, "More", "", false), "")
      == Missing(Initial, MoreValue, Test2, "More")
  {
    ExampleKeys();
    LowerMore();
    JoinTop("More");
    MissingPresent(KeyMap(ExampleData), Test, Member(2, "More", "", false), "");
  }

  /** MissingJSONKeys on the data of ExampleMissingJSONKeys: [Why More.Not More.Another.Something]. */
  lemma ExampleMissing()
    ensures Missing(Initial, ExampleData, Test, "") == ["Why", "More.Not", "More.Another.Something"]
  {
    MissingOfObject(ExampleData.members, Test, "");
    TestMembers();
    MissingFieldsOf3(Test, Members(Test.fields, true), KeyMap(ExampleData), "");
    OkPresent();
    WhyMissing();
    MorePresent();
    MissingBelowMore();
  }
}
