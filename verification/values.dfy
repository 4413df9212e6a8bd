/**
 * The two trees the package reconciles: a decoded JSON value and the shape of
 * the Go value it is checked against (what reflection exposes of it), plus the
 * per-call preprocessing every walker does on them: the lower-cased key map of
 * a JSON object, the ordered list of a struct's checkable fields, and the
 * title-cased field table used by Validate and UnknownJSONKeys.
 */
module Values {
  import opened Text

  datatype Option<T> = None | Some(value: T)

  /**
   * A decoded JSON value. The member sequence of an object is the order in
   * which the walkers iterate it. JNull is also the nil value a walker is
   * handed for a key the object does not have.
   */
  datatype JValue =
    | JObject(members: seq<(string, JValue)>)
    | JArray(elems: seq<JValue>)
    | JNull
    | JScalar

  /**
   * The reflected value a walker is handed. A nil pointer field yields the zero
   * reflect.Value; a named json.RawMessage and every kind other than slice and
   * struct (bool, string, number, map, interface, ...) are never inspected.
   * A slice's element is the zero value of its element type (one pointer level
   * stripped), as reflect.New creates it.
   */
  datatype Schema =
    | Leaf
    | RawMessage
    | NilPointer
    | Slice(typeName: string, elem: Schema)
    | Struct(typeName: string, fields: seq<Field>)

  /** A struct field: Go name, whether it is exported, its raw `json:"..."` tag. */
  datatype Field = Field(name: string, exported: bool, jsonTag: string, schema: Schema)

  // ---------------------------------------------------------------------
  // Tag parsing
  // ---------------------------------------------------------------------

  /** The part of the tag before its first comma. */
  function PrimaryTag(tag: string): string {
    Split(tag, ',')[0]
  }

  /** Some part after the first comma is exactly `omitempty`. */
  predicate HasOmitempty(tag: string) {
    "omitempty" in Split(tag, ',')[1..]
  }

  // ---------------------------------------------------------------------
  // The field list of missingkeys.go / existingkeys.go (step 4)
  // ---------------------------------------------------------------------

  /**
   * One entry of the field list: position in the struct, Go name, the first tag
   * part (lower-cased for missing keys, raw for existing keys) and the
   * omitempty flag.
   */
  datatype Member = Member(index: nat, name: string, tag: string, omitempty: bool)

  /** A field is checked at all: exported and not tagged `-`. */
  predicate Checked(f: Field) {
    f.exported && PrimaryTag(f.jsonTag) != "-"
  }

  function MemberOf(fields: seq<Field>, k: nat, lowerTags: bool): Member
    requires k < |fields|
  {
    var t := PrimaryTag(fields[k].jsonTag);
    Member(k, fields[k].name, if lowerTags then Lower(t) else t, HasOmitempty(fields[k].jsonTag))
  }

  /** `m` describes a checked field of `fields`. */
  predicate Listed(fields: seq<Field>, m: Member, lowerTags: bool) {
    m.index < |fields| && Checked(fields[m.index]) && m == MemberOf(fields, m.index, lowerTags)
  }

  /** The field list built from fields[k..]. */
  function MembersFrom(fields: seq<Field>, lowerTags: bool, k: nat): (ms: seq<Member>)
    requires k <= |fields|
    ensures forall j | 0 <= j < |ms| :: k <= ms[j].index && Listed(fields, ms[j], lowerTags)
    ensures forall j, j' | 0 <= j < j' < |ms| :: ms[j].index < ms[j'].index
    decreases |fields| - k
  {
    if k == |fields| then []
    else if Checked(fields[k]) then [MemberOf(fields, k, lowerTags)] + MembersFrom(fields, lowerTags, k + 1)
    else MembersFrom(fields, lowerTags, k + 1)
  }

  /** The field list of a struct: exported, not `-`, in declaration order. */
  function Members(fields: seq<Field>, lowerTags: bool): seq<Member> {
    MembersFrom(fields, lowerTags, 0)
  }

  /** Every listed field indexes into `fields`. */
  predicate IndexesInto(ms: seq<Member>, fields: seq<Field>) {
    forall j | 0 <= j < |ms| :: ms[j].index < |fields|
  }

  lemma MembersIndexInto(fields: seq<Field>, lowerTags: bool)
    ensures IndexesInto(Members(fields, lowerTags), fields)
  {
  }

  /** Every exported field not tagged `-` is on the list. */
  lemma {:induction false} MembersComplete(fields: seq<Field>, lowerTags: bool, k: nat, i: nat)
    requires k <= i < |fields| && Checked(fields[i])
    ensures exists j | 0 <= j < |MembersFrom(fields, lowerTags, k)| :: MembersFrom(fields, lowerTags, k)[j].index == i
    decreases |fields| - k
  {
    var ms := MembersFrom(fields, lowerTags, k);
    if i == k {
      assert ms[0].index == i;
    } else {
      MembersComplete(fields, lowerTags, k + 1, i);
      var rest := MembersFrom(fields, lowerTags, k + 1);
      var j :| 0 <= j < |rest| && rest[j].index == i;
      if Checked(fields[k]) {
        assert ms[j + 1].index == i;
      } else {
        assert ms[j].index == i;
      }
    }
  }

  /** A tag with Lower applied equals the raw tag when it has no upper-case letter. */
  lemma {:induction false} MembersAgreeOnLowerCaseTags(fields: seq<Field>, k: nat)
    requires k <= |fields|
    requires forall i | 0 <= i < |fields| :: IsLowerCase(PrimaryTag(fields[i].jsonTag))
    ensures MembersFrom(fields, true, k) == MembersFrom(fields, false, k)
    decreases |fields| - k
  {
    if k < |fields| {
      LowerOfLowerCase(PrimaryTag(fields[k].jsonTag));
      MembersAgreeOnLowerCaseTags(fields, k + 1);
    }
  }

  lemma LowerIsDash(t: string)
    ensures Lower(t) == "-" <==> t == "-"
  {
    if Lower(t) == "-" {
      assert |t| == 1 && Lower(t)[0] == LowerChar(t[0]) == '-';
      assert t == [t[0]];
    }
  }

  /** The inner scan of step 4: does a later tag part read `omitempty`? */
  method ScanOmitempty(tags: seq<string>) returns (oempty: bool)
    requires |tags| >= 1
    ensures oempty <==> "omitempty" in tags[1..]
  {
    oempty := false;
    for j := 1 to |tags|
      invariant oempty <==> "omitempty" in tags[1..j]
    {
      assert tags[1..j + 1] == tags[1..j] + [tags[j]];
      if tags[j] == "omitempty" {
        oempty := true;
        assert tags[1..] == tags[1..j + 1] + tags[j + 1..];
        return;
      }
    }
    assert tags[1..] == tags[1..|tags|];
  }

  /** Step 4 for one field: None when it is unexported or tagged `-`. */
  method ParseField(fields: seq<Field>, i: nat, lowerTags: bool) returns (m: Option<Member>)
    requires i < |fields|
    ensures m == if Checked(fields[i]) then Some(MemberOf(fields, i, lowerTags)) else None
  {
    if !fields[i].exported {
      return None;
    }
    var tags := Split(fields[i].jsonTag, ',');
    var tag := if lowerTags then Lower(tags[0]) else tags[0];
    LowerIsDash(tags[0]);
    if tag == "-" {
      return None;
    }
    var oempty := ScanOmitempty(tags);
    m := Some(Member(i, fields[i].name, tag, oempty));
  }

  /**
   * Builds the field list the way step 4 of checkMembers/findMembers does: skip
   * unexported and `-` fields, scan the later tag parts for `omitempty`.
   */
  method CollectMembers(fields: seq<Field>, lowerTags: bool) returns (ms: seq<Member>)
    ensures ms == Members(fields, lowerTags)
  {
    ms := [];
    for i := 0 to |fields|
      invariant ms + MembersFrom(fields, lowerTags, i) == Members(fields, lowerTags)
    {
      var m := ParseField(fields, i, lowerTags);
      if m.Some? {
        ms := ms + [m.value];
      }
    }
  }

  // ---------------------------------------------------------------------
  // Lower-cased key map (step 3c): last write wins on case-colliding keys
  // ---------------------------------------------------------------------

  function LowerKeys(mm: seq<(string, JValue)>): (m: map<string, JValue>)
    ensures forall k | k in m :: exists i | 0 <= i < |mm| :: Lower(mm[i].0) == k
  {
    if mm == [] then map[]
    else
      var n := |mm| - 1;
      LowerKeys(mm[..n])[Lower(mm[n].0) := mm[n].1]
  }

  /**
   * Every member's lower-cased key is in the map, bound to the value of the
   * last member with that lower-cased key.
   */
  lemma {:induction false} LowerKeysLastWins(mm: seq<(string, JValue)>, i: nat)
    requires i < |mm|
    requires forall i' | i < i' < |mm| :: Lower(mm[i'].0) != Lower(mm[i].0)
    ensures Lower(mm[i].0) in LowerKeys(mm) && LowerKeys(mm)[Lower(mm[i].0)] == mm[i].1
  {
    var n := |mm| - 1;
    if i < n {
      var front := mm[..n];
      assert front[i] == mm[i];
      assert forall i' | i < i' < n :: front[i'] == mm[i'];
      LowerKeysLastWins(front, i);
      assert Lower(mm[n].0) != Lower(mm[i].0);
    }
  }

  /** Every member's lower-cased key is in the map. */
  lemma {:induction false} LowerKeysCover(mm: seq<(string, JValue)>, i: nat)
    requires i < |mm|
    ensures Lower(mm[i].0) in LowerKeys(mm)
  {
    var n := |mm| - 1;
    if i < n {
      var front := mm[..n];
      assert front[i] == mm[i];
      LowerKeysCover(front, i);
    }
  }

  method BuildLowerKeys(mm: seq<(string, JValue)>) returns (mkeys: map<string, JValue>)
    ensures mkeys == LowerKeys(mm)
  {
    mkeys := map[];
    for i := 0 to |mm|
      invariant mkeys == LowerKeys(mm[..i])
    {
      assert mm[..i + 1][..i] == mm[..i];
      mkeys := mkeys[Lower(mm[i].0) := mm[i].1];
    }
    assert mm[..|mm|] == mm;
  }

  // ---------------------------------------------------------------------
  // Title-cased field table of validate.go / unknownkeys.go (step 4)
  // ---------------------------------------------------------------------

  /**
   * validate.go keys a field by its whole raw tag (options included);
   * unknownkeys.go by the lower-cased first tag part, `-` counting as no tag.
   */
  datatype TableMode = WholeTag | FirstTagPart

  /** The tag a table entry carries. */
  function TableTag(f: Field, mode: TableMode): string {
    match mode
    case WholeTag => f.jsonTag
    case FirstTagPart =>
      var t := Lower(PrimaryTag(f.jsonTag));
      if t == "-" then "" else t
  }

  /** The lower-cased key before title-casing: the tag, or the Go name if untagged. */
  function TableKey(f: Field, mode: TableMode): string {
    var t := TableTag(f, mode);
    Lower(if t == "" then f.name else t)
  }

  datatype Entry = Entry(index: nat, tag: string)

  /** The table keyed by Title(TableKey), exported fields only, last write wins. */
  function FieldTable(fields: seq<Field>, mode: TableMode): (t: map<string, Entry>)
    ensures forall key | key in t :: t[key].index < |fields|
  {
    if fields == [] then map[]
    else
      var n := |fields| - 1;
      var t := FieldTable(fields[..n], mode);
      if fields[n].exported then t[Title(TableKey(fields[n], mode)) := Entry(n, TableTag(fields[n], mode))]
      else t
  }

  /** Step 4 of checkFields / checkAllFields: the table built field by field. */
  method BuildFieldTable(fields: seq<Field>, mode: TableMode) returns (t: map<string, Entry>)
    ensures t == FieldTable(fields, mode)
  {
    t := map[];
    for i := 0 to |fields|
      invariant t == FieldTable(fields[..i], mode)
    {
      assert fields[..i + 1][..i] == fields[..i];
      if fields[i].exported {
        t := t[Title(TableKey(fields[i], mode)) := Entry(i, TableTag(fields[i], mode))];
      }
    }
    assert fields[..|fields|] == fields;
  }

  /** Field `f` is exported and its table key is `lk`. */
  predicate KeyedBy(f: Field, lk: string, mode: TableMode) {
    f.exported && TableKey(f, mode) == lk
  }

  /** The last exported field whose key is `lk`: the entry Title(lk) finds. */
  function LastMatch(fields: seq<Field>, lk: string, mode: TableMode): (r: Option<nat>)
    ensures r.Some? ==> r.value < |fields| && KeyedBy(fields[r.value], lk, mode)
    ensures r.Some? ==> forall j | r.value < j < |fields| :: !KeyedBy(fields[j], lk, mode)
    ensures r.None? ==> forall j | 0 <= j < |fields| :: !KeyedBy(fields[j], lk, mode)
  {
    if fields == [] then None
    else
      var n := |fields| - 1;
      if KeyedBy(fields[n], lk, mode) then Some(n)
      else LastMatch(fields[..n], lk, mode)
  }

  /**
   * Looking up Title(lk) for a lower-cased key finds exactly the last exported
   * field whose key lower-cases to lk, and nothing when there is none.
   */
  lemma {:induction false} FieldTableLookup(fields: seq<Field>, mode: TableMode, lk: string)
    requires IsLowerCase(lk)
    ensures Title(lk) in FieldTable(fields, mode) <==> LastMatch(fields, lk, mode).Some?
    ensures LastMatch(fields, lk, mode).Some? ==>
      var j := LastMatch(fields, lk, mode).value;
      FieldTable(fields, mode)[Title(lk)] == Entry(j, TableTag(fields[j], mode))
  {
    if fields != [] {
      var n := |fields| - 1;
      FieldTableLookup(fields[..n], mode, lk);
      if fields[n].exported {
        LowerOfLowerCase(lk);
        TitleLowerInjective(TableKey(fields[n], mode), lk);
        LowerOfLowerCase(TableKey(fields[n], mode));
      }
    }
  }

  // ---------------------------------------------------------------------
  // Step 5 of checkMembers / findMembers: looking a listed field up
  // ---------------------------------------------------------------------

  /** The key map of a value: its lower-cased members, or empty when it is not an object. */
  function KeyMap(mv: JValue): map<string, JValue> {
    if mv.JObject? then LowerKeys(mv.members) else map[]
  }

  /** The key a listed field is looked up by: its tag, or its lower-cased Go name when untagged. */
  function LookupKey(m: Member): string {
    if |m.tag| > 0 then m.tag else Lower(m.name)
  }

  /** The path segment a listed field contributes: its tag, or its Go name when untagged. */
  function PathSegment(m: Member): string {
    if |m.tag| > 0 then m.tag else m.name
  }

  /** The value handed down for a key: the member's value, or nil (JNull) when absent. */
  function Lookup(mkeys: map<string, JValue>, key: string): JValue {
    if key in mkeys then mkeys[key] else JNull
  }

  /** The field counts as absent: no key, and not excused by an honoured omitempty option. */
  predicate Absent(mkeys: map<string, JValue>, m: Member, omitemptyOK: bool) {
    LookupKey(m) !in mkeys && !(m.omitempty && omitemptyOK)
  }
}
