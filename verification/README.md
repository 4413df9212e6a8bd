# checkjson, modelled in Dafny

checkjson compares a JSON object with the Go struct it is meant to decode
into. This model covers the core of the package:

- **MissingJSONKeys** (`checkMembers`) lists the struct fields the object
  gives no value, as dotted paths.
- **ExistingJSONKeys** (`findMembers`) lists the struct fields it does set.
- **Validate** (`checkFields`) stops at the first key that would not decode
  into a field, with an error that says where.
- **UnknownJSONKeys** (`checkAllFields`) lists the JSON keys no field would
  take.
- **ResolveJSONError** adds the `"key":value` fragment in front of a decoder
  type error's offset.
- **SetMembersToIgnore**, **IgnoreOmitemptyTag** and **SetKeysToIgnore** are
  the three process-wide settings.
- **getJSONObject** and the collection loop of **ReadJSONFile** pull
  brace-delimited objects out of a byte buffer. They strip white space and
  `#` comments outside string literals.

Modules:

- `Text` holds ASCII `strings.ToLower` and `strings.Title`, `strings.Split`,
  dotted-path joining and `strconv.Itoa`.
- `Values` holds the decoded JSON tree (`JValue`) and the reflected shape of
  the Go value (`Schema`, `Field`). It also holds the per-call preprocessing
  the walkers share:
  - the lower-cased key map;
  - the ordered field list;
  - the title-cased field table.
- `Settings` holds the settings, as the fields of a class whose methods
  reassign them, and the member- and key-suppression tests.
- `ErrorContext` holds the backward scan and `ResolveJSONError`.
- `MissingKeys`, `ExistingKeys`, `Validation` and `UnknownKeys` each hold one
  walker. The accumulating walkers are methods over the `*s` slice. Each is
  proved equal to a recursive specification function; the walker's
  contract is `out == s + Spec(...)`. `checkFields` only returns a value, so
  it is a function.
- `Reconcile` spells out once the walk that `checkMembers` and
  `findMembers` share, as a trace of events. It proves both reports are
  views of that trace, and hence that they are complementary.
- `ReadJson` holds getJSONObject as a byte-at-a-time state machine, a buffer
  class, and the imperative extractor and collection loop proved against it.
- `Documented` derives, from the specification functions, the outputs the
  package documents for its own examples.

## Model

| member | source | states |
|---|---|---|
| Text.Lower | missingkeys.go:139 | Lower-casing keeps the length and leaves no ASCII upper-case letter. |
| Text.TitleLowerInjective | validate.go:181 | `Title(lower(x)) == Title(lower(y))` exactly when `lower(x) == lower(y)`, so the title-cased table behaves as one keyed by lower-case strings. |
| Text.TitleAfterInjective | validate.go:166-168 | Title-casing is injective on lower-case strings. |
| Text.IndexOf | missingkeys.go:162 | The index found holds the separator and no earlier index does; it is the length when there is none. |
| Text.SplitLength | missingkeys.go:33 | Splitting on a separator gives one more part than there are separators. |
| Text.Segments | missingkeys.go:184 | The depth of a dotted path is its number of `.` plus one. |
| Text.SegmentsLower | missingkeys.go:33 | Lower-casing a path does not change its depth. |
| Text.SegmentsJoin | missingkeys.go:184 | The depth of `a.b` is the depth of `a` plus the depth of `b`. |
| Text.Itoa | unknownkeys.go:84 | An ordinal is written as a non-empty string of decimal digits. |
| Text.ItoaRoundTrip | unknownkeys.go:84-86 | Reading an ordinal's digits back gives the number. |
| Values.MembersFrom | missingkeys.go:152-176 | Every entry of the field list is an exported field not tagged `-`, with its name, its first tag part and its omitempty flag, listed in strictly increasing declaration order. |
| Values.MembersComplete | missingkeys.go:158-167 | Every exported field not tagged `-` is on the field list. |
| Values.MembersAgreeOnLowerCaseTags | existingkeys.go:134 | When no first tag part has an upper-case letter, the raw-tag list of findMembers equals the lower-cased list of checkMembers. |
| Values.LowerIsDash | missingkeys.go:163-167 | Lower-casing the tag before testing for `-` gives the same answer as testing the raw tag. |
| Values.ScanOmitempty | missingkeys.go:169-174 | The inner loop reports whether some tag part after the first is exactly `omitempty`. |
| Values.ParseField | missingkeys.go:158-175 | One field yields its list entry exactly when it is exported and not tagged `-`. |
| Values.CollectMembers | missingkeys.go:152-176 | The field-list loop builds exactly the field list. |
| Values.LowerKeys | missingkeys.go:137-140 | Every key of the map is the lower-cased form of some JSON key. |
| Values.LowerKeysCover | missingkeys.go:138-140 | Every JSON key's lower-cased form is in the map. |
| Values.LowerKeysLastWins | missingkeys.go:138-140 | A lower-cased key maps to the value of the last JSON key with that lower-cased form. |
| Values.BuildLowerKeys | missingkeys.go:137-140 | The key loop builds exactly the lower-cased key map. |
| Values.FieldTable | validate.go:158-170 | Every table entry points at a field of the struct. |
| Values.BuildFieldTable | unknownkeys.go:111-128 | The table loop builds exactly the title-cased field table. |
| Values.LastMatch | validate.go:181 | Characterises the field a lookup finds: the last exported field whose table key is the lower-cased JSON key, or none. |
| Values.FieldTableLookup | validate.go:181-184 | `Title(lk)` is in the table exactly when some exported field is keyed by `lk`. The entry found is the last such field, with its tag. |
| Settings.Settings.constructor | validate.go:64 | The settings start with no skipped members, omitempty honoured, and the key list `["config"]`. |
| Settings.Settings.SetMembersToIgnore | missingkeys.go:26-35 | No arguments empty the list. Otherwise entry i becomes the lower-cased path `s[i]` with its segment count. The other settings are untouched. |
| Settings.Settings.IgnoreOmitemptyTag | missingkeys.go:49-55 | No argument negates the omitempty policy; an argument sets it. The other settings are untouched. |
| Settings.Settings.SetKeysToIgnore | validate.go:73-82 | No arguments empty the key list, dropping `config`. Otherwise it becomes the lower-cased arguments. The other settings are untouched. |
| Settings.SkipEntriesWellFormed | missingkeys.go:33 | Entries made by SetMembersToIgnore carry the depth of their own lower-cased path. |
| Settings.IsSuppressed | missingkeys.go:182-202 | The skip loop answers true exactly when some entry at the field's depth spells `lower(parent).lower(name)`, or `lower(name)` at the root. |
| Settings.DepthTestRedundant | missingkeys.go:190-201 | Take entries made by SetMembersToIgnore and a field name without `.`. The depth test then never changes whether a field is suppressed. |
| Settings.IsKeySkipped | unknownkeys.go:134-140 | The skip loop answers true exactly when `key.lower(k)`, or `lower(k)` at the root, is on the key list. |
| ErrorContext.ScanBack | validate.go:205-214 | The backward scan stops at an index between -1 and its start. |
| ErrorContext.ContextStart | validate.go:216 | The fragment starts at or before the error offset. |
| ErrorContext.ScanBackIsLastAnchor | validate.go:205-214 | From any index, the scan stops at the greatest delimiter position that is followed by a `:` before the offset, or at 0 if there is none. |
| ErrorContext.ContextStartCharacterized | validate.go:205-216 | The fragment start j is 0 or follows one of `\n { [ , space`, with a `:` in `data[j..o]`; no later position qualifies. Exactly one start has this description. |
| ErrorContext.TrimSpace | validate.go:216 | The result is a slice of the input with only white space outside it, and it neither starts nor ends with white space. |
| ErrorContext.ScanContext | validate.go:203-216 | The down-counting loop with its `getKey` flag stops at the fragment start. |
| ErrorContext.ResolveJSONError | validate.go:200-221 | A type error becomes the message with ` - at: ` and the trimmed fragment; every other error is returned unchanged. |
| MissingKeys.PresentKeyNotMissing | missingkeys.go:203-209 | A JSON key whose lower-cased form is a field's lookup key (so `whyNot` for tag `whynot`) keeps that field out of the report at that level. Unless suppressed, the field is checked against that key's value. |
| MissingKeys.CheckMembers | missingkeys.go:83-229 | checkMembers appends exactly the missing-field report to the accumulator. |
| MissingKeys.CheckElems | missingkeys.go:118-124 | Every array element is checked in order with the parent path unchanged. |
| MissingKeys.CheckStruct | missingkeys.go:136-228 | After the key map and the field list are built, the listed fields are reported in order. |
| MissingKeys.CheckFieldList | missingkeys.go:188-228 | The field loop appends the reports of the listed fields in declaration order. |
| MissingKeys.CheckFieldAt | missingkeys.go:188-228 | One pass of the field loop appends the report of one listed field. |
| MissingKeys.CheckField | missingkeys.go:189-226 | A field is reported as follows: nothing when suppressed; its path (tag, else Go name) when absent and not excused by omitempty; otherwise what lies below it, under that path. |
| MissingKeys.MissingJSONKeys | missingkeys.go:72-80 | A decode failure gives no keys and the resolved error; otherwise no error and the report from the root. |
| ExistingKeys.FindMembers | existingkeys.go:54-203 | findMembers appends exactly the existing-field report. It looks tags up as written; with `lowerTags` true it gives the corrected report. |
| ExistingKeys.FindInElems | existingkeys.go:89-95 | Every array element is walked in order with the parent path unchanged. |
| ExistingKeys.FindInStruct | existingkeys.go:107-202 | After the key map and the field list are built, the listed fields are reported in order. |
| ExistingKeys.FindInFieldList | existingkeys.go:163-202 | The field loop appends the reports of the listed fields in declaration order. |
| ExistingKeys.FindFieldAt | existingkeys.go:163-202 | One pass of the field loop appends the report of one listed field. |
| ExistingKeys.FindField | existingkeys.go:164-200 | A present or excused field is recorded under its Go name, then descended into under its tag (else Go name). Suppressed and absent fields add nothing. |
| ExistingKeys.ExistingJSONKeys | existingkeys.go:43-51 | A decode failure gives no keys and the resolved error; otherwise no error and the report from the root, with tags looked up as written. |
| Reconcile.ViewLengths | existingkeys.go:185-195 | For any walk `t`, `|MissingView(t)| + |ExistingView(t)| == |t| + Mismatches(t)`. Each visited field adds one entry to exactly one view, and each type mismatch adds one entry to both. |
| Reconcile.MissingIsView | missingkeys.go:83-229 | The missing report is the missing view of the shared walk with lower-cased tags. |
| Reconcile.ExistingIsView | existingkeys.go:54-203 | The existing report is the existing view of the shared walk, with raw or lower-cased tags. |
| Reconcile.WalkAgrees | existingkeys.go:134 | When every tag is lower-case, lower-casing tags first does not change the walk. |
| Reconcile.MissingExistingComplement | existingkeys.go:14-15 | With tags lower-cased as checkMembers does, the two reports are views of one walk. Their lengths add up to the visited fields plus twice the type mismatches. |
| Reconcile.ExistingComplementsMissing | existingkeys.go:14-15 | findMembers as written complements checkMembers whenever no tag has an upper-case letter. |
| Reconcile.UpperCaseTagInNeither | existingkeys.go:134 | The field ``Why `json:"WhyNot"` `` with the key `WhyNot` present is in neither report as written. Lower-casing the tag puts it in the existing report. |
| Validation.CheckFieldsSound | validate.go:98-195 | checkFields returns nil exactly for values that conform. A struct conforms when every key is skipped or names a field (matching tag byte for byte when tagged) whose value conforms; a slice conforms when every element does. |
| Validation.CheckElemsSound | validate.go:131-136 | The element loop passes exactly when every element conforms. |
| Validation.CheckKeysSound | validate.go:174-192 | The key loop passes exactly when every key conforms. |
| Validation.CheckKeySound | validate.go:181-190 | A key not on the skip list passes exactly when it conforms. |
| Validation.AbsentFieldsNeverFail | validate.go:172-194 | Dropping members from a passing object never makes it fail, because only keys present are checked. |
| Validation.CamelCaseTable | validate.go:158-170 | The table of ``struct { Ok bool; Whynot string `json:"whynot"` }`` maps `Ok` and `Whynot` to their fields and tags. |
| Validation.CamelCaseOk | validate.go:181-190 | The key `ok` passes against that struct. |
| Validation.CamelCaseWhyNot | validate.go:185-187 | The key `whyNot` finds the field tagged `whynot` but fails the byte-for-byte tag comparison. |
| Validation.CamelCaseKeyRejected | validate.go:185-187 | `{"ok":..., "whyNot":...}` is rejected with the tag-mismatch error for `whyNot`. |
| Validation.Validate | validate.go:87-96 | A decode failure gives the resolved error. Otherwise the result is nil exactly when the object conforms, else the message of checkFields' first failure. |
| UnknownKeys.BracketBranchUnreachable | unknownkeys.go:152-160 | A field found under `Title(lk)` is untagged or tagged exactly `lk`, so the bracketed-tag branch is never taken. |
| UnknownKeys.DashTaggedFieldKnown | unknownkeys.go:117-127 | A field tagged `-` is still in the table under its own name, so its key is never reported. |
| UnknownKeys.UnknownEmptyIffRecognized | unknownkeys.go:46-165 | The report is empty exactly when every key at every depth is skipped or names an exported field whose value is recognized in turn. |
| UnknownKeys.ElemsEmptyIffRecognized | unknownkeys.go:82-89 | The elements contribute nothing exactly when each is recognized at its ordinal path. |
| UnknownKeys.MembersEmptyIffRecognized | unknownkeys.go:132-163 | The keys of an object contribute nothing exactly when each is skipped or recognized. |
| UnknownKeys.KeyEmptyIffRecognized | unknownkeys.go:142-161 | One unskipped key contributes nothing exactly when it names a field whose value is recognized. |
| UnknownKeys.UnknownPathsLowerCase | unknownkeys.go:142-146 | Below a lower-case path, every reported path is lower-case. |
| UnknownKeys.CheckAllFields | unknownkeys.go:46-165 | checkAllFields appends exactly the unknown-key report to the accumulator. |
| UnknownKeys.CheckElems | unknownkeys.go:82-90 | Element n is checked at path `key.(n+1)`, or `n+1` at the root, in order. |
| UnknownKeys.CheckElem | unknownkeys.go:83-88 | One pass of the element loop appends the report of one element. |
| UnknownKeys.ElementKey | unknownkeys.go:83-87 | The element path is the parent joined with the decimal ordinal. |
| UnknownKeys.CheckMembers | unknownkeys.go:111-163 | The key loop appends the reports of the keys in order. It passes over skipped keys and stops after the first unknown key. |
| UnknownKeys.CheckKey | unknownkeys.go:142-161 | An unknown key appends its lower-cased path and ends the scan. Otherwise the key's value is checked below `key.lower(k)`. |
| UnknownKeys.UnknownJSONKeys | unknownkeys.go:34-44 | A decode failure gives no keys and the resolved error; otherwise the traversal never errs and returns the report from the root. |
| ReadJson.Switch | readjson.go:109-126 | The brace and quote cases change only the flags and the brace count, never the kept bytes. |
| ReadJson.Step | readjson.go:84-136 | One byte read keeps at most that byte. A completed object is the bytes kept so far plus that byte. |
| ReadJson.Run | readjson.go:83-142 | Extraction reads forward from its start and only extends the bytes kept. An unmatched result means the input was used up, and reading nothing keeps nothing. |
| ReadJson.SkipsToFirstBrace | readjson.go:90-92 | Bytes before the first `{` are consumed and dropped. |
| ReadJson.NoBraceNoObject | readjson.go:138-142 | Input without `{` gives an empty result and no error, with everything read. |
| ReadJson.ObjectDelimited | readjson.go:109-140 | A completed object starts with `{` and ends with `}`. The only error is input ending inside an object; its partial result starts with `{`. |
| ReadJson.LiteralBytesVerbatim | readjson.go:120-125 | Inside a string literal every byte is kept and the brace count is unchanged. Only a `"` not preceded by `\` ends the literal. |
| ReadJson.BlankOutsideLiteralDropped | readjson.go:127-131 | Inside the braces and outside a literal or comment, a white-space byte is dropped and changes nothing else. |
| ReadJson.HashOpensComment | readjson.go:98-103 | Outside a literal, `#` opens a comment and is not kept. |
| ReadJson.CommentByteDropped | readjson.go:94-108 | Inside a comment every byte is dropped; only a newline closes the comment. |
| ReadJson.CommentDropped | readjson.go:94-108 | A comment run without newline leaves extraction exactly as if it were absent. When a newline follows, extraction goes on after it with the comment closed. |
| ReadJson.BlanksKeptOnlyInLiterals | readjson.go:94-131 | Every white-space byte or `#` that extraction keeps lies inside a string literal of the kept bytes. |
| ReadJson.ExtractBlanksOnlyInLiterals | readjson.go:72-143 | In an extracted object, every white-space byte and every `#` lies inside a string literal. |
| ReadJson.ExtractCompact | readjson.go:94-131 | An extracted object without `"` contains no white space and no `#`. |
| ReadJson.ResultIsSubsequence | readjson.go:132 | The result is a subsequence of the bytes consumed. |
| ReadJson.ReplayKeptBytes | readjson.go:83-136 | Feeding the kept bytes back in reproduces them exactly. |
| ReadJson.ExtractIdempotent | readjson.go:72-143 | Extracting from an extracted object gives it back, reads all of it, and gives the same verdict. |
| ReadJson.EscapedBackslashKeepsLiteralOpen | readjson.go:120-125 | For `{"k":"\\"}` the closing quote is taken as escaped, so the input ends inside the object. |
| Documented.ExTestMissing | ex_test.go:11-39 | MissingJSONKeys on the data and struct of TestEx reports `[elem2.another elem3]`. |
| Documented.ExTestUnknown | ex_test.go:41-49 | UnknownJSONKeys on the same data reports `[elem2.notes elem4]`, with the members in the order written. |
| Documented.PersonExisting | existingkeys.go:24-37 | ExistingJSONKeys on the Person example reports `[Name Name.First Name.Middle Name.Last Sex]`. |
| Documented.ExampleMissing | example_test.go:7-34 | MissingJSONKeys on the data of ExampleMissingJSONKeys reports `[Why More.Not More.Another.Something]`. |
| ReadJson.Buffer.constructor | readjson.go:45 | A new buffer holds the file contents, unread. |
| ReadJson.Buffer.ReadByte | readjson.go:84-88 | The next unread byte is returned and consumed, or end of input is reported and nothing changes. |
| ReadJson.GetJSONObject | readjson.go:72-143 | The extractor loop returns the extracted object and leaves the buffer just past the last byte read. It reports the unmatched-braces error, carrying the partial result, exactly when input ends inside an object. |
| ReadJson.ReadAllObjects | readjson.go:45-58 | Every collected object is non-empty, brace-delimited and a fixed point of extraction. An error carries the number of the object after the last one collected. |
| ReadJson.ReadJSONFile | readjson.go:45-59 | The collection loop returns the objects in order, up to an empty result or the first error, which it numbers from 1. |

## Left out

- Decoding JSON (`json.Unmarshal`) is not modelled. Each entry point takes the
  decoded top-level object, or the decoder's error, as input.
- Reflection is replaced by the `Schema` datatype:
  - a nil pointer field, a named `json.RawMessage`, and every kind other than
    slice or struct, are kinds the walkers never inspect;
  - one pointer level on a slice element is stripped.
- Go map iteration order is random. The model iterates an object's members in
  the order given, and several results hold only for that order:
  - which failure Validate reports first;
  - the contents of the unknown-key report, not only its order: the key loop
    returns after the first unknown key of an object (unknownkeys.go:148-151),
    so which unknown key is reported depends on the order;
  - the value a lower-cased key resolves to when several JSON keys differ
    only in case (missingkeys.go:138-140). The model takes the last such key
    (Values.LowerKeysLastWins); Go takes whichever its iteration visits last.
- A JSON object is a sequence of members, which may repeat a key. A decoded Go
  map never does. The walkers visit a repeated key once per occurrence, and
  the key map keeps the last one. No lemma assumes distinct keys.
- File access in ReadJSONFile (`os.Open`, `Stat`, `Read`, readjson.go:28-43) is
  not modelled. The collection loop takes the file contents as bytes, and the
  three file errors are not represented.
- Error texts are kept only where they are data:
  - Validate's messages are built from the error datatype;
  - ResolveJSONError keeps the decoder message as a string;
  - the `object #: n` and `EOF with unmatched braces` texts become the
    `FileError` and `ExtractError` datatypes.
- `strings.ToLower`, `strings.Title` and `strings.TrimSpace` are modelled for
  ASCII only. Multi-byte Unicode letters and spaces are treated as ordinary
  characters.
- The settings are fields of one `Settings` object rather than package
  globals, and concurrent calls are not modelled. The walkers take a
  snapshot of the settings at the time of the call.
- UnknownKeys.UnknownJSONKeys: on a decode failure the source returns a nil
  slice, and the model returns an empty sequence. Go's nil-versus-empty
  distinction is not modelled.
- UnknownKeys.CheckMembers: "each object contributes at most one path
  directly" is not stated as a separate lemma. It is visible in
  `UnknownMembers`, whose abandoning case ends the list.
- The tests camelcase_test.go:15-19 and unknownkeys_test.go:12-85 expect
  behaviour the code does not have. The model follows the code:
  - Validate rejects `whyNot` for the tag `whynot`, as
    Validation.CamelCaseKeyRejected shows;
  - unknown paths carry no `test.` prefix.
- getJSONObject treats a `"` after a kept `\` as escaped even when that
  backslash was itself escaped. The model keeps this behaviour
  (ReadJson.EscapedBackslashKeepsLiteralOpen).

## Findings

| source | as written | input that shows it | evidently intended | confidence | as-written member | corrected member |
|---|---|---|---|---|---|---|
| existingkeys.go:134 | findMembers keeps the first tag part as written and looks it up among lower-cased JSON keys. | Struct field ``Why string `json:"WhyNot"` ``, JSON `{"WhyNot":"x"}`: `Why` is in neither the missing nor the existing report. | Lower-case the tag as checkMembers does (missingkeys.go:163). The existing report is then the complement of the missing report, as the doc comment at existingkeys.go:14-15 says. ExistingKeys.FindMembers computes this report when `lowerTags` is true. | medium, not executed | Reconcile.UpperCaseTagInNeither | Reconcile.MissingExistingComplement |
