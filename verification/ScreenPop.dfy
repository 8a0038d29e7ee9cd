/** The bounded screen-pop field contract (lambda/common/screen_pop.py). Case folding is a parameter. */
module ScreenPop {
  import opened Wrappers
  import opened Json
  import Decimal

  const MAX_FIELDS := 8
  const MAX_CONFIG_BYTES := 4096
  const MAX_CONTEXT_BYTES := 8192
  const MAX_TOTAL_VALUE_CHARACTERS := 8192

  const RESERVED_KEYS: set<string> := {
    "correlation_id", "schema_version", "vapi_call_reference", "vapi_call_fingerprint", "content_hash",
    "created_at", "updated_at", "expires_at", "handoff_status", "bridgefu_call_id", "attachment_expires_at",
    "screen_pop_schema_hash", "context_available"}

  datatype Field = Field(
    key: string,
    title: string,
    description: string,
    choice: bool,
    maxLength: int,
    required: bool,
    choices: seq<string>)

  datatype ConfigError =
    | FieldsInvalid | KeyInvalid | LabelInvalid | DescriptionInvalid | TypeInvalid | LengthInvalid
    | ChoicesInvalid | ChoiceInvalid | RequiredInvalid | TooLarge | ValuesInvalid | ValueInvalid | ValuesTooLarge

  // Field configuration

  function Strings(items: seq<string>): seq<Json> {
    seq(|items|, i requires 0 <= i < |items| => Str(items[i]))
  }

  /** One object of `fields_json`. The length is written for every field, choice fields included. */
  function FieldTree(f: Field): Json {
    Obj([Member("key", Str(f.key)), Member("label", Str(f.title)), Member("description", Str(f.description)),
         Member("type", Str(if f.choice then "choice" else "text")), Member("max_length", Num(f.maxLength)),
         Member("required", Bool(f.required))]
        + if f.choice then [Member("choices", Arr(Strings(f.choices)))] else [])
  }

  function FieldsTree(fields: seq<Field>): Json {
    Arr(seq(|fields|, i requires 0 <= i < |fields| => FieldTree(fields[i])))
  }

  function FieldsJson(fields: seq<Field>): string {
    Dumps(FieldsTree(fields))
  }

  predicate IsPlainText(j: Json, maximum: nat) {
    && j.Str? && 1 <= |j.s| <= maximum
    && forall i :: 0 <= i < |j.s| ==> j.s[i] >= ' ' && j.s[i] != '<' && j.s[i] != '>'
  }

  predicate IsKey(s: string) {
    && 1 <= |s| <= 40 && 'a' <= s[0] <= 'z'
    && forall i :: 0 <= i < |s| ==> 'a' <= s[i] <= 'z' || '0' <= s[i] <= '9' || s[i] == '_'
  }

  function Has(members: seq<Member>, key: string): bool {
    exists i :: 0 <= i < |members| && members[i].key == key
  }

  /** Python keeps the last of several members with one name. */
  function Get(members: seq<Member>, key: string): (j: Json)
    requires Has(members, key)
  {
    if members[|members| - 1].key == key then members[|members| - 1].value else Get(members[..|members| - 1], key)
  }

  predicate KnownMember(key: string) {
    key in {"key", "label", "description", "max_length", "required", "type", "choices"}
  }

  predicate Distinct(items: seq<Json>) {
    forall i, j :: 0 <= i < j < |items| ==> items[i] != items[j]
  }

  function TextLength(j: Json): nat {
    if j.Str? then |j.s| else 0
  }

  function MaxLength(items: seq<Json>): int
    requires |items| > 0
  {
    if |items| == 1 then TextLength(items[0])
    else
      var rest := MaxLength(items[1..]);
      if TextLength(items[0]) > rest then TextLength(items[0]) else rest
  }

  /** The checks on one object of the list, in the order the code makes them; uniqueness across objects is the
      loop's business. */
  function ParseItem(item: Json): Result<Field, ConfigError> {
    if !item.Obj? || exists i :: 0 <= i < |item.members| && !KnownMember(item.members[i].key) then Err(FieldsInvalid)
    else
      var m := item.members;
      if !Has(m, "key") || !Get(m, "key").Str? || !IsKey(Get(m, "key").s) || Get(m, "key").s in RESERVED_KEYS then
        Err(KeyInvalid)
      else if !Has(m, "label") || !IsPlainText(Get(m, "label"), 64) then Err(LabelInvalid)
      else if !Has(m, "description") || !IsPlainText(Get(m, "description"), 256) then Err(DescriptionInvalid)
      else
        var kind := if Has(m, "type") then Get(m, "type") else Str("text");
        var required := if Has(m, "required") then Get(m, "required") else Bool(true);
        if kind != Str("text") && kind != Str("choice") then Err(TypeInvalid)
        else if kind == Str("text") then
          if !Has(m, "max_length") || !Get(m, "max_length").Num? || !(1 <= Get(m, "max_length").n <= 1024)
             || Has(m, "choices") then Err(LengthInvalid)
          else if !required.Bool? then Err(RequiredInvalid)
          else Ok(Field(Get(m, "key").s, Get(m, "label").s, Get(m, "description").s, false,
                        Get(m, "max_length").n, required.b, []))
        else
          if !Has(m, "choices") || !Get(m, "choices").Arr? || !(2 <= |Get(m, "choices").items| <= 20)
             || Has(m, "max_length") then Err(ChoicesInvalid)
          else
            var raw := Get(m, "choices").items;
            if exists i :: 0 <= i < |raw| && !IsPlainText(raw[i], 128) && Distinct(raw[..i]) then Err(ChoiceInvalid)
            else if !Distinct(raw) then Err(ChoicesInvalid)
            else if !required.Bool? then Err(RequiredInvalid)
            else Ok(Field(Get(m, "key").s, Get(m, "label").s, Get(m, "description").s, true, MaxLength(raw), required.b,
                          seq(|raw|, i requires 0 <= i < |raw| && raw[i].Str? => raw[i].s)))
  }

  predicate AllParse(items: seq<Json>) {
    forall i :: 0 <= i < |items| ==> ParseItem(items[i]).Ok?
  }

  function Parsed(items: seq<Json>): seq<Field>
    requires AllParse(items)
  {
    seq(|items|, i requires 0 <= i < |items| => ParseItem(items[i]).value)
  }

  predicate UniqueFields(fields: seq<Field>, fold: string -> string) {
    forall i, j :: 0 <= i < j < |fields| ==>
      fields[i].key != fields[j].key
      && fold(fields[i].title) != fold(fields[j].title)
  }

  /** When a decoded configuration is accepted. The total-size check is not part of it: it cannot fail. */
  predicate Acceptable(decoded: Json, fold: string -> string) {
    && decoded.Arr? && 1 <= |decoded.items| <= MAX_FIELDS
    && AllParse(decoded.items) && UniqueFields(Parsed(decoded.items), fold)
  }

  lemma LengthBounds(item: Json)
    requires ParseItem(item).Ok?
    ensures 1 <= ParseItem(item).value.maxLength <= 1024
  {
    var m := item.members;
    var kind := if Has(m, "type") then Get(m, "type") else Str("text");
    if kind != Str("text") {
      MaxLengthBounds(Get(m, "choices").items);
    }
  }

  lemma {:induction false} MaxLengthBounds(items: seq<Json>)
    requires |items| > 0 && forall i :: 0 <= i < |items| ==> IsPlainText(items[i], 128)
    ensures 1 <= MaxLength(items) <= 128
  {
    if |items| > 1 {
      MaxLengthBounds(items[1..]);
    }
  }

  /** `parse_fields` on decoded JSON: it accepts exactly the `Acceptable` configurations and returns their
      fields in order; the error for a too large total is never returned. */
  method ParseFields(decoded: Json, fold: string -> string) returns (r: Result<seq<Field>, ConfigError>)
    ensures r.Ok? <==> Acceptable(decoded, fold)
    ensures r.Ok? ==> r.value == Parsed(decoded.items)
    ensures r != Err(TooLarge)
  {
    hide ParseItem;
    if !decoded.Arr? || !(1 <= |decoded.items| <= MAX_FIELDS) {
      return Err(FieldsInvalid);
    }
    var fields: seq<Field>, keys: set<string>, labels: set<string>, total := [], {}, {}, 0;
    for i := 0 to |decoded.items|
      invariant |fields| == i && AllParse(decoded.items[..i]) && fields == Parsed(decoded.items[..i])
      invariant UniqueFields(fields, fold)
      invariant keys == KeySet(fields) && labels == LabelSet(fields, fold)
      invariant total <= 1024 * i
    {
      var item := ParseItem(decoded.items[i]);
      ItemErrors(decoded.items[i]);
      if item.Err? {
        return Err(item.error);
      }
      var field := item.value;
      if field.key in keys {
        var k :| 0 <= k < i && fields[k].key == field.key;
        NotUnique(decoded, fold, k, i);
        return Err(KeyInvalid);
      }
      if fold(field.title) in labels {
        var k :| 0 <= k < i && fold(fields[k].title) == fold(field.title);
        NotUnique(decoded, fold, k, i);
        return Err(LabelInvalid);
      }
      LengthBounds(decoded.items[i]);
      total := total + field.maxLength;
      keys := keys + {field.key};
      labels := labels + {fold(field.title)};
      PrefixParsed(decoded.items, i);
      SetsAppend(fields, field, fold);
      fields := fields + [field];
    }
    assert decoded.items[..|decoded.items|] == decoded.items;
    return if total > MAX_TOTAL_VALUE_CHARACTERS then Err(TooLarge) else Ok(fields);
  }

  function KeySet(fields: seq<Field>): set<string> {
    set f | f in fields :: f.key
  }

  function LabelSet(fields: seq<Field>, fold: string -> string): set<string> {
    set f | f in fields :: fold(f.title)
  }

  lemma SetsAppend(fields: seq<Field>, f: Field, fold: string -> string)
    ensures KeySet(fields + [f]) == KeySet(fields) + {f.key}
    ensures LabelSet(fields + [f], fold) == LabelSet(fields, fold) + {fold(f.title)}
  {
  }

  lemma PrefixParsed(items: seq<Json>, i: nat)
    requires i < |items| && AllParse(items[..i]) && ParseItem(items[i]).Ok?
    ensures AllParse(items[..i + 1])
    ensures Parsed(items[..i + 1]) == Parsed(items[..i]) + [ParseItem(items[i]).value]
  {
    assert items[..i + 1] == items[..i] + [items[i]];
  }

  lemma NotUnique(decoded: Json, fold: string -> string, i: nat, j: nat)
    requires decoded.Arr? && i < j < |decoded.items|
    requires ParseItem(decoded.items[i]).Ok? && ParseItem(decoded.items[j]).Ok?
    requires var a, b := ParseItem(decoded.items[i]).value, ParseItem(decoded.items[j]).value;
             a.key == b.key || fold(a.title) == fold(b.title)
    ensures !Acceptable(decoded, fold)
  {
    if AllParse(decoded.items) {
      var all := Parsed(decoded.items);
      assert all[i] == ParseItem(decoded.items[i]).value && all[j] == ParseItem(decoded.items[j]).value;
    }
  }

  lemma ItemErrors(item: Json)
    ensures ParseItem(item) != Err(TooLarge)
  {
  }

  // The canonical text of a configuration

  lemma {:induction false} GetAt(members: seq<Member>, i: nat)
    requires i < |members| && forall j :: i < j < |members| ==> members[j].key != members[i].key
    ensures Has(members, members[i].key) && Get(members, members[i].key) == members[i].value
  {
    if i < |members| - 1 {
      var init := members[..|members| - 1];
      assert init[i] == members[i];
      GetAt(init, i);
    }
  }

  /** The members of a written field have different names, of different lengths. */
  lemma TreeShape(f: Field)
    ensures
      var m := FieldTree(f).members;
      && |m| == (if f.choice then 7 else 6)
      && m[0] == Member("key", Str(f.key)) && m[1] == Member("label", Str(f.title))
      && m[2] == Member("description", Str(f.description))
      && m[3] == Member("type", Str(if f.choice then "choice" else "text"))
      && m[4] == Member("max_length", Num(f.maxLength)) && m[5] == Member("required", Bool(f.required))
      && (f.choice ==> m[6] == Member("choices", Arr(Strings(f.choices))))
      && |m[0].key| == 3 && |m[1].key| == 5 && |m[2].key| == 11 && |m[3].key| == 4 && |m[4].key| == 10
          && |m[5].key| == 8
      && (f.choice ==> |m[6].key| == 7)
  {
  }

  lemma TreeMember(f: Field, i: nat)
    requires i < |FieldTree(f).members|
    ensures var m := FieldTree(f).members; Has(m, m[i].key) && Get(m, m[i].key) == m[i].value
  {
    TreeShape(f);
    var m := FieldTree(f).members;
    hide FieldTree;
    assert forall j :: i < j < |m| ==> |m[j].key| != |m[i].key|;
    GetAt(m, i);
  }

  lemma TreeMembers(f: Field)
    ensures
      var m := FieldTree(f).members;
      && Has(m, "key") && Get(m, "key") == Str(f.key)
      && Has(m, "label") && Get(m, "label") == Str(f.title)
      && Has(m, "description") && Get(m, "description") == Str(f.description)
      && Has(m, "type") && Get(m, "type") == Str(if f.choice then "choice" else "text")
      && Has(m, "max_length") && Get(m, "max_length") == Num(f.maxLength)
      && Has(m, "required") && Get(m, "required") == Bool(f.required)
      && (Has(m, "choices") <==> f.choice)
      && forall i :: 0 <= i < |m| ==> KnownMember(m[i].key)
  {
    hide FieldTree, Get;
    TreeShape(f);
    TreeMember(f, 0);
    TreeMember(f, 1);
    TreeMember(f, 2);
    TreeMember(f, 3);
    TreeMember(f, 4);
    TreeMember(f, 5);
    if f.choice {
      TreeMember(f, 6);
    } else {
      assert |"choices"| == 7;
    }
  }

  /** Writing a parsed field and parsing it again works for a text field and never for a choice field, whose
      object then carries a max_length. */
  lemma ReparseItem(item: Json)
    requires ParseItem(item).Ok?
    ensures
      var f := ParseItem(item).value;
      if f.choice then ParseItem(FieldTree(f)) == Err(ChoicesInvalid) else ParseItem(FieldTree(f)) == Ok(f)
  {
    var f := ParseItem(item).value;
    TreeMembers(f);
    LengthBounds(item);
  }

  /** `parse_fields` on text: the size limit, the decoder, then the checks. */
  function ParseText(text: string, loads: string -> Option<Json>, fold: string -> string): Option<seq<Field>> {
    if text == "" || Utf8Length(text) > MAX_CONFIG_BYTES || loads(text).None? || !Acceptable(loads(text).value, fold)
    then None else Some(Parsed(loads(text).value.items))
  }

  lemma ReparseItems(decoded: Json, fold: string -> string, i: nat)
    requires Acceptable(decoded, fold) && i < |decoded.items|
    ensures
      var fields := Parsed(decoded.items);
      ParseItem(FieldsTree(fields).items[i]) == if fields[i].choice then Err(ChoicesInvalid) else Ok(fields[i])
  {
    ReparseItem(decoded.items[i]);
    hide ParseItem, FieldTree;
  }

  lemma AcceptableAgain(tree: Json, fields: seq<Field>, fold: string -> string)
    requires tree.Arr? && |tree.items| == |fields| && 1 <= |fields| <= MAX_FIELDS && UniqueFields(fields, fold)
    requires forall i :: 0 <= i < |fields| ==>
               ParseItem(tree.items[i]) == if fields[i].choice then Err(ChoicesInvalid) else Ok(fields[i])
    ensures (Acceptable(tree, fold) && Parsed(tree.items) == fields) <==> forall i ::
              0 <= i < |fields|
              ==> !fields[i].choice
    ensures Acceptable(tree, fold) ==> forall i :: 0 <= i < |fields| ==> !fields[i].choice
  {
    hide ParseItem;
    if forall i :: 0 <= i < |fields| ==> !fields[i].choice {
      assert Parsed(tree.items) == fields;
    }
  }

  /** A configuration written canonically parses again, to itself, exactly when it has no choice field and its
      canonical text is within the limit; otherwise it is refused. */
  lemma ReparseIff(decoded: Json, loads: string -> Option<Json>, fold: string -> string)
    requires Acceptable(decoded, fold)
             && loads(FieldsJson(Parsed(decoded.items))) == Some(FieldsTree(Parsed(decoded.items)))
    ensures
      var fields := Parsed(decoded.items);
      var text := FieldsJson(fields);
      ParseText(text, loads, fold)
      == if Utf8Length(text) <= MAX_CONFIG_BYTES && forall i :: 0 <= i < |fields| ==> !fields[i].choice
         then Some(fields) else None
  {
    var fields := Parsed(decoded.items);
    forall i | 0 <= i < |fields|
      ensures ParseItem(FieldsTree(fields).items[i]) == if fields[i].choice then Err(ChoicesInvalid) else Ok(fields[i])
    {
      ReparseItems(decoded, fold, i);
    }
    assert FieldsJson(fields) != "";
    AcceptableAgain(FieldsTree(fields), fields, fold);
    hide ParseItem, FieldTree, Utf8Length, UniqueFields, AllParse, Acceptable, FieldsTree, FieldsJson, Parsed;
  }

  /** What parsing guarantees about the choices of a field. */
  predicate ChoicesOnlyForChoice(fields: seq<Field>) {
    forall i :: 0 <= i < |fields| && !fields[i].choice ==> fields[i].choices == []
  }

  lemma ParsedChoices(decoded: Json, fold: string -> string)
    requires Acceptable(decoded, fold)
    ensures ChoicesOnlyForChoice(Parsed(decoded.items))
  {
  }

  /** The canonical text determines the configuration. */
  lemma FieldsJsonIsInjective(a: seq<Field>, b: seq<Field>)
    requires ChoicesOnlyForChoice(a) && ChoicesOnlyForChoice(b) && FieldsJson(a) == FieldsJson(b)
    ensures a == b
  {
    DumpsIsInjective(FieldsTree(a), FieldsTree(b));
    var ta, tb := FieldsTree(a).items, FieldsTree(b).items;
    assert |a| == |ta| == |tb| == |b|;
    forall i | 0 <= i < |a| ensures a[i] == b[i] {
      assert ta[i] == FieldTree(a[i]) && tb[i] == FieldTree(b[i]);
      TreeIsInjective(a[i], b[i]);
    }
  }

  lemma TreeIsInjective(a: Field, b: Field)
    requires FieldTree(a) == FieldTree(b)
    requires (!a.choice ==> a.choices == []) && (!b.choice ==> b.choices == [])
    ensures a == b
  {
    hide FieldTree;
    TreeShape(a);
    TreeShape(b);
    if a.choice {
      assert Strings(a.choices) == Strings(b.choices);
      assert |a.choices| == |Strings(a.choices)| == |b.choices|;
      forall k | 0 <= k < |a.choices| ensures a.choices[k] == b.choices[k] {
        assert Strings(a.choices)[k] == Str(a.choices[k]) && Strings(b.choices)[k] == Str(b.choices[k]);
      }
    }
  }

  /** `schema_hash`, for an arbitrary digest. */
  function SchemaHash(sha: string -> string, fields: seq<Field>): string {
    sha(FieldsJson(fields))
  }

  // Values

  predicate ControlFree(s: string) {
    forall i :: 0 <= i < |s| ==> s[i] >= ' ' || s[i] == '\t'
  }

  /** What a caller gave for a key; a missing optional value is empty. */
  function Given(raw: map<string, Json>, key: string): Json {
    if key in raw then raw[key] else Str("")
  }

  predicate ValueOk(f: Field, v: Json) {
    && v.Str? && |v.s| <= f.maxLength
    && (f.choice ==> v.s in f.choices || (v.s == "" && !f.required))
    && ControlFree(v.s)
  }

  predicate KeysOk(raw: map<string, Json>, fields: seq<Field>) {
    && (forall k :: k in raw ==> k in KeySet(fields))
    && (forall f :: f in fields && f.required ==> f.key in raw)
  }

  /** The text whose UTF-8 size bounds a set of values: the default separators, the fields' order. */
  function ValuesText(fields: seq<Field>, values: map<string, string>): string
    requires forall f :: f in fields ==> f.key in values
  {
    if fields == [] then "}"
    else
      WriteString(fields[0].key, ": " + WriteString(values[fields[0].key],
        (if |fields| > 1 then ", " else "") + ValuesText(fields[1..], values)))
  }

  function Chosen(raw: map<string, Json>, fields: seq<Field>): map<string, string>
    requires forall f :: f in fields ==> Given(raw, f.key).Str?
  {
    map k | k in KeySet(fields) :: Given(raw, k).s
  }

  predicate SizeOk(fields: seq<Field>, values: map<string, string>) {
    (forall f :: f in fields ==> f.key in values) && Utf8Length("{" + ValuesText(fields, values)) <= MAX_CONTEXT_BYTES
  }

  /** `validate_values` as a function: the specification of the loop below. */
  function Validate(raw: map<string, Json>, fields: seq<Field>): Result<map<string, string>, ConfigError> {
    if !KeysOk(raw, fields) then Err(ValuesInvalid)
    else if exists f :: f in fields && !ValueOk(f, Given(raw, f.key)) then Err(ValueInvalid)
    else if !SizeOk(fields, Chosen(raw, fields)) then Err(ValuesTooLarge)
    else Ok(Chosen(raw, fields))
  }

  method ValidateValues(raw: map<string, Json>, fields: seq<Field>)
    returns (r: Result<map<string, string>, ConfigError>)
    ensures r == Validate(raw, fields)
  {
    if !KeysOk(raw, fields) {
      return Err(ValuesInvalid);
    }
    var values: map<string, string> := map[];
    for i := 0 to |fields|
      invariant forall k :: 0 <= k < i ==> ValueOk(fields[k], Given(raw, fields[k].key))
      invariant values.Keys == KeySet(fields[..i])
      invariant forall k :: k in values ==> Given(raw, k).Str? && values[k] == Given(raw, k).s
    {
      var value := Given(raw, fields[i].key);
      if !ValueOk(fields[i], value) {
        assert fields[i] in fields;
        return Err(ValueInvalid);
      }
      assert fields[..i + 1] == fields[..i] + [fields[i]];
      values := values[fields[i].key := value.s];
    }
    assert fields[..|fields|] == fields;
    assert values == Chosen(raw, fields);
    if !SizeOk(fields, values) {
      return Err(ValuesTooLarge);
    }
    return Ok(values);
  }

  function AsJson(values: map<string, string>): map<string, Json> {
    map k | k in values :: Str(values[k])
  }

  /** Validated values validate again, to themselves. */
  lemma ValidateIsIdempotent(raw: map<string, Json>, fields: seq<Field>)
    requires Validate(raw, fields).Ok?
    ensures Validate(AsJson(Validate(raw, fields).value), fields) == Validate(raw, fields)
  {
    var values := Validate(raw, fields).value;
    var again := AsJson(values);
    forall f | f in fields ensures Given(again, f.key) == Given(raw, f.key) {
      assert f.key in KeySet(fields);
    }
    assert Chosen(again, fields) == values;
  }

  /** The same fields under other labels. */
  predicate SameButLabels(a: seq<Field>, b: seq<Field>) {
    |a| == |b| && forall i :: 0 <= i < |a| ==> b[i] == a[i].(title := b[i].title)
  }

  lemma {:induction false} SameText(a: seq<Field>, b: seq<Field>, values: map<string, string>)
    requires SameButLabels(a, b)
    requires (forall f :: f in a ==> f.key in values) && forall f :: f in b ==> f.key in values
    ensures ValuesText(a, values) == ValuesText(b, values)
  {
    if a != [] {
      SameText(a[1..], b[1..], values);
    }
  }

  lemma Counterpart(a: seq<Field>, b: seq<Field>, f: Field) returns (g: Field)
    requires SameButLabels(a, b) && f in a
    ensures g in b && g == f.(title := g.title)
  {
    var i :| 0 <= i < |a| && a[i] == f;
    g := b[i];
  }

  predicate AllValuesOk(fields: seq<Field>, raw: map<string, Json>) {
    forall f :: f in fields ==> ValueOk(f, Given(raw, f.key))
  }

  lemma ChecksCarryOver(a: seq<Field>, b: seq<Field>, raw: map<string, Json>)
    requires SameButLabels(a, b)
    ensures SameButLabels(b, a) && KeySet(a) <= KeySet(b)
    ensures AllValuesOk(a, raw) ==> AllValuesOk(b, raw)
    ensures (forall f :: f in a && f.required ==> f.key in raw) ==> forall f :: f in b && f.required ==> f.key in raw
  {
    assert SameButLabels(b, a);
    hide SameButLabels, ControlFree;
    forall f | f in a ensures f.key in KeySet(b) {
      var g := Counterpart(a, b, f);
    }
    forall f | f in b && AllValuesOk(a, raw) ensures ValueOk(f, Given(raw, f.key)) {
      var g := Counterpart(b, a, f);
    }
    forall f | f in b && f.required && forall g :: g in a && g.required ==> g.key in raw ensures f.key in raw {
      var g := Counterpart(b, a, f);
    }
  }

  /** Labels play no part in the validation of values. */
  lemma LabelsDoNotMatter(a: seq<Field>, b: seq<Field>, raw: map<string, Json>)
    requires SameButLabels(a, b)
    ensures Validate(raw, b) == Validate(raw, a)
  {
    hide *;
    ChecksCarryOver(a, b, raw);
    ChecksCarryOver(b, a, raw);
    SameKeysOk(a, b, raw);
    ValidateBy(raw, a);
    ValidateBy(raw, b);
    if AllValuesOk(a, raw) {
      SameChosen(a, b, raw);
    }
  }

  lemma SameKeysOk(a: seq<Field>, b: seq<Field>, raw: map<string, Json>)
    requires KeySet(a) == KeySet(b)
    requires (forall f :: f in a && f.required ==> f.key in raw) <==> forall f :: f in b && f.required ==> f.key in raw
    ensures KeysOk(raw, a) <==> KeysOk(raw, b)
  {
    hide KeySet;
  }

  lemma SameChosen(a: seq<Field>, b: seq<Field>, raw: map<string, Json>)
    requires SameButLabels(a, b) && KeySet(a) == KeySet(b) && AllValuesOk(a, raw) && AllValuesOk(b, raw)
    ensures (forall f :: f in a ==> Given(raw, f.key).Str?) && forall f :: f in b ==> Given(raw, f.key).Str?
    ensures Chosen(raw, a) == Chosen(raw, b) && SizeOk(a, Chosen(raw, a)) == SizeOk(b, Chosen(raw, b))
  {
    GivenStrings(a, raw);
    GivenStrings(b, raw);
    hide ValueOk, SizeOk, SameButLabels, KeySet;
    SameSize(a, b, Chosen(raw, a));
  }

  lemma ValidateBy(raw: map<string, Json>, fields: seq<Field>)
    ensures !KeysOk(raw, fields) ==> Validate(raw, fields) == Err(ValuesInvalid)
    ensures KeysOk(raw, fields) && !AllValuesOk(fields, raw) ==> Validate(raw, fields) == Err(ValueInvalid)
    ensures AllValuesOk(fields, raw) ==> forall f :: f in fields ==> Given(raw, f.key).Str?
    ensures KeysOk(raw, fields) && AllValuesOk(fields, raw) ==>
              Validate(raw, fields)
              == if SizeOk(fields, Chosen(raw, fields)) then Ok(Chosen(raw, fields)) else Err(ValuesTooLarge)
  {
    hide KeysOk, SizeOk, ControlFree;
  }

  lemma SameSize(a: seq<Field>, b: seq<Field>, values: map<string, string>)
    requires SameButLabels(a, b) && values.Keys == KeySet(a) == KeySet(b)
    ensures SizeOk(a, values) == SizeOk(b, values)
  {
    hide SameButLabels, Utf8Length;
    assert (forall f :: f in a ==> f.key in values) && forall f :: f in b ==> f.key in values;
    SameText(a, b, values);
    hide ValuesText;
  }

  lemma GivenStrings(fields: seq<Field>, raw: map<string, Json>)
    requires AllValuesOk(fields, raw)
    ensures forall f :: f in fields ==> Given(raw, f.key).Str?
  {
  }

  // Agent screen rows

  function LabelKey(i: nat): string {
    "screen_pop_label_" + Decimal.Of(i)
  }

  function ValueKey(i: nat): string {
    "screen_pop_value_" + Decimal.Of(i)
  }

  function KeyKey(i: nat): string {
    "screen_pop_key_" + Decimal.Of(i)
  }

  datatype Cell = Cell(title: string, value: string, key: string)

  /** What row `i` shows. */
  function CellAt(fields: seq<Field>, values: Option<map<string, string>>, i: nat): Cell
    requires 1 <= i
  {
    if i <= |fields| then
      var f := fields[i - 1];
      Cell(f.title, if values.Some? && f.key in values.value then values.value[f.key] else "", f.key)
    else Cell("", "", "")
  }

  function RowsUpTo(fields: seq<Field>, values: Option<map<string, string>>, n: nat): map<string, string> {
    if n == 0 then map[]
    else
      var cell := CellAt(fields, values, n);
      RowsUpTo(fields, values, n - 1)[LabelKey(n) := cell.title][ValueKey(n) := cell.value][KeyKey(n) := cell.key]
  }

  method ConnectRows(fields: seq<Field>, values: Option<map<string, string>>) returns (rows: map<string, string>)
    ensures rows == RowsUpTo(fields, values, MAX_FIELDS)
  {
    rows := map[];
    for index := 1 to MAX_FIELDS + 1
      invariant rows == RowsUpTo(fields, values, index - 1)
    {
      var cell := CellAt(fields, values, index);
      rows := rows[LabelKey(index) := cell.title][ValueKey(index) := cell.value][KeyKey(index) := cell.key];
    }
  }

  lemma RowKeysDiffer(i: nat, j: nat)
    ensures LabelKey(i) != ValueKey(j) && ValueKey(i) != KeyKey(j) && LabelKey(i) != KeyKey(j)
    ensures i != j ==> LabelKey(i) != LabelKey(j) && ValueKey(i) != ValueKey(j) && KeyKey(i) != KeyKey(j)
  {
    assert LabelKey(i)[11] == 'l' && ValueKey(i)[11] == 'v' && ValueKey(j)[11] == 'v' && KeyKey(j)[11] == 'k';
    if i != j {
      var a, b := Decimal.Of(i), Decimal.Of(j);
      if a == b {
        Decimal.OfIsInjective(i, j);
      }
      assert LabelKey(i)[17..] == a && LabelKey(j)[17..] == b;
      assert ValueKey(i)[17..] == a && ValueKey(j)[17..] == b;
      assert KeyKey(i)[15..] == a && KeyKey(j)[15..] == b;
    }
  }

  /** The screen shows the fields' labels, values and keys in field order. */
  lemma {:induction false} RowAt(fields: seq<Field>, values: Option<map<string, string>>, n: nat, i: nat)
    requires 1 <= i <= n
    ensures
      var rows, cell := RowsUpTo(fields, values, n), CellAt(fields, values, i);
      && LabelKey(i) in rows && ValueKey(i) in rows && KeyKey(i) in rows
      && Cell(rows[LabelKey(i)], rows[ValueKey(i)], rows[KeyKey(i)]) == cell
  {
    RowKeysDiffer(i, n);
    RowKeysDiffer(n, i);
    if i < n {
      RowAt(fields, values, n - 1, i);
    }
  }
}
