/**
 * The prompt sent to the model: a fixed task line, each entity's label,
 * type and property block, the similarity score, fixed decision guidelines
 * and a closing that asks for a one-word SAME or DIFFERENT answer.
 */
module Prompt {
  import opened Wrappers
  import opened Text
  import opened Json
  import opened Types

  /** The role-setting system message sent before every prompt. */
  const SystemPrompt: string :=
    "You are an expert entity resolution system. Your job is to determine if two entity records refer to the same real-world entity. Answer with only SAME or DIFFERENT."

  const TaskLine: string :=
    "TASK: Determine if these two entity records refer to the SAME real-world entity or DIFFERENT entities."

  /** The closing request for a one-word answer. */
  const Closing: string := "Your answer (one word only):\nSAME or DIFFERENT"

  /** Everything after the similarity score: the same for every pair of entities. */
  const Guidelines: string := GuidelineBody + Closing

  /** The decision guidelines and considerations that precede the closing. */
  const GuidelineBody: string :=
    "DECISION GUIDELINES:\n\n"
    + "Vote SAME if:\n"
    + "- Labels are identical or clear variations (abbreviations, spelling variants, translations)\n"
    + "- Properties consistently describe the same entity with matching key attributes\n"
    + "- Any differences are due to perspective, date of record, or level of detail\n\n"
    + "Vote DIFFERENT if:\n"
    + "- Labels refer to distinct entities (different people, places, organizations, or concepts)\n"
    + "- Properties describe conflicting attributes that cannot belong to the same entity\n"
    + "- Temporal information shows non-overlapping existence (e.g., one ended before other began)\n"
    + "- Contextual clues indicate relationship between entities rather than identity (related but not same)\n\n"
    + "Consider:\n"
    + "- Type must match for entities to be the same\n"
    + "- More detailed properties override less detailed ones\n"
    + "- Relationships mentioned in properties may indicate distinct entities\n"
    + "- Geographic, temporal, and contextual consistency\n\n"

  /** The block written for absent or empty properties. */
  const NoProperties: string := "Properties:\n  (none)"

  /** How one property value is written, once its shape is known. */
  datatype PropertyValue =
    | EntityRef(code: string)     // {type: "entity_ref", code}
    | List(items: seq<string>)    // an array, as the texts of its elements
    | Scalar(text: string)        // anything else, as its default string form

  /**
   * The shape of a property value: an entity reference is recognised before
   * an array, and everything else is a scalar.
   */
  function Classify(v: Json): (r: PropertyValue)
    ensures r.EntityRef? <==> IsEntityRef(v)
    ensures r.EntityRef? <==> v.JObject? && Get(v, "type") == Some(JString("entity_ref"))
    ensures r.EntityRef? ==> r.code == Display(Get(v, "code"))
    ensures r.List? <==> v.JArray?
    ensures r.List? ==> Join(r.items, ", ") == JoinShown(v.items, ", ")
    ensures r.Scalar? ==> r.text == Show(v)
  {
    if IsEntityRef(v) then
      EntityRef(Display(Get(v, "code")))
    else if v.JArray? then
      JoinShownIsJoin(v.items, ", ");
      List(ElementTexts(v.items))
    else
      Scalar(Show(v))
  }

  /** `typeof v === "object" && v !== null && v.type === "entity_ref"`. */
  predicate IsEntityRef(v: Json) {
    IsObjectType(Some(v)) && !v.JNull? && Get(v, "type") == Some(JString("entity_ref"))
  }

  /**
   * Whether pushing the line for `value` throws: for an entity reference
   * only its `code` is converted to a string, for anything else the value
   * itself is (an array through `join`, which converts the same elements).
   */
  predicate LineThrows(value: Json) {
    if IsEntityRef(value) then Get(value, "code").Some? && Throws(Get(value, "code").value)
    else Throws(value)
  }

  /** Whether `formatProperties` throws: the line of some property does. */
  predicate PropertiesThrow(properties: Option<Json>) {
    AnyLineThrows(Entries(properties))
  }

  /** Whether the line of some entry throws. */
  predicate AnyLineThrows(entries: seq<(string, Json)>) {
    exists i :: 0 <= i < |entries| && LineThrows(entries[i].1)
  }

  /** Whether `buildPrompt` throws: the property block of either entity does. */
  predicate PromptThrows(entity1: Entity, entity2: Entity) {
    PropertiesThrow(entity1.properties) || PropertiesThrow(entity2.properties)
  }

  /**
   * `Object.entries(properties)` for a truthy value: an object's members in
   * order, each key once, an array's or a string's elements under their
   * decimal indices, and nothing for a number or `true`.
   */
  function Entries(properties: Option<Json>): (r: seq<(string, Json)>)
    ensures !Truthy(properties) ==> r == []
  {
    if !Truthy(properties) then []
    else match properties.value
      case JObject(fields) => Members(fields)
      case JArray(items) => Indexed(items)
      case JString(s) => Indexed(Chars(s))
      case _ => []
  }

  /**
   * What `Object.entries` gives for each kind of value: nothing for a falsy
   * value, a number or a boolean; for an object, each key that occurs once,
   * in the order keys first appear, with the value `v.key` reads; an array's
   * elements, or a string's one-character strings, under their decimal indices.
   */
  lemma EntriesOf(properties: Option<Json>)
    ensures !Truthy(properties) ==> Entries(properties) == []
    ensures properties.Some? && (properties.value.JNumber? || properties.value.JBool?) ==> Entries(properties) == []
    ensures Truthy(properties) && properties.value.JObject? ==>
      var v, r := properties.value, Entries(properties);
      && DistinctKeys(r)
      && KeySet(r) == KeySet(v.fields)
      && (forall i :: 0 <= i < |r| ==> Get(v, r[i].0) == Some(r[i].1))
      && (forall i, j :: 0 <= i < j < |r| ==> Position(v.fields, r[i].0) < Position(v.fields, r[j].0))
    ensures Truthy(properties) && properties.value.JArray? ==>
      var items, r := properties.value.items, Entries(properties);
      |r| == |items| && forall i :: 0 <= i < |items| ==> r[i] == (NatToString(i), items[i])
    ensures Truthy(properties) && properties.value.JString? ==>
      var s, r := properties.value.s, Entries(properties);
      |r| == |s| && forall i :: 0 <= i < |s| ==> r[i] == (NatToString(i), JString([s[i]]))
  {
    if Truthy(properties) && properties.value.JString? {
      var s := properties.value.s;
      assert Entries(properties) == Indexed(Chars(s));
    } else if Truthy(properties) && properties.value.JObject? {
      MembersSpec(properties.value.fields);
    }
  }

  /** The one-character strings of `s`, in order. */
  function Chars(s: string): (r: seq<Json>)
    ensures |r| == |s| && forall i :: 0 <= i < |s| ==> r[i] == JString([s[i]])
  {
    seq(|s|, i requires 0 <= i < |s| => JString([s[i]]))
  }

  /** Elements under their decimal indices, in order. */
  function Indexed(items: seq<Json>): (r: seq<(string, Json)>)
    ensures |r| == |items| && forall i :: 0 <= i < |items| ==> r[i] == (NatToString(i), items[i])
  {
    seq(|items|, i requires 0 <= i < |items| => (NatToString(i), items[i]))
  }

  /** The line written for one property. */
  function PropertyLine(key: string, value: PropertyValue): string {
    "  " + key + ": " +
    match value
    case EntityRef(code) => "@" + code
    case List(items) => Join(items, ", ")
    case Scalar(text) => text
  }

  /** The property lines, one per entry, in order. */
  function PropertyLines(entries: seq<(string, Json)>): (r: seq<string>)
    ensures |r| == |entries|
    ensures forall i :: 0 <= i < |entries| ==> r[i] == PropertyLine(entries[i].0, Classify(entries[i].1))
  {
    seq(|entries|, i requires 0 <= i < |entries| => PropertyLine(entries[i].0, Classify(entries[i].1)))
  }

  /** The property block of an entity: a header, then one line per property, or `(none)`. */
  function PropertiesBlock(properties: Option<Json>): string {
    var entries := Entries(properties);
    if |entries| == 0 then NoProperties
    else "Properties:" + Rendered(entries)
  }

  /** Each entry's line, each preceded by a line feed. */
  function Rendered(entries: seq<(string, Json)>): string {
    if entries == [] then ""
    else "\n" + PropertyLine(entries[0].0, Classify(entries[0].1)) + Rendered(entries[1..])
  }

  /**
   * The source's rendering loop: a header line, then one pushed line per
   * property (an entity reference as `@code`, an array joined by ", ",
   * anything else in its string form), joined with line feeds. `None` is
   * the TypeError the first value without a string form throws.
   */
  method FormatProperties(properties: Option<Json>) returns (text: Option<string>)
    ensures text.None? <==> PropertiesThrow(properties)
    ensures text.Some? ==> text.value == PropertiesBlock(properties)
  {
    var entries := Entries(properties);
    if !Truthy(properties) || |entries| == 0 {
      return Some(NoProperties);
    }

    var lines: seq<string> := ["Properties:"];
    var i := 0;
    while i < |entries|
      invariant 0 <= i <= |entries|
      invariant lines == ["Properties:"] + PropertyLines(entries[..i])
      invariant !AnyLineThrows(entries[..i])
    {
      var (key, value) := entries[i];
      var line := PushedLine(key, value);
      if line.None? {
        ThrowingLine(entries, i);
        return None;
      }
      PushedStep(entries, i, line.value);
      lines := lines + [line.value];
      i := i + 1;
    }
    assert entries[..i] == entries;
    text := Some(Join(lines, "\n"));
    assert text.value == "Properties:" + Rendered(entries) by {
      JoinHeaded(PropertyLines(entries), entries);
    }
  }

  /** A line that throws makes the whole block throw. */
  lemma ThrowingLine(entries: seq<(string, Json)>, i: nat)
    requires i < |entries| && LineThrows(entries[i].1)
    ensures AnyLineThrows(entries)
  {
  }

  /** One more line pushed: the prefix still has no throwing line, and the lines grow by it. */
  lemma PushedStep(entries: seq<(string, Json)>, i: nat, line: string)
    requires i < |entries|
    requires !AnyLineThrows(entries[..i]) && !LineThrows(entries[i].1)
    requires line == PropertyLine(entries[i].0, Classify(entries[i].1))
    ensures !AnyLineThrows(entries[..i + 1])
    ensures PropertyLines(entries[..i + 1]) == PropertyLines(entries[..i]) + [line]
  {
    assert entries[..i + 1] == entries[..i] + [entries[i]];
  }

  /**
   * The line the loop pushes for one property, by the source's tests in
   * order; `None` when the string conversion throws.
   */
  method PushedLine(key: string, value: Json) returns (line: Option<string>)
    ensures line.None? <==> LineThrows(value)
    ensures line.Some? ==> line.value == PropertyLine(key, Classify(value))
  {
    if IsObjectType(Some(value)) && !value.JNull? && Get(value, "type") == Some(JString("entity_ref")) {
      var code := Get(value, "code");
      if code.Some? && Throws(code.value) {
        return None;
      }
      line := Some("  " + key + ": @" + Display(code));
    } else if value.JArray? {
      if Throws(value) {
        return None;
      }
      line := Some("  " + key + ": " + JoinShown(value.items, ", "));
    } else {
      if Throws(value) {
        return None;
      }
      line := Some("  " + key + ": " + Show(value));
    }
  }

  /** Joining the header and the property lines with line feeds gives the header followed by `Rendered`. */
  lemma {:induction false} JoinHeaded(lines: seq<string>, entries: seq<(string, Json)>)
    requires lines == PropertyLines(entries)
    ensures Join(["Properties:"] + lines, "\n") == "Properties:" + Rendered(entries)
  {
    if entries == [] {
    } else {
      JoinHeadedTail(lines, entries);
    }
  }

  lemma {:induction false} JoinHeadedTail(lines: seq<string>, entries: seq<(string, Json)>)
    requires lines == PropertyLines(entries)
    ensures Join([""] + lines, "\n") == Rendered(entries)
  {
    if entries != [] {
      JoinHeadedTail(lines[1..], entries[1..]);
      assert ([lines[0]] + lines[1..]) == lines;
      JoinCons("", lines, "\n");
      JoinCons(lines[0], lines[1..], "\n");
      assert Join([""] + lines, "\n") == "\n" + Join([lines[0]] + lines[1..], "\n");
    }
  }

  /** `Join` of a list with a first element put in front. */
  lemma JoinCons(head: string, tail: seq<string>, sep: string)
    ensures Join([head] + tail, sep) == if tail == [] then head else head + sep + Join(tail, sep)
  {
    if tail != [] {
      assert ([head] + tail)[1..] == tail;
    }
  }

  /** Absent, falsy or empty properties all render as the `(none)` block. */
  lemma NoPropertiesBlock(properties: Option<Json>)
    requires !Truthy(properties) || (properties.value.JObject? && properties.value.fields == [])
    ensures PropertiesBlock(properties) == "Properties:\n  (none)"
  {
  }

  /**
   * One line per property: when no key or rendered value holds a line feed,
   * the block's lines are the header and then exactly one line per entry,
   * in order, and nothing else.
   */
  lemma OneLinePerProperty(properties: Option<Json>)
    requires Entries(properties) != []
    requires forall i :: 0 <= i < |Entries(properties)| ==> '\n' !in PropertyLines(Entries(properties))[i]
    ensures Split(PropertiesBlock(properties), '\n') == ["Properties:"] + PropertyLines(Entries(properties))
  {
    var entries := Entries(properties);
    var lines := ["Properties:"] + PropertyLines(entries);
    JoinHeaded(PropertyLines(entries), entries);
    forall k | 0 <= k < |lines| ensures '\n' !in lines[k] {
      if k > 0 {
        assert lines[k] == PropertyLines(entries)[k - 1];
      }
    }
    SplitJoin(lines, '\n');
  }

  /**
   * An entity reference renders as `@code`: the state of Philadelphia,
   * `{type: "entity_ref", code: "pennsylvania"}` under `state`, becomes
   * `  state: @pennsylvania`.
   */
  lemma EntityRefLine(key: string, code: string)
    ensures PropertyLine(key, Classify(JObject([("type", JString("entity_ref")), ("code", JString(code))])))
            == "  " + key + ": " + ("@" + code)
  {
    var v := JObject([("type", JString("entity_ref")), ("code", JString(code))]);
    assert Get(v, "code") == Some(JString(code));
    assert "code"[0] != "type"[0];
    assert v.fields[..1] == [("type", JString("entity_ref"))];
    assert Field(v.fields, "type") == Field(v.fields[..1], "type");
    assert Get(v, "type") == Some(JString("entity_ref"));
  }

  /**
   * A property whose value is an object with its own `toString` member,
   * `{"note": {"toString": "x"}}`, makes `formatProperties` throw.
   */
  lemma ToStringPropertyThrows()
    ensures PropertiesThrow(Some(JObject([("note", JObject([("toString", JString("x"))]))])))
  {
    var properties := Some(JObject([("note", JObject([("toString", JString("x"))]))]));
    var value := JObject([("toString", JString("x"))]);
    assert Get(value, "type") == None by {
      assert "toString"[1] != "type"[1];
    }
    assert Throws(value);
    assert Entries(properties)[0].1 == value;
  }

  /**
   * A key given twice is one property holding its later value: in
   * `{"note": {"toString": "x"}, "note": "ok"}` the object is overwritten
   * before anything is written, so the block is `note: ok` and nothing throws.
   */
  lemma RepeatedKeyRendersLast()
    ensures var properties := Some(JObject([("note", JObject([("toString", JString("x"))])), ("note", JString("ok"))]));
      && Entries(properties) == [("note", JString("ok"))]
      && !PropertiesThrow(properties)
      && PropertiesBlock(properties) == "Properties:\n  note: ok"
  {
    var fields := [("note", JObject([("toString", JString("x"))])), ("note", JString("ok"))];
    assert fields[..1] == [fields[0]];
    assert Members(fields[..1]) == [fields[0]];
    assert Members(fields) == [("note", JString("ok"))];
    var properties := Some(JObject(fields));
    assert Entries(properties) == [("note", JString("ok"))];
    assert !LineThrows(JString("ok"));
    assert Classify(JString("ok")) == Scalar("ok");
  }

  /** An empty array renders as nothing after the colon. */
  lemma EmptyListLine(key: string)
    ensures PropertyLine(key, Classify(JArray([]))) == "  " + key + ": "
  {
  }

  /** The section written for one entity: its label in quotes, its type and its property block. */
  function EntitySection(ordinal: string, e: Entity): string {
    Section(ordinal, e, PropertiesBlock(e.properties))
  }

  /** The template of one entity's section, around the block already written for it. */
  function Section(ordinal: string, e: Entity, block: string): string {
    "ENTITY " + ordinal + ":\nLabel: \"" + e.entityLabel + "\"\nType: " + e.entityType + "\n" + block
  }

  /** The opening task line and the blank line after it. */
  const Opening: string := TaskLine + "\n\n"

  /**
   * The prompt for one pair. `similarity` is the score as `toFixed(3)`
   * writes it; the label is put between quotes as it is, without escaping.
   */
  function BuildPrompt(entity1: Entity, entity2: Entity, similarity: string): string {
    Opening + Entities(entity1, entity2, similarity) + Guidelines
  }

  /**
   * `buildPrompt`: both property blocks are written first, and the prompt
   * exists only when neither throws; `None` is the TypeError.
   */
  method PromptFor(entity1: Entity, entity2: Entity, similarity: string) returns (prompt: Option<string>)
    ensures prompt.None? <==> PromptThrows(entity1, entity2)
    ensures prompt.Some? ==> prompt.value == BuildPrompt(entity1, entity2, similarity)
  {
    var block1 := FormatProperties(entity1.properties);
    if block1.None? {
      return None;
    }
    var block2 := FormatProperties(entity2.properties);
    if block2.None? {
      return None;
    }
    prompt := Some(Opening
      + (Section("1", entity1, block1.value) + "\n\n"
         + Section("2", entity2, block2.value) + "\n\n"
         + "Semantic Similarity Score: " + similarity + "\n\n")
      + Guidelines);
  }

  /** The part of the prompt that depends on the request: both entity sections and the score. */
  function Entities(entity1: Entity, entity2: Entity, similarity: string): string {
    EntitySection("1", entity1) + "\n\n"
    + EntitySection("2", entity2) + "\n\n"
    + "Semantic Similarity Score: " + similarity + "\n\n"
  }

  /**
   * Every prompt opens with the task line and ends with the same guideline
   * text, whose last lines ask for a one-word SAME or DIFFERENT answer.
   */
  lemma PromptFrame(entity1: Entity, entity2: Entity, similarity: string)
    ensures StartsWith(BuildPrompt(entity1, entity2, similarity), Opening)
    ensures EndsWith(BuildPrompt(entity1, entity2, similarity), Guidelines)
    ensures EndsWith(BuildPrompt(entity1, entity2, similarity), Closing)
  {
    Framed(Opening, Entities(entity1, entity2, similarity), GuidelineBody, Closing);
  }

  /** A concatenation starts with its first part and ends with its last parts. */
  lemma Framed(head: string, middle: string, body: string, closing: string)
    ensures StartsWith(head + middle + (body + closing), head)
    ensures EndsWith(head + middle + (body + closing), body + closing)
    ensures EndsWith(head + middle + (body + closing), closing)
  {
    var p := head + middle + (body + closing);
    assert p[..|head|] == head;
    assert p[|p| - |body + closing|..] == body + closing;
    assert p == (head + middle + body) + closing;
    assert p[|p| - |closing|..] == closing;
  }

  /**
   * Entity 1's section, label and type verbatim, comes right after the
   * opening, and entity 2's section follows it after one blank line.
   */
  lemma EntitiesInOrder(entity1: Entity, entity2: Entity, similarity: string)
    ensures var p, s1, s2 := BuildPrompt(entity1, entity2, similarity), EntitySection("1", entity1), EntitySection("2", entity2);
      && OccursAt(p, s1, |Opening|)
      && OccursAt(p, s2, |Opening| + |s1| + 2)
  {
    var s1, s2 := EntitySection("1", entity1), EntitySection("2", entity2);
    var tail := ScoreTail(similarity);
    EntitiesParts(entity1, entity2, similarity);
    InOrder(Opening, Entities(entity1, entity2, similarity), Guidelines, s1, "\n\n", s2, tail);
  }

  /** The text after entity 2's section. */
  function ScoreTail(similarity: string): string {
    "\n\n" + "Semantic Similarity Score: " + similarity + "\n\n"
  }

  lemma EntitiesParts(entity1: Entity, entity2: Entity, similarity: string)
    ensures Entities(entity1, entity2, similarity)
      == EntitySection("1", entity1) + "\n\n" + EntitySection("2", entity2) + ScoreTail(similarity)
  {
  }

  /** Where the parts of a concatenation sit. */
  lemma InOrder(head: string, middle: string, last: string, s1: string, gap: string, s2: string, tail: string)
    requires middle == s1 + gap + s2 + tail
    ensures OccursAt(head + middle + last, s1, |head|)
    ensures OccursAt(head + middle + last, s2, |head| + |s1| + |gap|)
  {
    var p := head + middle + last;
    assert p[|head|..|head| + |s1|] == s1;
    assert p[|head| + |s1| + |gap|..|head| + |s1| + |gap| + |s2|] == s2;
  }

  /**
   * Labels are not escaped: a quote and a line break inside a label can
   * make two different entities give the very same prompt.
   */
  lemma LabelsAreNotEscaped(entity2: Entity, similarity: string)
    ensures var a, b := Entity("a\"\nType: b", "c", None), Entity("a", "b\"\nType: c", None);
      a != b && BuildPrompt(a, entity2, similarity) == BuildPrompt(b, entity2, similarity)
  {
    var a, b := Entity("a\"\nType: b", "c", None), Entity("a", "b\"\nType: c", None);
    assert EntitySection("1", a) == EntitySection("1", b);
  }
}
