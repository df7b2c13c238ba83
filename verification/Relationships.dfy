/** Relationship strings and their parser, parseRelationship of relationships.go. */
module Relationships {
  import opened Connections
  import opened Text

  /** A parsed relationship string. */
  datatype Relationship = Relationship(relType: RelType, lhs: string, rhs: string, targetKinds: seq<string>)

  /** A specproperty string names one kind: the loop over target kinds overwrites its own relation type. */
  predicate SingleTarget(rel: Relationship) {
    rel.relType == SpecProperty ==> |rel.targetKinds| == 1
  }

  function RelTypeOf(s: string): (r: RelType)
    ensures r != EnvVariable
  {
    if s == "label" then Label
    else if s == "specproperty" then SpecProperty
    else if s == "annotation" then Annotation
    else if s == "owner reference" then OwnerReference
    else Unset
  }

  /** `strings.Split(strings.TrimSpace(parts[i]), ":")`, or nothing if there is no part i. */
  function Fields(parts: seq<string>, i: nat): (r: seq<string>)
    ensures i < |parts| ==> |r| >= 1
  {
    if i < |parts| then Split(TrimSpace(parts[i]), ':') else []
  }

  function TrimEach(parts: seq<string>): seq<string> {
    if parts == [] then [] else TrimEach(parts[..|parts| - 1]) + [TrimSpace(parts[|parts| - 1])]
  }

  /** The value of `value:name` or of `value:[{name:INSTANCE.metadata.name}]`. */
  function AnnotationValue(rhsParts: seq<string>): string {
    if |rhsParts| == 2 then rhsParts[1]
    else if |rhsParts| == 3 then Remove(Remove(rhsParts[2], '}'), ']')
    else ""
  }

  function Last(parts: seq<string>): string
    requires |parts| >= 1
  {
    parts[|parts| - 1]
  }

  /** The result of parsing, or None where the Go code indexes out of bounds. */
  function Parsed(relString: string): (r: Option<Relationship>)
    ensures r.Some? ==> SingleTarget(r.value)
  {
    var parts := Split(relString, ',');
    FromFields(RelTypeOf(TrimSpace(parts[0])), Fields(parts, 1), Fields(parts, 2), Fields(parts, 3))
  }

  /** The result from the relation type and the `:`-separated fields of the parts that follow it. */
  function FromFields(relType: RelType, one: seq<string>, two: seq<string>, three: seq<string>): (r: Option<Relationship>)
    ensures r.Some? ==> SingleTarget(r.value)
  {
    match relType
    case Label =>
      if |one| < 2 || |two| < 2 then None else Some(Relationship(Label, two[1], "", [one[1]]))
    case SpecProperty =>
      if |one| < 2 || |two| < 2 then None
      else Some(Relationship(SpecProperty, Last(Split(one[1], '.')), Last(Split(two[1], '.')), [Split(two[1], '.')[0]]))
    case Annotation =>
      if |one| < 2 || |two| < 2 || |three| < 1 then None
      else Some(Relationship(Annotation, two[1], AnnotationValue(three), TrimEach(Split(one[1], ';'))))
    case OwnerReference =>
      if |one| < 2 then None else Some(Relationship(OwnerReference, "", "", [one[1]]))
    case _ => Some(Relationship(Unset, "", "", []))
  }

  method ParseRelationship(relString: string) returns (r: Option<Relationship>)
    ensures r == Parsed(relString)
  {
    hide Split, TrimSpace, Remove, RelTypeOf, Fields;
    var targetKindList: seq<string> := [];
    var parts := Split(relString, ',');
    var relType := RelTypeOf(TrimSpace(parts[0]));
    var lhs, rhs := "", "";
    var one, two, three := Fields(parts, 1), Fields(parts, 2), Fields(parts, 3);
    if relType == Label {
      if |one| < 2 || |two| < 2 {
        return None;
      }
      lhs := two[1];
      targetKindList := targetKindList + [one[1]];
      assert targetKindList == [one[1]];
    }
    if relType == SpecProperty {
      if |one| < 2 || |two| < 2 {
        return None;
      }
      var targetParts := Split(two[1], '.');
      targetKindList := targetKindList + [targetParts[0]];
      assert targetKindList == [targetParts[0]];
      rhs := targetParts[|targetParts| - 1];
      var sourceParts := Split(one[1], '.');
      lhs := sourceParts[|sourceParts| - 1];
    }
    if relType == Annotation {
      if |one| < 2 || |two| < 2 || |three| < 1 {
        return None;
      }
      var targetKinds := Split(one[1], ';');
      lhs := two[1];
      if |three| == 2 {
        rhs := three[1];
      } else if |three| == 3 {
        rhs := three[2];
        rhs := Remove(rhs, '}');
        rhs := Remove(rhs, ']');
      }
      for i := 0 to |targetKinds|
        invariant targetKindList == TrimEach(targetKinds[..i])
      {
        targetKindList := targetKindList + [TrimSpace(targetKinds[i])];
        assert targetKinds[..i + 1][..i] == targetKinds[..i];
      }
      assert targetKinds[..|targetKinds|] == targetKinds;
    }
    if relType == OwnerReference {
      if |one| < 2 {
        return None;
      }
      targetKindList := targetKindList + [one[1]];
      assert targetKindList == [one[1]];
    }
    r := Some(Relationship(relType, lhs, rhs, targetKindList));
  }

  // ---------------------------------------------------------------- strings that parse back

  /** One `key:value` part, with blanks around it. */
  datatype Part = Part(before: string, key: string, value: string, after: string)

  predicate Plain(s: string) {
    s != [] && Trimmed(s) && ',' !in s && ':' !in s
  }

  predicate WellFormedPart(part: Part) {
    Blank(part.before) && Blank(part.after) && Plain(part.key) && Plain(part.value)
  }

  function Written(part: Part): string {
    part.before + (part.key + [':'] + part.value) + part.after
  }

  lemma BlankFree(s: string)
    requires Blank(s)
    ensures ',' !in s && ':' !in s && ';' !in s
  {
  }

  /** What the parser sees of a field is its key and its value. */
  lemma WrittenPart(part: Part)
    requires WellFormedPart(part)
    ensures ',' !in Written(part)
    ensures Split(TrimSpace(Written(part)), ':') == [part.key, part.value]
  {
    BlankFree(part.before);
    BlankFree(part.after);
    var core := part.key + [':'] + part.value;
    assert core[0] == part.key[0] && core[|core| - 1] == part.value[|part.value| - 1];
    TrimPadded(part.before, core, part.after);
    SplitFirst(part.key, part.value, ':');
    SplitNone(part.value, ':');
  }

  /** `name` is read as the relation type `relType`. */
  predicate ReadAs(name: string, relType: RelType) {
    TrimSpace(name) == name && ',' !in name && RelTypeOf(name) == relType
  }

  lemma TrimmedIsKept(name: string)
    requires name != [] && Trimmed(name)
    ensures TrimSpace(name) == name
  {
    assert "" + name + "" == name;
    TrimPadded("", name, "");
  }

  lemma RelTypeNames()
    ensures ReadAs("label", Label) && ReadAs("specproperty", SpecProperty)
    ensures ReadAs("annotation", Annotation) && ReadAs("owner reference", OwnerReference)
  {
    RelTypesOfNames();
    NamesAreKept();
    hide TrimSpace, RelTypeOf;
  }

  lemma NamesAreKept()
    ensures TrimSpace("label") == "label" && TrimSpace("specproperty") == "specproperty"
    ensures TrimSpace("annotation") == "annotation" && TrimSpace("owner reference") == "owner reference"
  {
    hide TrimSpace;
    TrimmedIsKept("label");
    TrimmedIsKept("specproperty");
    TrimmedIsKept("annotation");
    TrimmedIsKept("owner reference");
  }

  lemma RelTypesOfNames()
    ensures RelTypeOf("label") == Label && RelTypeOf("specproperty") == SpecProperty
    ensures RelTypeOf("annotation") == Annotation && RelTypeOf("owner reference") == OwnerReference
  {
    assert "specproperty"[0] != "label"[0];
    assert "annotation"[0] != "label"[0] && "annotation"[0] != "specproperty"[0];
    assert "owner reference"[0] != "label"[0] && "owner reference"[0] != "specproperty"[0] && "owner reference"[0] != "annotation"[0];
  }

  /** The string as a whole is taken apart at its commas. */
  lemma TwoPartsParse(name: string, relType: RelType, first: string, second: string)
    requires ReadAs(name, relType) && ',' !in first && ',' !in second
    ensures Parsed(Join([name, first, second], ',')) ==
            FromFields(relType, Split(TrimSpace(first), ':'), Split(TrimSpace(second), ':'), [])
  {
    SplitJoin([name, first, second], ',');
  }

  lemma ThreePartsParse(name: string, relType: RelType, first: string, second: string, third: string)
    requires ReadAs(name, relType) && ',' !in first && ',' !in second && ',' !in third
    ensures Parsed(Join([name, first, second, third], ',')) ==
            FromFields(relType, Split(TrimSpace(first), ':'), Split(TrimSpace(second), ':'), Split(TrimSpace(third), ':'))
  {
    SplitJoin([name, first, second, third], ',');
  }

  lemma LabelParsesBack(kind: Part, selector: Part)
    requires WellFormedPart(kind) && WellFormedPart(selector)
    ensures Parsed(Join(["label", Written(kind), Written(selector)], ',')) ==
            Some(Relationship(Label, selector.value, "", [kind.value]))
  {
    RelTypeNames();
    WrittenPart(kind);
    WrittenPart(selector);
    TwoPartsParse("label", Label, Written(kind), Written(selector));
  }

  lemma OwnerReferenceParsesBack(kind: Part, value: Part)
    requires WellFormedPart(kind) && WellFormedPart(value)
    ensures Parsed(Join(["owner reference", Written(kind), Written(value)], ',')) ==
            Some(Relationship(OwnerReference, "", "", [kind.value]))
  {
    RelTypeNames();
    WrittenPart(kind);
    WrittenPart(value);
    TwoPartsParse("owner reference", OwnerReference, Written(kind), Written(value));
  }

  lemma SpecPropertyFields(one: seq<string>, two: seq<string>, from: seq<string>, to: seq<string>)
    requires |from| >= 1 && forall i :: 0 <= i < |from| ==> '.' !in from[i]
    requires |to| >= 1 && forall i :: 0 <= i < |to| ==> '.' !in to[i]
    requires |one| == |two| == 2 && one[1] == Join(from, '.') && two[1] == Join(to, '.')
    ensures FromFields(SpecProperty, one, two, []) == Some(Relationship(SpecProperty, Last(from), Last(to), [to[0]]))
  {
    SplitJoin(from, '.');
    SplitJoin(to, '.');
  }

  /** The source is a dotted path ending in the field `lhs`, the target one from the target kind to the field `rhs`. */
  lemma SpecPropertyParsesBack(source: Part, target: Part, from: seq<string>, to: seq<string>)
    requires WellFormedPart(source) && WellFormedPart(target)
    requires |from| >= 1 && forall i :: 0 <= i < |from| ==> '.' !in from[i]
    requires |to| >= 1 && forall i :: 0 <= i < |to| ==> '.' !in to[i]
    requires source.value == Join(from, '.') && target.value == Join(to, '.')
    ensures Parsed(Join(["specproperty", Written(source), Written(target)], ',')) ==
            Some(Relationship(SpecProperty, Last(from), Last(to), [to[0]]))
  {
    RelTypeNames();
    WrittenPart(source);
    WrittenPart(target);
    SpecPropertyFields([source.key, source.value], [target.key, target.value], from, to);
    TwoPartsParse("specproperty", SpecProperty, Written(source), Written(target));
  }

  /** A kind in a `;`-separated list, with blanks around it. */
  datatype Padded = Padded(before: string, kind: string, after: string)

  predicate WellFormedKind(p: Padded) {
    Blank(p.before) && Blank(p.after) && Plain(p.kind) && ';' !in p.kind
  }

  function WrittenKinds(kinds: seq<Padded>): (r: seq<string>)
    ensures |r| == |kinds|
  {
    if kinds == [] then []
    else var p := kinds[|kinds| - 1]; WrittenKinds(kinds[..|kinds| - 1]) + [p.before + p.kind + p.after]
  }

  function KindsOf(kinds: seq<Padded>): seq<string> {
    if kinds == [] then [] else KindsOf(kinds[..|kinds| - 1]) + [kinds[|kinds| - 1].kind]
  }

  lemma {:induction false} KindsParseBack(kinds: seq<Padded>)
    requires forall i :: 0 <= i < |kinds| ==> WellFormedKind(kinds[i])
    ensures TrimEach(WrittenKinds(kinds)) == KindsOf(kinds)
    ensures forall i :: 0 <= i < |kinds| ==> ';' !in WrittenKinds(kinds)[i]
  {
    if kinds != [] {
      var init, p := kinds[..|kinds| - 1], kinds[|kinds| - 1];
      KindsParseBack(init);
      BlankFree(p.before);
      BlankFree(p.after);
      TrimPadded(p.before, p.kind, p.after);
      assert WrittenKinds(kinds)[..|kinds| - 1] == WrittenKinds(init);
    }
  }

  /** Either `value:rhs`, or with the value written as a list of one map. */
  function AnnotationText(value: Part, asList: bool): string {
    if asList then value.before + (value.key + [':'] + ("[{name" + [':'] + (value.value + "}]"))) + value.after
    else Written(value)
  }

  lemma AnnotationTextParses(value: Part, asList: bool)
    requires WellFormedPart(value) && '}' !in value.value && ']' !in value.value
    ensures ',' !in AnnotationText(value, asList)
    ensures var parts := Split(TrimSpace(AnnotationText(value, asList)), ':'); |parts| >= 1 && AnnotationValue(parts) == value.value
  {
    if !asList {
      WrittenPart(value);
    } else {
      ListTextParses(value);
    }
  }

  lemma ListTextParses(value: Part)
    requires WellFormedPart(value) && '}' !in value.value && ']' !in value.value
    ensures ',' !in AnnotationText(value, true)
    ensures var parts := Split(TrimSpace(AnnotationText(value, true)), ':'); |parts| >= 1 && AnnotationValue(parts) == value.value
  {
    hide TrimSpace, Split, Remove;
    BlankFree(value.before);
    BlankFree(value.after);
    var core := value.key + [':'] + ("[{name" + [':'] + (value.value + "}]"));
    assert core[0] == value.key[0] && core[|core| - 1] == ']';
    TrimPadded(value.before, core, value.after);
    ThreeParts(value.key, "[{name", value.value + "}]");
    BracketsRemoved(value.value);
  }

  lemma ThreeParts(first: string, second: string, third: string)
    requires ':' !in first && ':' !in second && ':' !in third
    ensures Split(first + [':'] + (second + [':'] + third), ':') == [first, second, third]
  {
    SplitFirst(first, second + [':'] + third, ':');
    SplitFirst(second, third, ':');
    SplitNone(third, ':');
  }

  lemma BracketsRemoved(s: string)
    requires '}' !in s && ']' !in s
    ensures Remove(Remove(s + "}]", '}'), ']') == s
  {
    RemoveConcat(s, "}]", '}');
    RemoveNone(s, '}');
    assert Remove("}]", '}') == "]" by {
      assert "}]"[1..] == "]";
      RemoveNone("]", '}');
    }
    assert Remove("]", ']') == "" by {
      assert "]"[1..] == "";
    }
    RemoveConcat(s, "]", ']');
    RemoveNone(s, ']');
  }

  lemma AnnotationParsesBack(on: Part, kinds: seq<Padded>, key: Part, value: Part, asList: bool)
    requires WellFormedPart(on) && WellFormedPart(key) && WellFormedPart(value) && '}' !in value.value && ']' !in value.value
    requires |kinds| >= 1 && forall i :: 0 <= i < |kinds| ==> WellFormedKind(kinds[i])
    requires on.value == Join(WrittenKinds(kinds), ';')
    ensures Parsed(Join(["annotation", Written(on), Written(key), AnnotationText(value, asList)], ',')) ==
            Some(Relationship(Annotation, key.value, value.value, KindsOf(kinds)))
  {
    RelTypeNames();
    WrittenPart(on);
    WrittenPart(key);
    AnnotationTextParses(value, asList);
    AnnotationFields([on.key, on.value], [key.key, key.value], kinds, Split(TrimSpace(AnnotationText(value, asList)), ':'));
    ThreePartsParse("annotation", Annotation, Written(on), Written(key), AnnotationText(value, asList));
  }

  lemma AnnotationFields(one: seq<string>, two: seq<string>, kinds: seq<Padded>, three: seq<string>)
    requires |kinds| >= 1 && forall i :: 0 <= i < |kinds| ==> WellFormedKind(kinds[i])
    requires |one| == |two| == 2 && one[1] == Join(WrittenKinds(kinds), ';') && |three| >= 1
    ensures FromFields(Annotation, one, two, three) == Some(Relationship(Annotation, two[1], AnnotationValue(three), KindsOf(kinds)))
  {
    KindsParseBack(kinds);
    SplitJoin(WrittenKinds(kinds), ';');
  }
}
