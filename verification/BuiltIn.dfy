/** Some of the relationship strings that types.go declares, and what the parser makes of them. */
module BuiltIn {
  import opened Connections
  import opened Relationships
  import opened Text

  /** One field, with a blank in front. */
  function Field(key: string, value: string): string {
    " " + key + ":" + value
  }

  const SERVICE_LABEL := "label" + "," + Field("on", "Pod") + "," + Field("value", "INSTANCE.spec.selector")
  const POD_ENV := "specproperty" + "," + Field("on", "INSTANCE.spec.env") + "," + Field("value", "Service.spec.metadata.name")
  const REPLICASET_OWNER := "owner reference" + "," + Field("of", "Pod") + "," + Field("value", "INSTANCE.name")

  lemma JoinThree(a: string, b: string, c: string, separator: char)
    ensures Join([a, b, c], separator) == a + [separator] + b + [separator] + c
  {
    assert [a, b, c][1..] == [b, c] && [b, c][1..] == [c];
    assert Join([b, c], separator) == b + [separator] + c;
    assert a + [separator] + (b + [separator] + c) == a + [separator] + b + [separator] + c;
  }

  lemma JoinFour(a: string, b: string, c: string, d: string, separator: char)
    ensures Join([a, b, c, d], separator) == a + [separator] + b + [separator] + c + [separator] + d
  {
    assert [a, b, c, d][1..] == [b, c, d];
    JoinThree(b, c, d, separator);
    assert a + [separator] + (b + [separator] + c + [separator] + d) == a + [separator] + b + [separator] + c + [separator] + d;
  }

  function Spaced(key: string, value: string): Part {
    Part(" ", key, value, "")
  }

  lemma SpacedPart(key: string, value: string)
    requires Plain(key) && Plain(value)
    ensures WellFormedPart(Spaced(key, value)) && Written(Spaced(key, value)) == Field(key, value)
  {
  }

  lemma KeysArePlain()
    ensures Plain("on") && Plain("of") && Plain("value") && Plain("Pod")
  {
  }

  lemma SelectorIsPlain()
    ensures Plain("INSTANCE.spec.selector")
  {
  }

  lemma NamesArePlain()
    ensures Plain("INSTANCE.name") && Plain("INSTANCE.spec.env")
  {
  }

  lemma TargetIsPlain()
    ensures Plain("Service.spec.metadata.name")
  {
  }

  /** The Service's relationship: Pods by the selector. */
  lemma ServiceLabel()
    ensures Parsed(SERVICE_LABEL) == Some(Relationship(Label, "INSTANCE.spec.selector", "", ["Pod"]))
  {
    KeysArePlain();
    SelectorIsPlain();
    var kind, selector := Spaced("on", "Pod"), Spaced("value", "INSTANCE.spec.selector");
    SpacedPart("on", "Pod");
    SpacedPart("value", "INSTANCE.spec.selector");
    hide Parsed, Written, Join, WellFormedPart, Plain, Field;
    LabelParsesBack(kind, selector);
    JoinThree("label", Written(kind), Written(selector), ',');
    assert [','] == ",";
  }

  /** A ReplicaSet's: Pods by owner references. */
  lemma ReplicaSetOwner()
    ensures Parsed(REPLICASET_OWNER) == Some(Relationship(RelType.OwnerReference, "", "", ["Pod"]))
  {
    KeysArePlain();
    NamesArePlain();
    var kind, value := Spaced("of", "Pod"), Spaced("value", "INSTANCE.name");
    SpacedPart("of", "Pod");
    SpacedPart("value", "INSTANCE.name");
    hide Parsed, Written, Join, WellFormedPart, Plain, Field;
    OwnerReferenceParsesBack(kind, value);
    JoinThree("owner reference", Written(kind), Written(value), ',');
    assert [','] == ",";
  }

  lemma PathsAreJoined()
    ensures Join(["INSTANCE", "spec", "env"], '.') == "INSTANCE.spec.env"
    ensures Join(["Service", "spec", "metadata", "name"], '.') == "Service.spec.metadata.name"
  {
    hide Join;
    JoinThree("INSTANCE", "spec", "env", '.');
    JoinFour("Service", "spec", "metadata", "name", '.');
  }

  lemma NoDots()
    ensures '.' !in "INSTANCE" && '.' !in "spec" && '.' !in "env" && '.' !in "Service" && '.' !in "metadata" && '.' !in "name"
  {
  }

  /** A Pod's: Services by environment variables. */
  lemma PodEnv()
    ensures Parsed(POD_ENV) == Some(Relationship(SpecProperty, "env", "name", ["Service"]))
  {
    KeysArePlain();
    NamesArePlain();
    TargetIsPlain();
    PathsAreJoined();
    NoDots();
    var source, target := Spaced("on", "INSTANCE.spec.env"), Spaced("value", "Service.spec.metadata.name");
    SpacedPart("on", "INSTANCE.spec.env");
    SpacedPart("value", "Service.spec.metadata.name");
    hide Parsed, Written, Join, WellFormedPart, Plain, Field;
    SpecPropertyParsesBack(source, target, ["INSTANCE", "spec", "env"], ["Service", "spec", "metadata", "name"]);
    JoinThree("specproperty", Written(source), Written(target), ',');
    assert [','] == ",";
  }
}
