/** Where findFieldValue looks, as paths from the top of an object. */
module FieldPaths {
  import opened Connections
  import opened FieldSearch

  /** Into an entry of an object, or to an element of a list. */
  datatype Step = Key(name: string) | Index(i: nat)

  function Follow(content: Json, path: seq<Step>): Option<Json> {
    if path == [] then Some(content)
    else if path[0].Key? && content.JObject? && path[0].name in content.fields then Follow(content.fields[path[0].name], path[1..])
    else if path[0].Index? && content.JArray? && path[0].i < |content.items| then Follow(content.items[path[0].i], path[1..])
    else None
  }

  /** The path starts in an object, never goes into a list directly inside a list, and the last name on it is `field`. */
  predicate SearchPath(path: seq<Step>, field: string) {
    && path != [] && path[0].Key?
    && (forall i :: 0 < i < |path| && path[i].Index? ==> path[i - 1].Key?)
    && (path[|path| - 1] == Key(field) || (|path| > 1 && path[|path| - 1].Index? && path[|path| - 2] == Key(field)))
  }

  /** A field holds a value exactly when such a path leads to that string, however deep. */
  lemma OccursIffPath(content: Json, field: string, value: string)
    ensures Occurs(content, field, value) <==> exists path :: SearchPath(path, field) && Follow(content, path) == Some(JString(value))
  {
    if Occurs(content, field, value) {
      var path := PathTo(content, field, value);
    }
    if path :| SearchPath(path, field) && Follow(content, path) == Some(JString(value)) {
      PathOccurs(content, path, field, value);
    }
  }

  lemma FollowOn(content: Json, first: Step, rest: seq<Step>)
    ensures first.Key? && content.JObject? && first.name in content.fields ==>
              Follow(content, [first] + rest) == Follow(content.fields[first.name], rest)
    ensures first.Index? && content.JArray? && first.i < |content.items| ==> Follow(content, [first] + rest) == Follow(content.items[first.i], rest)
  {
    assert ([first] + rest)[1..] == rest;
  }

  lemma {:induction false} PathTo(content: Json, field: string, value: string) returns (path: seq<Step>)
    requires Occurs(content, field, value)
    ensures SearchPath(path, field) && Follow(content, path) == Some(JString(value))
    decreases content
  {
    var key :| key in content.fields && OccursUnder(key, content.fields[key], field, value);
    var under := content.fields[key];
    var rest: seq<Step> := [];
    if under.JObject? {
      rest := PathTo(under, field, value);
    } else if under.JArray? {
      var i :| 0 <= i < |under.items| && OccursInItem(key, under.items[i], field, value);
      var inner: seq<Step> := [];
      if under.items[i].JObject? {
        inner := PathTo(under.items[i], field, value);
      }
      FollowOn(under, Index(i), inner);
      rest := [Index(i)] + inner;
    }
    FollowOn(content, Key(key), rest);
    path := [Key(key)] + rest;
  }

  lemma {:induction false} PathOccurs(content: Json, path: seq<Step>, field: string, value: string)
    requires SearchPath(path, field) && Follow(content, path) == Some(JString(value))
    ensures Occurs(content, field, value)
    decreases |path|
  {
    var key, rest := path[0].name, path[1..];
    var under := content.fields[key];
    assert Follow(content, path) == Follow(under, rest);
    if rest == [] {
      assert under == JString(value) && key == field;
    } else if rest[0].Key? {
      PathOccurs(under, rest, field, value);
    } else {
      var item, inner := under.items[rest[0].i], rest[1..];
      assert Follow(under, rest) == Follow(item, inner);
      if inner == [] {
        assert item == JString(value) && key == field;
      } else {
        assert inner[0] == path[2] && path[2].Key?;
        assert forall k :: 0 <= k < |inner| ==> inner[k] == path[k + 2];
        PathOccurs(item, inner, field, value);
      }
      assert OccursInItem(key, item, field, value);
    }
    assert OccursUnder(key, under, field, value);
  }

  /** An object with one entry. */
  lemma OneField(key: string, content: Json, field: string, value: string)
    ensures Occurs(JObject(map[key := content]), field, value) <==> OccursUnder(key, content, field, value)
  {
    assert key in map[key := content];
  }
}
