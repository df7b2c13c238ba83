/** JSON trees and the recursive field search of relationships.go. */
module FieldSearch {

  /** The values an unstructured Kubernetes object is made of. Numbers, booleans and null are JOther. */
  datatype Json = JString(text: string) | JObject(fields: map<string, Json>) | JArray(items: seq<Json>) | JOther

  /** `value` stands under the field name `field` somewhere in the object `content`. */
  ghost predicate Occurs(content: Json, field: string, value: string)
    decreases content, 0
  {
    content.JObject? && exists key :: key in content.fields && OccursUnder(key, content.fields[key], field, value)
  }

  /** The entry `key: content` holds `value` under `field`: directly, deeper down, or in a list. */
  ghost predicate OccursUnder(key: string, content: Json, field: string, value: string)
    decreases content, 2
  {
    match content
    case JString(text) => key == field && text == value
    case JObject(_) => Occurs(content, field, value)
    case JArray(items) => exists i :: 0 <= i < |items| && OccursInItem(key, items[i], field, value)
    case JOther => false
  }

  /** A list under `key` has the element `item`. Lists directly inside lists are not looked into. */
  ghost predicate OccursInItem(key: string, item: Json, field: string, value: string)
    decreases item, 1
  {
    match item
    case JString(text) => key == field && text == value
    case JObject(_) => Occurs(item, field, value)
    case _ => false
  }

  /** The only value under `field` is `value`. */
  ghost predicate OccursOnly(content: Json, field: string, value: string) {
    Occurs(content, field, value) && forall other :: Occurs(content, field, other) ==> other == value
  }

  /** The keys of an object are visited in any order. */
  method FindFieldValue(content: Json, field: string) returns (value: string, found: bool)
    ensures found ==> Occurs(content, field, value)
    ensures !found ==> value == "" && forall other :: !Occurs(content, field, other)
    ensures forall only :: OccursOnly(content, field, only) ==> found && value == only
    decreases content, 1
  {
    value, found := "", false;
    if content.JObject? {
      var keys := content.fields.Keys;
      while keys != {} && !found
        invariant keys <= content.fields.Keys
        invariant found ==> Occurs(content, field, value)
        invariant !found ==> value == ""
        invariant !found ==> forall key, other :: key in content.fields && key !in keys ==>
                                                    !OccursUnder(key, content.fields[key], field, other)
        decreases |keys|
      {
        var key :| key in keys;
        keys := keys - {key};
        match content.fields[key]
        case JString(text) =>
          if key == field {
            value, found := text, true;
          }
        case JObject(_) =>
          value, found := FindFieldValue(content.fields[key], field);
        case JArray(items) =>
          value, found := FindInItems(key, content.fields[key], field);
        case JOther =>
      }
    }
    forall only | OccursOnly(content, field, only)
      ensures found && value == only
    {
      assert Occurs(content, field, only);
    }
  }

  /** The loop over a list-valued entry. */
  method FindInItems(key: string, list: Json, field: string) returns (value: string, found: bool)
    requires list.JArray?
    ensures found ==> OccursUnder(key, list, field, value)
    ensures !found ==> value == "" && forall other :: !OccursUnder(key, list, field, other)
    decreases list, 0
  {
    value, found := "", false;
    for i := 0 to |list.items|
      invariant !found && value == ""
      invariant forall j, other :: 0 <= j < i ==> !OccursInItem(key, list.items[j], field, other)
    {
      match list.items[i]
      case JString(text) =>
        if key == field {
          return text, true;
        }
      case JObject(_) =>
        value, found := FindFieldValue(list.items[i], field);
        if found {
          assert OccursInItem(key, list.items[i], field, value);
          return;
        }
      case _ =>
    }
  }

}
