/** The indicator-record model of the MISP search response and the three
    lookups over it (cmd/main.go): `getMispObject`, `findValue` and
    `extractMispObjectInfo`. */
module Misp {
  import opened Wrappers

  /** One key/value entry of an object; `attributeType` is the JSON `type`. */
  datatype MispAttribute = MispAttribute(attributeType: string, objectRelation: string, value: string)

  /** A typed sub-record of an event, e.g. "malware" or "malware-analysis". */
  datatype MispObject = MispObject(name: string, description: string, comment: string,
                                   attributes: seq<MispAttribute>)

  /** An indicator record; `threatLevel` is the JSON `threat_level_id`. */
  datatype MispEvent = MispEvent(id: string, uuid: string, date: string, threatLevel: string,
                                 info: string, attributeCount: string, objects: seq<MispObject>)

  /** One wrapper entry of the search response. */
  datatype MispResponse = MispResponse(event: MispEvent)

  /** The whole search response. */
  datatype MispResult = MispResult(response: seq<MispResponse>)

  /** `objects[i]` is the first object called `name`. */
  ghost predicate IsFirstNamed(objects: seq<MispObject>, name: string, i: int)
  {
    && 0 <= i < |objects|
    && objects[i].name == name
    && forall k :: 0 <= k < i ==> objects[k].name != name
  }

  /** Some object of `objects` is called `name`. */
  ghost predicate HasObjectNamed(objects: seq<MispObject>, name: string)
  {
    exists o :: o in objects && o.name == name
  }

  /** `attributes[i]` is the first attribute whose relation is `key`. */
  ghost predicate IsFirstWithRelation(attributes: seq<MispAttribute>, key: string, i: int)
  {
    && 0 <= i < |attributes|
    && attributes[i].objectRelation == key
    && forall k :: 0 <= k < i ==> attributes[k].objectRelation != key
  }

  /** No attribute after `attributes[i]` has the same relation. */
  ghost predicate IsLastOfItsRelation(attributes: seq<MispAttribute>, i: int)
  {
    && 0 <= i < |attributes|
    && forall k :: i < k < |attributes| ==> attributes[k].objectRelation != attributes[i].objectRelation
  }

  /** The relations that occur among `attributes`. */
  function Relations(attributes: seq<MispAttribute>): set<string>
  {
    set a | a in attributes :: a.objectRelation
  }

  /** The first object called `name` among an event's objects, or `None` when
      there is none. The adapter passes `event.Objects`. */
  function GetMispObject(name: string, objects: seq<MispObject>): (r: Option<MispObject>)
    ensures r.None? <==> !HasObjectNamed(objects, name)
    ensures forall i :: IsFirstNamed(objects, name, i) ==> r == Some(objects[i])
  {
    if |objects| == 0 then None
    else if objects[0].name == name then Some(objects[0])
    else
      var r := GetMispObject(name, objects[1..]);
      assert forall i :: IsFirstNamed(objects, name, i) ==> IsFirstNamed(objects[1..], name, i - 1);
      assert HasObjectNamed(objects, name) ==> HasObjectNamed(objects[1..], name);
      r
  }

  /** The value of the first attribute whose relation is `key`, or "" when
      there is none. */
  function FindValue(key: string, attributes: seq<MispAttribute>): (r: string)
    ensures (forall a :: a in attributes ==> a.objectRelation != key) ==> r == ""
    ensures forall i :: IsFirstWithRelation(attributes, key, i) ==> r == attributes[i].value
  {
    if |attributes| == 0 then ""
    else if attributes[0].objectRelation == key then attributes[0].value
    else
      var r := FindValue(key, attributes[1..]);
      assert forall i :: IsFirstWithRelation(attributes, key, i) ==>
        IsFirstWithRelation(attributes[1..], key, i - 1);
      r
  }

  /** A nil filter keeps every relation; a non-nil one keeps its keys only. */
  predicate Keeps(filter: Option<set<string>>, relation: string)
  {
    filter.None? || relation in filter.value
  }

  /** The relation-to-value map of the attributes `filter` keeps. Attributes
      are written in order, so a later attribute with the same relation
      overwrites an earlier one. The adapter passes `m.Attributes`. */
  function ExtractMispObjectInfo(attributes: seq<MispAttribute>, filter: Option<set<string>>)
    : (info: map<string, string>)
    ensures filter.None? ==> info.Keys == Relations(attributes)
    ensures filter.Some? ==> info.Keys == Relations(attributes) * filter.value
    ensures forall i ::
              IsLastOfItsRelation(attributes, i) && Keeps(filter, attributes[i].objectRelation) ==>
              info[attributes[i].objectRelation] == attributes[i].value
  {
    if |attributes| == 0 then map[]
    else
      var info := ExtractMispObjectInfo(attributes[..|attributes| - 1], filter);
      StoreKeys(attributes, filter, info);
      StoreValues(attributes, filter, info);
      Store(info, attributes[|attributes| - 1], filter)
  }

  /** One iteration of the extraction loop: write the attribute if kept. */
  function Store(info: map<string, string>, a: MispAttribute, filter: Option<set<string>>): map<string, string>
  {
    if Keeps(filter, a.objectRelation) then info[a.objectRelation := a.value] else info
  }

  /** Storing the last attribute extends the key set of the others' map by
      its relation, when kept. */
  lemma StoreKeys(attributes: seq<MispAttribute>, filter: Option<set<string>>, info: map<string, string>)
    requires |attributes| > 0
    requires filter.None? ==> info.Keys == Relations(attributes[..|attributes| - 1])
    requires filter.Some? ==> info.Keys == Relations(attributes[..|attributes| - 1]) * filter.value
    ensures filter.None? ==> Store(info, attributes[|attributes| - 1], filter).Keys == Relations(attributes)
    ensures filter.Some? ==>
      Store(info, attributes[|attributes| - 1], filter).Keys == Relations(attributes) * filter.value
  {
    RelationsSnoc(attributes);
  }

  /** Storing the last attribute keeps every value that was last in the
      others and makes the stored one the value of its relation. */
  lemma StoreValues(attributes: seq<MispAttribute>, filter: Option<set<string>>, info: map<string, string>)
    requires |attributes| > 0
    requires var init := attributes[..|attributes| - 1];
      forall i :: IsLastOfItsRelation(init, i) && Keeps(filter, init[i].objectRelation) ==>
        init[i].objectRelation in info && info[init[i].objectRelation] == init[i].value
    ensures var stored := Store(info, attributes[|attributes| - 1], filter);
      forall i :: IsLastOfItsRelation(attributes, i) && Keeps(filter, attributes[i].objectRelation) ==>
        attributes[i].objectRelation in stored && stored[attributes[i].objectRelation] == attributes[i].value
  {
    var init := attributes[..|attributes| - 1];
    forall i | IsLastOfItsRelation(attributes, i) && Keeps(filter, attributes[i].objectRelation)
      ensures var stored := Store(info, attributes[|attributes| - 1], filter);
        attributes[i].objectRelation in stored && stored[attributes[i].objectRelation] == attributes[i].value
    {
      if i < |init| {
        assert IsLastOfItsRelation(init, i);
      }
    }
  }

  /** The relations of a non-empty list are those of all but its last
      attribute plus the last one's. */
  lemma RelationsSnoc(attributes: seq<MispAttribute>)
    requires |attributes| > 0
    ensures Relations(attributes) ==
      Relations(attributes[..|attributes| - 1]) + {attributes[|attributes| - 1].objectRelation}
  {
    var init, a := attributes[..|attributes| - 1], attributes[|attributes| - 1];
    assert attributes == init + [a];
    forall r | r in Relations(attributes)
      ensures r in Relations(init) + {a.objectRelation}
    {
      var x :| x in attributes && x.objectRelation == r;
      if x != a {
        assert x in init;
      }
    }
  }

  /** Whenever some object is called `name`, there is a first such object, so
      `GetMispObject`'s contract pins its result down completely. */
  lemma {:induction false} FirstNamedExists(objects: seq<MispObject>, name: string)
    requires HasObjectNamed(objects, name)
    ensures exists i :: IsFirstNamed(objects, name, i)
  {
    if objects[0].name == name {
      assert IsFirstNamed(objects, name, 0);
    } else {
      var o :| o in objects && o.name == name;
      assert o in objects[1..];
      FirstNamedExists(objects[1..], name);
      var i :| IsFirstNamed(objects[1..], name, i);
      assert IsFirstNamed(objects, name, i + 1);
    }
  }

  /** When no relation occurs twice, the first-match lookup `FindValue` and
      the last-write-wins map of `ExtractMispObjectInfo` agree: on every
      relation the map holds, and on "" for the ones it lacks. */
  lemma FindValueAgreesWithExtract(attributes: seq<MispAttribute>, key: string)
    requires forall i, j :: 0 <= i < j < |attributes| ==>
               attributes[i].objectRelation != attributes[j].objectRelation
    ensures var info := ExtractMispObjectInfo(attributes, None);
      key in info ==> FindValue(key, attributes) == info[key]
    ensures key !in ExtractMispObjectInfo(attributes, None) ==> FindValue(key, attributes) == ""
  {
    var info := ExtractMispObjectInfo(attributes, None);
    if key in info {
      var a :| a in attributes && a.objectRelation == key;
      var i :| 0 <= i < |attributes| && attributes[i] == a;
      assert IsFirstWithRelation(attributes, key, i);
      assert IsLastOfItsRelation(attributes, i);
    } else {
      assert forall a :: a in attributes ==> a.objectRelation in Relations(attributes);
    }
  }

  /** With a repeated relation the two lookups part ways: `findValue` keeps the
      first value and `extractMispObjectInfo` the last. */
  lemma DuplicateRelationTieBreak(attributes: seq<MispAttribute>)
    requires attributes == [MispAttribute("text", "name", "first"), MispAttribute("text", "name", "second")]
    ensures FindValue("name", attributes) == "first"
    ensures ExtractMispObjectInfo(attributes, None) == map["name" := "second"]
  {
    assert IsFirstWithRelation(attributes, "name", 0);
    assert IsLastOfItsRelation(attributes, 1);
    assert Relations(attributes) == {"name"} by {
      assert attributes[0] in attributes;
    }
  }

  /** A non-nil filter with no keys keeps nothing, unlike a nil one. */
  lemma EmptyFilterKeepsNothing(attributes: seq<MispAttribute>)
    ensures ExtractMispObjectInfo(attributes, Some({})) == map[]
    ensures |attributes| > 0 ==> ExtractMispObjectInfo(attributes, None) != map[]
  {
    if |attributes| > 0 {
      assert attributes[0].objectRelation in Relations(attributes);
    }
  }
}
