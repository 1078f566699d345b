/**
  JSON values as XML-RPC values and back: what XML-RPC has no type for becomes text, and of two
  members with one name the later counts.
 */
module JsonXml {
  import opened Collections
  import opened JsonValue
  import opened XmlRpc
  import opened Numerals
  import B64 = Base64

  // ---------- from XML-RPC to JSON ----------

  /** Dates, doubles and binary data become text; of two members with one name the later stays. */
  function ToJson(v: Value): Json
    decreases v
  {
    match v
    case Int(n) => Num(n)
    case Boolean(b) => Bool(b)
    case String(s) => Str(s)
    case DateTime(text) => Str(text)
    case Double(text) => Str(text)
    case Base64(data) => Str(B64.Encode(data))
    case Array(items) => Arr(ItemsToJson(items))
    case Struct(members) => Obj(MembersToJson(members))
    case Nil => Null
  }

  function ItemsToJson(items: seq<Value>): (r: seq<Json>)
    ensures |r| == |items| && forall i | 0 <= i < |items| :: r[i] == ToJson(items[i])
    decreases items
  {
    seq(|items|, i requires 0 <= i < |items| => ToJson(items[i]))
  }

  function MembersToJson(members: seq<Member>): map<string, Json>
    decreases members
  {
    if members == [] then map[]
    else
      var last := members[|members| - 1];
      MembersToJson(members[..|members| - 1])[last.name := ToJson(last.value)]
  }

  method ToJsonValue(v: Value) returns (r: Json)
    ensures r == ToJson(v)
    decreases v
  {
    match v
    case Array(items) =>
      var values := [];
      for i := 0 to |items|
        invariant |values| == i && forall k | 0 <= k < i :: values[k] == ToJson(items[k])
      {
        var value := ToJsonValue(items[i]);
        values := values + [value];
      }
      assert values == ItemsToJson(items);
      r := Arr(values);
    case Struct(members) =>
      var entries := map[];
      for i := 0 to |members|
        invariant entries == MembersToJson(members[..i])
      {
        var value := ToJsonValue(members[i].value);
        entries := entries[members[i].name := value];
        assert members[..i + 1][..i] == members[..i];
      }
      assert members[..|members|] == members;
      r := Obj(entries);
    case _ => r := ToJson(v);
  }

  // ---------- from JSON to XML-RPC ----------

  ghost predicate DistinctNames(members: seq<Member>) {
    forall i, j | 0 <= i < j < |members| :: members[i].name != members[j].name
  }

  /** The members stand for the object's entries, each once, in any order. */
  ghost predicate ListsEntries(members: seq<Member>, names: set<string>) {
    DistinctNames(members) && forall name :: name in names <==> exists i | 0 <= i < |members| :: members[i].name == name
  }

  /** `v` is a result of `from_json_value` on `j`; the order of members is the map's own affair. */
  ghost predicate IsXmlOf(j: Json, v: Value)
    decreases j
  {
    match j
    case Null => v == Nil
    case Bool(b) => v == Boolean(b)
    case Num(n) => v == Int(n)
    case Real(text) => v == Double(text)
    case Str(s) => v == String(s)
    case Arr(values) =>
      v.Array? && |v.items| == |values| && forall i | 0 <= i < |values| :: IsXmlOf(values[i], v.items[i])
    case Obj(fields) =>
      v.Struct? && ListsEntries(v.members, fields.Keys) &&
      forall m | m in v.members :: m.name in fields && IsXmlOf(fields[m.name], m.value)
  }

  method FromJsonValue(j: Json) returns (v: Value)
    ensures IsXmlOf(j, v)
    decreases j
  {
    match j
    case Null => v := Nil;
    case Bool(b) => v := Boolean(b);
    case Num(n) => v := Int(n);
    case Real(text) => v := Double(text);
    case Str(s) => v := String(s);
    case Arr(values) =>
      var items := [];
      for i := 0 to |values|
        invariant |items| == i && forall k | 0 <= k < i :: IsXmlOf(values[k], items[k])
      {
        var item := FromJsonValue(values[i]);
        items := items + [item];
      }
      v := Array(items);
    case Obj(fields) =>
      var members, left := [], fields.Keys;
      while left != {}
        invariant left <= fields.Keys && ListsEntries(members, fields.Keys - left)
        invariant forall m | m in members :: m.name in fields && IsXmlOf(fields[m.name], m.value)
        decreases left
      {
        var name :| name in left;
        var value := FromJsonValue(fields[name]);
        EntryListed(members, fields.Keys - left, Member(name, value));
        members, left := members + [Member(name, value)], left - {name};
        assert fields.Keys - left == fields.Keys - (left + {name}) + {name};
      }
      assert fields.Keys - left == fields.Keys;
      v := Struct(members);
  }

  lemma EntryListed(members: seq<Member>, names: set<string>, m: Member)
    requires ListsEntries(members, names) && m.name !in names
    ensures ListsEntries(members + [m], names + {m.name})
  {
    var all := members + [m];
    forall name ensures name in names + {m.name} <==> exists i | 0 <= i < |all| :: all[i].name == name {
      if name in names {
        var i :| 0 <= i < |members| && members[i].name == name;
        assert all[i].name == name;
      }
      assert all[|members|].name == m.name;
    }
  }

  // ---------- there and back ----------

  /** All numbers are 64-bit signed integers. */
  predicate Integral(j: Json)
    decreases j
  {
    match j
    case Real(_) => false
    case Arr(values) => forall i | 0 <= i < |values| :: Integral(values[i])
    case Obj(fields) => forall name | name in fields :: Integral(fields[name])
    case _ => true
  }

  /** Numbers that are not 64-bit integers turned into their text. */
  function Textual(j: Json): Json
    decreases j
  {
    match j
    case Real(text) => Str(text)
    case Arr(values) => Arr(seq(|values|, i requires 0 <= i < |values| => Textual(values[i])))
    case Obj(fields) => Obj(map name | name in fields :: Textual(fields[name]))
    case _ => j
  }

  /** The members convert to the fields. */
  ghost predicate Match(members: seq<Member>, fields: map<string, Json>) {
    forall i | 0 <= i < |members| :: members[i].name in fields && ToJson(members[i].value) == fields[members[i].name]
  }

  lemma FrontLists(members: seq<Member>, names: set<string>)
    requires members != [] && ListsEntries(members, names)
    ensures ListsEntries(members[..|members| - 1], names - {members[|members| - 1].name})
    ensures members[|members| - 1].name in names
  {
    var n := |members| - 1;
    assert members[n].name in names;
    forall name ensures name in names - {members[n].name} <==> exists i | 0 <= i < n :: members[..n][i].name == name {
      if name in names - {members[n].name} {
        var i :| 0 <= i < |members| && members[i].name == name;
        assert members[..n][i].name == name;
      }
    }
  }

  lemma {:induction false} MembersAsMap(members: seq<Member>, fields: map<string, Json>)
    requires ListsEntries(members, fields.Keys) && Match(members, fields)
    ensures MembersToJson(members) == fields
    decreases |members|
  {
    if members == [] {
      assert fields.Keys == {};
      assert fields == map[];
    } else {
      var last := members[|members| - 1];
      FrontLists(members, fields.Keys);
      MembersAsMap(members[..|members| - 1], fields - {last.name});
    }
  }

  /** Whatever the order of the members, the way back gives the value with its non-integers as text. */
  lemma {:induction false} ThereAndBack(j: Json, v: Value)
    requires IsXmlOf(j, v)
    ensures ToJson(v) == Textual(j)
    decreases j
  {
    match j
    case Arr(values) =>
      forall i | 0 <= i < |values| ensures ToJson(v.items[i]) == Textual(values[i]) {
        ThereAndBack(values[i], v.items[i]);
      }
      assert ItemsToJson(v.items) == Textual(j).items;
    case Obj(fields) =>
      forall i | 0 <= i < |v.members|
        ensures v.members[i].name in fields && ToJson(v.members[i].value) == Textual(fields[v.members[i].name])
      {
        assert v.members[i] in v.members;
        ThereAndBack(fields[v.members[i].name], v.members[i].value);
      }
      assert Textual(j).fields.Keys == fields.Keys;
      MembersAsMap(v.members, Textual(j).fields);
    case _ =>
  }

  lemma {:induction false} TextualIsIdentity(j: Json)
    ensures Textual(j) == j <==> Integral(j)
  {
    match j
    case Arr(values) =>
      forall i | 0 <= i < |values| ensures Textual(values[i]) == values[i] <==> Integral(values[i]) {
        TextualIsIdentity(values[i]);
      }
      var texts := Textual(j).items;
      assert forall i | 0 <= i < |values| :: texts[i] == Textual(values[i]);
      if Integral(j) { assert texts == values; }
    case Obj(fields) =>
      forall name | name in fields ensures Textual(fields[name]) == fields[name] <==> Integral(fields[name]) {
        TextualIsIdentity(fields[name]);
      }
      var texts := Textual(j).fields;
      assert forall name | name in fields :: texts[name] == Textual(fields[name]);
      if Integral(j) { assert texts == fields; }
    case _ =>
  }

  /** The conversion is undone exactly on values whose numbers are all 64-bit integers. */
  lemma JsonRoundTrip(j: Json, v: Value)
    requires IsXmlOf(j, v)
    ensures ToJson(v) == j <==> Integral(j)
  {
    ThereAndBack(j, v);
    TextualIsIdentity(j);
  }

  /** What JSON has no type for goes as text: binary data in their encoding, dates and doubles as they stand. */
  lemma OtherTypesBecomeText(data: seq<byte>, text: string)
    ensures ToJson(Base64(data)).Str? && B64.DecodeAria2(ToJson(Base64(data)).s) == data
    ensures ToJson(DateTime(text)) == ToJson(Double(text)) == Str(text)
  {
    BinaryBecomesText(data);
    B64.EncodedRoundTrip(data);
  }

  lemma BinaryBecomesText(data: seq<byte>)
    ensures ToJson(Base64(data)) == Str(B64.Encode(data))
  {
  }
}
