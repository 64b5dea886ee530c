/** Decoded JSON, as `json.loads` hands it to the scripts. */
module Json {

  /**
   * A decoded JSON value. Objects keep their members in document order and
   * a key may repeat; the dict `json.loads` builds from them is `Items`.
   * Numbers are integers.
   */
  datatype JsonValue =
    | JNull
    | JBool(b: bool)
    | JNumber(n: int)
    | JString(s: string)
    | JArray(items: seq<JsonValue>)
    | JObject(members: seq<(string, JsonValue)>)

  /** Python's `key in obj`. */
  predicate HasKey(members: seq<(string, JsonValue)>, key: string) {
    exists i | 0 <= i < |members| :: members[i].0 == key
  }

  /** Python's `obj[key]`: the value of the last member named `key`. */
  function Get(members: seq<(string, JsonValue)>, key: string): (v: JsonValue)
    requires HasKey(members, key)
    ensures exists i | 0 <= i < |members| ::
              members[i] == (key, v) && forall j | i < j < |members| :: members[j].0 != key
  {
    var last := members[|members| - 1];
    if last.0 == key then last.1
    else
      assert HasKey(members[..|members| - 1], key) by {
        var i :| 0 <= i < |members| && members[i].0 == key;
        assert members[..|members| - 1][i].0 == key;
      }
      var v := Get(members[..|members| - 1], key);
      assert exists i | 0 <= i < |members| ::
               members[i] == (key, v) && forall j | i < j < |members| :: members[j].0 != key by {
        var init := members[..|members| - 1];
        var i :| 0 <= i < |init| && init[i] == (key, v) && forall j | i < j < |init| :: init[j].0 != key;
        assert members[i] == (key, v);
        forall j | i < j < |members|
          ensures members[j].0 != key
        {
          if j < |init| {
            assert members[j] == init[j];
          }
        }
      }
      v
  }

  /** No key occurs twice. */
  predicate DistinctKeys(items: seq<(string, JsonValue)>) {
    forall i, j | 0 <= i < j < |items| :: items[i].0 != items[j].0
  }

  /** The position of the first member named `key`. */
  function KeyIndex(members: seq<(string, JsonValue)>, key: string): (i: nat)
    requires HasKey(members, key)
    ensures i < |members| && members[i].0 == key
    ensures forall j | 0 <= j < i :: members[j].0 != key
  {
    if members[0].0 == key then 0
    else
      assert HasKey(members[1..], key) by {
        var i :| 0 <= i < |members| && members[i].0 == key;
        assert members[1..][i - 1].0 == key;
      }
      1 + KeyIndex(members[1..], key)
  }

  /**
   * Python's `d[key] = v` on a dict given by its items in insertion order:
   * a key already present keeps its position and takes the new value, a new
   * key goes last.
   */
  function Insert(items: seq<(string, JsonValue)>, key: string, v: JsonValue): (r: seq<(string, JsonValue)>)
    ensures forall k :: HasKey(r, k) <==> HasKey(items, k) || k == key
    ensures DistinctKeys(items) ==> forall i | 0 <= i < |r| && r[i].0 == key :: r[i].1 == v
    ensures forall i | 0 <= i < |r| && r[i].0 != key :: i < |items| && r[i] == items[i]
    ensures DistinctKeys(items) ==> DistinctKeys(r)
  {
    if HasKey(items, key) then
      var i := KeyIndex(items, key);
      assert forall k :: HasKey(items, k) ==> HasKey(items[i := (key, v)], k) by {
        forall k | HasKey(items, k) ensures HasKey(items[i := (key, v)], k) {
          var j :| 0 <= j < |items| && items[j].0 == k;
          assert items[i := (key, v)][j].0 == k;
        }
      }
      items[i := (key, v)]
    else
      assert HasKey(items + [(key, v)], key) by {
        assert (items + [(key, v)])[|items|].0 == key;
      }
      assert forall k :: HasKey(items, k) ==> HasKey(items + [(key, v)], k) by {
        forall k | HasKey(items, k) ensures HasKey(items + [(key, v)], k) {
          var j :| 0 <= j < |items| && items[j].0 == k;
          assert (items + [(key, v)])[j].0 == k;
        }
      }
      items + [(key, v)]
  }

  /**
   * `obj.items()` of the dict `json.loads` builds from an object's members:
   * each key once, at the position of its first member, holding the value
   * of its last member.
   */
  function Items(members: seq<(string, JsonValue)>): (items: seq<(string, JsonValue)>)
    ensures forall k :: HasKey(items, k) <==> HasKey(members, k)
    ensures DistinctKeys(items)
    decreases |members|
  {
    if members == [] then []
    else
      var init := members[..|members| - 1];
      var last := members[|members| - 1];
      var r := Insert(Items(init), last.0, last.1);
      assert forall k :: HasKey(members, k) <==> HasKey(init, k) || k == last.0 by {
        forall k ensures HasKey(members, k) <==> HasKey(init, k) || k == last.0 {
          if HasKey(init, k) {
            var j :| 0 <= j < |init| && init[j].0 == k;
            assert members[j].0 == k;
          }
          if HasKey(members, k) && k != last.0 {
            var j :| 0 <= j < |members| && members[j].0 == k;
            assert init[j].0 == k;
          }
        }
      }
      r
  }

  /** Each item holds the value of the last member with its key, as `obj[key]` reads it. */
  lemma {:induction false} ItemsValues(members: seq<(string, JsonValue)>)
    ensures forall i | 0 <= i < |Items(members)| :: HasKey(members, Items(members)[i].0) && Items(members)[i].1 == Get(members, Items(members)[i].0)
    decreases |members|
  {
    if members != [] {
      var init := members[..|members| - 1];
      var last := members[|members| - 1];
      var items := Items(members);
      assert items == Insert(Items(init), last.0, last.1);
      ItemsValues(init);
      forall i | 0 <= i < |items| ensures HasKey(members, items[i].0) && items[i].1 == Get(members, items[i].0) {
        var k := items[i].0;
        if k != last.0 {
          assert items[i] == Items(init)[i];
          var j :| 0 <= j < |init| && init[j].0 == k;
          assert members[j].0 == k;
        }
      }
    }
  }

  /** One member makes a dict with that one item. */
  lemma ItemsOfOne(m: (string, JsonValue))
    ensures Items([m]) == [m]
  {
    var none: seq<(string, JsonValue)> := [];
    assert [m][..0] == none;
  }

  /** Storing under the only key of a one-item dict replaces its value. */
  lemma InsertOverOne(key: string, a: JsonValue, b: JsonValue)
    ensures Insert([(key, a)], key, b) == [(key, b)]
  {
    assert [(key, a)][0].0 == key;
    assert KeyIndex([(key, a)], key) == 0;
  }

  /** Two members with one key make a dict with one item, holding the second value. */
  lemma ItemsOfRepeatedKey(key: string, a: JsonValue, b: JsonValue)
    ensures Items([(key, a), (key, b)]) == [(key, b)]
  {
    var members := [(key, a), (key, b)];
    assert members[..1] == [(key, a)];
    assert Items(members) == Insert(Items([(key, a)]), key, b);
    ItemsOfOne((key, a));
    InsertOverOne(key, a, b);
  }

  /** Python's `obj.get(key, default)`. */
  function GetOr(members: seq<(string, JsonValue)>, key: string, default: JsonValue): (v: JsonValue)
    ensures !HasKey(members, key) ==> v == default
    ensures HasKey(members, key) ==> v == Get(members, key)
  {
    if HasKey(members, key) then Get(members, key) else default
  }
}
