/**
 * The non-I/O part of `recommender/data_loader.py`: pulling the list out of
 * a wrapped JSON document, normalising its entries into place records or id
 * strings, injecting the source tag, and assembling the four-list snapshot
 * that `get_all_data` hands to the service.
 */
module Loader {
  import opened Wrappers
  import opened Json
  import opened Scoring

  /** The wrapper keys searched, in order, before `features`. */
  const ListKeys: seq<string> := ["data", "results", "items", "places", "list"]

  /** Index of the first wrapper key whose value is a list. */
  function FirstListKey(m: map<string, Json>, keys: seq<string>): (r: Option<nat>)
    ensures r.Some? ==> r.value < |keys| && Get(m, keys[r.value]).JList?
    ensures r.Some? ==> forall j :: 0 <= j < r.value ==> !Get(m, keys[j]).JList?
    ensures r.None? <==> forall j :: 0 <= j < |keys| ==> !Get(m, keys[j]).JList?
  {
    if keys == [] then None
    else if Get(m, keys[0]).JList? then Some(0)
    else
      match FirstListKey(m, keys[1..])
      case None => None
      case Some(i) => Some(i + 1)
  }

  /**
   * `_extract_list`: a list is itself; a dict yields the list under the first
   * of `data`, `results`, `items`, `places`, `list` that holds one, else a
   * `features` list; anything else yields the empty list.
   */
  function ExtractList(obj: Json): (xs: seq<Json>)
    ensures obj.JList? ==> xs == obj.items
    ensures obj.JObj? ==>
      (exists i :: 0 <= i < |ListKeys| && Get(obj.fields, ListKeys[i]) == JList(xs) &&
         forall j :: 0 <= j < i ==> !Get(obj.fields, ListKeys[j]).JList?)
      || ((forall j :: 0 <= j < |ListKeys| ==> !Get(obj.fields, ListKeys[j]).JList?) &&
          (if Get(obj.fields, "features").JList? then Get(obj.fields, "features") == JList(xs) else xs == []))
    ensures !obj.JList? && !obj.JObj? ==> xs == []
  {
    match obj
    case JList(items) => items
    case JObj(m) =>
      (match FirstListKey(m, ListKeys)
       case Some(i) => Get(m, ListKeys[i]).items
       case None => if Get(m, "features").JList? then Get(m, "features").items else [])
    case _ => []
  }

  // ---------------------------------------------------------------------------
  // Place records
  // ---------------------------------------------------------------------------

  /** The display-name fields, in priority order. */
  const NameFields: seq<string> := ["name", "title", "place_name", "id"]

  /**
   * One entry of `_to_place_dict_list`. A dict is copied, its `name` set to
   * the first truthy of `name`, `title`, `place_name`, `id` (kept as it was
   * when none is truthy) and its `tags` set to `[]` when missing or null;
   * any other entry `x` becomes `{id: str(x), name: str(x), tags: []}`.
   */
  function NormalisePlace(x: Json): (r: Record)
    ensures "tags" in r && r["tags"] != JNull
    ensures x.JObj? ==>
      var m := x.fields;
      && r.Keys == m.Keys + {"tags"} + (if Truthy(FirstTruthy(m, NameFields)) then {"name"} else {})
      && (forall k :: k in m && k != "name" && k != "tags" ==> r[k] == m[k])
      && Get(r, "name") == (if Truthy(FirstTruthy(m, NameFields)) then FirstTruthy(m, NameFields) else Get(m, "name"))
      && r["tags"] == (if "tags" in m && m["tags"] != JNull then m["tags"] else JList([]))
    ensures !x.JObj? ==>
      r.Keys == {"id", "name", "tags"} &&
      r["id"] == JStr(PyStr(x)) && r["name"] == JStr(PyStr(x)) && r["tags"] == JList([])
  {
    match x
    case JObj(m) =>
      var name := FirstTruthy(m, NameFields);
      var named := if Truthy(name) then m["name" := name] else m;
      assert named.Keys == m.Keys + (if Truthy(name) then {"name"} else {});
      var r := if "tags" !in named || named["tags"] == JNull then named["tags" := JList([])] else named;
      assert r.Keys == named.Keys + {"tags"};
      r
    case _ =>
      var sx := JStr(PyStr(x));
      map["id" := sx, "name" := sx, "tags" := JList([])]
  }

  /** `_to_place_dict_list`: one normalised record per entry, in order. */
  method ToPlaceDictList(xs: seq<Json>) returns (out: seq<Record>)
    ensures |out| == |xs|
    ensures forall i :: 0 <= i < |xs| ==> out[i] == NormalisePlace(xs[i])
  {
    out := [];
    var i := 0;
    while i < |xs|
      invariant 0 <= i <= |xs|
      invariant |out| == i
      invariant forall j :: 0 <= j < i ==> out[j] == NormalisePlace(xs[j])
    {
      var rec := NormaliseEntry(xs[i]);
      out := out + [rec];
      i := i + 1;
    }
  }

  /** The body of the `_to_place_dict_list` loop for one entry `x`. */
  method NormaliseEntry(x: Json) returns (rec: Record)
    ensures rec == NormalisePlace(x)
  {
    if x.JObj? {
      var name := FirstTruthy(x.fields, NameFields);
      rec := x.fields;
      if Truthy(name) {
        rec := rec["name" := name];
      }
      ghost var named := rec;
      if "tags" !in rec || rec["tags"] == JNull {
        rec := rec["tags" := JList([])];
      }
      NormalisePlaceSteps(x.fields, named, rec);
    } else {
      var sx := JStr(PyStr(x));
      rec := map["id" := sx, "name" := sx, "tags" := JList([])];
    }
  }

  /** The two updates of `_to_place_dict_list`, in the order the loop makes them. */
  lemma NormalisePlaceSteps(m: map<string, Json>, named: Record, rec: Record)
    requires named == if Truthy(FirstTruthy(m, NameFields)) then m["name" := FirstTruthy(m, NameFields)] else m
    requires rec == if "tags" !in named || named["tags"] == JNull then named["tags" := JList([])] else named
    ensures rec == NormalisePlace(JObj(m))
  {
  }

  /**
   * Normalisation gives a dict an identity exactly when it had one or carries
   * a truthy `title` or `place_name`, which becomes its `name`.
   */
  lemma NormaliseIdentity(m: map<string, Json>)
    ensures HasId(NormalisePlace(JObj(m))) <==>
      HasId(m) || Truthy(Get(m, "title")) || Truthy(Get(m, "place_name"))
  {
    var r := NormalisePlace(JObj(m));
    var name := FirstTruthy(m, NameFields);
    assert Truthy(name) <==>
      (Truthy(Get(m, "name")) || Truthy(Get(m, "title")) || Truthy(Get(m, "place_name")) || Truthy(Get(m, "id"))) by {
      assert NameFields[0] == "name" && NameFields[1] == "title";
      assert NameFields[2] == "place_name" && NameFields[3] == "id";
    }
    assert Truthy(Get(r, "name")) <==> Truthy(name);
    assert Get(r, "id") == Get(m, "id");
    assert Get(r, "placeId") == Get(m, "placeId");
    assert Get(r, "place_id") == Get(m, "place_id");
  }

  // ---------------------------------------------------------------------------
  // Id lists
  // ---------------------------------------------------------------------------

  /**
   * What one entry of `_as_id_list` contributes: `str` of a dict's identity,
   * nothing for a dict without one, `str(x)` for anything else.
   */
  function IdEntry(x: Json): (r: Option<string>)
    ensures x.JObj? ==> (r.Some? <==> HasId(x.fields))
    ensures x.JObj? && r.Some? ==> r.value == PyStr(ToId(x.fields))
    ensures !x.JObj? ==> r == Some(PyStr(x))
  {
    match x
    case JObj(m) => if HasId(m) then Some(PyStr(ToId(m))) else None
    case _ => Some(PyStr(x))
  }

  /** The id strings of a list, in order; never more than one per entry. */
  function IdsOf(xs: seq<Json>): (ids: seq<string>)
    ensures |ids| <= |xs|
    decreases |xs|
  {
    if xs == [] then []
    else
      var pre := IdsOf(xs[..|xs| - 1]);
      match IdEntry(xs[|xs| - 1])
      case None => pre
      case Some(s) => pre + [s]
  }

  /** `_as_id_list`. */
  method AsIdList(xs: seq<Json>) returns (out: seq<string>)
    ensures out == IdsOf(xs)
  {
    out := [];
    var i := 0;
    while i < |xs|
      invariant 0 <= i <= |xs|
      invariant out == IdsOf(xs[..i])
    {
      var x := xs[i];
      if x.JObj? {
        var pid := ToId(x.fields);
        if Truthy(pid) {
          out := out + [PyStr(pid)];
        }
      } else {
        out := out + [PyStr(x)];
      }
      assert xs[..i + 1][..i] == xs[..i];
      i := i + 1;
    }
    assert xs[..i] == xs;
  }

  /** Order is preserved: the ids of a concatenation are the concatenated ids. */
  lemma {:induction false} IdsOfAppend(a: seq<Json>, b: seq<Json>)
    ensures IdsOf(a + b) == IdsOf(a) + IdsOf(b)
    decreases |b|
  {
    if b != [] {
      var b' := b[..|b| - 1];
      assert (a + b)[..|a + b| - 1] == a + b';
      assert (a + b)[|a + b| - 1] == b[|b| - 1];
      IdsOfAppend(a, b');
    } else {
      assert a + b == a;
    }
  }

  /** Some entry of the list contributes the id string `s`. */
  predicate Contributes(xs: seq<Json>, s: string) {
    exists i :: 0 <= i < |xs| && IdEntry(xs[i]) == Some(s)
  }

  /** A string is listed exactly when some entry contributes it. */
  lemma {:induction false} IdsOfMembers(xs: seq<Json>, s: string)
    ensures s in IdsOf(xs) <==> Contributes(xs, s)
    decreases |xs|
  {
    if xs != [] {
      var n := |xs| - 1;
      IdsOfMembers(xs[..n], s);
      IdsOfLast(xs, s);
      ContributesLast(xs, s);
    }
  }

  lemma IdsOfLast(xs: seq<Json>, s: string)
    requires xs != []
    ensures s in IdsOf(xs) <==> s in IdsOf(xs[..|xs| - 1]) || IdEntry(xs[|xs| - 1]) == Some(s)
  {
    var pre := IdsOf(xs[..|xs| - 1]);
    var e := IdEntry(xs[|xs| - 1]);
    assert IdsOf(xs) == if e.Some? then pre + [e.value] else pre;
  }

  lemma ContributesLast(xs: seq<Json>, s: string)
    requires xs != []
    ensures Contributes(xs, s) <==> Contributes(xs[..|xs| - 1], s) || IdEntry(xs[|xs| - 1]) == Some(s)
  {
    var n := |xs| - 1;
    var init := xs[..n];
    if Contributes(xs, s) {
      var i :| 0 <= i < |xs| && IdEntry(xs[i]) == Some(s);
      if i < n {
        assert init[i] == xs[i];
        assert Contributes(init, s);
      } else {
        assert i == n;
      }
    }
    if Contributes(init, s) {
      var i :| 0 <= i < |init| && IdEntry(init[i]) == Some(s);
      assert xs[i] == init[i];
      assert Contributes(xs, s);
    }
    if IdEntry(xs[n]) == Some(s) {
      assert Contributes(xs, s);
    }
  }

  /** A list of strings is its own id list. */
  lemma {:induction false} IdsOfStrings(xs: seq<Json>)
    requires forall i :: 0 <= i < |xs| ==> xs[i].JStr?
    ensures |IdsOf(xs)| == |xs|
    ensures forall i :: 0 <= i < |xs| ==> IdsOf(xs)[i] == xs[i].s
    decreases |xs|
  {
    if xs != [] {
      IdsOfStrings(xs[..|xs| - 1]);
    }
  }

  // ---------------------------------------------------------------------------
  // Source tags
  // ---------------------------------------------------------------------------

  /** `p.get("tags") or []`, turned into a list: a non-list value becomes `[str(value)]`. */
  function PriorTags(r: Record): (ts: seq<Json>)
    ensures Truthy(Get(r, "tags")) && Get(r, "tags").JList? ==> ts == Get(r, "tags").items
    ensures !Truthy(Get(r, "tags")) ==> ts == []
    ensures Truthy(Get(r, "tags")) && !Get(r, "tags").JList? ==> ts == [JStr(PyStr(Get(r, "tags")))]
  {
    var t := Get(r, "tags");
    if !Truthy(t) then [] else if t.JList? then t.items else [JStr(PyStr(t))]
  }

  /** What `_ensure_tag` does to one record. */
  function TagRecord(r: Record, tag: string): (t: Record)
    ensures t.Keys == r.Keys + {"tags", "main_category"}
  {
    var ts := PriorTags(r);
    var tagged := r["tags" := JList(if JStr(tag) in ts then ts else ts + [JStr(tag)])];
    if "main_category" in r then tagged else tagged["main_category" := JStr(tag)]
  }

  /** `_ensure_tag`: tags every record of the list in place. */
  method EnsureTag(a: array<Record>, tag: string)
    modifies a
    ensures forall i :: 0 <= i < a.Length ==> a[i] == TagRecord(old(a[i]), tag)
  {
    var i := 0;
    while i < a.Length
      invariant 0 <= i <= a.Length
      invariant forall j :: 0 <= j < i ==> a[j] == TagRecord(old(a[j]), tag)
      invariant forall j :: i <= j < a.Length ==> a[j] == old(a[j])
    {
      var p := a[i];
      var tags := Get(p, "tags");
      if !Truthy(tags) {
        tags := JList([]);
      }
      if !tags.JList? {
        tags := JList([JStr(PyStr(tags))]);
      }
      if JStr(tag) !in tags.items {
        tags := JList(tags.items + [JStr(tag)]);
      }
      p := p["tags" := tags];
      if "main_category" !in p {
        p := p["main_category" := JStr(tag)];
      }
      a[i] := p;
      i := i + 1;
    }
  }

  /**
   * After tagging, `tags` is a list holding the tag; the prior tags are kept
   * in order as its prefix, and the tag is appended only when it was absent.
   */
  lemma TagRecordTags(r: Record, tag: string)
    ensures Get(TagRecord(r, tag), "tags").JList?
    ensures var ts := Get(TagRecord(r, tag), "tags").items;
      && JStr(tag) in ts
      && ts[..|PriorTags(r)|] == PriorTags(r)
      && |ts| == |PriorTags(r)| + (if JStr(tag) in PriorTags(r) then 0 else 1)
    ensures HasTag(TagsOf(TagRecord(r, tag)), tag)
  {
  }

  /** `main_category` is written only when absent: the first tag wins. */
  lemma TagRecordCategory(r: Record, tag: string)
    ensures Get(TagRecord(r, tag), "main_category") ==
      (if "main_category" in r then r["main_category"] else JStr(tag))
    ensures forall k :: k in r && k != "tags" && k != "main_category" ==> TagRecord(r, tag)[k] == r[k]
    ensures TagRecord(r, tag).Keys == r.Keys + {"tags", "main_category"}
  {
  }

  /** Tagging twice with the same tag is tagging once. */
  lemma TagRecordIdempotent(r: Record, tag: string)
    ensures TagRecord(TagRecord(r, tag), tag) == TagRecord(r, tag)
  {
    var once := TagRecord(r, tag);
    TagRecordTags(r, tag);
    assert Truthy(Get(once, "tags"));
    assert PriorTags(once) == Get(once, "tags").items;
  }

  /** Tagging with a second source keeps the first source as `main_category`. */
  lemma TagRecordFirstWins(r: Record, t1: string, t2: string)
    ensures Get(TagRecord(TagRecord(r, t1), t2), "main_category") ==
      (if "main_category" in r then r["main_category"] else JStr(t1))
  {
  }

  // ---------------------------------------------------------------------------
  // Snapshot
  // ---------------------------------------------------------------------------

  /** The data `get_all_data` returns: both place lists and both hidden-gem id lists. */
  datatype Snapshot = Snapshot(
    neuAll: seq<Record>,
    hotAll: seq<Record>,
    neuLow: seq<string>,
    hotLow: seq<string>)

  /** A raw place list, extracted, normalised and tagged with its source. */
  function PlacesFrom(raw: Json, tag: string): (ps: seq<Record>)
    ensures |ps| == |ExtractList(raw)|
    ensures forall i :: 0 <= i < |ps| ==> ps[i] == TagRecord(NormalisePlace(ExtractList(raw)[i]), tag)
  {
    var xs := ExtractList(raw);
    seq(|xs|, i requires 0 <= i < |xs| => TagRecord(NormalisePlace(xs[i]), tag))
  }

  /** The places of one source file: extracted, normalised, then tagged in place. */
  method LoadPlaces(raw: Json, tag: string) returns (ps: seq<Record>)
    ensures ps == PlacesFrom(raw, tag)
  {
    var xs := ExtractList(raw);
    var recs := ToPlaceDictList(xs);
    var a := new Record[|recs|](i requires 0 <= i < |recs| => recs[i]);
    EnsureTag(a, tag);
    ps := a[..];
  }

  /**
   * The snapshot `_bootstrap_data` builds from the four parsed files; the
   * reading and parsing of the files are not part of this model.
   */
  method LoadSnapshot(rawNeuAll: Json, rawHotAll: Json, rawNeuLow: Json, rawHotLow: Json)
    returns (snap: Snapshot)
    ensures snap.neuAll == PlacesFrom(rawNeuAll, Neujoh)
    ensures snap.hotAll == PlacesFrom(rawHotAll, Hotple)
    ensures snap.neuLow == IdsOf(ExtractList(rawNeuLow))
    ensures snap.hotLow == IdsOf(ExtractList(rawHotLow))
  {
    var neuAll := LoadPlaces(rawNeuAll, Neujoh);
    var hotAll := LoadPlaces(rawHotAll, Hotple);
    var neuLow := AsIdList(ExtractList(rawNeuLow));
    var hotLow := AsIdList(ExtractList(rawHotLow));
    snap := Snapshot(neuAll, hotAll, neuLow, hotLow);
  }

  /**
   * Every loaded place carries its source tag and keeps a list of tags, so a
   * bias equal to its source always earns the bias bonus.
   */
  lemma LoadedPlacesTagged(raw: Json, tag: string, i: int)
    requires 0 <= i < |PlacesFrom(raw, tag)|
    ensures HasTag(TagsOf(PlacesFrom(raw, tag)[i]), tag)
    ensures tag == Neujoh || tag == Hotple ==>
      BiasBonus(Some(tag), TagsOf(PlacesFrom(raw, tag)[i])) == WeightKeyword * 0.9
  {
    TagRecordTags(NormalisePlace(ExtractList(raw)[i]), tag);
  }
}
