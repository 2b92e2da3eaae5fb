/**
 * Pub/Sub recordings. `normalizeValue` walks a JSON value in sorted key order, blanks clock values
 * and names generated ids through the shared registry. Two runs of one program compare equal
 * exactly when they differ by a renaming of ids, clock values and object key order.
 */
module PubSub {
  import opened Text
  import opened Sorting
  import opened Json
  import opened Canonical
  import opened Registry

  const TIME_KEYS: set<string> := {
    "publishTime", "publish_time", "expireTime", "revisionCreateTime", "createTime", "updateTime",
    "CloudPubSubDeadLetterSourceTopicPublishTime"
  }

  const TIME := "{{time}}"

  /** The kind under which a string at this key is registered. */
  function KeyKind(key: Key): (r: Option<string>)
    ensures r.Some? ==> ':' !in r.value
  {
    if key.None? then None
    else match key.value
      case "messageId" => Some("messageId")
      case "message_id" => Some("messageId")
      case "ackId" => Some("ackId")
      case "revisionId" => Some("revisionId")
      case "firstRevisionId" => Some("revisionId")
      case "lastRevisionId" => Some("revisionId")
      case "googclient_schemarevisionid" => Some("revisionId")
      case _ => None
  }

  /** The kind under which the elements of an array at this key are registered. */
  function ArrayKind(key: Key): (r: Option<string>)
    ensures r.Some? ==> ':' !in r.value
  {
    if key == Some("messageIds") then Some("messageId") else None
  }

  /** `/^\d{4}-\d{2}-\d{2}T/`. */
  predicate StartsWithDate(s: string) {
    && |s| >= 11
    && IsDigit(s[0]) && IsDigit(s[1]) && IsDigit(s[2]) && IsDigit(s[3]) && s[4] == '-'
    && IsDigit(s[5]) && IsDigit(s[6]) && s[7] == '-'
    && IsDigit(s[8]) && IsDigit(s[9]) && s[10] == 'T'
  }

  predicate IsTimeLike(v: Value) {
    match v
    case Str(s) => StartsWithDate(s)
    case Obj(entries) =>
      entries != [] && forall i :: 0 <= i < |entries| ==> entries[i].0 == "seconds" || entries[i].0 == "nanos"
    case _ => false
  }

  /** Values replaced by `{{time}}`. */
  predicate Blanked(v: Value, key: Key) {
    || (key.Some? && key.value in TIME_KEYS && IsTimeLike(v))
    || (key == Some("nextPageToken") && v.Str? && StartsWithDate(v.text))
  }

  // ----- schema names carry a revision as `name@revision` -----

  function BeforeAt(s: string): (r: string)
    ensures '@' !in r
  {
    if s == "" || s[0] == '@' then "" else [s[0]] + BeforeAt(s[1..])
  }

  function AfterAt(s: string): string {
    if s == "" then "" else if s[0] == '@' then s[1..] else AfterAt(s[1..])
  }

  /** The second part of `split("@")`; a third part is dropped. */
  function Revision(s: string): string {
    BeforeAt(AfterAt(s))
  }

  predicate CarriesRevision(s: string, key: Key) {
    key == Some("name") && '@' in s && Revision(s) != ""
  }

  // ----- the walk -----

  /** Names one id and advances the registry. */
  function NormalizeText(s: string, step: string, names: Names, key: Key): (r: (Value, Names)) {
    if KeyKind(key).Some? && s != "" then
      var (after, t) := Registered(names, KeyKind(key).value, step, s);
      (Str(t), after)
    else if CarriesRevision(s, key) then
      var (after, t) := Registered(names, "revisionId", step, Revision(s));
      (Str(BeforeAt(s) + "@" + t), after)
    else (Str(s), names)
  }

  predicate IsId(v: Value) {
    v.Str? && v.text != ""
  }

  function NormalizeId(item: Value, kind: string, step: string, names: Names): (r: (Value, Names)) {
    if IsId(item) then
      var (after, t) := Registered(names, kind, step, item.text);
      (Str(t), after)
    else (item, names)
  }

  function NormalizeIds(items: seq<Value>, kind: string, step: string, names: Names): (r: (seq<Value>, Names))
    ensures |r.0| == |items|
    decreases |items|
  {
    if items == [] then ([], names)
    else
      var (h, n1) := NormalizeId(items[0], kind, step, names);
      var (t, n2) := NormalizeIds(items[1..], kind, step, n1);
      ([h] + t, n2)
  }

  function Normalize(v: Value, step: string, names: Names, key: Key): (r: (Value, Names))
    decreases Size(v), 0, 1
  {
    if Blanked(v, key) then (Str(TIME), names)
    else match v
      case Arr(items) =>
        var (out, after) := NormalizeList(items, step, names, key);
        (Arr(out), after)
      case Obj(entries) =>
        SizeSorted(entries);
        var (out, after) := NormalizeEntries(SortPairs(entries), step, names);
        (Obj(out), after)
      case Str(s) => NormalizeText(s, step, names, key)
      case _ => (v, names)
  }

  function NormalizeList(items: seq<Value>, step: string, names: Names, key: Key): (r: (seq<Value>, Names))
    ensures |r.0| == |items|
    decreases SizeItems(items), |items|, 1
  {
    if ArrayKind(key).Some? then NormalizeIds(items, ArrayKind(key).value, step, names)
    else NormalizeItems(items, step, names)
  }

  function NormalizeItems(items: seq<Value>, step: string, names: Names): (r: (seq<Value>, Names))
    ensures |r.0| == |items|
    decreases SizeItems(items), |items|, 0
  {
    if items == [] then ([], names)
    else
      var (h, n1) := Normalize(items[0], step, names, None);
      var (t, n2) := NormalizeItems(items[1..], step, n1);
      ([h] + t, n2)
  }

  function NormalizeEntries(entries: seq<(string, Value)>, step: string,
                            names: Names): (r: (seq<(string, Value)>, Names))
    ensures |r.0| == |entries|
    ensures forall i :: 0 <= i < |entries| ==> r.0[i].0 == entries[i].0
    decreases SizeEntries(entries), |entries|, 0
  {
    if entries == [] then ([], names)
    else
      var e := entries[0];
      assert SizeEntry(e) == Size(e.1);
      var (h, n1) := Normalize(e.1, step, names, Some(e.0));
      var (t, n2) := NormalizeEntries(entries[1..], step, n1);
      ([(e.0, h)] + t, n2)
  }

  /** The walk as the harness runs it, updating the shared registry in visit order. */
  method NormalizeValue(v: Value, step: string, registry: Registry, key: Key) returns (out: Value)
    modifies registry
    ensures (out, registry.State()) == Normalize(v, step, old(registry.State()), key)
    decreases Size(v), 0
  {
    if Blanked(v, key) {
      return Str(TIME);
    }
    match v {
      case Arr(items) =>
        var result;
        if ArrayKind(key).Some? {
          result := NormalizeIdArray(items, ArrayKind(key).value, step, registry);
        } else {
          result := NormalizeArray(items, step, registry);
        }
        out := Arr(result);
      case Obj(entries) =>
        SizeSorted(entries);
        var result := NormalizeMembers(SortPairs(entries), step, registry);
        out := Obj(result);
      case Str(s) =>
        if KeyKind(key).Some? && s != "" {
          var t := registry.Register(KeyKind(key).value, step, s, true);
          out := Str(t);
        } else if CarriesRevision(s, key) {
          var t := registry.Register("revisionId", step, Revision(s), true);
          out := Str(BeforeAt(s) + "@" + t);
        } else {
          out := v;
        }
      case _ =>
        out := v;
    }
  }

  method NormalizeIdArray(items: seq<Value>, kind: string, step: string, registry: Registry)
    returns (result: seq<Value>)
    modifies registry
    ensures (result, registry.State()) == NormalizeIds(items, kind, step, old(registry.State()))
  {
    result := [];
    assert items[0..] == items;
    for i := 0 to |items|
      invariant result + NormalizeIds(items[i..], kind, step, registry.State()).0
             == NormalizeIds(items, kind, step, old(registry.State())).0
      invariant NormalizeIds(items[i..], kind, step, registry.State()).1
             == NormalizeIds(items, kind, step, old(registry.State())).1
    {
      assert items[i..][1..] == items[i + 1..];
      if IsId(items[i]) {
        var t := registry.Register(kind, step, items[i].text, true);
        result := result + [Str(t)];
      } else {
        result := result + [items[i]];
      }
    }
    assert items[|items|..] == [] && result + [] == result;
  }

  method NormalizeArray(items: seq<Value>, step: string, registry: Registry) returns (result: seq<Value>)
    modifies registry
    ensures (result, registry.State()) == NormalizeItems(items, step, old(registry.State()))
    decreases SizeItems(items), 1
  {
    result := [];
    assert items[0..] == items;
    for i := 0 to |items|
      invariant result + NormalizeItems(items[i..], step, registry.State()).0
             == NormalizeItems(items, step, old(registry.State())).0
      invariant NormalizeItems(items[i..], step, registry.State()).1
             == NormalizeItems(items, step, old(registry.State())).1
    {
      SizeOfItem(items, i);
      assert items[i..][1..] == items[i + 1..];
      var item := NormalizeValue(items[i], step, registry, None);
      result := result + [item];
    }
    assert items[|items|..] == [] && result + [] == result;
  }

  method NormalizeMembers(sorted: seq<(string, Value)>, step: string, registry: Registry)
    returns (result: seq<(string, Value)>)
    modifies registry
    ensures (result, registry.State()) == NormalizeEntries(sorted, step, old(registry.State()))
    decreases SizeEntries(sorted), 1
  {
    result := [];
    assert sorted[0..] == sorted;
    for i := 0 to |sorted|
      invariant result + NormalizeEntries(sorted[i..], step, registry.State()).0
             == NormalizeEntries(sorted, step, old(registry.State())).0
      invariant NormalizeEntries(sorted[i..], step, registry.State()).1
             == NormalizeEntries(sorted, step, old(registry.State())).1
    {
      SizeOfEntry(sorted, i);
      assert sorted[i..][1..] == sorted[i + 1..];
      var child := NormalizeValue(sorted[i].1, step, registry, Some(sorted[i].0));
      result := result + [(sorted[i].0, child)];
    }
    assert sorted[|sorted|..] == [] && result + [] == result;
  }
}
