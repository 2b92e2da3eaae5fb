/**
 * What the Pub/Sub walk does at each key, with the keys and texts written out: seven keys name ids,
 * `messageIds` names its elements, seven keys and `nextPageToken` blank clock values, `name` names a
 * revision, and every other string stays.
 */
module RecordedKeys {
  import opened Text
  import opened Json
  import opened Canonical
  import opened Registry
  import opened PubSub
  import opened TwoRuns
  import opened Recordings

  // ----- ids -----

  /** A registry that every later name of a plan without clashing steps resolves in. */
  ghost predicate Sound(names: Names, step: string, steps: set<string>) {
    Valid(names, steps) && !Clash(steps) && step in steps
  }

  /** `t` names `raw` in `after`; a value new to `before` gets a name made of its kind and step. */
  ghost predicate NamedAs(before: Names, after: Names, kind: string, step: string, raw: string, t: string) {
    && t in after.values && after.values[t] == raw
    && (raw !in before.templates ==> exists n: nat :: n >= 1 && Spelled(t, kind, step, n))
    && (raw !in before.templates && kind + ":" + step !in before.counters ==> Spelled(t, kind, step, 1))
  }

  /** `{{kind:step}}`, and from the second name of a step on `{{kind:step#n}}`. */
  predicate Spelled(t: string, kind: string, step: string, n: nat) {
    t == "{{" + (kind + ":" + (step + if n == 1 then "" else "#" + Decimal(n))) + "}}"
  }

  lemma RegisteredAs(names: Names, steps: set<string>, kind: string, step: string, raw: string)
    requires Sound(names, step, steps) && ':' !in kind
    ensures var (after, t) := Registered(names, kind, step, raw); NamedAs(names, after, kind, step, raw, t)
  {
    RegisterResolves(names, steps, kind, step, raw);
    var n := NextCount(names, kind, step);
    assert Spelled(Template(kind, step, n), kind, step, n);
  }

  /** A non-empty string at one of the seven id keys becomes a name of the listed kind that resolves to it. */
  lemma IdKeysName(key: string, kind: string, s: string, step: string, names: Names, steps: set<string>)
    requires
      || (key == "messageId" && kind == "messageId") || (key == "message_id" && kind == "messageId")
      || (key == "ackId" && kind == "ackId")
      || (key == "revisionId" && kind == "revisionId") || (key == "firstRevisionId" && kind == "revisionId")
      || (key == "lastRevisionId" && kind == "revisionId")
      || (key == "googclient_schemarevisionid" && kind == "revisionId")
    requires s != "" && Sound(names, step, steps)
    ensures var (out, after) := Normalize(Str(s), step, names, Some(key));
      out.Str? && NamedAs(names, after, kind, step, s, out.text)
  {
    assert KeyKind(Some(key)) == Some(kind);
    assert !Blanked(Str(s), Some(key));
    RegisteredAs(names, steps, kind, step, s);
  }

  /** So do the non-empty strings of an array at `messageIds`; its other elements stay. */
  lemma MessageIdsName(items: seq<Value>, step: string, names: Names, steps: set<string>)
    requires Sound(names, step, steps)
    ensures var (out, after) := Normalize(Arr(items), step, names, Some("messageIds"));
      && out.Arr? && |out.items| == |items|
      && forall i :: 0 <= i < |items| ==>
           if items[i].Str? && items[i].text != ""
           then out.items[i].Str? && out.items[i].text in after.values
                && after.values[out.items[i].text] == items[i].text
           else out.items[i] == items[i]
  {
    assert !Blanked(Arr(items), Some("messageIds"));
    IdsResolve(items, "messageId", step, names, steps);
  }

  ghost predicate IdResolves(item: Value, out: Value, after: Names) {
    if item.Str? && item.text != ""
    then out.Str? && out.text in after.values && after.values[out.text] == item.text
    else out == item
  }

  lemma {:induction false} IdsResolve(items: seq<Value>, kind: string, step: string, names: Names, steps: set<string>)
    requires Sound(names, step, steps) && ':' !in kind
    ensures var (out, after) := NormalizeIds(items, kind, step, names);
      ResolvesOn(names, after) && forall i :: 0 <= i < |items| ==> IdResolves(items[i], out[i], after)
    decreases |items|
  {
    if items != [] {
      var (h, n1) := NormalizeId(items[0], kind, step, names);
      var (t, n2) := NormalizeIds(items[1..], kind, step, n1);
      if IsId(items[0]) {
        RegisterResolves(names, steps, kind, step, items[0].text);
      }
      IdsResolve(items[1..], kind, step, n1, steps);
      forall i | 0 <= i < |items|
        ensures IdResolves(items[i], ([h] + t)[i], n2)
      {
        if i > 0 {
          assert IdResolves(items[1..][i - 1], t[i - 1], n2);
        }
      }
    }
  }

  /** Names resolve as before. */
  ghost predicate ResolvesOn(names: Names, after: Names) {
    forall t :: t in names.values ==> t in after.values && after.values[t] == names.values[t]
  }

  // ----- clock values -----

  predicate Digits(s: string, n: nat) {
    |s| == n && forall i :: 0 <= i < n ==> '0' <= s[i] <= '9'
  }

  /** A text that begins with a date and `T`, as four, two and two digits. */
  ghost predicate BeginsWithDate(s: string) {
    exists y, m, d, rest :: DateParts(s, y, m, d, rest)
  }

  predicate DateParts(s: string, y: string, m: string, d: string, rest: string) {
    Digits(y, 4) && Digits(m, 2) && Digits(d, 2) && s == y + "-" + m + "-" + d + "T" + rest
  }

  lemma DateIff(s: string)
    ensures StartsWithDate(s) <==> BeginsWithDate(s)
  {
    if StartsWithDate(s) {
      assert DateParts(s, s[..4], s[5..7], s[8..10], s[11..]);
    }
    if y, m, d, rest :| DateParts(s, y, m, d, rest) {
      DateSpelled(s, y, m, d, rest);
    }
  }

  lemma DateSpelled(s: string, y: string, m: string, d: string, rest: string)
    requires DateParts(s, y, m, d, rest)
    ensures StartsWithDate(s)
  {
    assert s[..4] == y && s[4] == '-' && s[5..7] == m && s[7] == '-' && s[8..10] == d && s[10] == 'T';
    assert s[0] == y[0] && s[1] == y[1] && s[2] == y[2] && s[3] == y[3];
    assert s[5] == m[0] && s[6] == m[1] && s[8] == d[0] && s[9] == d[1];
  }

  /** Seconds and nanoseconds, one of them at least. */
  predicate SecondsAndNanos(v: Value) {
    v.Obj? && v.entries != [] &&
    forall i :: 0 <= i < |v.entries| ==> v.entries[i].0 == "seconds" || v.entries[i].0 == "nanos"
  }

  predicate SpelledClockKey(key: string) {
    || key == "publishTime" || key == "publish_time" || key == "expireTime" || key == "revisionCreateTime"
    || key == "createTime" || key == "updateTime" || key == "CloudPubSubDeadLetterSourceTopicPublishTime"
  }

  /** What the walk blanks. */
  ghost predicate ClockValue(v: Value, key: Key) {
    key.Some? &&
    ((SpelledClockKey(key.value) && ((v.Str? && BeginsWithDate(v.text)) || SecondsAndNanos(v))) ||
     (key.value == "nextPageToken" && v.Str? && BeginsWithDate(v.text)))
  }

  lemma BlankedIff(v: Value, key: Key)
    ensures Blanked(v, key) <==> ClockValue(v, key)
  {
    if v.Str? {
      DateIff(v.text);
    }
  }

  /** A clock value at a clock key becomes `{{time}}` and names nothing. */
  lemma ClockKeysBlank(v: Value, step: string, names: Names, key: Key)
    requires ClockValue(v, key)
    ensures Normalize(v, step, names, key) == (Str("{{time}}"), names)
  {
    BlankedIff(v, key);
  }

  // ----- schema names and everything else -----

  /** A schema name with a revision: the part between the first `@` and the next one or the end. */
  predicate RevisionOf(s: string, base: string, revision: string) {
    && '@' !in base && '@' !in revision && revision != ""
    && (s == base + "@" + revision || StartsWith(s, base + "@" + revision + "@"))
  }

  lemma RevisionFound(s: string, base: string, revision: string)
    requires RevisionOf(s, base, revision)
    ensures '@' in s && BeforeAt(s) == base && Revision(s) == revision
  {
    var head := base + "@";
    if s == base + "@" + revision {
      AfterFirstAt(base, revision);
      NoAt(revision);
      assert s == base + "@" + revision;
    } else {
      var k := |base + "@" + revision + "@"|;
      var rest := s[k..];
      assert s == base + "@" + (revision + "@" + rest);
      AfterFirstAt(base, revision + "@" + rest);
      AfterFirstAt(revision, rest);
    }
  }

  /** A schema name keeps its base, and its revision becomes a name that resolves to it. */
  lemma SchemaNamesName(s: string, base: string, revision: string, step: string, names: Names, steps: set<string>)
    requires RevisionOf(s, base, revision) && Sound(names, step, steps)
    ensures var (out, after) := Normalize(Str(s), step, names, Some("name"));
      exists t :: out == Str(base + "@" + t) && NamedAs(names, after, "revisionId", step, revision, t)
  {
    RevisionFound(s, base, revision);
    RegisteredAs(names, steps, "revisionId", step, revision);
    var t := Registered(names, "revisionId", step, revision).1;
    assert Normalize(Str(s), step, names, Some("name")).0 == Str(base + "@" + t);
  }

  predicate SpelledIdKey(key: string) {
    || key == "messageId" || key == "message_id" || key == "ackId" || key == "revisionId"
    || key == "firstRevisionId" || key == "lastRevisionId" || key == "googclient_schemarevisionid"
  }

  /** Every other string stays and names nothing. */
  lemma OtherStringsStay(s: string, step: string, names: Names, key: Key)
    requires !ClockValue(Str(s), key)
    requires key.Some? && SpelledIdKey(key.value) ==> s == ""
    requires key == Some("name") ==> !exists base, revision :: RevisionOf(s, base, revision)
    ensures Normalize(Str(s), step, names, key) == (Str(s), names)
  {
    BlankedIff(Str(s), key);
    if CarriesRevision(s, key) {
      RevisionStands(s);
      assert false;
    }
  }

  lemma RevisionStands(s: string)
    requires '@' in s && Revision(s) != ""
    ensures RevisionOf(s, BeforeAt(s), Revision(s))
  {
    BeforeAfter(s);
    var base, rest := BeforeAt(s), AfterAt(s);
    if '@' in rest {
      BeforeAfter(rest);
      var head, tail := base + "@" + Revision(s) + "@", AfterAt(rest);
      assert s == head + tail;
      assert s[..|head|] == head;
    } else {
      NoAt(rest);
    }
  }
}
