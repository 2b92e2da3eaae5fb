/**
 * Reading handler observations from an append-only log. The log's full content is a text; at any
 * moment the reader sees some byte prefix of its encoding, possibly cut inside a line or inside a
 * character. Each step reads from the cursor and moves it past the last complete line.
 */
module ObservationLog {
  import opened Text
  import opened Utf8

  // ----- lines -----

  /** `complete.split("\n").filter((line) => line.length > 0)`, with the line read so far. */
  function Lines(s: string, line: string): seq<string> {
    if s == "" then Flush(line)
    else if s[0] == '\n' then Flush(line) + Lines(s[1..], "")
    else Lines(s[1..], line + [s[0]])
  }

  lemma {:induction false} LinesSplit(a: string, b: string, line: string)
    ensures Lines(a + ['\n'] + b, line) == Lines(a, line) + Lines(b, "")
    decreases |a|
  {
    var s := a + ['\n'] + b;
    if a == "" {
      assert s[0] == '\n' && s[1..] == b;
    } else {
      assert s[0] == a[0] && s[1..] == a[1..] + ['\n'] + b;
      if a[0] == '\n' {
        LinesSplit(a[1..], b, "");
        assert Flush(line) + (Lines(a[1..], "") + Lines(b, "")) == Flush(line) + Lines(a[1..], "") + Lines(b, "");
      } else {
        LinesSplit(a[1..], b, line + [a[0]]);
      }
    }
  }

  /** The non-empty lines of a stretch that starts and ends at line boundaries. */
  function LinesOf(s: string): seq<string> {
    Lines(s, "")
  }

  lemma LinesConcat(a: string, b: string)
    requires a == "" || a[|a| - 1] == '\n'
    ensures LinesOf(a + b) == LinesOf(a) + LinesOf(b)
  {
    if a == "" {
      assert a + b == b;
    } else {
      var c := a[..|a| - 1];
      assert a == c + ['\n'] + "";
      LinesSplit(c, "", "");
      assert a + b == c + ['\n'] + b;
      LinesSplit(c, b, "");
      assert Lines("", "") == [];
    }
  }

  predicate NoNewlineFrom(s: string, k: nat) {
    forall i :: k <= i < |s| ==> s[i] != '\n'
  }

  /** The position after the last newline of `s`, or 0. */
  function AfterLastNewline(s: string): (k: nat)
    ensures k <= |s| && (k > 0 ==> s[k - 1] == '\n') && NoNewlineFrom(s, k)
  {
    if s == "" then 0 else if s[|s| - 1] == '\n' then |s| else AfterLastNewline(s[..|s| - 1])
  }

  lemma LastNewlineUnique(s: string, k: nat)
    requires k <= |s| && (k > 0 ==> s[k - 1] == '\n') && NoNewlineFrom(s, k)
    ensures AfterLastNewline(s) == k
  {
  }

  // ----- one read -----

  /**
   * `readNewObservations`: decodes everything after the offset, drops what follows the last newline,
   * and returns the lines with the byte offset after them.
   */
  function ReadNew(content: seq<Byte>, from: nat): (r: (seq<string>, nat))
    requires from <= |content|
  {
    ReadSlice(Decode(content[from..]), from)
  }

  function ReadSlice(slice: string, from: nat): (seq<string>, nat) {
    var k := AfterLastNewline(slice);
    if k == 0 then ([], from)
    else
      var complete := slice[..k - 1];
      (LinesOf(complete), from + |Encode(complete)| + 1)
  }

  predicate LineBoundary(log: string, k: nat) {
    k <= |log| && (k == 0 || log[k - 1] == '\n')
  }

  /** The last line boundary among the first `m` characters, from boundary `k` on. */
  ghost function LastBoundary(log: string, k: nat, m: nat): (j: nat)
    requires k <= m <= |log|
    ensures k <= j <= m
  {
    k + AfterLastNewline(log[k..m])
  }

  lemma DropEncoded(log: string, k: nat, m: nat, cut: seq<Byte>)
    requires k <= m <= |log|
    ensures |Encode(log[..k])| <= |Encode(log[..m])|
    ensures (Encode(log[..m]) + cut)[|Encode(log[..k])|..] == Encode(log[k..m]) + cut
  {
    EncodeConcat(log[..k], log[k..m]);
    assert log[..m] == log[..k] + log[k..m];
  }

  /** What a read sees: the complete lines among the whole characters, and the offset behind them. */
  lemma ReadNewSees(content: seq<Byte>, from: nat, log: string, k: nat, m: nat, cut: seq<Byte>)
    requires k <= m <= |log| && forall i :: 0 <= i < |cut| ==> cut[i] >= 0x80
    requires content == Encode(log[..m]) + cut && from == |Encode(log[..k])| <= |content|
    ensures var j := LastBoundary(log, k, m);
      ReadNew(content, from) == (LinesOf(log[k..j]), |Encode(log[..j])|)
  {
    ReadNewVisible(content, from, log, k, m, cut, log[k..m]);
    ReadInLog(content, from, log, k, m);
  }

  lemma ReadInLog(content: seq<Byte>, from: nat, log: string, k: nat, m: nat)
    requires k <= m <= |log| && from == |Encode(log[..k])| <= |content|
    requires var part := log[k..m][..AfterLastNewline(log[k..m])];
      ReadNew(content, from) == (LinesOf(part), from + |Encode(part)|)
    ensures var j := LastBoundary(log, k, m);
      ReadNew(content, from) == (LinesOf(log[k..j]), |Encode(log[..j])|)
  {
    var part, j := log[k..m][..AfterLastNewline(log[k..m])], LastBoundary(log, k, m);
    BoundaryText(log, k, m);
    SameRead(content, from, part, log[k..j], |Encode(log[..j])|);
  }

  lemma SameRead(content: seq<Byte>, from: nat, part: string, whole: string, end: nat)
    requires from <= |content| && ReadNew(content, from) == (LinesOf(part), from + |Encode(part)|)
    requires part == whole && end == from + |Encode(part)|
    ensures ReadNew(content, from) == (LinesOf(whole), end)
  {
  }

  lemma BoundaryText(log: string, k: nat, m: nat)
    requires k <= m <= |log|
    ensures var b, j := AfterLastNewline(log[k..m]), LastBoundary(log, k, m);
      && b <= m - k && j == k + b && log[k..m][..b] == log[k..j]
      && |Encode(log[..j])| == |Encode(log[..k])| + |Encode(log[k..m][..b])|
  {
    var b := AfterLastNewline(log[k..m]);
    SliceOfSlice(log, k, m, b);
    EncodedEnd(log, k, k + b);
  }

  lemma SliceOfSlice(s: string, k: nat, m: nat, b: nat)
    requires k <= m <= |s| && b <= m - k
    ensures s[k..m][..b] == s[k..k + b]
  {
  }

  lemma ReadNewVisible(content: seq<Byte>, from: nat, log: string, k: nat, m: nat, cut: seq<Byte>, visible: string)
    requires k <= m <= |log| && visible == log[k..m] && forall i :: 0 <= i < |cut| ==> cut[i] >= 0x80
    requires content == Encode(log[..m]) + cut && from == |Encode(log[..k])| <= |content|
    ensures var b := AfterLastNewline(visible);
      ReadNew(content, from) == (LinesOf(visible[..b]), from + |Encode(visible[..b])|)
  {
    SeenText(content, from, log, k, m, cut);
    ReadNewIs(content, from, visible, Decode(cut));
  }

  lemma SeenText(content: seq<Byte>, from: nat, log: string, k: nat, m: nat, cut: seq<Byte>)
    requires k <= m <= |log| && forall i :: 0 <= i < |cut| ==> cut[i] >= 0x80
    requires content == Encode(log[..m]) + cut && from == |Encode(log[..k])| <= |content|
    ensures Decode(content[from..]) == log[k..m] + Decode(cut) && '\n' !in Decode(cut)
  {
    DropEncoded(log, k, m, cut);
    VisibleText(content[from..], log[k..m], cut);
  }

  lemma ReadNewIs(content: seq<Byte>, from: nat, visible: string, tail: string)
    requires from <= |content| && Decode(content[from..]) == visible + tail && '\n' !in tail
    ensures var b := AfterLastNewline(visible);
      ReadNew(content, from) == (LinesOf(visible[..b]), from + |Encode(visible[..b])|)
  {
    SliceLines(visible, tail, from);
  }

  lemma VisibleText(bytes: seq<Byte>, visible: string, cut: seq<Byte>)
    requires bytes == Encode(visible) + cut && forall i :: 0 <= i < |cut| ==> cut[i] >= 0x80
    ensures Decode(bytes) == visible + Decode(cut) && '\n' !in Decode(cut)
  {
    DecodeEncoded(visible, cut);
    CutHasNoNewline(cut);
  }

  lemma BoundaryReached(log: string, k: nat, m: nat)
    requires k <= m <= |log| && LineBoundary(log, k)
    ensures LineBoundary(log, LastBoundary(log, k, m))
  {
    var b := AfterLastNewline(log[k..m]);
    assert b > 0 ==> log[k..m][b - 1] == log[k + b - 1];
  }

  lemma SliceUpTo(slice: string, b: nat, complete: string, from: nat)
    requires AfterLastNewline(slice) == b > 0 && complete == slice[..b - 1]
    ensures ReadSlice(slice, from) == (LinesOf(complete), from + |Encode(complete)| + 1)
  {
  }

  /** The lines and their length depend only on what stands before the last newline. */
  lemma SliceLines(visible: string, tail: string, from: nat)
    requires '\n' !in tail
    ensures var b := AfterLastNewline(visible);
      ReadSlice(visible + tail, from) == (LinesOf(visible[..b]), from + |Encode(visible[..b])|)
  {
    SameLastNewline(visible, tail);
    var b := AfterLastNewline(visible);
    if b > 0 {
      assert (visible + tail)[..b - 1] == visible[..b - 1];
      SliceUpTo(visible + tail, b, visible[..b - 1], from);
      CompleteLines(visible, b);
    } else {
      assert visible[..0] == "";
    }
  }

  /** Dropping the final newline changes neither the lines nor, but for one byte, the length. */
  lemma CompleteLines(s: string, b: nat)
    requires 0 < b <= |s| && s[b - 1] == '\n'
    ensures LinesOf(s[..b - 1]) == LinesOf(s[..b])
    ensures |Encode(s[..b - 1])| + 1 == |Encode(s[..b])|
  {
    var complete := s[..b - 1];
    assert s[..b] == complete + ['\n'] + "" && s[..b] == complete + "\n";
    LinesSplit(complete, "", "");
    assert Lines("", "") == [];
    EncodeConcat(complete, "\n");
    assert Encode("\n") == EncodeChar('\n') + Encode("");
  }

  lemma EncodedEnd(log: string, k: nat, j: nat)
    requires k <= j <= |log|
    ensures |Encode(log[..j])| == |Encode(log[..k])| + |Encode(log[k..j])|
  {
    EncodeConcat(log[..k], log[k..j]);
    assert log[..j] == log[..k] + log[k..j];
  }

  lemma SameLastNewline(s: string, tail: string)
    requires '\n' !in tail
    ensures AfterLastNewline(s + tail) == AfterLastNewline(s)
  {
    LastNewlineUnique(s + tail, AfterLastNewline(s));
  }

  // ----- reading a log of which only a byte prefix is there -----

  /** The last line boundary whose bytes are all among the first `n`. */
  ghost predicate LastVisible(log: string, n: nat, j: nat) {
    && LineBoundary(log, j) && |Encode(log[..j])| <= n
    && forall i: nat :: LineBoundary(log, i) && |Encode(log[..i])| <= n ==> i <= j
  }

  lemma EncodedGrows(log: string, i: nat, j: nat)
    requires i <= j <= |log|
    ensures |Encode(log[..i])| <= |Encode(log[..j])|
  {
    EncodedEnd(log, i, j);
  }

  /** The boundary reached among the whole characters is the last visible one. */
  lemma BoundaryIsLastVisible(log: string, k: nat, m: nat, n: nat)
    requires k <= m <= |log| && LineBoundary(log, k) && |Encode(log[..m])| <= n
    requires m < |log| ==> n < |Encode(log[..m + 1])|
    ensures LastVisible(log, n, LastBoundary(log, k, m))
  {
    var j := LastBoundary(log, k, m);
    BoundaryReached(log, k, m);
    EncodedGrows(log, j, m);
    assert forall x :: j <= x < m ==> log[x] == log[k..m][x - k];
    forall i: nat | LineBoundary(log, i) && |Encode(log[..i])| <= n
      ensures i <= j
    {
      if i > m {
        EncodedGrows(log, m + 1, i);
      }
    }
  }

  /** A read at any moment returns the complete visible lines behind the offset, and moves past them. */
  lemma ReadAt(log: string, n: nat, k: nat) returns (j: nat)
    requires n <= |Encode(log)| && LineBoundary(log, k) && |Encode(log[..k])| <= n
    ensures LastVisible(log, n, j) && k <= j
    ensures ReadNew(Encode(log)[..n], |Encode(log[..k])|) == (LinesOf(log[k..j]), |Encode(log[..j])|)
  {
    var m, cut := PrefixIsWholeAndCut(log, n);
    assert k <= m by {
      if m < k {
        EncodedGrows(log, m + 1, k);
      }
    }
    j := LastBoundary(log, k, m);
    BoundaryIsLastVisible(log, k, m, n);
    ReadNewSees(Encode(log)[..n], |Encode(log[..k])|, log, k, m, cut);
  }

  // ----- what was written is what is read -----

  /** The text a writer appends: each line followed by a newline. */
  function Written(lines: seq<string>): string {
    if lines == [] then "" else lines[0] + ['\n'] + Written(lines[1..])
  }

  predicate SingleLines(lines: seq<string>) {
    forall i :: 0 <= i < |lines| ==> '\n' !in lines[i]
  }

  function NonBlank(lines: seq<string>): seq<string> {
    if lines == [] then []
    else if lines[0] == "" then NonBlank(lines[1..])
    else [lines[0]] + NonBlank(lines[1..])
  }

  lemma {:induction false} NoneBlank(lines: seq<string>)
    requires forall i :: 0 <= i < |lines| ==> lines[i] != ""
    ensures NonBlank(lines) == lines
  {
    if lines != [] {
      NoneBlank(lines[1..]);
      assert lines == [lines[0]] + lines[1..];
    }
  }

  lemma {:induction false} SingleLine(s: string, part: string)
    requires '\n' !in s
    ensures Lines(s, part) == Flush(part + s)
    decreases |s|
  {
    if s == "" {
      assert part + s == part;
    } else {
      assert s[0] in s;
      SingleLine(s[1..], part + [s[0]]);
      assert part + [s[0]] + s[1..] == part + s;
    }
  }

  lemma {:induction false} WrittenLines(lines: seq<string>)
    requires SingleLines(lines)
    ensures LinesOf(Written(lines)) == NonBlank(lines)
    decreases |lines|
  {
    if lines != [] {
      WrittenLines(lines[1..]);
      LinesSplit(lines[0], Written(lines[1..]), "");
      SingleLine(lines[0], "");
      assert "" + lines[0] == lines[0];
    }
  }

  lemma {:induction false} WrittenEnds(lines: seq<string>)
    ensures var s := Written(lines); s == "" || s[|s| - 1] == '\n'
    decreases |lines|
  {
    if lines != [] {
      WrittenEnds(lines[1..]);
    }
  }

  /** The place after the written lines is the last boundary before an unfinished line. */
  lemma WrittenBoundary(before: string, lines: seq<string>, tail: string)
    requires '\n' !in tail
    ensures var text, k := before + Written(lines) + tail, |before|;
      LastBoundary(text, k, |text|) == k + |Written(lines)| && text[k..k + |Written(lines)|] == Written(lines)
  {
    var text, k, s := before + Written(lines) + tail, |before|, Written(lines);
    assert text[k..|text|] == s + tail && text[k..k + |s|] == s;
    WrittenEnds(lines);
    SameLastNewline(s, tail);
    LastNewlineUnique(s, |s|);
  }

  /**
   * A reader behind the lines already read gets exactly the lines written since, without the blank ones
   * and without an unfinished last line, and its cursor stands behind them.
   */
  lemma ReadsWrittenLines(before: seq<string>, lines: seq<string>, tail: string)
    requires SingleLines(lines) && '\n' !in tail
    ensures var read, all := Written(before), Written(before) + Written(lines) + tail;
      && |Encode(read)| <= |Encode(all)|
      && ReadNew(Encode(all), |Encode(read)|) == (NonBlank(lines), |Encode(Written(before) + Written(lines))|)
    ensures (forall i :: 0 <= i < |lines| ==> lines[i] != "") ==> NonBlank(lines) == lines
  {
    var read, all := Written(before), Written(before) + Written(lines) + tail;
    var k, j := |read|, |read| + |Written(lines)|;
    assert all[..k] == read && all[..j] == Written(before) + Written(lines) && all[..|all|] == all;
    EncodedGrows(all, k, |all|);
    WrittenBoundary(read, lines, tail);
    assert Encode(all) == Encode(all[..|all|]) + [];
    ReadNewSees(Encode(all), |Encode(read)|, all, k, |all|, []);
    WrittenLines(lines);
    if forall i :: 0 <= i < |lines| ==> lines[i] != "" {
      NoneBlank(lines);
    }
  }

  // ----- what a step waits for -----

  datatype Expectation = Anything | Count(n: nat) | Handlers(names: seq<string>)

  function HandlersOf(items: seq<string>, handler: string -> string): (r: seq<string>)
    ensures |r| == |items|
  {
    seq(|items|, i requires 0 <= i < |items| => handler(items[i]))
  }

  /** The observations cover the expectation. */
  ghost predicate Covers(wanted: Expectation, items: seq<string>, handler: string -> string) {
    match wanted
    case Anything => true
    case Count(n) => |items| >= n
    case Handlers(names) => multiset(names) <= multiset(HandlersOf(items, handler))
  }

  function IndexOf(names: seq<string>, name: string): (r: int)
    ensures -1 <= r < |names|
    ensures r >= 0 ==> names[r] == name
    ensures r < 0 ==> name !in names
  {
    if names == [] then -1
    else if names[0] == name then 0
    else
      var r := IndexOf(names[1..], name);
      if r < 0 then -1 else r + 1
  }

  /** `satisfied`: crosses each observed handler off the expected ones. */
  method Satisfied(wanted: Expectation, items: seq<string>, handler: string -> string) returns (ok: bool)
    ensures ok <==> Covers(wanted, items, handler)
  {
    match wanted {
      case Anything =>
        ok := true;
      case Count(n) =>
        ok := |items| >= n;
      case Handlers(names) =>
        var remaining := CrossOff(names, items, handler);
        NothingLeft(multiset(names), multiset(HandlersOf(items, handler)));
        assert |multiset(remaining)| == |remaining|;
        ok := |remaining| == 0;
    }
  }

  lemma NothingLeft(a: multiset<string>, b: multiset<string>)
    ensures |a - b| == 0 <==> a <= b
  {
    if |a - b| == 0 {
      forall x
        ensures a[x] <= b[x]
      {
        assert (a - b)[x] == 0;
      }
    }
    if a <= b {
      assert a - b == multiset{};
    }
  }

  lemma TakeOneMore(a: multiset<string>, b: multiset<string>, x: string)
    ensures a - (b + multiset{x}) == (a - b) - multiset{x}
  {
  }

  /** `splice` of the first occurrence, when there is one. */
  method RemoveFirst(names: seq<string>, name: string) returns (r: seq<string>)
    ensures multiset(r) == multiset(names) - multiset{name}
  {
    var index := IndexOf(names, name);
    if index < 0 {
      return names;
    }
    assert names == names[..index] + [name] + names[index + 1..];
    r := names[..index] + names[index + 1..];
  }

  method CrossOff(names: seq<string>, items: seq<string>, handler: string -> string) returns (remaining: seq<string>)
    ensures multiset(remaining) == multiset(names) - multiset(HandlersOf(items, handler))
  {
    remaining := names;
    ghost var all := HandlersOf(items, handler);
    for i := 0 to |items|
      invariant multiset(remaining) == multiset(names) - multiset(all[..i])
    {
      var name := handler(items[i]);
      assert all[..i + 1] == all[..i] + [name];
      TakeOneMore(multiset(names), multiset(all[..i]), name);
      remaining := RemoveFirst(remaining, name);
    }
    assert all[..|items|] == all;
  }

  /** More observations never uncover an expectation. */
  lemma CoversGrows(wanted: Expectation, items: seq<string>, more: seq<string>, handler: string -> string)
    requires Covers(wanted, items, handler)
    ensures Covers(wanted, items + more, handler)
  {
    assert HandlersOf(items + more, handler) == HandlersOf(items, handler) + HandlersOf(more, handler);
  }

  /** The complete lines between boundary `k` and the last boundary visible in `size` bytes. */
  ghost predicate ReadUpTo(log: string, k: nat, size: nat, items: seq<string>, end: nat)
    requires size <= |Encode(log)|
  {
    exists j: nat :: LastVisible(log, size, j) && k <= j && end == |Encode(log[..j])| && items == LinesOf(log[k..j])
  }

  /** A poll that sees `size` bytes finds the expectation covered. */
  ghost predicate CoveredBy(wanted: Expectation, content: seq<Byte>, from: nat, size: nat,
                            handler: string -> string) {
    from <= size <= |content| && Covers(wanted, ReadNew(content[..size], from).0, handler)
  }

  /**
   * `collectObservations`: polls until the expectation is covered or the deadline passes, waits for
   * stragglers and reads once more. `polls` are the log sizes seen by the polls up to the deadline,
   * `settled` the size seen by the last read. The step returns the complete lines visible to the last
   * read and moves the cursor behind them. It times out exactly when no poll covered the expectation,
   * and otherwise covers it. `k` is the line boundary at which the cursor stands.
   */
  method CollectObservations(log: string, k: nat, from: nat, wanted: Expectation, handler: string -> string,
                             polls: seq<nat>, settled: nat)
    returns (items: seq<string>, timedOut: bool, end: nat)
    requires LineBoundary(log, k) && from == |Encode(log[..k])| && polls != []
    requires forall i :: 0 <= i < |polls| ==> from <= polls[i] <= settled
    requires settled <= |Encode(log)|
    ensures ReadUpTo(log, k, settled, items, end)
    ensures !timedOut ==> Covers(wanted, items, handler)
    ensures timedOut <==> forall i :: 0 <= i < |polls| ==> !CoveredBy(wanted, Encode(log), from, polls[i], handler)
  {
    var content := Encode(log);
    var satisfied := PollUntil(content, from, wanted, handler, polls);
    timedOut := !satisfied && !wanted.Anything?;
    assert from <= polls[0] <= settled && (wanted.Anything? ==> CoveredBy(wanted, content, from, polls[0], handler));
    ghost var j := ReadAt(log, settled, k);
    var read := ReadNew(content[..settled], from);
    items, end := read.0, read.1;
    if satisfied {
      ghost var p :| 0 <= p < |polls| && CoveredBy(wanted, content, from, polls[p], handler);
      CoveredStays(log, k, wanted, handler, polls[p], settled);
    }
  }

  /** The polling loop: it ends satisfied exactly when some poll covers the expectation. */
  method PollUntil(content: seq<Byte>, from: nat, wanted: Expectation, handler: string -> string, polls: seq<nat>)
    returns (satisfied: bool)
    requires forall i :: 0 <= i < |polls| ==> from <= polls[i] <= |content|
    ensures satisfied <==> exists p :: 0 <= p < |polls| && CoveredBy(wanted, content, from, polls[p], handler)
  {
    satisfied := false;
    var i := 0;
    while i < |polls| && !satisfied
      invariant i <= |polls|
      invariant satisfied <==> exists p :: 0 <= p < i && CoveredBy(wanted, content, from, polls[p], handler)
    {
      var read := ReadNew(content[..polls[i]], from);
      satisfied := Satisfied(wanted, read.0, handler);
      assert satisfied <==> CoveredBy(wanted, content, from, polls[i], handler);
      i := i + 1;
    }
  }

  /** What one poll covers, every later read covers. */
  lemma CoveredStays(log: string, k: nat, wanted: Expectation, handler: string -> string, size: nat, later: nat)
    requires LineBoundary(log, k) && |Encode(log[..k])| <= size <= later <= |Encode(log)|
    requires CoveredBy(wanted, Encode(log), |Encode(log[..k])|, size, handler)
    ensures CoveredBy(wanted, Encode(log), |Encode(log[..k])|, later, handler)
  {
    var seen := ReadAt(log, size, k);
    var j := ReadAt(log, later, k);
    StillCovered(log, k, seen, j, wanted, handler);
  }

  lemma StillCovered(log: string, k: nat, seen: nat, j: nat, wanted: Expectation, handler: string -> string)
    requires LineBoundary(log, k) && LineBoundary(log, seen) && k <= seen <= j <= |log|
    requires Covers(wanted, LinesOf(log[k..seen]), handler)
    ensures Covers(wanted, LinesOf(log[k..j]), handler)
  {
    LinesJoin(log, k, seen, j);
    CoversGrows(wanted, LinesOf(log[k..seen]), LinesOf(log[seen..j]), handler);
  }

  /** Lines of adjacent stretches join at a line boundary. */
  lemma LinesJoin(log: string, k: nat, i: nat, j: nat)
    requires k <= i <= j <= |log| && LineBoundary(log, k) && LineBoundary(log, i)
    ensures LinesOf(log[k..j]) == LinesOf(log[k..i]) + LinesOf(log[i..j])
  {
    assert log[k..j] == log[k..i] + log[i..j];
    LinesConcat(log[k..i], log[i..j]);
  }

  // ----- successive steps -----

  /** The observations of the steps of a program, each reading at the given log size. */
  function StepReads(content: seq<Byte>, from: nat, sizes: seq<nat>): (r: (seq<seq<string>>, nat))
    decreases |sizes|
  {
    if sizes == [] || !(from <= sizes[0] <= |content|) then ([], from)
    else
      var (items, end) := ReadNew(content[..sizes[0]], from);
      var (rest, last) := StepReads(content, end, sizes[1..]);
      ([items] + rest, last)
  }

  function Concat(lists: seq<seq<string>>): seq<string> {
    if lists == [] then [] else lists[0] + Concat(lists[1..])
  }

  /** The log only grows: each step sees at least what the one before saw. */
  ghost predicate Growing(sizes: seq<nat>, from: nat, limit: nat) {
    && (forall i :: 0 <= i < |sizes| ==> from <= sizes[i] <= limit)
    && (forall i, j :: 0 <= i < j < |sizes| ==> sizes[i] <= sizes[j])
  }

  /** Successive steps record every complete line up to the cursor exactly once, in order. */
  lemma {:induction false} StepsRecordEachLineOnce(log: string, k: nat, sizes: seq<nat>) returns (j: nat)
    requires LineBoundary(log, k) && Growing(sizes, |Encode(log[..k])|, |Encode(log)|)
    ensures k <= j && LineBoundary(log, j)
    ensures var (observations, end) := StepReads(Encode(log), |Encode(log[..k])|, sizes);
      && |observations| == |sizes|
      && Concat(observations) == LinesOf(log[k..j]) && end == |Encode(log[..j])|
    ensures sizes != [] ==> LastVisible(log, sizes[|sizes| - 1], j)
    decreases |sizes|
  {
    if sizes == [] {
      j := k;
      assert log[k..k] == "";
    } else {
      var i := ReadAt(log, sizes[0], k);
      j := StepsRecordEachLineOnce(log, i, sizes[1..]);
      LinesJoin(log, k, i, j);
    }
  }
}
