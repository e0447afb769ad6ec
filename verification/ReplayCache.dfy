/** The bounded, ageing cache that rejects a request id seen before, against a search of
    everything ever accepted. */
module ReplayCache {
  import opened Options
  import opened Sets

  datatype Key = Key(peer: string, requestId: string)

  datatype Entry = Entry(key: Key, seen: real)

  datatype Call = Check(key: Key, now: real) | Length(now: real) | Clear

  datatype Answer = BlankPeer | BadRequestId | Replay | Accepted | Size(n: nat) | Cleared

  // ------------------------------------------------------------ what a request id looks like

  predicate LowerHex(c: char) { '0' <= c <= '9' || 'a' <= c <= 'f' }

  predicate HexDigit(c: char) { LowerHex(c) || 'A' <= c <= 'F' }

  predicate AsciiSpace(c: char) { c == ' ' || '\t' <= c <= '\r' }

  /** Does `bytes.fromhex` accept the text? It skips blanks between bytes. */
  predicate FromHex(s: string) {
    if s == "" then true
    else if AsciiSpace(s[0]) then FromHex(s[1..])
    else |s| >= 2 && HexDigit(s[0]) && HexDigit(s[1]) && FromHex(s[2..])
  }

  const ID_LENGTH := 32

  predicate IsHex(s: string) {
    |s| == ID_LENGTH && FromHex(s) && forall i :: 0 <= i < |s| ==> !('A' <= s[i] <= 'Z')
  }

  lemma {:induction false} FromHexWithoutBlanks(s: string)
    requires forall i :: 0 <= i < |s| ==> !AsciiSpace(s[i])
    ensures FromHex(s) <==> |s| % 2 == 0 && forall i :: 0 <= i < |s| ==> HexDigit(s[i])
  {
    if |s| >= 2 {
      FromHexWithoutBlanks(s[2..]);
      assert s == [s[0], s[1]] + s[2..];
    }
  }

  /** The accepted ids are the 128-bit lowercase hex numbers exactly as far as they hold no blank. */
  lemma IdIsLowerHexUnlessBlank(s: string)
    ensures (IsHex(s) && forall i :: 0 <= i < |s| ==> !AsciiSpace(s[i]))
       <==> (|s| == ID_LENGTH && forall i :: 0 <= i < |s| ==> LowerHex(s[i]))
  {
    if forall i :: 0 <= i < |s| ==> !AsciiSpace(s[i]) {
      FromHexWithoutBlanks(s);
    }
  }

  function Pairs(n: nat): string {
    if n == 0 then "" else "0a " + Pairs(n - 1)
  }

  lemma {:induction false} PairsAreHex(n: nat)
    ensures |Pairs(n)| == 3 * n && FromHex(Pairs(n) + "0a")
    ensures forall i :: 0 <= i < |Pairs(n)| ==> Pairs(n)[i] in "0a "
  {
    if n > 0 {
      PairsAreHex(n - 1);
      var s := Pairs(n) + "0a";
      assert s[2..] == " " + (Pairs(n - 1) + "0a");
      assert s[2..][1..] == Pairs(n - 1) + "0a";
      assert FromHex(s[2..]);
    }
  }

  /** An id with blanks is accepted though it holds 88 bits only. */
  lemma BlanksAreAccepted()
    ensures IsHex(Pairs(10) + "0a") && exists i :: 0 <= i < ID_LENGTH && AsciiSpace((Pairs(10) + "0a")[i])
  {
    PairsAreHex(10);
    var s := Pairs(10) + "0a";
    assert Pairs(10) == "0a " + Pairs(9);
    assert s[2] == ' ';
  }

  predicate Space(c: char) {
    || '\t' <= c <= '\r' || '\U{1c}' <= c <= ' ' || c == '\U{85}' || c == '\U{a0}' || c == '\U{1680}'
    || '\U{2000}' <= c <= '\U{200a}' || c == '\U{2028}' || c == '\U{2029}' || c == '\U{202f}' || c == '\U{205f}'
    || c == '\U{3000}'
  }

  predicate Blank(s: string) {
    forall i :: 0 <= i < |s| ==> Space(s[i])
  }

  // ------------------------------------------------------------ the cache

  datatype Limits = Limits(window: real, max: nat) {
    predicate Valid() { window > 0.0 && max > 0 }
  }

  /** `_evict_expired_locked`: entries leave from the oldest on. */
  function Evicted(entries: seq<Entry>, cutoff: real): seq<Entry> {
    if entries == [] || entries[0].seen > cutoff then entries else Evicted(entries[1..], cutoff)
  }

  /** The newest `n` entries. */
  function Newest(entries: seq<Entry>, n: nat): seq<Entry> {
    if |entries| > n then entries[|entries| - n..] else entries
  }

  predicate Has(entries: seq<Entry>, key: Key) {
    exists i :: 0 <= i < |entries| && entries[i].key == key
  }

  function Malformed(key: Key): Option<Answer> {
    if Blank(key.peer) then Some(BlankPeer)
    else if !IsHex(key.requestId) then Some(BadRequestId)
    else None
  }

  /** One call on the cache. */
  function CacheStep(l: Limits, entries: seq<Entry>, call: Call): (seq<Entry>, Answer) {
    match call
    case Clear => ([], Cleared)
    case Length(now) => var left := Evicted(entries, now - l.window); (left, Size(|left|))
    case Check(key, now) =>
      if Malformed(key).Some? then (entries, Malformed(key).value)
      else
        var left := Evicted(entries, now - l.window);
        if Has(left, key) then (left, Replay) else (Newest(left + [Entry(key, now)], l.max), Accepted)
  }

  // ------------------------------------------------------------ the full history

  /** Entries younger than the window. */
  function Young(entries: seq<Entry>, now: real, window: real): seq<Entry> {
    if entries == [] then []
    else (if now - entries[0].seen < window then [entries[0]] else []) + Young(entries[1..], now, window)
  }

  /** What must still be remembered of a history. */
  function Remembered(l: Limits, history: seq<Entry>, now: real): seq<Entry> {
    Young(Newest(history, l.max), now, l.window)
  }

  /** One call answered from everything accepted so far; nothing is ever dropped. */
  function HistoryStep(l: Limits, history: seq<Entry>, call: Call): (seq<Entry>, Answer) {
    match call
    case Clear => ([], Cleared)
    case Length(now) => (history, Size(|Remembered(l, history, now)|))
    case Check(key, now) =>
      if Malformed(key).Some? then (history, Malformed(key).value)
      else if Has(Remembered(l, history, now), key) then (history, Replay)
      else (history + [Entry(key, now)], Accepted)
  }

  ghost function CacheRun(l: Limits, calls: seq<Call>): (seq<Entry>, seq<Answer>) {
    if calls == [] then ([], [])
    else
      var before := CacheRun(l, calls[..|calls| - 1]);
      var step := CacheStep(l, before.0, calls[|calls| - 1]);
      (step.0, before.1 + [step.1])
  }

  ghost function HistoryRun(l: Limits, calls: seq<Call>): (seq<Entry>, seq<Answer>) {
    if calls == [] then ([], [])
    else
      var before := HistoryRun(l, calls[..|calls| - 1]);
      var step := HistoryStep(l, before.0, calls[|calls| - 1]);
      (step.0, before.1 + [step.1])
  }

  // ------------------------------------------------------------ why they agree

  ghost predicate Sorted(entries: seq<Entry>, latest: real) {
    && (forall i, k :: 0 <= i < k < |entries| ==> entries[i].seen <= entries[k].seen)
    && (forall i :: 0 <= i < |entries| ==> entries[i].seen <= latest)
  }

  /** The cache holds the end of the history; what it dropped is too old or too far back. */
  ghost predicate Agrees(l: Limits, entries: seq<Entry>, history: seq<Entry>, latest: real) {
    && Sorted(history, latest) && |entries| <= l.max && |entries| <= |history|
    && entries == history[|history| - |entries|..]
    && (forall i :: 0 <= i < |history| - |entries| && |history| - l.max <= i ==> latest - history[i].seen >= l.window)
  }

  lemma {:induction false} AllYoung(entries: seq<Entry>, now: real, window: real)
    requires forall i :: 0 <= i < |entries| ==> now - entries[i].seen < window
    ensures Young(entries, now, window) == entries
  {
    if entries != [] {
      AllYoung(entries[1..], now, window);
    }
  }

  /** With increasing times, eviction from the front keeps exactly the young entries. */
  lemma {:induction false} EvictionKeepsYoung(entries: seq<Entry>, now: real, window: real, latest: real)
    requires Sorted(entries, latest)
    ensures Evicted(entries, now - window) == Young(entries, now, window)
  {
    if entries != [] {
      if entries[0].seen > now - window {
        AllYoung(entries, now, window);
      } else {
        EvictionKeepsYoung(entries[1..], now, window, latest);
      }
    }
  }

  lemma {:induction false} OldPrefix(entries: seq<Entry>, k: nat, now: real, window: real)
    requires k <= |entries| && forall i :: 0 <= i < k ==> now - entries[i].seen >= window
    ensures Young(entries, now, window) == Young(entries[k..], now, window)
  {
    if k > 0 {
      OldPrefix(entries[1..], k - 1, now, window);
      assert entries[1..][k - 1..] == entries[k..];
    }
  }

  /** At any later time the cache and the history remember the same entries. */
  lemma AgreeOnRemembered(l: Limits, entries: seq<Entry>, history: seq<Entry>, latest: real, now: real)
    requires Agrees(l, entries, history, latest) && now >= latest
    ensures Evicted(entries, now - l.window) == Remembered(l, history, now)
  {
    EvictionKeepsYoung(entries, now, l.window, latest);
    var newest := Newest(history, l.max);
    var k := |newest| - |entries|;
    assert newest[k..] == entries;
    OldPrefix(newest, k, now, l.window);
  }

  lemma {:induction false} EvictedIsSuffix(entries: seq<Entry>, cutoff: real)
    ensures var left := Evicted(entries, cutoff);
            && |left| <= |entries| && left == entries[|entries| - |left|..]
            && forall i :: 0 <= i < |entries| - |left| ==> entries[i].seen <= cutoff
  {
    if entries != [] && entries[0].seen <= cutoff {
      EvictedIsSuffix(entries[1..], cutoff);
    }
  }

  lemma EvictionAgrees(l: Limits, entries: seq<Entry>, history: seq<Entry>, latest: real, now: real)
    requires Agrees(l, entries, history, latest) && now >= latest
    ensures Agrees(l, Evicted(entries, now - l.window), history, now)
  {
    EvictedIsSuffix(entries, now - l.window);
    var left := Evicted(entries, now - l.window);
    forall i | 0 <= i < |history| - |left| && |history| - l.max <= i ensures now - history[i].seen >= l.window {
      if i >= |history| - |entries| {
        assert history[i] == entries[i - (|history| - |entries|)];
      }
    }
  }

  lemma AdditionAgrees(l: Limits, entries: seq<Entry>, history: seq<Entry>, now: real, key: Key)
    requires l.Valid() && Agrees(l, entries, history, now)
    ensures Agrees(l, Newest(entries + [Entry(key, now)], l.max), history + [Entry(key, now)], now)
  {
  }

  /** When a call reads the clock. */
  function Reading(call: Call): Option<real> {
    match call
    case Check(key, now) => if Malformed(key).Some? then None else Some(now)
    case Length(now) => Some(now)
    case Clear => None
  }

  lemma StepAgrees(l: Limits, entries: seq<Entry>, history: seq<Entry>, latest: real, call: Call)
    requires l.Valid() && Agrees(l, entries, history, latest) && (Reading(call).Some? ==> Reading(call).value >= latest)
    ensures CacheStep(l, entries, call).1 == HistoryStep(l, history, call).1
    ensures Agrees(l, CacheStep(l, entries, call).0, HistoryStep(l, history, call).0,
                   if Reading(call).Some? then Reading(call).value else latest)
  {
    if Reading(call).Some? {
      var now := Reading(call).value;
      AgreeOnRemembered(l, entries, history, latest, now);
      EvictionAgrees(l, entries, history, latest, now);
      if call.Check? {
        AdditionAgrees(l, Evicted(entries, now - l.window), history, now, call.key);
      }
    }
  }

  ghost predicate ClockNeverGoesBack(calls: seq<Call>) {
    forall i, k :: 0 <= i < k < |calls| && Reading(calls[i]).Some? && Reading(calls[k]).Some? ==>
      Reading(calls[i]).value <= Reading(calls[k]).value
  }

  /** No call read a later time. */
  ghost predicate NotBefore(calls: seq<Call>, now: real) {
    forall i :: 0 <= i < |calls| && Reading(calls[i]).Some? ==> Reading(calls[i]).value <= now
  }

  lemma AgreesLater(l: Limits, entries: seq<Entry>, history: seq<Entry>, latest: real, now: real)
    requires Agrees(l, entries, history, latest) && latest <= now
    ensures Agrees(l, entries, history, now)
  {
  }

  lemma {:induction false} RunAgrees(l: Limits, calls: seq<Call>, now: real)
    requires l.Valid() && ClockNeverGoesBack(calls) && NotBefore(calls, now)
    ensures CacheRun(l, calls).1 == HistoryRun(l, calls).1
    ensures Agrees(l, CacheRun(l, calls).0, HistoryRun(l, calls).0, now)
  {
    if calls != [] {
      var (front, call) := (calls[..|calls| - 1], calls[|calls| - 1]);
      var latest := if Reading(call).Some? then Reading(call).value else now;
      RunAgrees(l, front, latest);
      StepAgrees(l, CacheRun(l, front).0, HistoryRun(l, front).0, latest, call);
      AgreesLater(l, CacheRun(l, calls).0, HistoryRun(l, calls).0, latest, now);
    }
  }

  lemma {:induction false} SomeLaterTime(calls: seq<Call>) returns (now: real)
    ensures NotBefore(calls, now)
  {
    if calls == [] {
      now := 0.0;
    } else {
      var (front, call) := (calls[..|calls| - 1], calls[|calls| - 1]);
      assert calls == front + [call];
      now := SomeLaterTime(front);
      if Reading(call).Some? && Reading(call).value > now {
        now := Reading(call).value;
      }
    }
  }

  /** Over every run with a clock that never goes back, the bounded cache answers each call as a
      search of the whole history would: a request is a replay exactly if its key is among the
      last `max` accepted ones and was accepted less than `window` ago. */
  lemma CacheAgreesWithHistory(l: Limits, calls: seq<Call>)
    requires l.Valid() && ClockNeverGoesBack(calls)
    ensures CacheRun(l, calls).1 == HistoryRun(l, calls).1
    ensures |CacheRun(l, calls).0| <= l.max
  {
    var now := SomeLaterTime(calls);
    RunAgrees(l, calls, now);
  }

  /** `Has(Remembered(..))`, spelled out. */
  lemma RememberedMeans(l: Limits, history: seq<Entry>, now: real, key: Key)
    ensures Has(Remembered(l, history, now), key) <==>
      exists i :: && 0 <= i < |history| && |history| - l.max <= i
                  && history[i].key == key && now - history[i].seen < l.window
  {
    var newest := Newest(history, l.max);
    YoungMeans(newest, now, l.window, key);
    var k := |history| - |newest|;
    if i :| 0 <= i < |history| && |history| - l.max <= i && history[i].key == key && now - history[i].seen < l.window {
      assert newest[i - k] == history[i];
    }
    if i :| 0 <= i < |newest| && newest[i].key == key && now - newest[i].seen < l.window {
      assert history[i + k] == newest[i];
    }
  }

  lemma {:induction false} YoungMeans(entries: seq<Entry>, now: real, window: real, key: Key)
    ensures Has(Young(entries, now, window), key)
       <==> exists i :: 0 <= i < |entries| && entries[i].key == key && now - entries[i].seen < window
  {
    if entries != [] {
      var (head, tail) := (if now - entries[0].seen < window then [entries[0]] else [],
                           Young(entries[1..], now, window));
      YoungMeans(entries[1..], now, window, key);
      HasAppend(head, tail, key);
      if i :| 0 <= i < |entries[1..]| && entries[1..][i].key == key && now - entries[1..][i].seen < window {
        assert entries[i + 1] == entries[1..][i];
      }
      if i :| 0 < i < |entries| && entries[i].key == key && now - entries[i].seen < window {
        assert entries[1..][i - 1] == entries[i];
      }
      if now - entries[0].seen < window && entries[0].key == key {
        assert head[0].key == key;
      }
    }
  }

  lemma HasAppend(a: seq<Entry>, b: seq<Entry>, key: Key)
    ensures Has(a + b, key) <==> Has(a, key) || Has(b, key)
  {
    if i :| 0 <= i < |a| && a[i].key == key {
      assert (a + b)[i].key == key;
    }
    if i :| 0 <= i < |b| && b[i].key == key {
      assert (a + b)[|a| + i].key == key;
    }
  }

  /** The requests accepted since the cache was last cleared, by the answers given. */
  ghost function Log(calls: seq<Call>, answers: seq<Answer>): seq<Entry>
    requires |calls| == |answers|
  {
    if calls == [] then []
    else
      var (n, last) := (|calls| - 1, calls[|calls| - 1]);
      var log := Log(calls[..n], answers[..n]);
      if last == Clear then []
      else if last.Check? && answers[n] == Accepted then log + [Entry(last.key, last.now)]
      else log
  }

  lemma {:induction false} LogIsHistory(l: Limits, calls: seq<Call>)
    ensures |HistoryRun(l, calls).1| == |calls|
    ensures HistoryRun(l, calls).0 == Log(calls, HistoryRun(l, calls).1)
  {
    if calls != [] {
      var front := calls[..|calls| - 1];
      LogIsHistory(l, front);
      assert HistoryRun(l, calls).1[..|front|] == HistoryRun(l, front).1;
    }
  }

  /** The last answer of a run, from what was accepted before. */
  lemma LastAnswer(l: Limits, calls: seq<Call>, call: Call)
    requires l.Valid() && ClockNeverGoesBack(calls + [call])
    ensures |CacheRun(l, calls).1| == |calls|
    ensures var log := Log(calls, CacheRun(l, calls).1);
            CacheRun(l, calls + [call]).1 == CacheRun(l, calls).1 + [HistoryStep(l, log, call).1]
  {
    assert (calls + [call])[..|calls|] == calls;
    assert ClockNeverGoesBack(calls) by {
      assert forall i :: 0 <= i < |calls| ==> (calls + [call])[i] == calls[i];
    }
    CacheAgreesWithHistory(l, calls);
    CacheAgreesWithHistory(l, calls + [call]);
    LogIsHistory(l, calls);
  }

  /** What a check answers after any run with a clock that never goes back: a peer of blanks only is
      refused, then an id that is not a hex number of the right length and case; else it is a replay
      exactly if one of the last `max` accepted requests was the same one, less than `window` ago. */
  lemma CheckMeans(l: Limits, calls: seq<Call>, key: Key, now: real)
    requires l.Valid() && ClockNeverGoesBack(calls + [Check(key, now)])
    ensures |CacheRun(l, calls).1| == |calls|
    ensures var log := Log(calls, CacheRun(l, calls).1);
            var id := key.requestId;
            var answers := CacheRun(l, calls + [Check(key, now)]).1;
            && |answers| == |calls| + 1
            && answers[|calls|] ==
                 if forall i :: 0 <= i < |key.peer| ==> Space(key.peer[i]) then BlankPeer
                 else if !(|id| == 32 && FromHex(id) && forall i :: 0 <= i < |id| ==> !('A' <= id[i] <= 'Z'))
                 then BadRequestId
                 else if exists i :: && 0 <= i < |log| && |log| - l.max <= i
                                     && log[i].key == key && now - log[i].seen < l.window
                 then Replay else Accepted
  {
    LastAnswer(l, calls, Check(key, now));
    RememberedMeans(l, Log(calls, CacheRun(l, calls).1), now, key);
  }

  /** The entries that a length query counts. */
  ghost function Counted(l: Limits, log: seq<Entry>, now: real): set<nat> {
    set i: nat | i < |log| && |log| - l.max <= i && now - log[i].seen < l.window
  }

  ghost function YoungIndices(entries: seq<Entry>, now: real, window: real, k: nat): set<nat>
    requires k <= |entries|
  {
    set i: nat | i < k && now - entries[i].seen < window
  }

  lemma {:induction false} YoungCount(entries: seq<Entry>, now: real, window: real, k: nat)
    requires k <= |entries|
    ensures |Young(entries[..k], now, window)| == |YoungIndices(entries, now, window, k)|
  {
    if k > 0 {
      YoungCount(entries, now, window, k - 1);
      var (front, last) := (entries[..k - 1], entries[k - 1]);
      YoungAppend(front, last, now, window);
      assert entries[..k] == front + [last];
      assert YoungIndices(entries, now, window, k) ==
             YoungIndices(entries, now, window, k - 1) + if now - last.seen < window then {k - 1} else {};
    } else {
      assert entries[..0] == [];
    }
  }

  lemma {:induction false} YoungAppend(entries: seq<Entry>, last: Entry, now: real, window: real)
    ensures Young(entries + [last], now, window)
         == Young(entries, now, window) + if now - last.seen < window then [last] else []
  {
    if entries != [] {
      YoungAppend(entries[1..], last, now, window);
      assert (entries + [last])[1..] == entries[1..] + [last];
    }
  }

  lemma RememberedCount(l: Limits, log: seq<Entry>, now: real)
    ensures |Remembered(l, log, now)| == |Counted(l, log, now)|
  {
    var newest := Newest(log, l.max);
    var k := |log| - |newest|;
    var young := YoungIndices(newest, now, l.window, |newest|);
    YoungCount(newest, now, l.window, |newest|);
    assert newest[..|newest|] == newest;
    var shift := (i: nat) => i + k;
    InjectiveSize(young, shift);
    assert Counted(l, log, now) == Image(young, shift) by {
      forall i | i in Counted(l, log, now) ensures i in Image(young, shift) {
        assert newest[i - k] == log[i] && i - k in young && shift(i - k) == i;
      }
    }
  }

  /** What a length query answers: how many of the last `max` accepted requests are younger than
      `window`; and after clearing nothing is remembered. */
  lemma LengthMeans(l: Limits, calls: seq<Call>, now: real)
    requires l.Valid() && ClockNeverGoesBack(calls + [Length(now)])
    ensures |CacheRun(l, calls).1| == |calls|
    ensures CacheRun(l, calls + [Length(now)]).1
         == CacheRun(l, calls).1 + [Size(|Counted(l, Log(calls, CacheRun(l, calls).1), now)|)]
  {
    LastAnswer(l, calls, Length(now));
    RememberedCount(l, Log(calls, CacheRun(l, calls).1), now);
  }

  // ------------------------------------------------------------ the object

  class ReplayCache {
    const limits: Limits
    var entries: seq<Entry>

    constructor (limits: Limits)
      requires limits.Valid()
      ensures this.limits == limits && entries == []
    {
      this.limits, this.entries := limits, [];
    }

    method EvictExpired(now: real)
      modifies this`entries
      ensures entries == Evicted(old(entries), now - limits.window)
    {
      var cutoff := now - limits.window;
      while entries != []
        invariant Evicted(entries, cutoff) == Evicted(old(entries), cutoff)
        decreases |entries|
      {
        if entries[0].seen > cutoff { break; }
        entries := entries[1..];
      }
    }

    method CheckAndAdd(key: Key, now: real) returns (answer: Answer)
      modifies this`entries
      ensures (entries, answer) == CacheStep(limits, old(entries), Check(key, now))
    {
      if Blank(key.peer) { return BlankPeer; }
      if !IsHex(key.requestId) { return BadRequestId; }
      EvictExpired(now);
      if Has(entries, key) { return Replay; }
      entries := entries + [Entry(key, now)];
      ghost var all := entries;
      while |entries| > limits.max
        invariant Newest(entries, limits.max) == Newest(all, limits.max)
      {
        entries := entries[1..];
      }
      return Accepted;
    }

    method Len(now: real) returns (n: nat)
      modifies this`entries
      ensures (entries, Size(n)) == CacheStep(limits, old(entries), Length(now))
    {
      EvictExpired(now);
      n := |entries|;
    }

    method ClearAll()
      modifies this`entries
      ensures entries == CacheStep(limits, old(entries), Clear).0
    {
      entries := [];
    }
  }

  datatype Made = BadWindow | BadMaxEntries | Made

  /** Construction refuses an empty window or no room at all. */
  method NewCache(window: real, max: int) returns (made: Made, cache: ReplayCache?)
    ensures made == if window <= 0.0 then BadWindow else if max <= 0 then BadMaxEntries else Made
    ensures cache != null <==> made.Made?
    ensures cache != null ==> fresh(cache) && cache.limits == Limits(window, max) && cache.entries == []
  {
    if window <= 0.0 { return BadWindow, null; }
    if max <= 0 { return BadMaxEntries, null; }
    made := Made;
    cache := new ReplayCache(Limits(window, max));
  }
}
