/** The alarm de-duplicator (internal/alarm/alarm.go:99-130, 162-178). */
module Alarm {
  import opened Common

  datatype Windows = Windows(observation: int, suppression: int, reportCount: int)

  /** What is remembered of one key. */
  datatype Key = Key(reported: Option<int>, occurrences: seq<int>)

  const UNSEEN: Key := Key(None, [])

  /** The times within the observation window. */
  function Recent(w: Windows, times: seq<int>, now: int): seq<int> {
    if times == [] then []
    else Recent(w, times[..|times| - 1], now)
         + (if now - times[|times| - 1] <= w.observation then [times[|times| - 1]] else [])
  }

  predicate Suppressed(w: Windows, k: Key, now: int) {
    k.reported.Some? && now - k.reported.value < w.suppression
  }

  /** One call for a key: what is remembered after it, and whether it reports. */
  function Check(w: Windows, k: Key, now: int, consecutive: bool): (Key, bool) {
    if Suppressed(w, k, now) then (k, false)
    else if !consecutive then (k.(reported := Some(now)), true)
    else
      var kept := Recent(w, k.occurrences, now) + [now];
      if |kept| >= w.reportCount then (Key(Some(now), []), true) else (k.(occurrences := kept), false)
  }

  /** What a clean-up leaves of a key. */
  function Clean(w: Windows, k: Key, now: int): Key {
    Key(if k.reported.Some? && now - k.reported.value > 2 * w.suppression then None else k.reported,
        if k.occurrences != [] && now - k.occurrences[|k.occurrences| - 1] > 2 * w.suppression then [] else k.occurrences)
  }

  datatype Call = Checked(now: int, consecutive: bool) | Cleaned(now: int)

  function Step(w: Windows, k: Key, c: Call): Key {
    match c
    case Checked(now, consecutive) => Check(w, k, now, consecutive).0
    case Cleaned(now) => Clean(w, k, now)
  }

  function Reports(w: Windows, k: Key, c: Call): bool {
    c.Checked? && Check(w, k, c.now, c.consecutive).1
  }

  /** The key after a trace of calls. */
  function After(w: Windows, calls: seq<Call>): Key {
    if calls == [] then UNSEEN else Step(w, After(w, calls[..|calls| - 1]), calls[|calls| - 1])
  }

  /** Call number `i` of the trace reports. */
  predicate ReportsAt(w: Windows, calls: seq<Call>, i: nat)
    requires i < |calls|
  {
    Reports(w, After(w, calls[..i]), calls[i])
  }

  /** The clock never goes back. */
  predicate Monotone(calls: seq<Call>) {
    forall i, j :: 0 <= i < j < |calls| ==> calls[i].now <= calls[j].now
  }

  lemma AfterSnoc(w: Windows, calls: seq<Call>, n: nat)
    requires n < |calls|
    ensures After(w, calls[..n + 1]) == Step(w, After(w, calls[..n]), calls[n])
  {
    assert calls[..n + 1][..n] == calls[..n];
  }

  // ---- reports are apart ----

  /** After a report at `t` and before the next one, the key remembers it or has outlived the suppression. */
  ghost predicate Remembers(w: Windows, k: Key, t: int, now: int) {
    k.reported == Some(t) || (k.reported.None? && now - t > 2 * w.suppression)
  }

  /** A report and the next one of the key are at least the suppression window apart. */
  lemma NextReportApart(w: Windows, calls: seq<Call>, i: nat, j: nat)
    requires Monotone(calls) && i < j < |calls| && ReportsAt(w, calls, i) && ReportsAt(w, calls, j)
    requires forall k :: i < k < j ==> !ReportsAt(w, calls, k)
    ensures calls[j].now - calls[i].now >= w.suppression
  {
    AfterSnoc(w, calls, i);
    FirstRemembered(w, After(w, calls[..i]), calls[i]);
    StillRemembered(w, calls, i, j);
  }

  /** Any two reports of a key are at least the suppression window apart, whatever is cleaned between them. */
  lemma {:induction false} ReportsApart(w: Windows, calls: seq<Call>, i: nat, j: nat)
    requires Monotone(calls) && i < j < |calls| && ReportsAt(w, calls, i) && ReportsAt(w, calls, j)
    ensures calls[j].now - calls[i].now >= w.suppression
    decreases j - i
  {
    if k :| i < k < j && ReportsAt(w, calls, k) {
      ReportsApart(w, calls, i, k);
    } else {
      NextReportApart(w, calls, i, j);
    }
  }

  lemma FirstRemembered(w: Windows, k: Key, c: Call)
    requires Reports(w, k, c)
    ensures Remembers(w, Step(w, k, c), c.now, c.now)
  {
  }

  lemma RememberStep(w: Windows, k: Key, c: Call, t: int, before: int)
    requires Remembers(w, k, t, before) && before <= c.now && !Reports(w, k, c)
    ensures Remembers(w, Step(w, k, c), t, c.now)
  {
  }

  lemma {:induction false} StillRemembered(w: Windows, calls: seq<Call>, i: nat, n: nat)
    requires Monotone(calls) && i < n < |calls| && ReportsAt(w, calls, i)
    requires forall k :: i < k < n ==> !ReportsAt(w, calls, k)
    ensures Remembers(w, After(w, calls[..n]), calls[i].now, calls[n - 1].now)
  {
    if n == i + 1 {
      AfterSnoc(w, calls, i);
      FirstRemembered(w, After(w, calls[..i]), calls[i]);
    } else {
      StillRemembered(w, calls, i, n - 1);
      AfterSnoc(w, calls, n - 1);
      assert !ReportsAt(w, calls, n - 1);
      hide After, Step, Reports, Remembers;
      RememberStep(w, After(w, calls[..n - 1]), calls[n - 1], calls[i].now, calls[n - 2].now);
    }
  }

  // ---- counted reports ----

  /** The counted calls of a trace within the observation window of `now`. */
  function CountRecent(w: Windows, calls: seq<Call>, now: int): nat {
    if calls == [] then 0
    else
      var last := calls[|calls| - 1];
      CountRecent(w, calls[..|calls| - 1], now)
      + (if last.Checked? && last.consecutive && now - last.now <= w.observation then 1 else 0)
  }

  lemma {:induction false} RecentSize(w: Windows, times: seq<int>, now: int)
    ensures |Recent(w, times, now)| <= |times|
  {
    if times != [] { RecentSize(w, times[..|times| - 1], now); }
  }

  lemma {:induction false} RecentJoin(w: Windows, times: seq<int>, t: int, now: int)
    ensures Recent(w, times + [t], now) == Recent(w, times, now) + (if now - t <= w.observation then [t] else [])
  {
    assert (times + [t])[..|times|] == times;
  }

  /** Forgetting in two steps forgets what the later step forgets. */
  lemma {:induction false} RecentTwice(w: Windows, times: seq<int>, now: int, later: int)
    requires now <= later
    ensures Recent(w, Recent(w, times, now), later) == Recent(w, times, later)
  {
    if times != [] {
      var rest, last := times[..|times| - 1], times[|times| - 1];
      RecentTwice(w, rest, now, later);
      var kept := Recent(w, rest, now);
      if now - last <= w.observation {
        RecentJoin(w, kept, last, later);
      } else {
        assert kept + [] == kept && Recent(w, rest, later) + [] == Recent(w, rest, later);
      }
    }
  }

  /** A key remembers no more occurrences than there were counted calls. */
  lemma {:induction false} OccurrencesCounted(w: Windows, calls: seq<Call>, now: int)
    requires Monotone(calls) && forall c :: c in calls ==> c.now <= now
    ensures |Recent(w, After(w, calls).occurrences, now)| <= CountRecent(w, calls, now)
  {
    if calls != [] {
      var rest, last := calls[..|calls| - 1], calls[|calls| - 1];
      OccurrencesCounted(w, rest, now);
      var k := After(w, rest);
      if last.Checked? && last.consecutive && !Suppressed(w, k, last.now) {
        RecentTwice(w, k.occurrences, last.now, now);
        RecentJoin(w, Recent(w, k.occurrences, last.now), last.now, now);
      }
    }
  }

  /** A counted report has as many counted calls in its observation window as required, itself among them. */
  lemma CountedReport(w: Windows, calls: seq<Call>, i: nat)
    requires Monotone(calls) && i < |calls| && calls[i].Checked? && calls[i].consecutive && ReportsAt(w, calls, i)
    ensures CountRecent(w, calls[..i], calls[i].now) + 1 >= w.reportCount
  {
    OccurrencesCounted(w, calls[..i], calls[i].now);
  }

  function CountReports(w: Windows, calls: seq<Call>): nat {
    if calls == [] then 0
    else CountReports(w, calls[..|calls| - 1])
         + (if Reports(w, After(w, calls[..|calls| - 1]), calls[|calls| - 1]) then 1 else 0)
  }

  predicate CountedOnly(calls: seq<Call>) { forall c :: c in calls ==> c.Checked? ==> c.consecutive }

  /** A counted call adds one occurrence, and a report uses up as many as it needs. */
  lemma StepPays(w: Windows, k: Key, c: Call)
    requires c.Checked? ==> c.consecutive
    ensures |Step(w, k, c).occurrences| + (if Reports(w, k, c) then w.reportCount else 0) <= |k.occurrences| + 1
  {
    RecentSize(w, k.occurrences, c.now);
    hide Recent;
  }

  lemma OneMoreReport(n: int, r: int, reports: bool, before: int, after: int, calls: int)
    requires n * r + before <= calls && after + (if reports then n else 0) <= before + 1
    ensures n * (r + (if reports then 1 else 0)) + after <= calls + 1
  {
    assert n * (r + 1) == n * r + n;
  }

  /** In a trace of counted calls every report has paid for itself: at most one report in reportCount calls. */
  lemma {:induction false} ReportsArePaidFor(w: Windows, calls: seq<Call>)
    requires CountedOnly(calls)
    ensures w.reportCount * CountReports(w, calls) + |After(w, calls).occurrences| <= |calls|
  {
    if calls != [] {
      var rest, last := calls[..|calls| - 1], calls[|calls| - 1];
      assert calls == rest + [last] && last in calls;
      hide After, Step, Reports;
      ReportsArePaidFor(w, rest);
      StepPays(w, After(w, rest), last);
      AfterSnoc(w, calls, |rest|);
      assert calls[..|rest| + 1] == calls;
      OneMoreReport(w.reportCount, CountReports(w, rest), Reports(w, After(w, rest), last),
                    |After(w, rest).occurrences|, |After(w, calls).occurrences|, |rest|);
    }
  }

  // ---- cleaning up ----

  /** No answer from `now` on tells `a` from `b`. */
  ghost predicate Alike(w: Windows, a: Key, b: Key, now: int) {
    && (a.reported == b.reported || (Stale(w, a, now) && Stale(w, b, now)))
    && (w.reportCount <= 1 || Recent(w, a.occurrences, now) == Recent(w, b.occurrences, now))
  }

  /** The last report, if any, suppresses nothing any more. */
  predicate Stale(w: Windows, k: Key, now: int) { !Suppressed(w, k, now) }

  lemma AlikeAnswers(w: Windows, a: Key, b: Key, before: int, now: int, consecutive: bool)
    requires Alike(w, a, b, before) && before <= now
    ensures Check(w, a, now, consecutive).1 == Check(w, b, now, consecutive).1
    ensures Alike(w, Check(w, a, now, consecutive).0, Check(w, b, now, consecutive).0, now)
  {
    RecentTwice(w, a.occurrences, before, now);
    RecentTwice(w, b.occurrences, before, now);
  }

  /** When the windows allow it: observation at most twice the suppression, or a window or count that never remembers. */
  predicate CleanSafe(w: Windows) { w.observation <= 2 * w.suppression || w.observation < 0 || w.reportCount <= 1 }

  /** Times are in order and not in the future. */
  ghost predicate Sane(k: Key, now: int) {
    && (k.reported.Some? ==> k.reported.value <= now)
    && InOrder(k.occurrences, now)
  }

  predicate InOrder(times: seq<int>, bound: int) {
    && (forall i :: 0 <= i < |times| ==> times[i] <= bound)
    && (forall i, j :: 0 <= i < j < |times| ==> times[i] <= times[j])
  }

  lemma {:induction false} RecentSane(w: Windows, times: seq<int>, now: int, bound: int)
    requires InOrder(times, bound)
    ensures InOrder(Recent(w, times, now), bound)
  {
    if times != [] {
      RecentSane(w, times[..|times| - 1], now, times[|times| - 1]);
    }
  }

  lemma {:induction false} RecentNone(w: Windows, times: seq<int>, now: int)
    requires forall i :: 0 <= i < |times| ==> now - times[i] > w.observation
    ensures Recent(w, times, now) == []
  {
    if times != [] { RecentNone(w, times[..|times| - 1], now); }
  }

  lemma StepSane(w: Windows, k: Key, c: Call, before: int)
    requires Sane(k, before) && before <= c.now
    ensures Sane(Step(w, k, c), c.now)
  {
    RecentSane(w, k.occurrences, c.now, before);
    hide Recent;
  }

  /** A safe clean-up of one of two alike keys leaves them alike. */
  lemma CleanAlike(w: Windows, a: Key, b: Key, before: int, now: int)
    requires CleanSafe(w) && Alike(w, a, b, before) && Sane(a, now) && Sane(b, now) && before <= now
    ensures Alike(w, a, Clean(w, b, now), now)
  {
    RecentTwice(w, a.occurrences, before, now);
    RecentTwice(w, b.occurrences, before, now);
    if Clean(w, b, now).occurrences != b.occurrences && w.reportCount > 1 {
      var last := b.occurrences[|b.occurrences| - 1];
      forall i | 0 <= i < |b.occurrences| ensures now - b.occurrences[i] > w.observation {
        assert b.occurrences[i] <= last;
      }
      RecentNone(w, b.occurrences, now);
    }
  }

  lemma AlikeSymmetric(w: Windows, a: Key, b: Key, now: int)
    requires Alike(w, a, b, now)
    ensures Alike(w, b, a, now)
  {
  }

  /** The same call to two alike keys gives the same answer and leaves them alike. */
  lemma StepAlike(w: Windows, a: Key, b: Key, c: Call, before: int)
    requires CleanSafe(w) && Alike(w, a, b, before) && Sane(a, before) && Sane(b, before) && before <= c.now
    ensures Reports(w, a, c) == Reports(w, b, c)
    ensures Alike(w, Step(w, a, c), Step(w, b, c), c.now)
    ensures Sane(Step(w, a, c), c.now) && Sane(Step(w, b, c), c.now)
  {
    StepSane(w, a, c, before);
    StepSane(w, b, c, before);
    if c.Checked? {
      AlikeAnswers(w, a, b, before, c.now, c.consecutive);
    } else {
      hide Alike, Sane, Clean;
      SaneLater(a, before, c.now);
      SaneLater(b, before, c.now);
      CleanAlike(w, a, b, before, c.now);
      AlikeSymmetric(w, a, Clean(w, b, c.now), c.now);
      CleanAlike(w, Clean(w, b, c.now), a, c.now, c.now);
      AlikeSymmetric(w, Clean(w, b, c.now), Clean(w, a, c.now), c.now);
    }
  }

  lemma SaneLater(k: Key, before: int, now: int)
    requires Sane(k, before) && before <= now
    ensures Sane(k, now)
  {
  }

  /** Answers to `post` after two keys. */
  ghost predicate SameAnswers(w: Windows, a: Key, b: Key, post: seq<Call>)
    decreases |post|
  {
    post == [] || (Reports(w, a, post[0]) == Reports(w, b, post[0])
                   && SameAnswers(w, Step(w, a, post[0]), Step(w, b, post[0]), post[1..]))
  }

  lemma {:induction false} AlikeAnswersAll(w: Windows, a: Key, b: Key, post: seq<Call>, before: int)
    requires CleanSafe(w) && Alike(w, a, b, before) && Sane(a, before) && Sane(b, before)
    requires Monotone(post) && forall c :: c in post ==> before <= c.now
    ensures SameAnswers(w, a, b, post)
    decreases |post|
  {
    if post != [] {
      StepAlike(w, a, b, post[0], before);
      forall c | c in post[1..] ensures post[0].now <= c.now {
        var i :| 0 <= i < |post[1..]| && post[1..][i] == c;
        assert post[i + 1] == c;
      }
      hide Step, Reports, Alike, Sane, CleanSafe;
      AlikeAnswersAll(w, Step(w, a, post[0]), Step(w, b, post[0]), post[1..], post[0].now);
    }
  }

  lemma {:induction false} AfterSane(w: Windows, calls: seq<Call>, now: int)
    requires Monotone(calls) && forall c :: c in calls ==> c.now <= now
    ensures Sane(After(w, calls), now)
  {
    if calls != [] {
      var rest, last := calls[..|calls| - 1], calls[|calls| - 1];
      AfterSane(w, rest, last.now);
      StepSane(w, After(w, rest), last, last.now);
      hide Step;
      SaneLater(After(w, calls), last.now, now);
    }
  }

  /** A clean-up at any point of any trace changes no later answer, when the windows are safe. */
  lemma CleanInvisible(w: Windows, pre: seq<Call>, t: int, post: seq<Call>)
    requires CleanSafe(w) && Monotone(pre + [Cleaned(t)] + post)
    ensures SameAnswers(w, After(w, pre), Clean(w, After(w, pre), t), post)
  {
    var all := pre + [Cleaned(t)] + post;
    assert forall i :: 0 <= i < |pre| ==> all[i] == pre[i];
    assert all[|pre|] == Cleaned(t);
    assert forall i :: 0 <= i < |post| ==> all[|pre| + 1 + i] == post[i];
    assert Monotone(pre) && Monotone(post);
    assert forall c :: c in pre ==> c.now <= t;
    assert forall c :: c in post ==> t <= c.now;
    AfterSane(w, pre, t);
    var k := After(w, pre);
    CleanAlike(w, k, k, t, t);
    StepSane(w, k, Cleaned(t), t);
    AlikeAnswersAll(w, k, Clean(w, k, t), post, t);
  }

  /** Exactly then: with any other windows there is a trace whose last answer a clean-up changes. */
  lemma CleanVisible(w: Windows) returns (pre: seq<Call>, t: int, post: seq<Call>)
    requires !CleanSafe(w)
    ensures Monotone(pre + [Cleaned(t)] + post)
    ensures !SameAnswers(w, After(w, pre), Clean(w, After(w, pre), t), post)
  {
    pre, t, post := seq(w.reportCount - 1, _ => Checked(0, true)), w.observation, [Checked(w.observation, true)];
    InOrderTrace(pre, t, post[0]);
    Fill(w, w.reportCount - 1);
    FirstAnswer(w, After(w, pre), Clean(w, After(w, pre), t), post);
    hide Reports, Step, After, Clean, SameAnswers, Monotone;
    OneMore(w, seq(w.reportCount - 1, _ => 0), t);
  }

  lemma InOrderTrace(pre: seq<Call>, t: int, last: Call)
    requires (forall i :: 0 <= i < |pre| ==> pre[i].now == 0) && 0 <= t == last.now
    ensures Monotone(pre + [Cleaned(t)] + [last])
  {
  }

  lemma FirstAnswer(w: Windows, a: Key, b: Key, post: seq<Call>)
    requires post != []
    ensures SameAnswers(w, a, b, post) ==> Reports(w, a, post[0]) == Reports(w, b, post[0])
  {
  }

  /** With one occurrence short of a report, forgetting them changes the answer to the next call. */
  lemma OneMore(w: Windows, zeros: seq<int>, t: int)
    requires !CleanSafe(w) && |zeros| == w.reportCount - 1 && t == w.observation
    requires forall i :: 0 <= i < |zeros| ==> zeros[i] == 0
    ensures Reports(w, Key(None, zeros), Checked(t, true)) && !Reports(w, Clean(w, Key(None, zeros), t), Checked(t, true))
  {
    RecentAll(w, zeros, t);
    assert Clean(w, Key(None, zeros), t) == UNSEEN;
    assert Recent(w, [], t) == [];
  }

  lemma {:induction false} Fill(w: Windows, n: nat)
    requires !CleanSafe(w) && n < w.reportCount
    ensures After(w, seq(n, _ => Checked(0, true))) == Key(None, seq(n, _ => 0))
  {
    var calls := seq(n, _ => Checked(0, true));
    if n > 0 {
      assert calls[..n - 1] == seq(n - 1, _ => Checked(0, true));
      Fill(w, n - 1);
      RecentAll(w, seq(n - 1, _ => 0), 0);
      assert seq(n - 1, _ => 0) + [0] == seq(n, _ => 0);
    } else {
      assert calls == [];
      assert seq(0, _ => 0) == [];
    }
  }

  lemma {:induction false} RecentAll(w: Windows, times: seq<int>, now: int)
    requires forall i :: 0 <= i < |times| ==> now - times[i] <= w.observation
    ensures Recent(w, times, now) == times
  {
    if times != [] {
      RecentAll(w, times[..|times| - 1], now);
      assert times == times[..|times| - 1] + [times[|times| - 1]];
    }
  }

  // ---- the class ----

  class Alarm {
    var lastReported: map<string, int>
    var occurrences: map<string, seq<int>>
    const w: Windows

    constructor (w: Windows)
      ensures this.w == w && forall key :: Of(key) == UNSEEN
    {
      this.w := w;
      lastReported, occurrences := map[], map[];
    }

    /** What is remembered of a key; an absent list reads as empty. */
    function Of(key: string): Key
      reads this
    {
      Key(if key in lastReported then Some(lastReported[key]) else None,
          if key in occurrences then occurrences[key] else [])
    }

    method KeepRecent(times: seq<int>, now: int) returns (kept: seq<int>)
      ensures kept == Recent(w, times, now)
    {
      kept := [];
      for i := 0 to |times|
        invariant kept == Recent(w, times[..i], now)
      {
        assert times[..i + 1][..i] == times[..i];
        if now - times[i] <= w.observation { kept := kept + [times[i]]; }
      }
      assert times[..|times|] == times;
    }

    method ShouldReport(key: string, consecutive: bool, now: int) returns (report: bool)
      modifies this
      ensures (Of(key), report) == Check(w, old(Of(key)), now, consecutive)
      ensures forall other :: other != key ==> Of(other) == old(Of(other))
    {
      if key in lastReported && now - lastReported[key] < w.suppression { return false; }
      if !consecutive {
        lastReported := lastReported[key := now];
        return true;
      }
      var kept := KeepRecent(if key in occurrences then occurrences[key] else [], now);
      kept := kept + [now];
      if |kept| >= w.reportCount {
        lastReported := lastReported[key := now];
        occurrences := occurrences - {key};
        return true;
      }
      occurrences := occurrences[key := kept];
      report := false;
    }

    /** Drops what has been quiet for twice the suppression window. */
    method CleanExpiredKeys(now: int)
      modifies this
      ensures forall key :: Of(key) == Clean(w, old(Of(key)), now)
    {
      CleanReported(now);
      CleanOccurrences(now);
    }

    predicate Expired(t: int, now: int) { now - t > 2 * w.suppression }

    method CleanReported(now: int)
      modifies this`lastReported
      ensures forall key :: key in lastReported <==> key in old(lastReported) && !Expired(old(lastReported)[key], now)
      ensures forall key :: key in lastReported ==> lastReported[key] == old(lastReported)[key]
    {
      hide Expired;
      var rest := lastReported.Keys;
      while rest != {}
        invariant rest <= lastReported.Keys <= old(lastReported).Keys
        invariant forall key :: key in lastReported ==> lastReported[key] == old(lastReported)[key]
        invariant forall key :: key in old(lastReported) && key !in rest ==>
                    (key in lastReported <==> !Expired(old(lastReported)[key], now))
        decreases |rest|
      {
        var key :| key in rest;
        rest := rest - {key};
        if Expired(lastReported[key], now) { lastReported := lastReported - {key}; }
      }
    }

    predicate Quiet(times: seq<int>, now: int) { times == [] || Expired(times[|times| - 1], now) }

    method CleanOccurrences(now: int)
      modifies this`occurrences
      ensures forall key :: key in occurrences <==> key in old(occurrences) && !Quiet(old(occurrences)[key], now)
      ensures forall key :: key in occurrences ==> occurrences[key] == old(occurrences)[key]
    {
      hide Quiet;
      var rest := occurrences.Keys;
      while rest != {}
        invariant rest <= occurrences.Keys <= old(occurrences).Keys
        invariant forall key :: key in occurrences ==> occurrences[key] == old(occurrences)[key]
        invariant forall key :: key in old(occurrences) && key !in rest ==>
                    (key in occurrences <==> !Quiet(old(occurrences)[key], now))
        decreases |rest|
      {
        var key :| key in rest;
        rest := rest - {key};
        if Quiet(occurrences[key], now) { occurrences := occurrences - {key}; }
      }
    }
  }
}
