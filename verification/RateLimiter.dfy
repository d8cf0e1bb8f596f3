/** The fixed-window rate limiter (rate_limit.go): one window per source, a cap
    on the number of sources, and a retry hint in whole seconds. */
module RateLimiter {
  import opened Wrappers
  import opened Sums

  const MAX_SOURCES := 4096
  const SECOND := 1_000_000_000

  datatype Window = Window(started: int, count: int)

  type Table = map<string, Window>

  datatype Config = Config(ordinary: int, auth: int, window: int)

  datatype Call = Call(key: string, authentication: bool, now: int)

  datatype Verdict = Admitted | Refused(retry: int)

  function Limit(c: Config, authentication: bool): int {
    if authentication then c.auth else c.ordinary
  }

  /** The two kinds of request are counted apart. */
  function Source(call: Call): string {
    (if call.authentication then "auth:" else "ordinary:") + call.key
  }

  function Unexpired(c: Config, t: Table, now: int): Table {
    map k | k in t && now - t[k].started < c.window :: t[k]
  }

  function CeilSeconds(d: int): int {
    -((-d) / SECOND)
  }

  predicate Opens(c: Config, t: Table, source: string, now: int) {
    source !in t || now - t[source].started >= c.window
  }

  /** Sources that still count against the cap when a new one arrives. */
  function Room(c: Config, t: Table, source: string, now: int): Table {
    if source !in t && |t| >= MAX_SOURCES then Unexpired(c, t, now) else t
  }

  function Decide(c: Config, t: Table, call: Call): Verdict {
    var k := Source(call);
    if Opens(c, t, k, call.now) then
      if k !in t && |Room(c, t, k, call.now)| >= MAX_SOURCES then Refused(1) else Admitted
    else if t[k].count >= Limit(c, call.authentication) then
      var wait := CeilSeconds(t[k].started + c.window - call.now);
      Refused(if wait < 1 then 1 else wait)
    else Admitted
  }

  function Next(c: Config, t: Table, call: Call): Table {
    var k := Source(call);
    if Opens(c, t, k, call.now) then
      var room := Room(c, t, k, call.now);
      if k !in t && |room| >= MAX_SOURCES then room else room[k := Window(call.now, 1)]
    else if t[k].count >= Limit(c, call.authentication) then t
    else t[k := Window(t[k].started, t[k].count + 1)]
  }

  class Limiter {
    var windows: Table
    const config: Config

    constructor (config: Config)
      ensures windows == map[] && this.config == config
    {
      this.config := config;
      windows := map[];
    }

    method Allow(key: string, authentication: bool, now: int) returns (allowed: bool, retry: int)
      modifies this
      ensures windows == Next(config, old(windows), Call(key, authentication, now))
      ensures var verdict := Decide(config, old(windows), Call(key, authentication, now));
        allowed == verdict.Admitted? && retry == if allowed then 0 else verdict.retry
    {
      var limit := config.ordinary;
      var prefix := "ordinary:";
      if authentication {
        limit := config.auth;
        prefix := "auth:";
      }
      var source := prefix + key;
      if source !in windows || now - windows[source].started >= config.window {
        if source !in windows && |windows| >= MAX_SOURCES {
          RemoveExpired(now);
          if |windows| >= MAX_SOURCES {
            return false, 1;
          }
        }
        windows := windows[source := Window(now, 1)];
        return true, 0;
      }
      var window := windows[source];
      if window.count >= limit {
        retry := CeilSeconds(window.started + config.window - now);
        if retry < 1 {
          retry := 1;
        }
        return false, retry;
      }
      windows := windows[source := Window(window.started, window.count + 1)];
      return true, 0;
    }

    method RemoveExpired(now: int)
      modifies this
      ensures windows == Unexpired(config, old(windows), now)
    {
      var rest := windows.Keys;
      while rest != {}
        invariant rest <= old(windows).Keys
        invariant windows == map k | k in old(windows) && (k in rest || now - old(windows)[k].started < config.window) :: old(windows)[k]
        decreases rest
      {
        var key :| key in rest;
        if now - windows[key].started >= config.window {
          windows := windows - {key};
        }
        rest := rest - {key};
      }
    }
  }

  // ---------- runs ----------

  /** The windows after a sequence of calls on a fresh limiter. */
  function After(c: Config, calls: seq<Call>): Table {
    if calls == [] then map[] else Next(c, After(c, calls[..|calls| - 1]), calls[|calls| - 1])
  }

  /** What one call saw: was it let in, and was its source without a live window? */
  datatype Event = Event(source: string, now: int, admitted: bool, opens: bool)

  function Judge(c: Config, t: Table, call: Call): Event {
    Event(Source(call), call.now, Decide(c, t, call).Admitted?, Opens(c, t, Source(call), call.now))
  }

  function Events(c: Config, calls: seq<Call>): seq<Event> {
    if calls == [] then []
    else Events(c, calls[..|calls| - 1]) + [Judge(c, After(c, calls[..|calls| - 1]), calls[|calls| - 1])]
  }

  ghost predicate ClockNeverFalls(calls: seq<Call>) {
    forall i, j :: 0 <= i < j < |calls| ==> calls[i].now <= calls[j].now
  }

  /** Requests of source `k` admitted at times in the closed interval [from, to]. */
  function Admissions(events: seq<Event>, k: string, from: int, to: int): nat {
    if events == [] then 0
    else
      var last := events[|events| - 1];
      Admissions(events[..|events| - 1], k, from, to) +
      if last.source == k && last.admitted && from <= last.now <= to then 1 else 0
  }

  /** When the newest window of `k` opened, also if it has since been evicted. */
  function LastOpened(events: seq<Event>, k: string): Option<int> {
    if events == [] then None
    else
      var last := events[|events| - 1];
      if last.source == k && last.admitted && last.opens then Some(last.now) else LastOpened(events[..|events| - 1], k)
  }

  /** A request never gets a limit below one: the first of a window is always let in. */
  function Effective(c: Config, authentication: bool): int {
    if Limit(c, authentication) < 1 then 1 else Limit(c, authentication)
  }

  // ---------- the map never outgrows its cap ----------

  lemma UnexpiredFits(c: Config, t: Table, now: int)
    ensures |Unexpired(c, t, now)| <= |t|
  {
    SubsetFewer(Unexpired(c, t, now).Keys, t.Keys);
  }

  lemma {:induction false} AtMostMaxSources(c: Config, calls: seq<Call>)
    ensures |After(c, calls)| <= 4096
  {
    if calls != [] {
      var front, last := calls[..|calls| - 1], calls[|calls| - 1];
      AtMostMaxSources(c, front);
      UnexpiredFits(c, After(c, front), last.now);
    }
  }

  // ---------- counting ----------

  lemma {:induction false} CountSplits(events: seq<Event>, k: string, from: int, mid: int, to: int)
    requires from <= mid <= to + 1
    ensures Admissions(events, k, from, to) == Admissions(events, k, from, mid - 1) + Admissions(events, k, mid, to)
  {
    if events != [] {
      CountSplits(events[..|events| - 1], k, from, mid, to);
    }
  }

  lemma {:induction false} CountWider(events: seq<Event>, k: string, from: int, to: int, from': int, to': int)
    requires from' <= from && to <= to'
    ensures Admissions(events, k, from, to) <= Admissions(events, k, from', to')
  {
    if events != [] {
      CountWider(events[..|events| - 1], k, from, to, from', to');
    }
  }

  ghost predicate NoneAfter(events: seq<Event>, at: int) {
    forall i :: 0 <= i < |events| ==> events[i].now <= at
  }

  /** Nothing is counted outside the times of the calls. */
  lemma {:induction false} CountUpTo(events: seq<Event>, k: string, from: int, to: int, last: int)
    requires NoneAfter(events, last) && last <= to
    ensures Admissions(events, k, from, to) == Admissions(events, k, from, last)
  {
    if events != [] {
      CountUpTo(events[..|events| - 1], k, from, to, last);
    }
  }

  predicate NeverAdmitted(events: seq<Event>, k: string) {
    forall i :: 0 <= i < |events| && events[i].source == k ==> !events[i].admitted
  }

  lemma {:induction false} NoAdmissions(events: seq<Event>, k: string, from: int, to: int)
    requires NeverAdmitted(events, k)
    ensures Admissions(events, k, from, to) == 0
  {
    if events != [] {
      NoAdmissions(events[..|events| - 1], k, from, to);
    }
  }

  lemma CountSnoc(events: seq<Event>, e: Event, k: string, from: int, to: int)
    ensures Admissions(events + [e], k, from, to) ==
      Admissions(events, k, from, to) + if e.source == k && e.admitted && from <= e.now <= to then 1 else 0
  {
    assert (events + [e])[..|events|] == events;
  }

  lemma OpenedSnoc(events: seq<Event>, e: Event, k: string)
    ensures LastOpened(events + [e], k) ==
      if e.source == k && e.admitted && e.opens then Some(e.now) else LastOpened(events, k)
  {
    assert (events + [e])[..|events|] == events;
  }

  // ---------- the bound ----------

  lemma SourceTells(a: Call, b: Call)
    requires Source(a) == Source(b)
    ensures a.authentication == b.authentication && a.key == b.key
  {
    assert Source(a)[0] == (if a.authentication then 'a' else 'o');
    assert Source(b)[0] == (if b.authentication then 'a' else 'o');
    var n := if a.authentication then 5 else 9;
    assert Source(a)[n..] == a.key && Source(b)[n..] == b.key;
  }

  function Entry(t: Table, k: string): Option<Window> {
    if k in t then Some(t[k]) else None
  }

  /** All that one event can do to the entry of a source. */
  predicate EntryMoves(window: int, most: int, k: string, e: Event, before: Option<Window>, after: Option<Window>) {
    if e.source == k && e.admitted then
      if e.opens then (before.Some? ==> before.value.started + window <= e.now) && after == Some(Window(e.now, 1))
      else before.Some? && before.value.count < most && e.now < before.value.started + window && after == Some(Window(before.value.started, before.value.count + 1))
    else after == before || (before.Some? && after == None && before.value.started + window <= e.now)
  }

  lemma EntryNext(c: Config, t: Table, call: Call, k: string, most: int)
    requires Source(call) == k ==> Limit(c, call.authentication) <= most
    ensures EntryMoves(c.window, most, k, Judge(c, t, call), Entry(t, k), Entry(Next(c, t, call), k))
  {
  }

  /** What is known at time `at` about a source whose newest window opened at `s`:
      `here` admissions since then, `before` in a window's length before that,
      and `beyond` after it ran out. */
  predicate Standing(window: int, most: int, entry: Option<Window>, at: int, s: int, here: int, before: int, beyond: int) {
    && s <= at
    && (if entry.Some? then entry.value.started == s && here == entry.value.count <= most else s + window <= at)
    && here <= most && before <= most && beyond == 0
  }

  predicate Stands(window: int, most: int, events: seq<Event>, k: string, entry: Option<Window>, at: int) {
    match LastOpened(events, k)
    case None => entry == None && NeverAdmitted(events, k)
    case Some(s) =>
      Standing(window, most, entry, at, s,
        Admissions(events, k, s, at), Admissions(events, k, s - window, s - 1), Admissions(events, k, s + window, at))
  }

  /** Counting on in the same window, or not being admitted at all. */
  lemma StandsOn(window: int, most: int, events: seq<Event>, k: string, entry: Option<Window>, e: Event, entry': Option<Window>)
    requires window > 0 && Stands(window, most, events, k, entry, e.now) && EntryMoves(window, most, k, e, entry, entry')
    requires e.source == k && e.admitted ==> !e.opens
    ensures Stands(window, most, events + [e], k, entry', e.now)
  {
    OpenedSnoc(events, e, k);
    if LastOpened(events, k).Some? {
      var s := LastOpened(events, k).value;
      CountSnoc(events, e, k, s, e.now);
      CountSnoc(events, e, k, s - window, s - 1);
      CountSnoc(events, e, k, s + window, e.now);
    }
  }

  /** Opening a new window: the old one is at least a window's length back. */
  lemma StandsReopened(window: int, most: int, events: seq<Event>, k: string, entry: Option<Window>, e: Event, entry': Option<Window>)
    requires window > 0 && most >= 1 && Stands(window, most, events, k, entry, e.now) && EntryMoves(window, most, k, e, entry, entry')
    requires e.source == k && e.admitted && e.opens
    ensures Stands(window, most, events + [e], k, entry', e.now)
  {
    var now := e.now;
    OpenedSnoc(events, e, k);
    CountSnoc(events, e, k, now, now);
    CountSnoc(events, e, k, now - window, now - 1);
    CountSnoc(events, e, k, now + window, now);
    if LastOpened(events, k) == None {
      NoAdmissions(events, k, now, now);
      NoAdmissions(events, k, now - window, now - 1);
      NoAdmissions(events, k, now + window, now);
    } else {
      var s := LastOpened(events, k).value;
      CountWider(events, k, now, now, s + window, now);
      CountWider(events, k, now - window, now - 1, s, now);
      CountWider(events, k, now + window, now, s + window, now);
    }
  }

  lemma StandsLater(window: int, most: int, events: seq<Event>, k: string, entry: Option<Window>, at: int, later: int)
    requires NoneAfter(events, at) && at <= later && Stands(window, most, events, k, entry, at)
    ensures Stands(window, most, events, k, entry, later)
  {
    if LastOpened(events, k).Some? {
      var s := LastOpened(events, k).value;
      CountUpTo(events, k, s, later, at);
      CountUpTo(events, k, s + window, later, at);
    }
  }

  /** Every call of source `k` is held to a limit of at most `most`. */
  ghost predicate LimitIs(c: Config, calls: seq<Call>, k: string, most: int) {
    forall i :: 0 <= i < |calls| && Source(calls[i]) == k ==> Limit(c, calls[i].authentication) <= most
  }

  lemma {:induction false} EventsOf(c: Config, calls: seq<Call>, at: int)
    requires forall i :: 0 <= i < |calls| ==> calls[i].now <= at
    ensures NoneAfter(Events(c, calls), at)
  {
    if calls != [] {
      EventsOf(c, calls[..|calls| - 1], at);
    }
  }

  lemma {:induction false} AlwaysStands(c: Config, calls: seq<Call>, k: string, most: int, at: int)
    requires c.window > 0 && most >= 1 && ClockNeverFalls(calls) && LimitIs(c, calls, k, most)
    requires forall i :: 0 <= i < |calls| ==> calls[i].now <= at
    ensures Stands(c.window, most, Events(c, calls), k, Entry(After(c, calls), k), at)
  {
    if calls != [] {
      var front, last := calls[..|calls| - 1], calls[|calls| - 1];
      AlwaysStands(c, front, k, most, last.now);
      StandsNext(c, Events(c, front), After(c, front), last, k, most);
      EventsOf(c, calls, last.now);
      StandsLater(c.window, most, Events(c, calls), k, Entry(After(c, calls), k), last.now, at);
    }
  }

  lemma StandsNext(c: Config, events: seq<Event>, t: Table, call: Call, k: string, most: int)
    requires c.window > 0 && most >= 1 && Stands(c.window, most, events, k, Entry(t, k), call.now)
    requires Source(call) == k ==> Limit(c, call.authentication) <= most
    ensures Stands(c.window, most, events + [Judge(c, t, call)], k, Entry(Next(c, t, call), k), call.now)
  {
    var e := Judge(c, t, call);
    EntryNext(c, t, call, k, most);
    if e.source == k && e.admitted && e.opens {
      StandsReopened(c.window, most, events, k, Entry(t, k), e, Entry(Next(c, t, call), k));
    } else {
      StandsOn(c.window, most, events, k, Entry(t, k), e, Entry(Next(c, t, call), k));
    }
  }

  /** An interval that ends at an admission meets at most two windows. */
  lemma IntervalEndingAt(window: int, most: int, events: seq<Event>, k: string, entry: Option<Window>, from: int, at: int)
    requires window > 0 && Stands(window, most, events, k, entry, at) && LastOpened(events, k).Some?
    requires at - window <= from <= at
    ensures Admissions(events, k, from, at) <= 2 * most
  {
    var s := LastOpened(events, k).value;
    if from <= s {
      CountSplits(events, k, from, s, at);
      CountWider(events, k, from, s - 1, s - window, s - 1);
    } else {
      CountWider(events, k, from, at, s, at);
    }
  }

  lemma LastEvent(c: Config, calls: seq<Call>)
    requires calls != []
    ensures Events(c, calls) == Events(c, calls[..|calls| - 1]) + [Judge(c, After(c, calls[..|calls| - 1]), calls[|calls| - 1])]
  {
  }

  /** An interval that takes in the newest admission. */
  lemma IntervalWithLast(window: int, most: int, events: seq<Event>, e: Event, k: string, entry: Option<Window>, from: int)
    requires window > 0 && Stands(window, most, events + [e], k, entry, e.now) && NoneAfter(events + [e], e.now)
    requires e.source == k && e.admitted && from <= e.now <= from + window
    ensures Admissions(events + [e], k, from, from + window) <= 2 * most
  {
    CountUpTo(events + [e], k, from, from + window, e.now);
    assert (events + [e])[|events|] == e;
    assert LastOpened(events + [e], k).Some?;
    IntervalEndingAt(window, most, events + [e], k, entry, from, e.now);
  }

  lemma {:induction false} TwiceMost(c: Config, calls: seq<Call>, k: string, most: int, from: int)
    requires c.window > 0 && most >= 1 && ClockNeverFalls(calls) && LimitIs(c, calls, k, most)
    ensures Admissions(Events(c, calls), k, from, from + c.window) <= 2 * most
  {
    if calls != [] {
      var front, call := calls[..|calls| - 1], calls[|calls| - 1];
      var e := Judge(c, After(c, front), call);
      TwiceMost(c, front, k, most, from);
      LastEvent(c, calls);
      CountSnoc(Events(c, front), e, k, from, from + c.window);
      if e.source == k && e.admitted && from <= e.now <= from + c.window {
        EventsOf(c, calls, call.now);
        AlwaysStands(c, calls, k, most, call.now);
        IntervalWithLast(c.window, most, Events(c, front), e, k, Entry(After(c, calls), k), from);
      }
    }
  }

  /** However the calls of all sources interleave, no source is admitted more
      than twice its limit in any interval of one window, ends included. */
  lemma AtMostTwiceTheLimit(c: Config, calls: seq<Call>, who: Call, from: int)
    requires c.window > 0 && ClockNeverFalls(calls)
    ensures var limit := if who.authentication then c.auth else c.ordinary;
      Admissions(Events(c, calls), Source(who), from, from + c.window) <= 2 * (if limit < 1 then 1 else limit)
  {
    forall i | 0 <= i < |calls| && Source(calls[i]) == Source(who)
      ensures Limit(c, calls[i].authentication) <= Effective(c, who.authentication)
    {
      SourceTells(calls[i], who);
    }
    TwiceMost(c, calls, Source(who), Effective(c, who.authentication), from);
  }

  /** A call is refused only if its source has had its limit of admissions in the window
      before, or, not being known, finds the map full of live windows. */
  lemma OnlyFullWindowsRefuse(c: Config, calls: seq<Call>, call: Call)
    requires c.window > 0 && ClockNeverFalls(calls + [call]) && Decide(c, After(c, calls), call).Refused?
    ensures var k, t := Source(call), After(c, calls);
      if k in t then
        Admissions(Events(c, calls), k, call.now - c.window + 1, call.now) >= if call.authentication then c.auth else c.ordinary
      else |t| == 4096 && forall j :: j in t ==> call.now < t[j].started + c.window
  {
    var k, t := Source(call), After(c, calls);
    AtMostMaxSources(c, calls);
    RefusalReasons(c, t, call);
    if k in t {
      StandsAt(c, calls, call);
      FullWindow(c, Events(c, calls), t, call);
    }
  }

  lemma StandsAt(c: Config, calls: seq<Call>, call: Call)
    requires c.window > 0 && ClockNeverFalls(calls + [call])
    ensures Stands(c.window, Effective(c, call.authentication), Events(c, calls), Source(call), Entry(After(c, calls), Source(call)), call.now)
  {
    assert forall i :: 0 <= i < |calls| ==> calls[i] == (calls + [call])[i];
    assert (calls + [call])[|calls|] == call;
    forall i | 0 <= i < |calls| && Source(calls[i]) == Source(call)
      ensures Limit(c, calls[i].authentication) <= Effective(c, call.authentication)
    {
      SourceTells(calls[i], call);
    }
    AlwaysStands(c, calls, Source(call), Effective(c, call.authentication), call.now);
  }

  lemma FullWindow(c: Config, events: seq<Event>, t: Table, call: Call)
    requires Stands(c.window, Effective(c, call.authentication), events, Source(call), Entry(t, Source(call)), call.now)
    requires Source(call) in t && call.now < t[Source(call)].started + c.window && Decide(c, t, call).Refused?
    ensures Admissions(events, Source(call), call.now - c.window + 1, call.now) >= Limit(c, call.authentication)
  {
    CountWider(events, Source(call), t[Source(call)].started, call.now, call.now - c.window + 1, call.now);
  }

  // ---------- the retry hint ----------

  /** A full window refuses with the least number of whole seconds, at least
      one, after which that window has run out. */
  lemma RetryIsLeast(c: Config, t: Table, call: Call)
    requires var k := Source(call); !Opens(c, t, k, call.now) && Decide(c, t, call).Refused?
    ensures var retry := Decide(c, t, call).retry; var ends := t[Source(call)].started + c.window;
      && retry >= 1
      && ends <= call.now + retry * SECOND
      && (retry == 1 || call.now + (retry - 1) * SECOND < ends)
  {
  }

  /** A source whose window opened at `s` never gets another one before that one has run out. */
  lemma {:induction false} WindowsApart(c: Config, before: seq<Call>, between: seq<Call>, k: string, s: int, at: int)
    requires c.window > 0 && ClockNeverFalls(between) && forall i :: 0 <= i < |between| ==> between[i].now <= at
    requires Entry(After(c, before), k).Some? && Entry(After(c, before), k).value.started == s
    ensures var e := Entry(After(c, before + between), k);
      if e.Some? then e.value.started == s || e.value.started >= s + c.window else s + c.window <= at
    decreases |between|
  {
    if between == [] {
      assert before + between == before;
    } else {
      var front, last := between[..|between| - 1], between[|between| - 1];
      assert before + between == before + front + [last];
      WindowsApart(c, before, front, k, s, last.now);
      assert (before + between)[..|before + front|] == before + front;
      EntryNext(c, After(c, before + front), last, k, Limit(c, last.authentication));
    }
  }

  /** The map holds as many windows as it may, and each of them is live. */
  predicate FullOfLive(c: Config, t: Table, now: int) {
    |t| == 4096 && forall k | k in t :: now < t[k].started + c.window
  }

  lemma AllUnexpired(c: Config, t: Table, now: int)
    requires |Unexpired(c, t, now)| >= |t|
    ensures forall k :: k in t ==> now < t[k].started + c.window
  {
    var live := Unexpired(c, t, now).Keys;
    if k :| k in t && k !in live {
      SubsetFewer(live, t.Keys - {k});
    }
  }

  lemma RefusalReasons(c: Config, t: Table, call: Call)
    requires |t| <= MAX_SOURCES && Decide(c, t, call).Refused?
    ensures var e := Entry(t, Source(call));
      if e.Some? then call.now < e.value.started + c.window else FullOfLive(c, t, call.now)
  {
    UnexpiredFits(c, t, call.now);
    if Source(call) !in t {
      AllUnexpired(c, t, call.now);
    }
  }

  /** A caller who waits the hinted time is let in, whoever called meanwhile,
      unless a later window of theirs filled up or the map is full of live windows. */
  lemma RetryIsHonoured(c: Config, before: seq<Call>, refused: Call, between: seq<Call>, again: Call)
    requires c.window > 0 && ClockNeverFalls([refused] + between + [again])
    requires Source(again) == Source(refused) && !Opens(c, After(c, before), Source(refused), refused.now)
    requires Decide(c, After(c, before), refused).Refused?
    requires refused.now + Decide(c, After(c, before), refused).retry * SECOND <= again.now
    ensures var t := After(c, before + ([refused] + between)); var k := Source(again);
      Decide(c, t, again).Refused? ==>
        if k in t then t[k].started >= After(c, before)[k].started + c.window
        else FullOfLive(c, t, again.now)
  {
    var calls := before + ([refused] + between);
    if Decide(c, After(c, calls), again).Refused? {
      RetryIsLeast(c, After(c, before), refused);
      AtMostMaxSources(c, calls);
      RefusalReasons(c, After(c, calls), again);
      var later := [refused] + between;
      assert forall i :: 0 <= i < |later| ==> later[i] == (later + [again])[i];
      assert (later + [again])[|later|] == again;
      WindowsApart(c, before, later, Source(again), After(c, before)[Source(again)].started, again.now);
    }
  }
}
