/**
 * The daily pass that turns today's stored match records into one-shot timers
 * (`schedule_timed_jobs_for_today_matches` in main.py): a detail refresh twenty
 * minutes before each match starts, then the start of live tracking.
 */
module Timers {
  import opened Common
  import opened Calendar
  import opened Text
  import opened DateFormat

  /**
   * A stored match-details document, as far as the pass reads it: a key the
   * document lacks is `None` (reading it raises `KeyError`).
   */
  datatype MatchRecord = MatchRecord(matchId: Option<string>, matchLink: Option<string>, matchDate: Option<string>)

  /** Which job a timer submits to the thread pool when it fires. */
  datatype Kind =
    | DetailRefresh  // scrape_match_details(match_id, match_link)
    | LiveStart      // start_live_scraping(match_id, match_link)

  /** A one-shot `date` job: when it fires, what it runs, and the arguments bound to it. */
  datatype Timer = Timer(runDate: DateTime, kind: Kind, matchId: string, matchLink: string)

  /** The exception that ends the pass at one record, in the order the code meets them. */
  datatype Abort =
    | MissingMatchDate         // match["match_date"]
    | MissingMatchId           // match["match_id"]
    | BadDate(why: ParseError) // datetime.strptime raises ValueError
    | MissingMatchLink         // match["match_link"]
    | BeforeMinimum            // the subtraction falls before 0001-01-01 (OverflowError)

  /** The two timers one record contributes, in the order they are added. */
  datatype Pair = Pair(refresh: Timer, live: Timer)

  /** What the loop body did with one record: two timers, or the exception that stops the pass. */
  type Outcome = Result<Pair, Abort>

  /** The timers a pass registered and, when it stopped early, why. */
  datatype Derivation = Derivation(timers: seq<Timer>, abort: Option<Abort>)

  /** The refresh runs twenty minutes ahead of the start. */
  const RefreshLead := 20 * 60

  /**
   * The date query: `match_date` holds today's date written as "Mon DD, YYYY".
   * The pattern has no regular-expression metacharacters, so the match is a
   * substring test; a document without a string `match_date` never matches.
   */
  predicate IsToday(today: Date, m: MatchRecord)
    requires ValidDate(today)
  {
    m.matchDate.Some? && Contains(m.matchDate.value, FormatDate(today))
  }

  /** The documents the query returns, in stored order. */
  function Select(today: Date, ms: seq<MatchRecord>): (sel: seq<MatchRecord>)
    requires ValidDate(today)
    ensures forall m :: m in sel <==> m in ms && IsToday(today, m)
    ensures |sel| <= |ms|
  {
    if ms == [] then []
    else (if IsToday(today, ms[0]) then [ms[0]] else []) + Select(today, ms[1..])
  }

  /** A record from which both timers can be built without an exception. */
  predicate Schedulable(m: MatchRecord) {
    m.matchDate.Some? && m.matchId.Some? && m.matchLink.Some?
    && Parse(m.matchDate.value).Ok? && Seconds(Parse(m.matchDate.value).value) >= RefreshLead
  }

  /** A refresh timer and a live-start timer bound to the same match. */
  predicate SameMatch(p: Pair) {
    p.refresh.kind == DetailRefresh && p.live.kind == LiveStart
    && p.refresh.matchId == p.live.matchId && p.refresh.matchLink == p.live.matchLink
  }

  /**
   * The timers of record `m`: the refresh runs exactly `RefreshLead` seconds
   * before the live start, which is the parsed `match_date`, and both carry the
   * record's own id and link.
   */
  predicate PairFor(m: MatchRecord, p: Pair) {
    m.matchDate.Some? && m.matchId.Some? && m.matchLink.Some? && Parse(m.matchDate.value).Ok?
    && SameMatch(p)
    && p.live.matchId == m.matchId.value && p.live.matchLink == m.matchLink.value
    && p.live.runDate == Parse(m.matchDate.value).value
    && ValidDateTime(p.refresh.runDate)
    && Seconds(p.refresh.runDate) + RefreshLead == Seconds(p.live.runDate)
  }

  /** The loop body for one record. */
  function MatchTimers(m: MatchRecord): (r: Outcome)
    ensures r.Ok? <==> Schedulable(m)
    ensures r.Ok? ==> PairFor(m, r.value)
    ensures r == Err(MissingMatchDate) <==> m.matchDate.None?
    ensures r == Err(MissingMatchId) <==> m.matchDate.Some? && m.matchId.None?
    ensures r.Err? && r.error.BadDate? <==>
      m.matchDate.Some? && m.matchId.Some? && Parse(m.matchDate.value).Err?
    ensures r == Err(MissingMatchLink) <==>
      m.matchDate.Some? && m.matchId.Some? && Parse(m.matchDate.value).Ok? && m.matchLink.None?
    ensures r == Err(BeforeMinimum) <==>
      m.matchDate.Some? && m.matchId.Some? && Parse(m.matchDate.value).Ok? && m.matchLink.Some?
      && Seconds(Parse(m.matchDate.value).value) < RefreshLead
  {
    if m.matchDate.None? then Err(MissingMatchDate)
    else if m.matchId.None? then Err(MissingMatchId)
    else match Parse(m.matchDate.value)
      case Err(e) => Err(BadDate(e))
      case Ok(start) =>
        if m.matchLink.None? then Err(MissingMatchLink)
        else match SecondsBefore(start, RefreshLead)
          case None => Err(BeforeMinimum)
          case Some(refresh) =>
            Ok(Pair(Timer(refresh, DetailRefresh, m.matchId.value, m.matchLink.value),
                    Timer(start, LiveStart, m.matchId.value, m.matchLink.value)))
  }

  /**
   * A pass over the outcomes of successive records: the timers of each in turn,
   * up to the first exception; that record and every later one register nothing.
   */
  function Collect(rs: seq<Outcome>): (d: Derivation)
    ensures |d.timers| % 2 == 0 && |d.timers| <= 2 * |rs|
    ensures d.abort.None? ==> |d.timers| == 2 * |rs|
  {
    if rs == [] then Derivation([], None)
    else match rs[0]
      case Err(e) => Derivation([], Some(e))
      case Ok(p) =>
        var rest := Collect(rs[1..]);
        Derivation([p.refresh, p.live] + rest.timers, rest.abort)
  }

  /** The outcome of each record, in order. */
  function Outcomes(ms: seq<MatchRecord>): (rs: seq<Outcome>)
    ensures |rs| == |ms|
  {
    if ms == [] then [] else [MatchTimers(ms[0])] + Outcomes(ms[1..])
  }

  lemma {:induction false} OutcomeAt(ms: seq<MatchRecord>, i: nat)
    requires i < |ms|
    ensures Outcomes(ms)[i] == MatchTimers(ms[i])
    decreases i
  {
    if i > 0 {
      OutcomeAt(ms[1..], i - 1);
    }
  }

  lemma OutcomesAll(ms: seq<MatchRecord>)
    ensures forall i :: 0 <= i < |ms| ==> Outcomes(ms)[i] == MatchTimers(ms[i])
  {
    forall i | 0 <= i < |ms| {
      OutcomeAt(ms, i);
    }
  }

  /** The whole pass over the selected records. */
  function Derive(ms: seq<MatchRecord>): Derivation {
    Collect(Outcomes(ms))
  }

  /** What one daily pass registers, for the records stored when it runs. */
  function TodayTimers(today: Date, stored: seq<MatchRecord>): Derivation
    requires ValidDate(today)
  {
    Derive(Select(today, stored))
  }

  /** The query keeps stored order: selecting from two halves is selecting from each. */
  lemma {:induction false} SelectAppend(today: Date, a: seq<MatchRecord>, b: seq<MatchRecord>)
    requires ValidDate(today)
    ensures Select(today, a + b) == Select(today, a) + Select(today, b)
    decreases |a|
  {
    if a == [] {
      assert a + b == b;
    } else {
      assert (a + b)[1..] == a[1..] + b;
      SelectAppend(today, a[1..], b);
    }
  }

  /** One more outcome after a pass that has not stopped: its timers are appended, or it stops the pass. */
  lemma {:induction false} CollectAppend(rs: seq<Outcome>, r: Outcome)
    requires Collect(rs).abort.None?
    ensures Collect(rs + [r]) == match r
      case Ok(p) => Derivation(Collect(rs).timers + [p.refresh, p.live], None)
      case Err(e) => Derivation(Collect(rs).timers, Some(e))
    decreases |rs|
  {
    if rs == [] {
      assert [] + [r] == [r];
      assert [r][1..] == [];
    } else {
      assert (rs + [r])[1..] == rs[1..] + [r];
      CollectAppend(rs[1..], r);
      match r
      case Ok(p) =>
        var p0 := rs[0].value;
        var mid := Collect(rs[1..]).timers;
        assert [p0.refresh, p0.live] + (mid + [p.refresh, p.live])
          == ([p0.refresh, p0.live] + mid) + [p.refresh, p.live];
      case Err(e) =>
    }
  }

  /** Once an outcome is an exception, nothing after it is looked at. */
  lemma {:induction false} CollectStops(a: seq<Outcome>, b: seq<Outcome>)
    requires Collect(a).abort.Some?
    ensures Collect(a + b) == Collect(a)
    decreases |a|
  {
    assert a != [];
    assert (a + b)[0] == a[0];
    if a[0].Ok? {
      assert (a + b)[1..] == a[1..] + b;
      CollectStops(a[1..], b);
    }
  }

  /** The pass runs to the end exactly when no outcome is an exception. */
  lemma {:induction false} CollectCompletes(rs: seq<Outcome>)
    ensures Collect(rs).abort.None? <==> forall i :: 0 <= i < |rs| ==> rs[i].Ok?
    decreases |rs|
  {
    if rs != [] {
      CollectCompletes(rs[1..]);
      if rs[0].Ok? {
        assert forall i :: 1 <= i < |rs| ==> rs[i] == rs[1..][i - 1];
      }
    }
  }

  /**
   * The first exception ends the pass with that exception: the timers of the
   * outcomes before it stay registered, two per record.
   */
  lemma AbortLeavesPrefix(rs: seq<Outcome>, k: nat)
    requires k < |rs| && rs[k].Err? && forall i :: 0 <= i < k ==> rs[i].Ok?
    ensures Collect(rs).abort == Some(rs[k].error)
    ensures Collect(rs).timers == Collect(rs[..k]).timers && |Collect(rs).timers| == 2 * k
  {
    CollectCompletes(rs[..k]);
    CollectAppend(rs[..k], rs[k]);
    assert rs[..k + 1] == rs[..k] + [rs[k]];
    CollectStops(rs[..k + 1], rs[k + 1..]);
    assert rs[..k + 1] + rs[k + 1..] == rs;
  }

  /** The pass from outcome `k` on: outcome `k` first, then the pass from `k + 1`. */
  lemma CollectFrom(rs: seq<Outcome>, k: nat)
    requires k < |rs|
    ensures Collect(rs[k..]) == match rs[k]
      case Err(e) => Derivation([], Some(e))
      case Ok(p) => Derivation([p.refresh, p.live] + Collect(rs[k + 1..]).timers, Collect(rs[k + 1..]).abort)
  {
    assert rs[k..][1..] == rs[k + 1..];
  }

  /**
   * The loop's invariant carried over one record that raises nothing: the jobs
   * added so far plus what the rest of the pass adds is the whole pass.
   */
  lemma CollectAdvance(rs: seq<Outcome>, k: nat, start: seq<Timer>, before: seq<Timer>, after: seq<Timer>)
    requires k < |rs| && rs[k].Ok?
    requires start + Collect(rs).timers == before + Collect(rs[k..]).timers
    requires after == before + [rs[k].value.refresh, rs[k].value.live]
    ensures start + Collect(rs).timers == after + Collect(rs[k + 1..]).timers
    ensures Collect(rs[k..]).abort == Collect(rs[k + 1..]).abort
  {
    CollectFrom(rs, k);
    var p, rest := rs[k].value, Collect(rs[k + 1..]).timers;
    assert Collect(rs[k..]).timers == [p.refresh, p.live] + rest;
    Associate(before, [p.refresh, p.live], rest);
  }


  /** The loop's invariant at a record that raises: the rest of the pass adds nothing and ends with that exception. */
  lemma CollectHalt(rs: seq<Outcome>, k: nat)
    requires k < |rs| && rs[k].Err?
    ensures Collect(rs[k..]) == Derivation([], Some(rs[k].error))
  {
    CollectFrom(rs, k);
  }

  /** Outcome `i` of a pass that reached it owns positions `2i` and `2i+1`: refresh, then live start. */
  lemma {:induction false} CollectedPair(rs: seq<Outcome>, i: nat)
    requires i < |rs| && forall j :: 0 <= j <= i ==> rs[j].Ok?
    ensures 2 * i + 2 <= |Collect(rs).timers|
    ensures Collect(rs).timers[2 * i] == rs[i].value.refresh
    ensures Collect(rs).timers[2 * i + 1] == rs[i].value.live
    decreases i
  {
    var p := rs[0].value;
    var rest := Collect(rs[1..]).timers;
    assert Collect(rs).timers == [p.refresh, p.live] + rest;
    if i > 0 {
      assert forall j :: 0 <= j <= i - 1 ==> rs[1..][j] == rs[j + 1];
      CollectedPair(rs[1..], i - 1);
    }
  }

  /** The pass over the selected records runs to the end exactly when every one of them is schedulable. */
  lemma DeriveCompletes(ms: seq<MatchRecord>)
    ensures Derive(ms).abort.None? <==> forall i :: 0 <= i < |ms| ==> Schedulable(ms[i])
  {
    OutcomesAll(ms);
    CollectCompletes(Outcomes(ms));
  }

  /**
   * When record `k` is the first that cannot be scheduled, the pass raises its
   * exception, and exactly the `2k` timers of the records before it are registered.
   */
  lemma DeriveStopsAt(ms: seq<MatchRecord>, k: nat)
    requires k < |ms| && !Schedulable(ms[k]) && forall i :: 0 <= i < k ==> Schedulable(ms[i])
    ensures Derive(ms).abort == Some(MatchTimers(ms[k]).error)
    ensures Derive(ms).timers == Derive(ms[..k]).timers && |Derive(ms).timers| == 2 * k
  {
    var rs := Outcomes(ms);
    OutcomesAll(ms);
    OutcomesAll(ms[..k]);
    AbortLeavesPrefix(rs, k);
    assert rs[..k] == Outcomes(ms[..k]);
  }

  /** Record `i` of a pass that reached it registers its own two timers at positions `2i` and `2i+1`. */
  lemma DerivedPair(ms: seq<MatchRecord>, i: nat)
    requires i < |ms| && forall j :: 0 <= j <= i ==> Schedulable(ms[j])
    ensures 2 * i + 2 <= |Derive(ms).timers|
    ensures PairFor(ms[i], Pair(Derive(ms).timers[2 * i], Derive(ms).timers[2 * i + 1]))
  {
    OutcomesAll(ms);
    CollectedPair(Outcomes(ms), i);
  }

  /** The refresh timer fires strictly before the live-start timer of the same match. */
  lemma RefreshPrecedesLive(m: MatchRecord)
    requires Schedulable(m)
    ensures var p := MatchTimers(m).value;
      ValidDateTime(p.live.runDate) && Seconds(p.refresh.runDate) < Seconds(p.live.runDate)
  {
  }

  /** The first three characters of a printed date are the letters of the month's name. */
  lemma DateLetters(s: string, d: Date, i: nat)
    requires ValidDate(d) && OccursAt(s, FormatDate(d), i)
    ensures IsAsciiLetter(s[i]) && IsAsciiLetter(s[i + 1]) && IsAsciiLetter(s[i + 2])
  {
    var p, name := FormatDate(d), MonthAbbrev(d.month);
    assert p[0] == name[0] && p[1] == name[1] && p[2] == name[2];
    assert s[i..i + 12][0] == p[0] && s[i..i + 12][1] == p[1] && s[i..i + 12][2] == p[2];
  }

  /**
   * In a string that matches the format, a printed date can only stand at the
   * front: from the fourth character on there are no letters except the AM/PM
   * marker, and the fourth is white space.
   */
  lemma DateOnlyInFront(s: string, d: Date)
    requires ValidDate(d) && Contains(s, FormatDate(d)) && Scan(s).Some?
    ensures IndexOf(s, FormatDate(d)) == Some(0)
  {
    var i := IndexOf(s, FormatDate(d)).value;
    ScanLayout(s);
    DateLetters(s, d, i);
  }

  /** A `match_date` that the query selects for `d` and that parses, parses to a time on `d`. */
  lemma SelectedParsedIsToday(s: string, d: Date)
    requires ValidDate(d) && Contains(s, FormatDate(d)) && Parse(s).Ok?
    ensures Parse(s).value.date == d
  {
    DateOnlyInFront(s, d);
    assert OccursAt(s, FormatDate(d), 0);
    assert s[..12] == FormatDate(d);
    ParseDatePrefix(s, d);
  }

  /** `Derive` looked at one record at a time from the front. */
  lemma DeriveCons(ms: seq<MatchRecord>)
    requires ms != []
    ensures Derive(ms) == match MatchTimers(ms[0])
      case Err(e) => Derivation([], Some(e))
      case Ok(p) => Derivation([p.refresh, p.live] + Derive(ms[1..]).timers, Derive(ms[1..]).abort)
  {
    assert Outcomes(ms)[1..] == Outcomes(ms[1..]);
  }

  /** The live start of a selected record is on `today`; its refresh is on `today` or, before 00:20, the day before. */
  predicate OnDay(today: Date, t: Timer)
    requires ValidDate(today)
  {
    match t.kind
    case LiveStart => t.runDate.date == today
    case DetailRefresh => t.runDate.date == today || (today != FirstDate && t.runDate.date == PrevDate(today))
  }

  /**
   * The timers of a selected record fall on the query's day: the live start on
   * `today`, the refresh on `today` unless the match starts before 00:20, in
   * which case it is on the previous day.
   */
  lemma MatchTimersOnDay(today: Date, m: MatchRecord)
    requires ValidDate(today) && IsToday(today, m) && Schedulable(m)
    ensures var p := MatchTimers(m).value;
      p.live.runDate.date == today
      && (SecondOfDay(p.live.runDate) >= RefreshLead ==> p.refresh.runDate.date == today)
      && (SecondOfDay(p.live.runDate) < RefreshLead ==>
            today != FirstDate && p.refresh.runDate.date == PrevDate(today))
  {
    var start := Parse(m.matchDate.value).value;
    SelectedParsedIsToday(m.matchDate.value, today);
    if SecondOfDay(start) >= RefreshLead {
      SecondsBeforeSameDay(start, RefreshLead);
    } else {
      SecondsBeforePrevDay(start, RefreshLead);
    }
  }

  /** Every timer a pass registers for the selected records falls on the query's day. */
  lemma {:induction false} TimersOnDay(today: Date, ms: seq<MatchRecord>)
    requires ValidDate(today) && forall m :: m in ms ==> IsToday(today, m)
    ensures forall t :: t in Derive(ms).timers ==> OnDay(today, t)
    decreases |ms|
  {
    if ms != [] {
      DeriveCons(ms);
      if Schedulable(ms[0]) {
        var p := MatchTimers(ms[0]).value;
        MatchTimersOnDay(today, ms[0]);
        assert OnDay(today, p.refresh) && OnDay(today, p.live);
        assert forall m :: m in ms[1..] ==> m in ms;
        TimersOnDay(today, ms[1..]);
        PairOnDay(today, p, Derive(ms[1..]).timers);
      }
    }
  }

  /** A pair of timers on the day, put before timers on the day. */
  lemma PairOnDay(today: Date, p: Pair, rest: seq<Timer>)
    requires ValidDate(today) && OnDay(today, p.refresh) && OnDay(today, p.live)
    requires forall t :: t in rest ==> OnDay(today, t)
    ensures forall t :: t in [p.refresh, p.live] + rest ==> OnDay(today, t)
  {
  }

  /** The daily pass schedules nothing outside today, except refreshes on the evening before. */
  lemma TodayTimersOnDay(today: Date, stored: seq<MatchRecord>)
    requires ValidDate(today)
    ensures forall t :: t in TodayTimers(today, stored).timers ==> OnDay(today, t)
  {
    TimersOnDay(today, Select(today, stored));
  }

  /** The registrations in `ts` of the job `kind` for the match `id`. */
  function CountFor(ts: seq<Timer>, id: string, kind: Kind): nat {
    if ts == [] then 0
    else (if ts[0].matchId == id && ts[0].kind == kind then 1 else 0) + CountFor(ts[1..], id, kind)
  }

  /** The records whose `match_id` is `id`. */
  function RecordsWithId(ms: seq<MatchRecord>, id: string): nat {
    if ms == [] then 0
    else (if ms[0].matchId == Some(id) then 1 else 0) + RecordsWithId(ms[1..], id)
  }

  lemma {:induction false} CountForAppend(a: seq<Timer>, b: seq<Timer>, id: string, kind: Kind)
    ensures CountFor(a + b, id, kind) == CountFor(a, id, kind) + CountFor(b, id, kind)
    decreases |a|
  {
    if a == [] {
      assert a + b == b;
    } else {
      assert (a + b)[1..] == a[1..] + b;
      CountForAppend(a[1..], b, id, kind);
    }
  }

  /**
   * A pass that runs to the end registers, for every match id, exactly one
   * job of each kind per selected record carrying that id; nothing is merged.
   */
  lemma {:induction false} DeriveCount(ms: seq<MatchRecord>, id: string, kind: Kind)
    requires Derive(ms).abort.None?
    ensures CountFor(Derive(ms).timers, id, kind) == RecordsWithId(ms, id)
    decreases |ms|
  {
    if ms != [] {
      DeriveCons(ms);
      DeriveCount(ms[1..], id, kind);
      PairCount(ms[0], MatchTimers(ms[0]).value, Derive(ms[1..]).timers, id, kind);
    }
  }

  /** The two timers of one record count once for its id, once per kind. */
  lemma PairCount(m: MatchRecord, p: Pair, rest: seq<Timer>, id: string, kind: Kind)
    requires SameMatch(p) && m.matchId.Some? && p.live.matchId == m.matchId.value
    ensures CountFor([p.refresh, p.live] + rest, id, kind)
      == (if m.matchId == Some(id) then 1 else 0) + CountFor(rest, id, kind)
  {
    CountForAppend([p.refresh, p.live], rest, id, kind);
    assert [p.refresh, p.live][1..] == [p.live];
  }

  /**
   * Registration has no job id, so a second pass over the same records adds
   * the same timers again: the second pass adds, for each match id, one job
   * of each kind per selected record with that id, on top of what the first
   * pass left.
   */
  lemma SecondPassAddsOne(today: Date, stored: seq<MatchRecord>, jobs: seq<Timer>, id: string, kind: Kind)
    requires ValidDate(today) && TodayTimers(today, stored).abort.None?
    ensures var ts := TodayTimers(today, stored).timers;
      CountFor(jobs + ts + ts, id, kind)
      == CountFor(jobs + ts, id, kind) + RecordsWithId(Select(today, stored), id)
  {
    var ts := TodayTimers(today, stored).timers;
    CountForAppend(jobs + ts, ts, id, kind);
    DeriveCount(Select(today, stored), id, kind);
  }

  /**
   * Two passes together add, for each match id, two jobs of each kind per
   * selected record with that id.
   */
  lemma RerunRegistersAgain(today: Date, stored: seq<MatchRecord>, jobs: seq<Timer>, id: string, kind: Kind)
    requires ValidDate(today) && TodayTimers(today, stored).abort.None?
    ensures var ts := TodayTimers(today, stored).timers;
      CountFor(jobs + ts + ts, id, kind)
      == CountFor(jobs, id, kind) + 2 * RecordsWithId(Select(today, stored), id)
  {
    var ts := TodayTimers(today, stored).timers;
    CountForAppend(jobs + ts, ts, id, kind);
    CountForAppend(jobs, ts, id, kind);
    DeriveCount(Select(today, stored), id, kind);
  }

  /** The timers of a record whose date parses to `start`, with the refresh time `refresh` computed from it. */
  lemma ScheduledAt(m: MatchRecord, start: DateTime, refresh: DateTime)
    requires m.matchId.Some? && m.matchLink.Some? && m.matchDate.Some?
    requires Parse(m.matchDate.value) == Ok(start) && SecondsBefore(start, RefreshLead) == Some(refresh)
    ensures MatchTimers(m) == Ok(Pair(Timer(refresh, DetailRefresh, m.matchId.value, m.matchLink.value),
                                      Timer(start, LiveStart, m.matchId.value, m.matchLink.value)))
  {
  }

  /** Twenty minutes before 15:30 is 15:10 on the same day. */
  lemma AfternoonRefresh(start: DateTime)
    requires start == DateTime(Date(2024, 11, 15), 15, 30, 0)
    ensures SecondsBefore(start, RefreshLead) == Some(DateTime(Date(2024, 11, 15), 15, 10, 0))
  {
    SecondsBeforeSameDay(start, RefreshLead);
    assert AtSecondOfDay(start.date, 15 * 3600 + 10 * 60) == DateTime(Date(2024, 11, 15), 15, 10, 0);
  }

  /** Twenty minutes before 00:10 on 1 March 2024 is 23:50 on 29 February. */
  lemma MidnightRefresh(start: DateTime)
    requires start == DateTime(Date(2024, 3, 1), 0, 10, 0)
    ensures SecondsBefore(start, RefreshLead) == Some(DateTime(Date(2024, 2, 29), 23, 50, 0))
  {
    SecondsBeforePrevDay(start, RefreshLead);
    assert PrevDate(start.date) == Date(2024, 2, 29);
    assert AtSecondOfDay(Date(2024, 2, 29), 23 * 3600 + 50 * 60) == DateTime(Date(2024, 2, 29), 23, 50, 0);
  }

  /** A match at 15:30 gets its refresh at 15:10 and its live start at 15:30, on the same day. */
  lemma AfternoonMatchExample(m: MatchRecord)
    requires m.matchId.Some? && m.matchLink.Some? && m.matchDate == Some("Nov 15, 2024, 03:30:00 PM")
    ensures MatchTimers(m).Ok?
    ensures MatchTimers(m).value.refresh.runDate == DateTime(Date(2024, 11, 15), 15, 10, 0)
    ensures MatchTimers(m).value.live.runDate == DateTime(Date(2024, 11, 15), 15, 30, 0)
  {
    var start := DateTime(Date(2024, 11, 15), 15, 30, 0);
    AfternoonRefresh(start);
    AfternoonExample();
    ScheduledAt(m, start, DateTime(Date(2024, 11, 15), 15, 10, 0));
  }

  /** A match at 00:10 on 1 March of a leap year gets its refresh at 23:50 on 29 February. */
  lemma MidnightMatchExample(m: MatchRecord)
    requires m.matchId.Some? && m.matchLink.Some? && m.matchDate == Some("Mar 01, 2024, 12:10:00 AM")
    ensures MatchTimers(m).Ok?
    ensures MatchTimers(m).value.refresh.runDate == DateTime(Date(2024, 2, 29), 23, 50, 0)
    ensures MatchTimers(m).value.live.runDate == DateTime(Date(2024, 3, 1), 0, 10, 0)
  {
    var start := DateTime(Date(2024, 3, 1), 0, 10, 0);
    MidnightRefresh(start);
    EarlyMorningExample();
    ScheduledAt(m, start, DateTime(Date(2024, 2, 29), 23, 50, 0));
  }

  /**
   * The scheduler the daily pass adds its one-shot jobs to. Jobs are kept in
   * the order they were added; nothing here removes or merges them.
   */
  class Scheduler {
    var jobs: seq<Timer>

    constructor()
      ensures jobs == []
    {
      jobs := [];
    }

    /** `scheduler.add_job(..., 'date', run_date=...)`. */
    method AddJob(t: Timer)
      modifies this
      ensures jobs == old(jobs) + [t]
    {
      jobs := jobs + [t];
    }

    /**
     * The loop body for one record: read its id, parse its date, read its link,
     * compute the refresh time, then add the refresh job and the live-start job.
     * An exception on the way adds nothing.
     */
    method ScheduleMatch(m: MatchRecord) returns (outcome: Outcome)
      modifies this
      ensures outcome == MatchTimers(m)
      ensures outcome.Ok? ==> jobs == old(jobs) + [outcome.value.refresh, outcome.value.live]
      ensures outcome.Err? ==> jobs == old(jobs)
    {
      if m.matchDate.None? {
        return Err(MissingMatchDate);
      }
      if m.matchId.None? {
        return Err(MissingMatchId);
      }
      var start := Parse(m.matchDate.value);
      if start.Err? {
        return Err(BadDate(start.error));
      }
      if m.matchLink.None? {
        return Err(MissingMatchLink);
      }
      var before := SecondsBefore(start.value, RefreshLead);
      if before.None? {
        return Err(BeforeMinimum);
      }
      var refresh := Timer(before.value, DetailRefresh, m.matchId.value, m.matchLink.value);
      AddJob(refresh);
      var live := Timer(start.value, LiveStart, m.matchId.value, m.matchLink.value);
      AddJob(live);
      outcome := Ok(Pair(refresh, live));
    }

    /**
     * The `for` loop over the records the query returned: each record in turn
     * through `ScheduleMatch`. The first record that raises ends the loop with
     * that exception, which is returned; the jobs of the records before it stay added.
     */
    method ScheduleAll(upcoming: seq<MatchRecord>) returns (raised: Option<Abort>)
      modifies this
      ensures jobs == old(jobs) + Derive(upcoming).timers
      ensures raised == Derive(upcoming).abort
    {
      ghost var rs := Outcomes(upcoming);
      var k := 0;
      while k < |upcoming|
        invariant 0 <= k <= |upcoming|
        invariant old(jobs) + Collect(rs).timers == jobs + Collect(rs[k..]).timers
        invariant Collect(rs).abort == Collect(rs[k..]).abort
      {
        ghost var before := jobs;
        var outcome := ScheduleMatch(upcoming[k]);
        OutcomeAt(upcoming, k);
        if outcome.Err? {
          CollectHalt(rs, k);
          return Some(outcome.error);
        }
        CollectAdvance(rs, k, old(jobs), before, jobs);
        k := k + 1;
      }
      raised := None;
    }

    /**
     * One daily pass on `today`: the date query over the stored records, then
     * the loop over what it returns.
     */
    method ScheduleTimedJobsForTodayMatches(today: Date, stored: seq<MatchRecord>) returns (raised: Option<Abort>)
      requires ValidDate(today)
      modifies this
      ensures jobs == old(jobs) + TodayTimers(today, stored).timers
      ensures raised == TodayTimers(today, stored).abort
    {
      var upcoming := Select(today, stored);
      raised := ScheduleAll(upcoming);
    }
  }
}
