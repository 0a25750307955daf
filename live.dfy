/**
 * Live tracking of one match (`start_live_scraping`): the live-feed and
 * scorecard URLs derived from the stored match link, and the polling loop that
 * fetches both pages, tags them with the match id, saves them, and stops on
 * the first live page that names a player of the match.
 *
 * The fetches and the saves are done by collaborators outside this model, so
 * what they return or raise on each tick is an input (`Tick`) and what the
 * loop asks of them is recorded: the URLs it requests and the saves it makes.
 */
module LiveTracking {
  import opened Common
  import opened Text

  // ---------------------------------------------------------------------
  // URLs

  const SiteRoot := "https://www.crex.live"
  const InfoWord := "info"
  const LiveWord := "live"
  const ScorecardWord := "scorecard"

  /** The live-feed URL: the site root, then the link with every `info` turned into `live`. */
  function LiveUrl(link: string): (url: string)
    ensures |SiteRoot| <= |url| && url[..|SiteRoot|] == SiteRoot
  {
    SiteRoot + ReplaceAll(link, InfoWord, LiveWord)
  }

  /** The scorecard URL: the site root, then the link with every `info` turned into `scorecard`. */
  function ScorecardUrl(link: string): (url: string)
    ensures |SiteRoot| <= |url| && url[..|SiteRoot|] == SiteRoot
  {
    SiteRoot + ReplaceAll(link, InfoWord, ScorecardWord)
  }

  /** `live` is as long as `info`, so the live URL is exactly the root plus the link in length. */
  lemma LiveUrlLength(link: string)
    ensures |LiveUrl(link)| == |SiteRoot| + |link|
  {
    ReplaceLength(link, InfoWord, LiveWord);
  }

  /** Each `info` turned into `scorecard` makes the URL five characters longer. */
  lemma ScorecardUrlLength(link: string)
    ensures |ScorecardUrl(link)| == |SiteRoot| + |link| + 5 * Count(link, InfoWord)
  {
    ReplaceLength(link, InfoWord, ScorecardWord);
  }

  /** A link without `info` is used as it is, after the root, for both pages. */
  lemma LinkWithoutInfo(link: string)
    requires !Contains(link, InfoWord)
    ensures LiveUrl(link) == SiteRoot + link
    ensures ScorecardUrl(link) == SiteRoot + link
  {
    ReplaceAbsent(link, InfoWord, LiveWord);
    ReplaceAbsent(link, InfoWord, ScorecardWord);
  }

  /**
   * Both URLs cut the link at the same places, the occurrences of `info`, and
   * differ only in the word glued back between the pieces; gluing `info` back
   * gives the link itself. No piece still holds `info`, so every occurrence
   * is rewritten, not only the first.
   */
  lemma UrlsShareSplit(link: string)
    ensures LiveUrl(link) == SiteRoot + Join(Split(link, InfoWord), LiveWord)
    ensures ScorecardUrl(link) == SiteRoot + Join(Split(link, InfoWord), ScorecardWord)
    ensures Join(Split(link, InfoWord), InfoWord) == link
    ensures forall j :: 0 <= j < |Split(link, InfoWord)| ==> !Contains(Split(link, InfoWord)[j], InfoWord)
  {
    SplitPiecesFree(link, InfoWord);
    ReplaceIsJoinOfSplit(link, InfoWord, LiveWord);
    ReplaceIsJoinOfSplit(link, InfoWord, ScorecardWord);
    JoinOfSplit(link, InfoWord);
  }

  // ---------------------------------------------------------------------
  // Records and saves

  /** A JSON-like value held in a scraped record. */
  datatype Value =
    | Null
    | Bool(b: bool)
    | Int(i: int)
    | Str(s: string)
    | List(items: seq<Value>)
    | Dict(fields: map<string, Value>)

  /** A scraped page: a dictionary from field names to values. */
  type Record = map<string, Value>

  const MatchIdKey := "match_id"
  /** The field whose presence on the live page means the match is over. */
  const CompletionKey := "player_of_the_match"

  /** `record["match_id"] = str(match_id)`: the match id is set, every other field is kept. */
  function Tag(record: Record, matchId: string): (tagged: Record)
    ensures tagged.Keys == record.Keys + {MatchIdKey}
    ensures tagged[MatchIdKey] == Str(matchId)
    ensures forall k :: k in record && k != MatchIdKey ==> tagged[k] == record[k]
  {
    record[MatchIdKey := Str(matchId)]
  }

  predicate Completed(live: Record) {
    CompletionKey in live
  }

  /** Tagging never adds or removes the completion marker. */
  lemma TagKeepsCompletion(record: Record, matchId: string)
    ensures Completed(Tag(record, matchId)) <==> Completed(record)
  {
    assert MatchIdKey != CompletionKey;
  }

  datatype Collection = LivePage | Scorecard

  /** One call of the save routine: the collection, the record, and the `unique_field` argument. */
  datatype Save = Save(collection: Collection, record: Record, uniqueField: string)

  /** A store that logs every save made into it, in order. */
  class Store {
    var saves: seq<Save>

    constructor ()
      ensures saves == []
    {
      saves := [];
    }

    method SaveToDb(collection: Collection, record: Record, uniqueField: string)
      modifies this
      ensures saves == old(saves) + [Save(collection, record, uniqueField)]
    {
      saves := saves + [Save(collection, record, uniqueField)];
    }
  }

  // ---------------------------------------------------------------------
  // The session as a function of what each tick brings

  /**
   * What one pass of the polling loop meets: both pages fetched and both saves
   * done, or the step that raised (with the pages fetched before it).
   */
  datatype Tick =
    | Fetched(live: Record, scorecard: Record)
    | LiveFetchRaised
    | ScorecardFetchRaised
    | LiveSaveRaised(live: Record, scorecard: Record)
    | ScorecardSaveRaised(live: Record, scorecard: Record)

  /** Polling goes on; Finished is the `break`; Aborted is the logged exception. */
  datatype State = Polling | Finished | Aborted

  /** The URLs requested, in order, and the saves made, in order. */
  datatype Session = Session(state: State, requests: seq<string>, saves: seq<Save>)

  /** The URLs one tick requests: the live page, then the scorecard unless the live fetch raised. */
  function TickRequests(t: Tick, liveUrl: string, scorecardUrl: string): (rs: seq<string>)
    ensures 1 <= |rs| <= 2 && rs[0] == liveUrl
    ensures |rs| == 1 <==> t.LiveFetchRaised?
    ensures |rs| == 2 ==> rs[1] == scorecardUrl
  {
    if t.LiveFetchRaised? then [liveUrl] else [liveUrl, scorecardUrl]
  }

  /** The saves one tick completes: the tagged live page, then the tagged scorecard. */
  function TickSaves(matchId: string, t: Tick): seq<Save> {
    match t
    case Fetched(live, scorecard) =>
      [Save(LivePage, Tag(live, matchId), matchId), Save(Scorecard, Tag(scorecard, matchId), matchId)]
    case ScorecardSaveRaised(live, _) => [Save(LivePage, Tag(live, matchId), matchId)]
    case _ => []
  }

  /** The state after one tick; the marker is looked for on the tagged live page. */
  function Next(matchId: string, t: Tick): State {
    if !t.Fetched? then Aborted
    else if Completed(Tag(t.live, matchId)) then Finished
    else Polling
  }

  /** The polling loop over the ticks it is given, from the Polling state. */
  function Poll(matchId: string, liveUrl: string, scorecardUrl: string, ticks: seq<Tick>): (s: Session)
    ensures |s.saves| <= |s.requests| <= 2 * |ticks|
    decreases |ticks|
  {
    if ticks == [] then Session(Polling, [], [])
    else
      var t := ticks[0];
      var requests, saves := TickRequests(t, liveUrl, scorecardUrl), TickSaves(matchId, t);
      if Next(matchId, t) == Polling then
        var rest := Poll(matchId, liveUrl, scorecardUrl, ticks[1..]);
        Session(rest.state, requests + rest.requests, saves + rest.saves)
      else
        Session(Next(matchId, t), requests, saves)
  }

  /** `start_live_scraping`; `scrapersReady` says whether creating the two scrapers returned normally. */
  function StartLive(matchId: string, matchLink: string, scrapersReady: bool, ticks: seq<Tick>): (s: Session)
    ensures !scrapersReady ==> s == Session(Aborted, [], [])
  {
    if !scrapersReady then Session(Aborted, [], [])
    else Poll(matchId, LiveUrl(matchLink), ScorecardUrl(matchLink), ticks)
  }

  // ---------------------------------------------------------------------
  // Reference definitions: what the ticks bring, concatenated

  function AllRequests(ticks: seq<Tick>, liveUrl: string, scorecardUrl: string): seq<string> {
    if ticks == [] then [] else TickRequests(ticks[0], liveUrl, scorecardUrl) + AllRequests(ticks[1..], liveUrl, scorecardUrl)
  }

  function AllSaves(matchId: string, ticks: seq<Tick>): seq<Save> {
    if ticks == [] then [] else TickSaves(matchId, ticks[0]) + AllSaves(matchId, ticks[1..])
  }

  predicate KeepsPolling(matchId: string, t: Tick) {
    Next(matchId, t) == Polling
  }

  /** The stopping rule: a tick continues exactly when both pages were saved and the live page has no marker. */
  lemma NextIsCompletionRule(matchId: string, t: Tick)
    ensures Next(matchId, t) == Polling <==> t.Fetched? && !Completed(t.live)
    ensures Next(matchId, t) == Finished <==> t.Fetched? && Completed(t.live)
    ensures Next(matchId, t) == Aborted <==> !t.Fetched?
  {
    if t.Fetched? {
      TagKeepsCompletion(t.live, matchId);
    }
  }

  /** While no tick stops the loop, every tick's requests and saves are made, and polling goes on. */
  lemma {:induction false} PollWithoutStop(matchId: string, liveUrl: string, scorecardUrl: string, ticks: seq<Tick>)
    requires forall j :: 0 <= j < |ticks| ==> KeepsPolling(matchId, ticks[j])
    ensures Poll(matchId, liveUrl, scorecardUrl, ticks)
      == Session(Polling, AllRequests(ticks, liveUrl, scorecardUrl), AllSaves(matchId, ticks))
    decreases |ticks|
  {
    if ticks != [] {
      assert KeepsPolling(matchId, ticks[0]);
      PollWithoutStop(matchId, liveUrl, scorecardUrl, ticks[1..]);
    }
  }

  /**
   * The loop stops on the first tick that does not keep polling, after that
   * tick's requests and saves, in the state that tick leads to; later ticks
   * are never looked at.
   */
  lemma {:induction false} PollStopsAtFirst(matchId: string, liveUrl: string, scorecardUrl: string, ticks: seq<Tick>, k: nat)
    requires k < |ticks|
    requires forall j :: 0 <= j < k ==> KeepsPolling(matchId, ticks[j])
    requires !KeepsPolling(matchId, ticks[k])
    ensures Poll(matchId, liveUrl, scorecardUrl, ticks)
      == Session(Next(matchId, ticks[k]), AllRequests(ticks[..k + 1], liveUrl, scorecardUrl), AllSaves(matchId, ticks[..k + 1]))
    decreases k
  {
    if k > 0 {
      assert KeepsPolling(matchId, ticks[0]);
      assert ticks[..k + 1][1..] == ticks[1..][..k];
      PollStopsAtFirst(matchId, liveUrl, scorecardUrl, ticks[1..], k - 1);
    } else {
      assert ticks[..1][1..] == [];
    }
  }

  /** Once the loop has stopped, ticks that would have come later change nothing. */
  lemma {:induction false} PollAfterStop(matchId: string, liveUrl: string, scorecardUrl: string, ticks: seq<Tick>, more: seq<Tick>)
    requires Poll(matchId, liveUrl, scorecardUrl, ticks).state != Polling
    ensures Poll(matchId, liveUrl, scorecardUrl, ticks + more) == Poll(matchId, liveUrl, scorecardUrl, ticks)
    decreases |ticks|
  {
    assert (ticks + more)[0] == ticks[0];
    if KeepsPolling(matchId, ticks[0]) {
      assert (ticks + more)[1..] == ticks[1..] + more;
      PollAfterStop(matchId, liveUrl, scorecardUrl, ticks[1..], more);
    }
  }

  /**
   * While the loop is polling, a further tick is taken: running on more ticks
   * appends to the requests and saves made so far and never rewrites them.
   */
  lemma {:induction false} PollContinues(matchId: string, liveUrl: string, scorecardUrl: string, ticks: seq<Tick>, more: seq<Tick>)
    requires Poll(matchId, liveUrl, scorecardUrl, ticks).state == Polling
    ensures var s, r, rest := Poll(matchId, liveUrl, scorecardUrl, ticks + more),
                             Poll(matchId, liveUrl, scorecardUrl, ticks),
                             Poll(matchId, liveUrl, scorecardUrl, more);
      s == Session(rest.state, r.requests + rest.requests, r.saves + rest.saves)
    decreases |ticks|
  {
    if ticks == [] {
      assert [] + more == more;
    } else {
      assert (ticks + more)[0] == ticks[0];
      assert (ticks + more)[1..] == ticks[1..] + more;
      PollContinues(matchId, liveUrl, scorecardUrl, ticks[1..], more);
      var t := ticks[0];
      var r1, s1 := Poll(matchId, liveUrl, scorecardUrl, ticks[1..]), Poll(matchId, liveUrl, scorecardUrl, more);
      Associate(TickRequests(t, liveUrl, scorecardUrl), r1.requests, s1.requests);
      Associate(TickSaves(matchId, t), r1.saves, s1.saves);
    }
  }

  /** Every save carries the match id both as the record's tag and as the `unique_field` argument. */
  predicate SavesTagged(matchId: string, saves: seq<Save>) {
    forall i :: 0 <= i < |saves| ==>
      saves[i].uniqueField == matchId && MatchIdKey in saves[i].record && saves[i].record[MatchIdKey] == Str(matchId)
  }

  /** The saves alternate: live page, scorecard, live page, ... */
  predicate LiveThenScorecard(saves: seq<Save>) {
    forall i :: 0 <= i < |saves| ==> saves[i].collection == (if i % 2 == 0 then LivePage else Scorecard)
  }

  /** The requests alternate: live URL, scorecard URL, live URL, ... */
  predicate Alternating(requests: seq<string>, liveUrl: string, scorecardUrl: string) {
    forall i :: 0 <= i < |requests| ==> requests[i] == (if i % 2 == 0 then liveUrl else scorecardUrl)
  }

  /** Putting one tick's requests in front keeps the requests alternating. */
  lemma RequestsStep(liveUrl: string, scorecardUrl: string, t: Tick, requests: seq<string>)
    requires Alternating(requests, liveUrl, scorecardUrl)
    requires !t.LiveFetchRaised? || requests == []
    ensures Alternating(TickRequests(t, liveUrl, scorecardUrl) + requests, liveUrl, scorecardUrl)
  {
    var rs, n := TickRequests(t, liveUrl, scorecardUrl) + requests, |TickRequests(t, liveUrl, scorecardUrl)|;
    forall i | n <= i < |rs|
      ensures rs[i] == (if i % 2 == 0 then liveUrl else scorecardUrl)
    {
      assert rs[i] == requests[i - n];
    }
  }

  /** The saves of one tick are tagged and go live page first; a tick that keeps polling makes two. */
  lemma TickSavesShape(matchId: string, t: Tick)
    ensures SavesTagged(matchId, TickSaves(matchId, t)) && LiveThenScorecard(TickSaves(matchId, t))
    ensures t.Fetched? ==> |TickSaves(matchId, t)| == 2
  {
  }

  /** Putting one tick's saves in front keeps the saves alternating and tagged. */
  lemma SavesStep(matchId: string, t: Tick, saves: seq<Save>)
    requires SavesTagged(matchId, saves) && LiveThenScorecard(saves)
    requires t.Fetched? || saves == []
    ensures SavesTagged(matchId, TickSaves(matchId, t) + saves) && LiveThenScorecard(TickSaves(matchId, t) + saves)
  {
    TickSavesShape(matchId, t);
    var head := TickSaves(matchId, t);
    var ss := head + saves;
    forall i | |head| <= i < |ss|
      ensures ss[i] == saves[i - |head|]
    {
    }
  }

  /**
   * On every run: every save is tagged with the match id, saves go live page
   * then scorecard, and the requests go live URL then scorecard URL.
   */
  lemma {:induction false} PollShape(matchId: string, liveUrl: string, scorecardUrl: string, ticks: seq<Tick>)
    ensures var s := Poll(matchId, liveUrl, scorecardUrl, ticks);
      SavesTagged(matchId, s.saves) && LiveThenScorecard(s.saves) && Alternating(s.requests, liveUrl, scorecardUrl)
    decreases |ticks|
  {
    if ticks != [] {
      var t := ticks[0];
      if KeepsPolling(matchId, t) {
        var rest := Poll(matchId, liveUrl, scorecardUrl, ticks[1..]);
        PollShape(matchId, liveUrl, scorecardUrl, ticks[1..]);
        RequestsStep(liveUrl, scorecardUrl, t, rest.requests);
        SavesStep(matchId, t, rest.saves);
      } else {
        RequestsStep(liveUrl, scorecardUrl, t, []);
        SavesStep(matchId, t, []);
      }
    }
  }

  /**
   * A Finished session ends with the terminal tick's two saves: its live
   * page, which carries the completion marker, and then its scorecard.
   */
  lemma {:induction false} FinishedSavesTerminalTick(matchId: string, liveUrl: string, scorecardUrl: string, ticks: seq<Tick>)
    requires Poll(matchId, liveUrl, scorecardUrl, ticks).state == Finished
    ensures var saves := Poll(matchId, liveUrl, scorecardUrl, ticks).saves;
      |saves| >= 2 && saves[|saves| - 2].collection == LivePage && Completed(saves[|saves| - 2].record)
      && saves[|saves| - 1].collection == Scorecard
    decreases |ticks|
  {
    var t := ticks[0];
    if KeepsPolling(matchId, t) {
      FinishedSavesTerminalTick(matchId, liveUrl, scorecardUrl, ticks[1..]);
    }
  }

  /** The session finishes exactly when some tick shows the marker and every tick before it kept polling. */
  lemma FinishedIffMarker(matchId: string, liveUrl: string, scorecardUrl: string, ticks: seq<Tick>)
    ensures Poll(matchId, liveUrl, scorecardUrl, ticks).state == Finished <==>
      exists k :: 0 <= k < |ticks| && ticks[k].Fetched? && Completed(ticks[k].live)
        && forall j :: 0 <= j < k ==> KeepsPolling(matchId, ticks[j])
  {
    var s := Poll(matchId, liveUrl, scorecardUrl, ticks);
    if k :| 0 <= k < |ticks| && !KeepsPolling(matchId, ticks[k]) && forall j :: 0 <= j < k ==> KeepsPolling(matchId, ticks[j]) {
      PollStopsAtFirst(matchId, liveUrl, scorecardUrl, ticks, k);
      NextIsCompletionRule(matchId, ticks[k]);
      forall k' | 0 <= k' < |ticks| && ticks[k'].Fetched? && Completed(ticks[k'].live)
          && forall j :: 0 <= j < k' ==> KeepsPolling(matchId, ticks[j])
        ensures k' == k
      {
        NextIsCompletionRule(matchId, ticks[k']);
      }
    } else {
      FirstStopOrNone(matchId, ticks);
      PollWithoutStop(matchId, liveUrl, scorecardUrl, ticks);
    }
  }

  /** Either every tick keeps polling, or there is a first one that does not. */
  lemma {:induction false} FirstStopOrNone(matchId: string, ticks: seq<Tick>)
    requires !exists k :: 0 <= k < |ticks| && !KeepsPolling(matchId, ticks[k]) && forall j :: 0 <= j < k ==> KeepsPolling(matchId, ticks[j])
    ensures forall j :: 0 <= j < |ticks| ==> KeepsPolling(matchId, ticks[j])
  {
    forall j | 0 <= j < |ticks|
      ensures KeepsPolling(matchId, ticks[j])
    {
      FirstStopBelow(matchId, ticks, j);
    }
  }

  lemma {:induction false} FirstStopBelow(matchId: string, ticks: seq<Tick>, n: nat)
    requires n < |ticks|
    requires !exists k :: 0 <= k < |ticks| && !KeepsPolling(matchId, ticks[k]) && forall j :: 0 <= j < k ==> KeepsPolling(matchId, ticks[j])
    ensures forall j :: 0 <= j <= n ==> KeepsPolling(matchId, ticks[j])
    decreases n
  {
    if n > 0 {
      FirstStopBelow(matchId, ticks, n - 1);
    }
    assert KeepsPolling(matchId, ticks[n]);
  }

  /** A live page that names a player of the match ends the session after that tick is saved. */
  lemma MarkerEndsSessionExample(matchId: string, liveUrl: string, scorecardUrl: string, live: Record, scorecard: Record)
    requires live == map[CompletionKey := Str("X")]
    ensures Poll(matchId, liveUrl, scorecardUrl, [Fetched(live, scorecard)])
      == Session(Finished, [liveUrl, scorecardUrl],
                 [Save(LivePage, live[MatchIdKey := Str(matchId)], matchId),
                  Save(Scorecard, scorecard[MatchIdKey := Str(matchId)], matchId)])
  {
    assert Completed(Tag(live, matchId));
  }

  /** A live page without the marker is followed by another tick. */
  lemma NoMarkerPollsAgainExample(matchId: string, liveUrl: string, scorecardUrl: string, first: Record, last: Record, scorecard: Record)
    requires first == map["score" := Str("45/2")]
    requires last == map[CompletionKey := Str("X")]
    ensures var s := Poll(matchId, liveUrl, scorecardUrl, [Fetched(first, scorecard), Fetched(last, scorecard)]);
      s.state == Finished && s.requests == [liveUrl, scorecardUrl, liveUrl, scorecardUrl] && |s.saves| == 4
  {
    var ticks := [Fetched(first, scorecard), Fetched(last, scorecard)];
    assert !Completed(Tag(first, matchId)) by {
      assert MatchIdKey != CompletionKey && "score" != CompletionKey;
    }
    assert ticks[1..] == [Fetched(last, scorecard)];
    MarkerEndsSessionExample(matchId, liveUrl, scorecardUrl, last, scorecard);
  }

  /** A scorecard fetch that raises ends the session with nothing saved for that tick. */
  lemma RaiseEndsSessionExample(matchId: string, liveUrl: string, scorecardUrl: string, live: Record, scorecard: Record)
    ensures Poll(matchId, liveUrl, scorecardUrl, [ScorecardFetchRaised, Fetched(live, scorecard)])
      == Session(Aborted, [liveUrl, scorecardUrl], [])
  {
  }

  // ---------------------------------------------------------------------
  // The loop itself

  /** `Poll` on the ticks from position `k` on, unfolded once. */
  lemma PollFrom(matchId: string, liveUrl: string, scorecardUrl: string, ticks: seq<Tick>, k: nat)
    requires k < |ticks|
    ensures var t, rest := ticks[k], Poll(matchId, liveUrl, scorecardUrl, ticks[k + 1..]);
      Poll(matchId, liveUrl, scorecardUrl, ticks[k..]) ==
        if KeepsPolling(matchId, t) then
          Session(rest.state, TickRequests(t, liveUrl, scorecardUrl) + rest.requests, TickSaves(matchId, t) + rest.saves)
        else
          Session(Next(matchId, t), TickRequests(t, liveUrl, scorecardUrl), TickSaves(matchId, t))
  {
    assert ticks[k..][1..] == ticks[k + 1..];
  }

  /** A tick that keeps polling moves the remaining work one tick on. */
  lemma PollAdvance(matchId: string, liveUrl: string, scorecardUrl: string, ticks: seq<Tick>, k: nat,
                    start: seq<Save>, requests: seq<string>, saves: seq<Save>)
    requires k < |ticks| && KeepsPolling(matchId, ticks[k])
    requires Poll(matchId, liveUrl, scorecardUrl, ticks).requests == requests + Poll(matchId, liveUrl, scorecardUrl, ticks[k..]).requests
    requires start + Poll(matchId, liveUrl, scorecardUrl, ticks).saves == saves + Poll(matchId, liveUrl, scorecardUrl, ticks[k..]).saves
    ensures var t, rest := ticks[k], Poll(matchId, liveUrl, scorecardUrl, ticks[k + 1..]);
      Poll(matchId, liveUrl, scorecardUrl, ticks).requests == (requests + TickRequests(t, liveUrl, scorecardUrl)) + rest.requests
      && start + Poll(matchId, liveUrl, scorecardUrl, ticks).saves == (saves + TickSaves(matchId, t)) + rest.saves
      && Poll(matchId, liveUrl, scorecardUrl, ticks[k..]).state == rest.state
  {
    PollFrom(matchId, liveUrl, scorecardUrl, ticks, k);
    var t, rest := ticks[k], Poll(matchId, liveUrl, scorecardUrl, ticks[k + 1..]);
    Associate(requests, TickRequests(t, liveUrl, scorecardUrl), rest.requests);
    Associate(saves, TickSaves(matchId, t), rest.saves);
  }

  /**
   * One pass of the loop body: fetch the live page, fetch the scorecard, tag
   * both, save the live page, save the scorecard, look for the marker. It
   * returns the state the pass leads to and the URLs it requested.
   */
  method RunTick(store: Store, matchId: string, liveUrl: string, scorecardUrl: string, tick: Tick)
    returns (next: State, requested: seq<string>)
    modifies store
    ensures next == Next(matchId, tick)
    ensures requested == TickRequests(tick, liveUrl, scorecardUrl)
    ensures store.saves == old(store.saves) + TickSaves(matchId, tick)
  {
    requested := [liveUrl];
    if tick.LiveFetchRaised? {
      return Aborted, requested;
    }
    requested := requested + [scorecardUrl];
    if tick.ScorecardFetchRaised? {
      return Aborted, requested;
    }
    var live := Tag(tick.live, matchId);
    var scorecard := Tag(tick.scorecard, matchId);
    if tick.LiveSaveRaised? {
      return Aborted, requested;
    }
    store.SaveToDb(LivePage, live, matchId);
    if tick.ScorecardSaveRaised? {
      return Aborted, requested;
    }
    store.SaveToDb(Scorecard, scorecard, matchId);
    if CompletionKey in live {
      return Finished, requested;
    }
    next := Polling;
  }

  /**
   * The `while True` loop on the ticks `feed` brings: it returns the state it
   * ends in (Polling when the feed runs out first) and the URLs it requested,
   * and appends the saves to the store.
   */
  method PollLoop(store: Store, matchId: string, liveUrl: string, scorecardUrl: string, feed: seq<Tick>)
    returns (state: State, requests: seq<string>)
    modifies store
    ensures var s := Poll(matchId, liveUrl, scorecardUrl, feed);
      state == s.state && requests == s.requests && store.saves == old(store.saves) + s.saves
  {
    requests := [];
    var k := 0;
    while k < |feed|
      invariant 0 <= k <= |feed|
      invariant Poll(matchId, liveUrl, scorecardUrl, feed).requests == requests + Poll(matchId, liveUrl, scorecardUrl, feed[k..]).requests
      invariant old(store.saves) + Poll(matchId, liveUrl, scorecardUrl, feed).saves
        == store.saves + Poll(matchId, liveUrl, scorecardUrl, feed[k..]).saves
      invariant Poll(matchId, liveUrl, scorecardUrl, feed).state == Poll(matchId, liveUrl, scorecardUrl, feed[k..]).state
    {
      ghost var requestsBefore, savesBefore := requests, store.saves;
      var next, requested := RunTick(store, matchId, liveUrl, scorecardUrl, feed[k]);
      requests := requests + requested;
      PollFrom(matchId, liveUrl, scorecardUrl, feed, k);
      if next != Polling {
        return next, requests;
      }
      PollAdvance(matchId, liveUrl, scorecardUrl, feed, k, old(store.saves), requestsBefore, savesBefore);
      k := k + 1;
    }
    state := Polling;
  }

  /**
   * `start_live_scraping`: derive both URLs, open the two scrapers (or end
   * Aborted when that raises), then poll. Nothing escapes: a tick that raises
   * ends the run in the Aborted state.
   */
  method StartLiveScraping(store: Store, matchId: string, matchLink: string, scrapersReady: bool, feed: seq<Tick>)
    returns (state: State, requests: seq<string>)
    modifies store
    ensures var s := StartLive(matchId, matchLink, scrapersReady, feed);
      state == s.state && requests == s.requests && store.saves == old(store.saves) + s.saves
  {
    var liveUrl := LiveUrl(matchLink);
    var scorecardUrl := ScorecardUrl(matchLink);
    if !scrapersReady {
      return Aborted, [];
    }
    state, requests := PollLoop(store, matchId, liveUrl, scorecardUrl, feed);
  }
}
