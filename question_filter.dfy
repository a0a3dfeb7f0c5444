/**
 * FireAlarm's question filter (FireAlarm/Filter.swift): the decoding of an
 * event from the realtime active-questions websocket, the token selection of
 * the Bayesian classifier, the six-hour report suppressor and the
 * websocket's reconnect counter.
 *
 * Times are integer seconds.  The floating-point scoring of the classifier
 * is a parameter: `verdict` maps the consulted tokens, in order, to the
 * filter's decision.
 */
module QuestionFilter {
  import opened Wrappers
  import opened Strings

  const SixHours := 6 * 60 * 60
  const OneDay := 60 * 60 * 24
  /** `wsMaxRetries`. */
  const WsMaxRetries := 10
  /** The only site whose questions are checked. */
  const TargetSite := "stackoverflow"

  /** A token's probabilities, as loaded from the filter database. */
  datatype Word = Word(text: string, trueProbability: real, falseProbability: real)

  /** A question as fetched from the API. */
  datatype Post = Post(id: int, title: string, body: string, tags: seq<string>,
                       creationDate: int, lastActivityDate: int)

  /** An entry of `recentlyReportedPosts`. */
  datatype Report = Report(id: int, when: int)

  datatype ReportResult = NotBad | AlreadyReported | Reported

  /** What the filter posts to its chat room. */
  datatype RoomMessage =
    | PotentiallyBad(id: int, tag: string, title: string, tags: seq<string>)
    | ReconnectFailed

  /** `post.tags.first ?? "tagless"`. */
  function PrimaryTag(tags: seq<string>): string
  {
    if tags == [] then "tagless" else tags[0]
  }

  // ---------------------------------------------------------------------
  // Token selection of `checkPost`

  /** The body lower-cased and split on every non-alphanumeric character. */
  function Tokens(body: string): seq<string>
  {
    Split(Lower(body), NotAlnum)
  }

  /** The non-empty components that are keys of the word table, in order. */
  function Known(components: seq<string>, words: map<string, Word>): seq<string>
  {
    if components == [] then []
    else
      var last := components[|components| - 1];
      Known(components[..|components| - 1], words) + (if last != [] && last in words then [last] else [])
  }

  /** `checkedWords` at the end of `checkPost`. */
  function CheckedWords(body: string, words: map<string, Word>): seq<string>
  {
    Known(Tokens(body), words)
  }

  /** A component is consulted exactly when it is non-empty and in the table. */
  lemma {:induction false} KnownMembers(components: seq<string>, words: map<string, Word>)
    ensures forall w :: w in Known(components, words) <==> w in components && w != [] && w in words
  {
    if components != [] {
      var init := components[..|components| - 1];
      KnownMembers(init, words);
      assert components == init + [components[|components| - 1]];
    }
  }

  /** Selection keeps the order of the components: it distributes over concatenation. */
  lemma {:induction false} KnownConcat(a: seq<string>, b: seq<string>, words: map<string, Word>)
    ensures Known(a + b, words) == Known(a, words) + Known(b, words)
  {
    if b != [] {
      KnownConcat(a, b[..|b| - 1], words);
      assert (a + b)[..|a + b| - 1] == a + b[..|b| - 1];
    } else {
      assert a + b == a;
    }
  }

  lemma LowerIsLowerCase(s: string)
    ensures forall j :: 0 <= j < |Lower(s)| ==> ToLower(Lower(s)[j]) == Lower(s)[j]
  {
  }

  /**
   * The consulted tokens are the non-empty maximal alphanumeric runs of the
   * lower-cased body that are keys of the table, in body order; each one is
   * alphanumeric and already lower-case.
   */
  lemma CheckedWordsAreKnownRuns(body: string, words: map<string, Word>)
    ensures forall w :: w in CheckedWords(body, words) <==> w in Tokens(body) && w != [] && w in words
    ensures forall w :: w in CheckedWords(body, words) ==> NoSeparator(w, NotAlnum) && Lower(w) == w
    ensures |Tokens(body)| == |Separators(Lower(body), NotAlnum)| + 1
            && Interleave(Tokens(body), Separators(Lower(body), NotAlnum)) == Lower(body)
  {
    KnownMembers(Tokens(body), words);
    SplitPartsHaveNoSeparator(Lower(body), NotAlnum);
    SplitPartsComeFromString(Lower(body), NotAlnum);
    SplitRoundTrip(Lower(body), NotAlnum);
    LowerIsLowerCase(body);
    forall w | w in CheckedWords(body, words) ensures Lower(w) == w {
      forall j | 0 <= j < |w| ensures Lower(w)[j] == w[j] {
        assert w[j] in Lower(body);
      }
    }
  }

  // ---------------------------------------------------------------------
  // The report suppressor

  /** `filter { $0.when > minDate }`. */
  function Recent(reports: seq<Report>, minDate: int): (r: seq<Report>)
    ensures forall e :: e in r <==> e in reports && e.when > minDate
  {
    if reports == [] then []
    else (if reports[0].when > minDate then [reports[0]] else []) + Recent(reports[1..], minDate)
  }

  predicate HasId(reports: seq<Report>, id: int)
  {
    exists k :: 0 <= k < |reports| && reports[k].id == id
  }

  /** No two entries share an id. */
  predicate UniqueIds(reports: seq<Report>)
  {
    forall i, j :: 0 <= i < j < |reports| ==> reports[i].id != reports[j].id
  }

  /** Pruning keeps the order of the entries: it distributes over concatenation. */
  lemma {:induction false} RecentConcat(a: seq<Report>, b: seq<Report>, minDate: int)
    ensures Recent(a + b, minDate) == Recent(a, minDate) + Recent(b, minDate)
  {
    if a != [] {
      assert (a + b)[1..] == a[1..] + b;
      RecentConcat(a[1..], b, minDate);
    } else {
      assert a + b == b;
    }
  }

  /** Pruning keeps the ids unique. */
  lemma {:induction false} RecentKeepsUniqueIds(reports: seq<Report>, minDate: int)
    requires UniqueIds(reports)
    ensures UniqueIds(Recent(reports, minDate))
  {
    if reports != [] {
      var rest := Recent(reports[1..], minDate);
      RecentKeepsUniqueIds(reports[1..], minDate);
      forall j | 0 <= j < |rest| ensures rest[j].id != reports[0].id {
        assert rest[j] in reports[1..];
        var k :| 0 <= k < |reports[1..]| && reports[1..][k] == rest[j];
        assert reports[k + 1] == rest[j];
      }
    }
  }

  /** Appending an entry whose id is absent keeps the ids unique. */
  lemma AppendKeepsUniqueIds(reports: seq<Report>, e: Report)
    requires UniqueIds(reports) && !HasId(reports, e.id)
    ensures UniqueIds(reports + [e])
  {
  }

  /**
   * One call of `reportPost` at time `now`: the entries older than six hours
   * are dropped; then, if the question is still there, nothing else changes,
   * and otherwise it is appended once and announced.
   */
  ghost predicate ReportStep(reports: seq<Report>, posted: seq<RoomMessage>, post: Post, now: int,
                             r: ReportResult, reports': seq<Report>, posted': seq<RoomMessage>)
  {
    var pruned := Recent(reports, now - SixHours);
    if HasId(pruned, post.id) then
      r == AlreadyReported && reports' == pruned && posted' == posted
    else
      r == Reported && reports' == pruned + [Report(post.id, now)]
      && posted' == posted + [PotentiallyBad(post.id, PrimaryTag(post.tags), post.title, post.tags)]
  }

  /**
   * A question reported at `t1` is suppressed by a later `reportPost` of the
   * same id less than six hours on: nothing is appended or posted.
   */
  lemma SuppressedWithinWindow(reports: seq<Report>, posted: seq<RoomMessage>, post: Post, t1: int,
                               reports1: seq<Report>, posted1: seq<RoomMessage>,
                               again: Post, t2: int, r2: ReportResult,
                               reports2: seq<Report>, posted2: seq<RoomMessage>)
    requires ReportStep(reports, posted, post, t1, Reported, reports1, posted1)
    requires ReportStep(reports1, posted1, again, t2, r2, reports2, posted2)
    requires again.id == post.id && t2 < t1 + SixHours
    ensures r2 == AlreadyReported
    ensures reports2 == Recent(reports1, t2 - SixHours) && posted2 == posted1
  {
    var pruned := Recent(reports1, t2 - SixHours);
    assert reports1[|reports1| - 1] == Report(post.id, t1);
    assert Report(post.id, t1) in pruned;
    var k :| 0 <= k < |pruned| && pruned[k] == Report(post.id, t1);
    assert HasId(pruned, again.id);
  }

  /**
   * A question newly reported at `t1` is reported again by a `reportPost` of
   * the same id six hours or more later: its entry has been pruned.
   */
  lemma ReleasedAfterWindow(reports: seq<Report>, posted: seq<RoomMessage>, post: Post, t1: int,
                            reports1: seq<Report>, posted1: seq<RoomMessage>,
                            again: Post, t3: int, r3: ReportResult,
                            reports3: seq<Report>, posted3: seq<RoomMessage>)
    requires ReportStep(reports, posted, post, t1, Reported, reports1, posted1)
    requires ReportStep(reports1, posted1, again, t3, r3, reports3, posted3)
    requires again.id == post.id && t3 >= t1 + SixHours
    ensures r3 == Reported
    ensures reports3 == Recent(reports1, t3 - SixHours) + [Report(post.id, t3)]
    ensures posted3 == posted1 + [PotentiallyBad(post.id, PrimaryTag(again.tags), again.title, again.tags)]
  {
    var pruned := Recent(reports, t1 - SixHours);
    assert reports1 == pruned + [Report(post.id, t1)];
    RecentConcat(pruned, [Report(post.id, t1)], t3 - SixHours);
    var later := Recent(pruned, t3 - SixHours);
    assert Recent([Report(post.id, t1)], t3 - SixHours) == [];
    assert Recent(reports1, t3 - SixHours) == later + [];
    forall k | 0 <= k < |later| ensures later[k].id != post.id {
      assert later[k] in pruned;
    }
  }

  // ---------------------------------------------------------------------
  // Decoding an active-question event

  /** A decoded JSON value; `JInt` is a number that casts to `Int`. */
  datatype Json = JString(str: string) | JInt(n: int) | JObject(fields: map<string, Json>) | JOther

  /** Why an event could not be processed. */
  datatype Cause = JsonNotDictionary | NoDataObject | NoSite | NoQuestionID | InvalidJson | FetchFailed

  /**
   * The error handed to `handleError`: API errors are passed on, every other
   * error is caught as an `NSError` and wrapped in `jsonParsingError`.
   */
  datatype ProcessingError = APIError(code: int) | JsonParsingError(cause: Cause)

  /** What `questionWithID` returns or throws. */
  datatype FetchResult = Fetched(post: Post) | NoItems | OtherAPIError(code: int) | FetchError

  datatype PayloadResult = Payload(fields: map<string, Json>) | BadPayload(cause: Cause)

  datatype Decoded = OtherSite | Question(id: int) | Malformed(cause: Cause)

  datatype FrameOutcome =
    | Ignored                         // another site: silent return
    | Deleted(id: int)                // the API has no such question
    | TooOld(post: Post)              // last active more than a day after creation
    | Checked(post: Post)             // handed to checkAndReportPost
    | Failed(error: ProcessingError)  // handed to handleError

  predicate AllStrings(m: map<string, Json>)
  {
    forall k :: k in m ==> m[k].JString?
  }

  /**
   * The inner payload: `frame` is the outer JSON (None when it does not
   * parse), which must be an object of strings whose `data` string is itself
   * the JSON of an object; `parseData` is the JSON parser.
   */
  function DecodePayload(frame: Option<Json>, parseData: string -> Option<Json>): PayloadResult
  {
    match frame
    case None => BadPayload(InvalidJson)
    case Some(json) =>
      if !json.JObject? || !AllStrings(json.fields) then BadPayload(JsonNotDictionary)
      else if "data" !in json.fields then BadPayload(NoDataObject)
      else
        match parseData(json.fields["data"].str)
        case None => BadPayload(InvalidJson)
        case Some(data) => if data.JObject? then Payload(data.fields) else BadPayload(NoDataObject)
  }

  /** The guards on the payload: a string site, the target site, an integer id. */
  function DecodeFields(data: map<string, Json>): Decoded
  {
    if "apiSiteParameter" !in data || !data["apiSiteParameter"].JString? then Malformed(NoSite)
    else if data["apiSiteParameter"].str != TargetSite then OtherSite
    else if "id" !in data || !data["id"].JInt? then Malformed(NoQuestionID)
    else Question(data["id"].n)
  }

  function Decode(frame: Option<Json>, parseData: string -> Option<Json>): Decoded
  {
    match DecodePayload(frame, parseData)
    case BadPayload(c) => Malformed(c)
    case Payload(data) => DecodeFields(data)
  }

  /** `webSocketMessageData` up to the call of `checkAndReportPost`. */
  function HandleFrame(frame: Option<Json>, parseData: string -> Option<Json>,
                       fetch: int -> FetchResult): FrameOutcome
  {
    match Decode(frame, parseData)
    case OtherSite => Ignored
    case Malformed(c) => Failed(JsonParsingError(c))
    case Question(id) =>
      match fetch(id)
      case NoItems => Deleted(id)
      case OtherAPIError(code) => Failed(APIError(code))
      case FetchError => Failed(JsonParsingError(FetchFailed))
      case Fetched(post) =>
        if post.creationDate < post.lastActivityDate - OneDay then TooOld(post) else Checked(post)
  }

  /**
   * The guard chain on a payload: a missing or non-string site is `noSite`;
   * another site is ignored; on the target site a missing or non-integer id
   * is `noQuestionID`; otherwise the id is the question to fetch.
   */
  lemma DecodeFieldsCases(data: map<string, Json>)
    ensures ("apiSiteParameter" !in data || !data["apiSiteParameter"].JString?)
            <==> DecodeFields(data) == Malformed(NoSite)
    ensures DecodeFields(data) == OtherSite
            <==> "apiSiteParameter" in data && data["apiSiteParameter"].JString?
                 && data["apiSiteParameter"].str != TargetSite
    ensures DecodeFields(data) == Malformed(NoQuestionID)
            <==> "apiSiteParameter" in data && data["apiSiteParameter"] == JString(TargetSite)
                 && ("id" !in data || !data["id"].JInt?)
    ensures forall id :: (DecodeFields(data) == Question(id)
            <==> "apiSiteParameter" in data && data["apiSiteParameter"] == JString(TargetSite)
                 && "id" in data && data["id"] == JInt(id))
  {
  }

  /** An event that is not a question of the target site never reaches the API. */
  lemma NoFetchUnlessQuestion(frame: Option<Json>, parseData: string -> Option<Json>,
                              fetch1: int -> FetchResult, fetch2: int -> FetchResult)
    requires !Decode(frame, parseData).Question?
    ensures HandleFrame(frame, parseData, fetch1) == HandleFrame(frame, parseData, fetch2)
    ensures HandleFrame(frame, parseData, fetch1) == Ignored <==> Decode(frame, parseData) == OtherSite
  {
  }

  /**
   * A question is checked only when it was fetched for an event of the
   * target site and was created at most a day before its last activity.
   */
  lemma CheckedOnlyRecent(frame: Option<Json>, parseData: string -> Option<Json>,
                          fetch: int -> FetchResult, post: Post)
    ensures HandleFrame(frame, parseData, fetch) == Checked(post)
            <==> Decode(frame, parseData).Question? && fetch(Decode(frame, parseData).id) == Fetched(post)
                 && post.creationDate >= post.lastActivityDate - OneDay
  {
  }

  // ---------------------------------------------------------------------
  // The reconnect counter

  datatype Reconnection = Connected(retries: nat) | GaveUp

  /**
   * How `attemptReconnect` ends when it starts at retry count `retries`;
   * `connects(k)` says whether the attempt that raises the count to `k`
   * opens the socket.
   */
  function Reconnect(retries: nat, connects: nat -> bool): (r: Reconnection)
    ensures r.Connected? ==> retries < r.retries <= WsMaxRetries && connects(r.retries)
    ensures r.Connected? ==> forall k :: retries < k < r.retries ==> !connects(k)
    ensures r.GaveUp? <==> forall k :: retries < k <= WsMaxRetries ==> !connects(k)
    decreases WsMaxRetries - retries
  {
    if retries >= WsMaxRetries then GaveUp
    else if connects(retries + 1) then Connected(retries + 1)
    else Reconnect(retries + 1, connects)
  }

  /** The retry count after a websocket end handled from count `retries`. */
  function RetriesAfter(retries: nat, connects: nat -> bool): nat
  {
    match Reconnect(retries, connects)
    case Connected(k) => k
    case GaveUp => if retries < WsMaxRetries then WsMaxRetries else retries
  }

  /** The number of successful reconnects over a series of websocket ends. */
  function Reconnects(retries: nat, ends: seq<nat -> bool>): nat
    decreases |ends|
  {
    if ends == [] then 0
    else
      (if Reconnect(retries, ends[0]).Connected? then 1 else 0)
      + Reconnects(RetriesAfter(retries, ends[0]), ends[1..])
  }

  /**
   * The counter is never reset, so the bound is a lifetime one: over any
   * series of websocket ends the socket is reopened at most ten times.
   */
  lemma {:induction false} LifetimeBound(retries: nat, ends: seq<nat -> bool>)
    requires retries <= WsMaxRetries
    ensures Reconnects(retries, ends) <= WsMaxRetries - retries
    decreases |ends|
  {
    if ends != [] {
      LifetimeBound(RetriesAfter(retries, ends[0]), ends[1..]);
    }
  }

  /** Once the count is at its bound, no attempt is made, whatever the network does. */
  lemma ExhaustedGivesUp(connects: nat -> bool)
    ensures Reconnect(WsMaxRetries, connects) == GaveUp
    ensures RetriesAfter(WsMaxRetries, connects) == WsMaxRetries
  {
  }

  // ---------------------------------------------------------------------
  // The filter object

  class Filter {
    const words: map<string, Word>
    var recentlyReportedPosts: seq<Report>
    var wsRetries: nat
    /** `_running`. */
    var running: bool
    /** The messages posted to the room, in order. */
    var posted: seq<RoomMessage>

    ghost predicate Valid()
      reads this
    {
      wsRetries <= WsMaxRetries && UniqueIds(recentlyReportedPosts)
    }

    constructor (words: map<string, Word>)
      ensures Valid() && this.words == words
      ensures recentlyReportedPosts == [] && wsRetries == 0 && !running && posted == []
    {
      this.words := words;
      recentlyReportedPosts := [];
      wsRetries := 0;
      running := false;
      posted := [];
    }

    /** `start()`: marks the filter running, then opens the socket, which may fail. */
    method Start(connects: bool) returns (ok: bool)
      modifies this`running
      ensures running && ok == connects
    {
      running := true;
      ok := connects;
    }

    /** `stop()`: no reconnect follows the close it causes. */
    method Stop()
      modifies this`running
      ensures !running
    {
      running := false;
    }

    method CheckPost(post: Post, verdict: seq<string> -> bool) returns (bad: bool)
      ensures bad == verdict(CheckedWords(post.body, words))
    {
      var components := Tokens(post.body);
      var checkedWords: seq<string> := [];
      for i := 0 to |components|
        invariant checkedWords == Known(components[..i], words)
      {
        var postWord := components[i];
        assert components[..i + 1][..i] == components[..i];
        if postWord == [] {
          continue;
        }
        if postWord !in words {
          continue;
        }
        checkedWords := checkedWords + [postWord];
      }
      assert components[..|components|] == components;
      bad := verdict(checkedWords);
    }

    method ReportPost(post: Post, now: int) returns (r: ReportResult)
      requires Valid()
      modifies this`recentlyReportedPosts, this`posted
      ensures Valid()
      ensures ReportStep(old(recentlyReportedPosts), old(posted), post, now, r, recentlyReportedPosts, posted)
    {
      RecentKeepsUniqueIds(recentlyReportedPosts, now - SixHours);
      recentlyReportedPosts := Recent(recentlyReportedPosts, now - SixHours);
      if HasId(recentlyReportedPosts, post.id) {
        return AlreadyReported;
      }
      AppendKeepsUniqueIds(recentlyReportedPosts, Report(post.id, now));
      recentlyReportedPosts := recentlyReportedPosts + [Report(post.id, now)];
      posted := posted + [PotentiallyBad(post.id, PrimaryTag(post.tags), post.title, post.tags)];
      return Reported;
    }

    method CheckAndReportPost(post: Post, now: int, verdict: seq<string> -> bool) returns (r: ReportResult)
      requires Valid()
      modifies this`recentlyReportedPosts, this`posted
      ensures Valid()
      ensures r == NotBad <==> !verdict(CheckedWords(post.body, words))
      ensures r == NotBad ==> recentlyReportedPosts == old(recentlyReportedPosts) && posted == old(posted)
      ensures r != NotBad ==>
        ReportStep(old(recentlyReportedPosts), old(posted), post, now, r, recentlyReportedPosts, posted)
    {
      var bad := CheckPost(post, verdict);
      if bad {
        r := ReportPost(post, now);
      } else {
        r := NotBad;
      }
    }

    method WebSocketMessageData(frame: Option<Json>, parseData: string -> Option<Json>,
                                fetch: int -> FetchResult, verdict: seq<string> -> bool, now: int)
      returns (outcome: FrameOutcome, result: Option<ReportResult>)
      requires Valid()
      modifies this`recentlyReportedPosts, this`posted
      ensures Valid()
      ensures outcome == HandleFrame(frame, parseData, fetch)
      ensures !outcome.Checked? ==>
        result == None && recentlyReportedPosts == old(recentlyReportedPosts) && posted == old(posted)
      ensures outcome.Checked? ==> result.Some?
      ensures outcome.Checked? && result == Some(NotBad) ==>
        !verdict(CheckedWords(outcome.post.body, words))
        && recentlyReportedPosts == old(recentlyReportedPosts) && posted == old(posted)
      ensures outcome.Checked? && result != Some(NotBad) ==>
        verdict(CheckedWords(outcome.post.body, words))
        && ReportStep(old(recentlyReportedPosts), old(posted), outcome.post, now, result.value,
                      recentlyReportedPosts, posted)
    {
      outcome := HandleFrame(frame, parseData, fetch);
      if outcome.Checked? {
        var r := CheckAndReportPost(outcome.post, now, verdict);
        result := Some(r);
      } else {
        result := None;
      }
    }

    method AttemptReconnect(connects: nat -> bool)
      requires Valid()
      modifies this`wsRetries, this`running, this`posted
      ensures Valid()
      ensures match Reconnect(old(wsRetries), connects)
        case Connected(k) => wsRetries == k && running && posted == old(posted)
        case GaveUp =>
          wsRetries == WsMaxRetries && posted == old(posted) + [ReconnectFailed]
          && running == (old(running) || old(wsRetries) < WsMaxRetries)
    {
      var done := false;
      while !done
        invariant Valid() && old(wsRetries) <= wsRetries
        invariant posted == old(posted)
        invariant !done ==> Reconnect(wsRetries, connects) == Reconnect(old(wsRetries), connects)
        invariant !done ==> running == (old(running) || old(wsRetries) < wsRetries)
        invariant done ==> Reconnect(old(wsRetries), connects) == Connected(wsRetries) && running
        decreases WsMaxRetries - wsRetries
      {
        if wsRetries >= WsMaxRetries {
          posted := posted + [ReconnectFailed];
          return;
        }
        wsRetries := wsRetries + 1;
        done := Start(connects(wsRetries));
      }
    }

    method WebSocketEnd(connects: nat -> bool)
      requires Valid()
      modifies this`wsRetries, this`running, this`posted
      ensures Valid()
      ensures !old(running) ==> wsRetries == old(wsRetries) && !running && posted == old(posted)
      ensures old(running) ==> wsRetries == RetriesAfter(old(wsRetries), connects)
      ensures old(running) ==> match Reconnect(old(wsRetries), connects)
        case Connected(_) => running && posted == old(posted)
        case GaveUp => running && posted == old(posted) + [ReconnectFailed]
    {
      if running {
        AttemptReconnect(connects);
      }
    }
  }
}
