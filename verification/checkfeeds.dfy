/** The `checkfeeds` command: one status per feed, chosen by the first rule
    that applies (offline, schema error, outdated, stale, ok), with the time
    the feed entered its status carried over from the previous status of the
    same type. Timestamps are integer seconds; the clock, the JSON Schema
    validator, `best_match`, `str(error)` and ISO 8601 parsing are inputs. */
module CheckFeeds {
  import opened Wrappers
  import opened Json
  import opened SchemaCheck
  import Models

  /** `timedelta(days=14)` in seconds. */
  const FourteenDays: int := 14 * 24 * 60 * 60

  /** `requests.codes.ok`. */
  const HttpOk: int := 200

  /** The exceptions that end the command while checking a feed. */
  datatype CheckFailure =
    | UnknownVersion(version: string)   // KeyError in VERSION_TO_SCHEMA
    | PayloadNotObject                  // the key finder given a payload that is not a dict
    | UnparsableDate(value: Json)        // iso8601.ParseError
    | NoUpdateDates                     // ValueError of max([]) in outdated
    | NoFormattedErrors                 // IndexError: every error was dropped by the flattener

  /** The external collaborators and the clock. */
  datatype Env = Env(
    now: int,
    validate: Validate,
    text: ErrorText,
    best: BestMatch,
    parseDate: Json -> Option<int>)

  /** What the feed's last fetch left behind: `feed.response_code()` and `feed.feed_data()`. */
  datatype FetchedData = FetchedData(responseCode: Option<int>, data: Option<Json>)

  /** The outcome of checking one feed. */
  datatype Verdict =
    | OfflineVerdict
    | SchemaErrorVerdict(mostCommonType: string, mostCommonField: string, mostCommonCount: nat, totalErrors: nat)
    | OutdatedVerdict(latestUpdate: int)
    | StaleVerdict(latestEndDate: int, eventsBeforeCutoff: nat)
    | OkVerdict
  {
    /** The status type of the record created for this verdict. */
    function Kind(): Models.StatusType {
      match this
      case OfflineVerdict => Models.Offline
      case SchemaErrorVerdict(_, _, _, _) => Models.Error
      case OutdatedVerdict(_) => Models.Outdated
      case StaleVerdict(_, _) => Models.Stale
      case OkVerdict => Models.Ok
    }

    /** The subclass fields of that record. */
    function Detail(): Models.Detail {
      match this
      case SchemaErrorVerdict(t, f, c, n) => Models.SchemaErrorDetail(t, f, c, n)
      case OutdatedVerdict(d) => Models.OutdatedDetail(d)
      case StaleVerdict(d, n) => Models.StaleDetail(d, n)
      case _ => Models.NoDetail
    }
  }

  // ---------------------------------------------------------------------
  // is_offline

  /** `is_offline(feed)`. */
  predicate IsOffline(feed: Models.Feed, fetched: FetchedData) {
    if feed.url.None? || feed.url.value == "" then true
    else if !feed.active then true
    else if fetched.responseCode.None? then true
    else if fetched.data.None? then true
    else fetched.responseCode.value == 0 || fetched.responseCode.value != HttpOk || !Truthy(fetched.data.value)
  }

  /** A feed is online exactly when it has a URL, is active, answered 200 and
      left a non-empty payload; the separate test for code 0 never decides. */
  lemma IsOfflineMeaning(feed: Models.Feed, fetched: FetchedData)
    ensures !IsOffline(feed, fetched) <==>
      feed.url.Some? && feed.url.value != "" && feed.active &&
      fetched.responseCode == Some(HttpOk) && fetched.data.Some? && Truthy(fetched.data.value)
  {
  }

  // ---------------------------------------------------------------------
  // outdated and stale

  function Cutoff(now: int): int {
    now - FourteenDays
  }

  /** Parses every found value, stopping at the first that does not parse. */
  function ParseDates(values: seq<Json>, parse: Json -> Option<int>): (r: Result<seq<int>, CheckFailure>)
    ensures r.Success? ==> |r.value| == |values| && forall i :: 0 <= i < |values| ==> parse(values[i]) == Some(r.value[i])
    ensures r.Failure? ==> exists i :: 0 <= i < |values| && parse(values[i]).None?
  {
    if values == [] then Success([])
    else match parse(values[0])
      case None => Failure(UnparsableDate(values[0]))
      case Some(d) =>
        match ParseDates(values[1..], parse)
        case Failure(e) => Failure(e)
        case Success(ds) => Success([d] + ds)
  }

  /** Every date found under `key` in the payload, in the finder's order. */
  function FoundDates(data: Json, key: string, parse: Json -> Option<int>): Result<seq<int>, CheckFailure> {
    match FindAllInstancesKey(data, key, None)
    case None => Failure(PayloadNotObject)
    case Some(values) => ParseDates(values, parse)
  }

  /** `max(dates)`. */
  function Max(dates: seq<int>): (m: int)
    requires dates != []
    ensures m in dates && forall d :: d in dates ==> d <= m
  {
    if |dates| == 1 then dates[0]
    else
      var rest := Max(dates[1..]);
      assert forall d :: d in dates ==> d == dates[0] || d in dates[1..];
      if dates[0] >= rest then dates[0] else rest
  }

  predicate AllBefore(dates: seq<int>, cutoff: int) {
    forall d :: d in dates ==> d < cutoff
  }

  /** `outdated(feed)`: whether every update date is older than fourteen days,
      and the latest update date. With no update date at all `max([])` raises. */
  function Outdated(data: Json, env: Env): (r: Result<(bool, int), CheckFailure>)
    ensures FoundDates(data, "update_date", env.parseDate) == Success([]) ==> r == Failure(NoUpdateDates)
    ensures FoundDates(data, "update_date", env.parseDate).Failure? ==>
      r == Failure(FoundDates(data, "update_date", env.parseDate).error)
    ensures (FoundDates(data, "update_date", env.parseDate).Success? &&
             FoundDates(data, "update_date", env.parseDate).value != []) ==> r.Success?
    ensures r.Success? ==> FoundDates(data, "update_date", env.parseDate).Success?
    ensures r.Success? ==>
      var dates := FoundDates(data, "update_date", env.parseDate).value;
      dates != [] && r.value.1 in dates && (forall d :: d in dates ==> d <= r.value.1) &&
      (r.value.0 <==> r.value.1 < Cutoff(env.now))
  {
    match FoundDates(data, "update_date", env.parseDate)
    case Failure(e) => Failure(e)
    case Success(dates) =>
      var isOutdated := if |dates| > 0 then AllBefore(dates, Cutoff(env.now)) else false;
      if dates == [] then Failure(NoUpdateDates) else Success((isOutdated, Max(dates)))
  }

  /** The dates strictly before the cutoff, in order. */
  function Before(dates: seq<int>, cutoff: int): (r: seq<int>)
    ensures |r| <= |dates|
    ensures forall d :: d in r <==> d in dates && d < cutoff
  {
    if dates == [] then []
    else
      assert forall d :: d in dates <==> d == dates[0] || d in dates[1..];
      (if dates[0] < cutoff then [dates[0]] else []) + Before(dates[1..], cutoff)
  }

  /** `Before` is the list comprehension's filter: it keeps every date before
      the cutoff as often as it occurs, in the original order, and nothing else. */
  lemma {:induction false} BeforeIsFilter(dates: seq<int>, cutoff: int)
    ensures forall d :: multiset(Before(dates, cutoff))[d] == (if d < cutoff then multiset(dates)[d] else 0)
    ensures Models.IsSubsequence(Before(dates, cutoff), dates)
  {
    if dates != [] {
      var x, tail := dates[0], dates[1..];
      var rest := Before(tail, cutoff);
      BeforeIsFilter(tail, cutoff);
      assert dates == [x] + tail;
      assert multiset(dates) == multiset{x} + multiset(tail);
      if x < cutoff {
        var r := [x] + rest;
        assert Before(dates, cutoff) == r;
        assert r[0] == dates[0] && r[1..] == rest;
        assert multiset(r) == multiset{x} + multiset(rest);
      } else {
        assert Before(dates, cutoff) == rest;
        assert rest != [] ==> rest[0] in rest;
      }
    }
  }

  /** `stale(feed)`: the end dates older than fourteen days, in finder order. */
  function Stale(data: Json, env: Env): (r: Result<seq<int>, CheckFailure>)
    ensures r.Success? <==> FoundDates(data, "end_date", env.parseDate).Success?
    ensures r.Success? ==>
      var dates := FoundDates(data, "end_date", env.parseDate).value;
      |r.value| <= |dates| && (forall d :: d in r.value <==> d in dates && d < Cutoff(env.now)) &&
      (forall d :: multiset(r.value)[d] == (if d < Cutoff(env.now) then multiset(dates)[d] else 0)) &&
      Models.IsSubsequence(r.value, dates)
    ensures r.Failure? ==> r == Failure(FoundDates(data, "end_date", env.parseDate).error)
  {
    match FoundDates(data, "end_date", env.parseDate)
    case Failure(e) => Failure(e)
    case Success(dates) =>
      BeforeIsFilter(dates, Cutoff(env.now));
      Success(Before(dates, Cutoff(env.now)))
  }

  /** A date exactly fourteen days old is not outdated: the comparison is strict. */
  lemma OutdatedBoundary(data: Json, env: Env)
    requires FoundDates(data, "update_date", env.parseDate) == Success([Cutoff(env.now)])
    ensures Outdated(data, env) == Success((false, Cutoff(env.now)))
  {
  }

  // ---------------------------------------------------------------------
  // The most common schema error

  /** Scans `msgs[i..]`, keeping the index `b` of the first message with the
      highest count so far. */
  function ScanMostCommon(msgs: seq<string>, i: nat, b: nat): (r: nat)
    requires b < i <= |msgs|
    requires forall j :: 0 <= j < i ==> Models.CountOf(msgs, msgs[j]) <= Models.CountOf(msgs, msgs[b])
    requires forall j :: 0 <= j < b ==> Models.CountOf(msgs, msgs[j]) < Models.CountOf(msgs, msgs[b])
    ensures r < |msgs|
    ensures forall j :: 0 <= j < |msgs| ==> Models.CountOf(msgs, msgs[j]) <= Models.CountOf(msgs, msgs[r])
    ensures forall j :: 0 <= j < r ==> Models.CountOf(msgs, msgs[j]) < Models.CountOf(msgs, msgs[r])
    decreases |msgs| - i
  {
    if i == |msgs| then b
    else if Models.CountOf(msgs, msgs[i]) > Models.CountOf(msgs, msgs[b]) then ScanMostCommon(msgs, i + 1, i)
    else ScanMostCommon(msgs, i + 1, b)
  }

  /** The position of the first occurrence of the message
      `Counter(msgs).most_common(1)` picks. */
  function MostCommonIndex(msgs: seq<string>): (b: nat)
    requires msgs != []
    ensures b < |msgs|
    ensures forall x :: Models.CountOf(msgs, x) <= Models.CountOf(msgs, msgs[b])
    ensures forall j :: 0 <= j < b ==> Models.CountOf(msgs, msgs[j]) < Models.CountOf(msgs, msgs[b])
  {
    var b := ScanMostCommon(msgs, 1, 0);
    assert forall x :: x !in msgs ==> Models.CountOf(msgs, x) == 0;
    b
  }

  /** `Counter(msgs).most_common(1)[0]` with the field of its first occurrence:
      the most frequent message, ties going to the message seen first. */
  function MostCommon(formatted: seq<(string, string)>): (r: (string, string, nat))
    requires formatted != []
    ensures var msgs := Messages(formatted);
      r.2 == Models.CountOf(msgs, r.0) >= 1 &&
      (forall x :: Models.CountOf(msgs, x) <= r.2) &&
      (exists k :: 0 <= k < |formatted| && formatted[k] == (r.0, r.1) &&
        forall j :: 0 <= j < k ==> formatted[j].0 != r.0 && Models.CountOf(msgs, formatted[j].0) < r.2)
  {
    var msgs := Messages(formatted);
    var b := MostCommonIndex(msgs);
    assert msgs[b] in multiset(msgs);
    assert forall j :: 0 <= j < b ==> msgs[j] == formatted[j].0;
    (msgs[b], formatted[b].1, Models.CountOf(msgs, msgs[b]))
  }

  function Messages(formatted: seq<(string, string)>): (msgs: seq<string>)
    ensures |msgs| == |formatted| && forall i :: 0 <= i < |formatted| ==> msgs[i] == formatted[i].0
  {
    seq(|formatted|, i requires 0 <= i < |formatted| => formatted[i].0)
  }

  /** Three errors "A" and one "B" give "A", three times, out of four. */
  lemma MostCommonExample()
    ensures MostCommon([("B", "f[0]"), ("A", "f[1]"), ("A", "f[2]"), ("A", "f[3]")]).0 == "A"
    ensures MostCommon([("B", "f[0]"), ("A", "f[1]"), ("A", "f[2]"), ("A", "f[3]")]).1 == "f[1]"
    ensures MostCommon([("B", "f[0]"), ("A", "f[1]"), ("A", "f[2]"), ("A", "f[3]")]).2 == 3
  {
    var f := [("B", "f[0]"), ("A", "f[1]"), ("A", "f[2]"), ("A", "f[3]")];
    var msgs := Messages(f);
    assert msgs == ["B", "A", "A", "A"];
    assert Models.CountOf(msgs, "A") == 3 && Models.CountOf(msgs, "B") == 1 by {
      assert multiset(msgs) == multiset{"B", "A", "A", "A"};
    }
    var b := MostCommonIndex(msgs);
    assert Models.CountOf(msgs, msgs[b]) == 3;
    assert b == 1 by {
      assert msgs[b] != "B";
    }
  }

  // ---------------------------------------------------------------------
  // Classification

  /** The schema-error verdict for a non-empty error list. */
  function SchemaErrorOf(errors: seq<ValidationError>, feedname: string, env: Env): Result<Verdict, CheckFailure>
    requires errors != []
  {
    var formatted := GetFormattedErrors(errors, feedname, env.best);
    if formatted == [] then Failure(NoFormattedErrors)
    else
      var (t, field, count) := MostCommon(formatted);
      Success(SchemaErrorVerdict(t, field, count, |errors|))
  }

  /** The checks after the schema check: outdated, then stale, then ok. */
  function DateVerdict(data: Json, env: Env): Result<Verdict, CheckFailure> {
    match Outdated(data, env)
    case Failure(e) => Failure(e)
    case Success((isOutdated, latest)) =>
      if isOutdated then Success(OutdatedVerdict(latest))
      else match Stale(data, env)
        case Failure(e) => Failure(e)
        case Success(stale) =>
          if |stale| > 0 then Success(StaleVerdict(Max(stale), |stale|)) else Success(OkVerdict)
  }

  /** The verdict of the body of the command's loop for one feed, or the
      exception that ends the command. */
  function Classify(feed: Models.Feed, fetched: FetchedData, env: Env): Result<Verdict, CheckFailure> {
    if IsOffline(feed, fetched) then Success(OfflineVerdict)
    else
      var data := fetched.data.value;
      match GetVersionSchemaErrors(data, feed.version, env.validate, env.text)
      case Failure(v) => Failure(UnknownVersion(v))
      case Success(errors) =>
        if |errors| > 0 then SchemaErrorOf(errors, feed.feedname, env)
        else DateVerdict(data, env)
  }

  /** An offline feed is reported offline whatever its payload, version or dates. */
  lemma OfflineFirst(feed: Models.Feed, fetched: FetchedData, env: Env)
    ensures Classify(feed, fetched, env) == Success(OfflineVerdict) <==> IsOffline(feed, fetched)
  {
  }

  /** A schema error is reported exactly when the feed is online, the
      validator found errors and at least one of them survives flattening: its total counts the raw errors, its type is the
      most frequent flattened message (the first seen among equals), and its
      field is where that message first occurs. */
  lemma SchemaErrorSecond(feed: Models.Feed, fetched: FetchedData, env: Env)
    requires !IsOffline(feed, fetched)
    requires feed.version in KnownVersions
    ensures var errors := GetVersionSchemaErrors(fetched.data.value, feed.version, env.validate, env.text).value;
      var formatted := GetFormattedErrors(errors, feed.feedname, env.best);
      var r := Classify(feed, fetched, env);
      (r.Success? && r.value.SchemaErrorVerdict? <==> errors != [] && formatted != []) &&
      (r.Success? && r.value.SchemaErrorVerdict? ==>
        r.value.totalErrors == |errors| &&
        r.value.mostCommonCount == Models.CountOf(Messages(formatted), r.value.mostCommonType) &&
        (forall x :: Models.CountOf(Messages(formatted), x) <= r.value.mostCommonCount) &&
        exists k :: 0 <= k < |formatted| && formatted[k] == (r.value.mostCommonType, r.value.mostCommonField) &&
          forall j :: 0 <= j < k ==> Models.CountOf(Messages(formatted), formatted[j].0) < r.value.mostCommonCount)
  {
  }

  /** A valid online feed is outdated exactly when it has update dates and all
      of them are older than fourteen days; the verdict keeps the latest. */
  lemma OutdatedThird(feed: Models.Feed, fetched: FetchedData, env: Env)
    requires !IsOffline(feed, fetched)
    requires GetVersionSchemaErrors(fetched.data.value, feed.version, env.validate, env.text) == Success([])
    requires FoundDates(fetched.data.value, "update_date", env.parseDate).Success?
    ensures var dates := FoundDates(fetched.data.value, "update_date", env.parseDate).value;
      var r := Classify(feed, fetched, env);
      (dates == [] ==> r == Failure(NoUpdateDates)) &&
      (r.Success? && r.value.OutdatedVerdict? <==> dates != [] && AllBefore(dates, Cutoff(env.now))) &&
      (r.Success? && r.value.OutdatedVerdict? ==>
        r.value.latestUpdate in dates && forall d :: d in dates ==> d <= r.value.latestUpdate)
  {
    var dates := FoundDates(fetched.data.value, "update_date", env.parseDate).value;
    if dates != [] {
      var m := Outdated(fetched.data.value, env).value.1;
      assert AllBefore(dates, Cutoff(env.now)) <==> m < Cutoff(env.now);
    }
  }

  /** A valid online feed that is not outdated is stale exactly when some end
      date is older than fourteen days; the verdict counts those dates and
      keeps the latest of them. Otherwise it is ok. */
  lemma StaleFourthOkLast(feed: Models.Feed, fetched: FetchedData, env: Env)
    requires !IsOffline(feed, fetched)
    requires GetVersionSchemaErrors(fetched.data.value, feed.version, env.validate, env.text) == Success([])
    requires Outdated(fetched.data.value, env).Success? && !Outdated(fetched.data.value, env).value.0
    requires Stale(fetched.data.value, env).Success?
    ensures var stale := Stale(fetched.data.value, env).value;
      var r := Classify(feed, fetched, env);
      r.Success? &&
      (stale != [] ==> r.value == StaleVerdict(Max(stale), |stale|)) &&
      (stale == [] ==> r.value == OkVerdict)
  {
  }

  /** The exceptions that end the command for an online feed, each raised
      before any later check is reached: the `KeyError` of an unknown
      version; the `IndexError` of validator errors none of which survives
      flattening; and, for a valid feed, a failure to find or parse the
      update dates (with `max([])` when there are none) or, for a valid feed
      that is not outdated, the end dates. A feed with validator errors is
      never reported by a date check. */
  lemma ClassifyFailures(feed: Models.Feed, fetched: FetchedData, env: Env)
    requires !IsOffline(feed, fetched)
    ensures feed.version !in KnownVersions ==> Classify(feed, fetched, env) == Failure(UnknownVersion(feed.version))
    ensures feed.version in KnownVersions ==>
      var data := fetched.data.value;
      var errors := GetVersionSchemaErrors(data, feed.version, env.validate, env.text).value;
      var r := Classify(feed, fetched, env);
      (errors != [] && GetFormattedErrors(errors, feed.feedname, env.best) == [] ==> r == Failure(NoFormattedErrors)) &&
      (errors != [] && r.Success? ==> r.value.SchemaErrorVerdict?) &&
      (errors == [] && Outdated(data, env).Failure? ==> r == Failure(Outdated(data, env).error)) &&
      (errors == [] && Outdated(data, env).Success? && !Outdated(data, env).value.0 && Stale(data, env).Failure? ==>
        r == Failure(Stale(data, env).error))
  {
  }

  // ---------------------------------------------------------------------
  // status_since

  /** The time the feed entered its current status: the previous status's
      when it has the same type, else the new status's own creation time. */
  function StatusSince(previous: Option<(Models.StatusType, int)>, current: Models.StatusType, checkedAt: int): (since: int)
    ensures previous.Some? && previous.value.0 == current ==> since == previous.value.1
    ensures previous.None? || previous.value.0 != current ==> since == checkedAt
  {
    if previous.Some? && previous.value.0 == current then previous.value.1 else checkedAt
  }

  /** Ok at T1 then ok at T2 is ok since T1; ok at T1 then offline at T2 is offline since T2. */
  lemma StatusSinceExample(t1: int, t2: int)
    ensures StatusSince(Some((Models.Ok, t1)), Models.Ok, t2) == t1
    ensures StatusSince(Some((Models.Ok, t1)), Models.Offline, t2) == t2
  {
  }

  /** Carrying forward repeatedly keeps the start of an unbroken run of the same status. */
  lemma StatusSinceRun(t0: int, t1: int, t2: int, kind: Models.StatusType)
    ensures StatusSince(Some((kind, StatusSince(None, kind, t0))), kind, t1) == t0
    ensures StatusSince(Some((kind, StatusSince(Some((kind, t0)), kind, t1))), kind, t2) == t0
  {
  }

  /** The type and start time of a stored status, if there is one. */
  function PreviousOf(status: Models.FeedStatus?): Option<(Models.StatusType, int)>
    reads status
  {
    if status == null then None else Some((status.statusType, status.statusSince))
  }

  /** Creates the record for one verdict with the matching subclass
      constructor, carrying the start time over from `prior` when it has the
      same status type. */
  method NewStatus(feedname: string, verdict: Verdict, prior: Models.FeedStatus?, now: int)
    returns (status: Models.FeedStatus)
    ensures fresh(status)
    ensures status.feedname == feedname && status.statusType == verdict.Kind() && status.detail == verdict.Detail()
    ensures status.datetimeChecked == now && !status.notifSent
    ensures status.statusSince == StatusSince(PreviousOf(prior), verdict.Kind(), now)
  {
    if verdict.OfflineVerdict? {
      status := new Models.FeedStatus.OfflineErrorStatus(feedname, now);
    } else if verdict.SchemaErrorVerdict? {
      status := new Models.FeedStatus.SchemaErrorStatus(feedname, now, verdict.mostCommonType,
        verdict.mostCommonField, verdict.mostCommonCount, verdict.totalErrors);
    } else if verdict.OutdatedVerdict? {
      status := new Models.FeedStatus.OutdatedErrorStatus(feedname, now, verdict.latestUpdate);
    } else if verdict.StaleVerdict? {
      status := new Models.FeedStatus.StaleErrorStatus(feedname, now, verdict.latestEndDate, verdict.eventsBeforeCutoff);
    } else {
      status := new Models.FeedStatus.OKStatus(feedname, now);
    }
    if prior != null && prior.statusType == status.statusType {
      status.statusSince := prior.statusSince;
    }
  }

  /** `Command.handle`: checks the feeds in order, creating one status record
      per feed; `previous[i]` is the latest stored status of `feeds[i]`. An
      exception while checking a feed ends the run: the records created before
      it stay, the failure is returned. */
  method Handle(feeds: seq<(Models.Feed, FetchedData)>, previous: seq<Models.FeedStatus?>, env: Env)
    returns (created: seq<Models.FeedStatus>, failure: Option<CheckFailure>)
    requires |previous| == |feeds|
    ensures |created| <= |feeds|
    ensures failure.None? <==> |created| == |feeds|
    ensures failure.Some? ==> Classify(feeds[|created|].0, feeds[|created|].1, env) == Failure(failure.value)
    ensures forall i :: 0 <= i < |created| ==> fresh(created[i])
    ensures forall i :: 0 <= i < |created| ==>
      var verdict := Classify(feeds[i].0, feeds[i].1, env);
      verdict.Success? &&
      created[i].feedname == feeds[i].0.feedname &&
      created[i].statusType == verdict.value.Kind() &&
      created[i].detail == verdict.value.Detail() &&
      created[i].datetimeChecked == env.now &&
      created[i].statusSince == StatusSince(PreviousOf(previous[i]), verdict.value.Kind(), env.now)
  {
    created, failure := [], None;
    var i := 0;
    while i < |feeds|
      invariant 0 <= i <= |feeds| && |created| == i
      invariant forall k :: 0 <= k < i ==> fresh(created[k])
      invariant forall k :: 0 <= k < i ==>
        var verdict := Classify(feeds[k].0, feeds[k].1, env);
        verdict.Success? &&
        created[k].feedname == feeds[k].0.feedname &&
        created[k].statusType == verdict.value.Kind() &&
        created[k].detail == verdict.value.Detail() &&
        created[k].datetimeChecked == env.now &&
        created[k].statusSince == StatusSince(PreviousOf(previous[k]), verdict.value.Kind(), env.now)
    {
      var (feed, fetched) := feeds[i];
      var prior := previous[i];
      var verdict := Classify(feed, fetched, env);
      if verdict.Failure? {
        failure := Some(verdict.error);
        return;
      }
      var status := NewStatus(feed.feedname, verdict.value, prior, env.now);
      created := created + [status];
      i := i + 1;
    }
  }
}
