/** The `syncdatahub` command: mirrors the DataHub's list of work-zone feeds
    into the feed table. Every listed feed whose data can be fetched is
    saved; afterwards every feed of the table that the run did not cross off
    is deleted. The network is an input: the DataHub listing and the result
    of fetching each data URL. */
module SyncDatahub {
  import opened Wrappers
  import opened Json
  import opened Text
  import Models

  /** `requests.codes.ok`. */
  const HttpOk: int := 200

  /** The `CommandError`s and exceptions that end the command. */
  datatype SyncError =
    | HubRequestFailed              // "DataHub request failed"
    | HubStatus(code: int)          // "DataHub returned invalid request status code"
    | MissingFeedname               // "Could not find feedname."
    | EntryAttributeError           // `.get` on an entry value that is not a dict
    | DeleteMissing(name: string)   // "Tried to delete feed ... that does not exist"

  /** The result of `requests.get` on the DataHub listing. */
  datatype HubFetch = HubUnreachable | HubResponse(statusCode: int, entries: seq<seq<(string, Json)>>)

  /** The result of `requests.get` on a feed's data URL. */
  datatype Fetch = RequestFailed | Response(statusCode: int, body: Json)

  /** The API keys stored per feed name, and the network. */
  datatype SyncEnv = SyncEnv(apiKeys: map<string, string>, fetch: string -> Fetch)

  // ---------------------------------------------------------------------
  // get_feed_full_url

  /** `get_feed_full_url(feed_name, feed_url)`: the URL with the value after
      its last "=" replaced by the feed's API key. The key is looked up first. */
  function GetFeedFullUrl(feedName: string, feedUrl: Option<string>, apiKeys: map<string, string>): (r: Option<string>)
    ensures feedName !in apiKeys ==> r == None
    ensures r.Some? <==> feedName in apiKeys && feedUrl.Some?
  {
    if feedName !in apiKeys then None
    else if feedUrl.None? then None
    else
      var pieces := Split(feedUrl.value, '=');
      Some(Join("=", pieces[..|pieces| - 1]) + "=" + apiKeys[feedName])
  }

  /** With a last "=" at position `k`, everything up to and including it is
      kept and the key follows. */
  lemma FullUrlReplacesLastValue(feedName: string, url: string, apiKeys: map<string, string>, k: nat)
    requires feedName in apiKeys
    requires k < |url| && url[k] == '=' && '=' !in url[k + 1..]
    ensures GetFeedFullUrl(feedName, Some(url), apiKeys) == Some(url[..k] + "=" + apiKeys[feedName])
  {
    var before, after := url[..k], url[k + 1..];
    assert url == before + ['='] + after;
    SplitAround(before, '=', after);
    SplitNoSeparator(after, '=');
    var pieces := Split(url, '=');
    assert pieces[..|pieces| - 1] == Split(before, '=');
    JoinSplit(before, '=');
  }

  /** A URL without "=" is replaced by "=" and the key. */
  lemma FullUrlWithoutEquals(feedName: string, url: string, apiKeys: map<string, string>)
    requires feedName in apiKeys && '=' !in url
    ensures GetFeedFullUrl(feedName, Some(url), apiKeys) == Some("=" + apiKeys[feedName])
  {
    SplitNoSeparator(url, '=');
    var pieces := Split(url, '=');
    assert pieces[..|pieces| - 1] == [];
    assert Join("=", pieces[..|pieces| - 1]) + "=" == "=";
  }

  // ---------------------------------------------------------------------
  // One entry of the listing

  /** A JSON string value, or `None` for anything else. */
  function TextOf(value: Option<Json>): (s: Option<string>)
    ensures s.Some? <==> value.Some? && value.value.JStr?
    ensures s.Some? ==> s.value == value.value.s
  {
    if value.Some? && value.value.JStr? then Some(value.value.s) else None
  }

  /** `feed_requested.get(key).get("url")`, which raises unless the entry
      holds a dict under `key`. */
  function UrlOf(entry: seq<(string, Json)>, key: string): (r: Result<Option<Json>, SyncError>)
    ensures r.Success? <==> Get(entry, key).Some? && Get(entry, key).value.JObj?
    ensures r.Success? ==> r.value == Get(Get(entry, key).value.fields, "url")
    ensures r.Failure? ==> r.error == EntryAttributeError
  {
    match Get(entry, key)
    case Some(JObj(fields)) => Success(Get(fields, "url"))
    case _ => Failure(EntryAttributeError)
  }

  /** Whether the entry carries a truthy `apikeyurl`. */
  predicate NeedsKey(entry: seq<(string, Json)>) {
    Get(entry, "apikeyurl").Some? && Truthy(Get(entry, "apikeyurl").value)
  }

  /** The URL the feed's data is fetched from: the URL rewritten with the
      feed's API key when the entry has a truthy `apikeyurl`, the plain URL
      otherwise; `None` skips the feed. The attribute copies that precede it
      raise on an entry whose `url`, or whose truthy `apikeyurl`, is not a dict. */
  function DataUrl(entry: seq<(string, Json)>, name: string, env: SyncEnv): (r: Result<Option<string>, SyncError>)
    ensures r.Success? <==> UrlOf(entry, "url").Success? && (NeedsKey(entry) ==> UrlOf(entry, "apikeyurl").Success?)
    ensures r.Success? && !NeedsKey(entry) ==> r.value == TextOf(UrlOf(entry, "url").value)
    ensures r.Success? && NeedsKey(entry) ==> r.value == GetFeedFullUrl(name, TextOf(UrlOf(entry, "url").value), env.apiKeys)
  {
    match UrlOf(entry, "url")
    case Failure(e) => Failure(e)
    case Success(url) =>
      if NeedsKey(entry) && UrlOf(entry, "apikeyurl").Failure? then Failure(EntryAttributeError)
      else if NeedsKey(entry) then Success(GetFeedFullUrl(name, TextOf(url), env.apiKeys))
      else Success(TextOf(url))
  }

  /** What one listing entry leads to. */
  datatype EntryOutcome = Abort(error: SyncError) | Skip | Save(feed: Models.Feed)

  /** The feed record built from an entry and its fetched data. */
  function FeedOf(entry: seq<(string, Json)>, name: string, body: Json): Models.Feed
    requires UrlOf(entry, "url").Success?
  {
    Models.Feed(
      name,
      TextOr(Get(entry, "state")),
      TextOr(Get(entry, "issuingorganization")),
      TextOf(UrlOf(entry, "url").value),
      Get(entry, "active").Some? && Truthy(Get(entry, "active").value),
      TextOr(Get(entry, "version")),
      if NeedsKey(entry) && UrlOf(entry, "apikeyurl").Success? then TextOf(UrlOf(entry, "apikeyurl").value) else None,
      body)
  }

  function TextOr(value: Option<Json>): string {
    if value.Some? && value.value.JStr? then value.value.s else ""
  }

  /** The body of the command's loop for one entry. */
  function ProcessEntry(entry: seq<(string, Json)>, env: SyncEnv): (r: EntryOutcome)
    ensures r.Save? ==> Get(entry, "feedname") == Some(JStr(r.feed.feedname))
    ensures Get(entry, "feedname").None? || !Get(entry, "feedname").value.JStr? ==> r == Abort(MissingFeedname)
  {
    match Get(entry, "feedname")
    case Some(JStr(name)) =>
      (match DataUrl(entry, name, env)
       case Failure(e) => Abort(e)
       case Success(None) => Skip
       case Success(Some(url)) =>
         match env.fetch(url)
         case RequestFailed => Skip
         case Response(code, body) => if code != HttpOk then Skip else Save(FeedOf(entry, name, body)))
    case _ => Abort(MissingFeedname)
  }

  /** An entry with a feed name is aborted on exactly the data URL's error,
      and saved, built from the fetched body, when the data URL answers 200. */
  lemma AbortOrSaveWithFeedname(entry: seq<(string, Json)>, name: string, env: SyncEnv)
    requires Get(entry, "feedname") == Some(JStr(name))
    ensures DataUrl(entry, name, env).Failure? ==>
      ProcessEntry(entry, env) == Abort(DataUrl(entry, name, env).error)
    ensures DataUrl(entry, name, env).Success? && DataUrl(entry, name, env).value.Some? ==>
      var fetched := env.fetch(DataUrl(entry, name, env).value.value);
      fetched.Response? && fetched.statusCode == HttpOk ==>
        ProcessEntry(entry, env) == Save(FeedOf(entry, name, fetched.body))
  {
  }

  /** A feed whose data URL is missing, unreachable or answered with a status
      other than 200 is skipped: nothing is saved for it. */
  lemma SkipWithoutFetchedData(entry: seq<(string, Json)>, name: string, env: SyncEnv)
    requires Get(entry, "feedname") == Some(JStr(name))
    requires DataUrl(entry, name, env).Success?
    ensures var url := DataUrl(entry, name, env).value;
      (url.None? ==> ProcessEntry(entry, env) == Skip) &&
      (url.Some? && env.fetch(url.value).RequestFailed? ==> ProcessEntry(entry, env) == Skip) &&
      (url.Some? && env.fetch(url.value).Response? && env.fetch(url.value).statusCode != HttpOk ==>
        ProcessEntry(entry, env) == Skip)
  {
  }

  // ---------------------------------------------------------------------
  // The run

  /** Which name is crossed off `feeds_prior` after a save: the command as
      written uses the entry's issuing organization; the feed name is what the
      reconciliation needs. */
  datatype RemovalKey = ByOrganization | ByFeedname

  function RemovedName(key: RemovalKey, entry: seq<(string, Json)>, saved: Models.Feed): Option<string> {
    match key
    case ByOrganization => TextOf(Get(entry, "issuingorganization"))
    case ByFeedname => Some(saved.feedname)
  }

  /** `list.remove(x)` with its `ValueError` ignored: drops the first
      occurrence of `x`, if any. */
  function RemoveFirst(names: seq<string>, x: Option<string>): (r: seq<string>)
    ensures x.None? || x.value !in names ==> r == names
    ensures x.Some? && x.value in names ==> |r| == |names| - 1
    ensures forall y :: y in names && (x.None? || y != x.value) ==> y in r
    ensures forall y :: y in r ==> y in names
  {
    if x.None? || names == [] then names
    else
      assert names == [names[0]] + names[1..];
      if names[0] == x.value then names[1..]
      else [names[0]] + RemoveFirst(names[1..], x)
  }

  /** Crossing a name off drops exactly one occurrence of it. */
  lemma {:induction false} RemoveFirstCounts(names: seq<string>, x: string)
    ensures multiset(RemoveFirst(names, Some(x))) == multiset(names) - multiset{x}
    decreases |names|
  {
    if names != [] {
      var tail := names[1..];
      assert names == [names[0]] + tail;
      assert multiset(names) == multiset{names[0]} + multiset(tail);
      if names[0] != x {
        RemoveFirstCounts(tail, x);
        assert RemoveFirst(names, Some(x)) == [names[0]] + RemoveFirst(tail, Some(x));
        assert multiset(RemoveFirst(names, Some(x))) == multiset{names[0]} + (multiset(tail) - multiset{x});
      }
    }
  }

  /** The stored feeds, the names not yet crossed off, and the error that
      ended the command, if one did. */
  datatype SyncRun = SyncRun(db: map<string, Models.Feed>, prior: seq<string>, error: Option<SyncError>)

  /** One pass of the entry loop; a run that was ended stays as it was. */
  function Step(run: SyncRun, entry: seq<(string, Json)>, env: SyncEnv, key: RemovalKey): SyncRun {
    var outcome := ProcessEntry(entry, env);
    Apply(run, outcome, if outcome.Save? then RemovedName(key, entry, outcome.feed) else None)
  }

  /** Applies an entry's outcome: an abort ends the run, a save stores the
      feed and crosses `crossedOff` off. */
  function Apply(run: SyncRun, outcome: EntryOutcome, crossedOff: Option<string>): SyncRun {
    if run.error.Some? then run
    else match outcome
      case Abort(e) => run.(error := Some(e))
      case Skip => run
      case Save(feed) => SyncRun(run.db[feed.feedname := feed], RemoveFirst(run.prior, crossedOff), None)
  }

  /** The state after the entry loop has handled `entries`, in order. */
  function SyncEntries(entries: seq<seq<(string, Json)>>, env: SyncEnv, key: RemovalKey, start: SyncRun): SyncRun
    decreases |entries|
  {
    if entries == [] then start
    else Step(SyncEntries(entries[..|entries| - 1], env, key, start), entries[|entries| - 1], env, key)
  }

  /** The names of the feeds saved while handling `entries`. */
  function SavedNames(entries: seq<seq<(string, Json)>>, env: SyncEnv): set<string>
    decreases |entries|
  {
    if entries == [] then {}
    else
      var last := ProcessEntry(entries[|entries| - 1], env);
      SavedNames(entries[..|entries| - 1], env) + (if last.Save? then {last.feed.feedname} else {})
  }

  /** The deletion loop: deletes the names left in `prior`, in order, and
      stops at the first that is no longer stored. */
  function DeleteRemaining(run: SyncRun): SyncRun
    decreases |run.prior|
  {
    if run.error.Some? || run.prior == [] then run
    else if run.prior[0] !in run.db then run.(error := Some(DeleteMissing(run.prior[0])))
    else DeleteRemaining(SyncRun(run.db - {run.prior[0]}, run.prior[1..], None))
  }

  /** The whole command: `listed` is `Feed.objects.all()`'s names. */
  function Sync(hub: HubFetch, db: map<string, Models.Feed>, listed: seq<string>, env: SyncEnv, key: RemovalKey): SyncRun {
    match hub
    case HubUnreachable => SyncRun(db, listed, Some(HubRequestFailed))
    case HubResponse(code, entries) =>
      if code != HttpOk then SyncRun(db, listed, Some(HubStatus(code)))
      else DeleteRemaining(SyncEntries(entries, env, key, SyncRun(db, listed, None)))
  }

  /** `Command.handle`. */
  method Handle(hub: HubFetch, db0: map<string, Models.Feed>, listed: seq<string>, env: SyncEnv, key: RemovalKey)
    returns (db: map<string, Models.Feed>, error: Option<SyncError>)
    ensures db == Sync(hub, db0, listed, env, key).db
    ensures error == Sync(hub, db0, listed, env, key).error
  {
    db, error := db0, None;
    if hub.HubUnreachable? {
      error := Some(HubRequestFailed);
      return;
    }
    if hub.statusCode != HttpOk {
      error := Some(HubStatus(hub.statusCode));
      return;
    }
    var prior;
    db, prior, error := HandleEntries(hub.entries, db0, listed, env, key);
    if error.Some? {
      return;
    }
    db, error := DeleteListed(db, prior);
  }

  /** The loop over the hub's entries: saves feeds and crosses names off
      `prior` until an entry ends the command. */
  method HandleEntries(entries: seq<seq<(string, Json)>>, db0: map<string, Models.Feed>, listed: seq<string>,
                       env: SyncEnv, key: RemovalKey)
    returns (db: map<string, Models.Feed>, prior: seq<string>, error: Option<SyncError>)
    ensures SyncRun(db, prior, error) == SyncEntries(entries, env, key, SyncRun(db0, listed, None))
  {
    db, prior, error := db0, listed, None;
    var i := 0;
    while i < |entries|
      invariant 0 <= i <= |entries|
      invariant SyncEntries(entries[..i], env, key, SyncRun(db0, listed, None)) == SyncRun(db, prior, None)
    {
      var entry := entries[i];
      SyncEntriesExtend(entries, i, env, key, SyncRun(db0, listed, None));
      var outcome := ProcessEntry(entry, env);
      if outcome.Abort? {
        error := Some(outcome.error);
        SyncAfterAbort(entries, i, env, key, SyncRun(db0, listed, None));
        return;
      }
      if outcome.Save? {
        db := db[outcome.feed.feedname := outcome.feed];
        prior := RemoveFirst(prior, RemovedName(key, entry, outcome.feed));
      }
      i := i + 1;
    }
    assert entries[..i] == entries;
  }

  /** The loop over the feeds listed before the sync: deletes each name left,
      and stops at the first that is no longer stored. */
  method DeleteListed(db0: map<string, Models.Feed>, prior: seq<string>)
    returns (db: map<string, Models.Feed>, error: Option<SyncError>)
    ensures db == DeleteRemaining(SyncRun(db0, prior, None)).db
    ensures error == DeleteRemaining(SyncRun(db0, prior, None)).error
  {
    db, error := db0, None;
    var j := 0;
    while j < |prior|
      invariant 0 <= j <= |prior|
      invariant DeleteRemaining(SyncRun(db, prior[j..], None)) == DeleteRemaining(SyncRun(db0, prior, None))
    {
      var name := prior[j];
      if name !in db {
        error := Some(DeleteMissing(name));
        return;
      }
      assert prior[j..][1..] == prior[j + 1..];
      db := db - {name};
      j := j + 1;
    }
  }

  /** Handling one more entry is one more step. */
  lemma SyncEntriesExtend(entries: seq<seq<(string, Json)>>, i: nat, env: SyncEnv, key: RemovalKey, start: SyncRun)
    requires i < |entries|
    ensures SyncEntries(entries[..i + 1], env, key, start)
         == Step(SyncEntries(entries[..i], env, key, start), entries[i], env, key)
  {
    assert entries[..i + 1][..i] == entries[..i];
  }

  /** Once an entry ends the command, the later entries change nothing. */
  lemma {:induction false} SyncAfterAbort(entries: seq<seq<(string, Json)>>, i: nat, env: SyncEnv, key: RemovalKey, start: SyncRun)
    requires i < |entries|
    requires SyncEntries(entries[..i + 1], env, key, start).error.Some?
    ensures SyncEntries(entries, env, key, start) == SyncEntries(entries[..i + 1], env, key, start)
    decreases |entries|
  {
    if |entries| > i + 1 {
      var n := |entries|;
      assert entries[..n - 1][..i + 1] == entries[..i + 1];
      SyncAfterAbort(entries[..n - 1], i, env, key, start);
    } else {
      assert entries[..i + 1] == entries;
    }
  }

  // ---------------------------------------------------------------------
  // Reconciliation

  /** No name occurs twice. */
  predicate Distinct(names: seq<string>) {
    forall i, j :: 0 <= i < j < |names| ==> names[i] != names[j]
  }

  /** On a list without duplicates, crossing a name off removes exactly that name. */
  lemma {:induction false} RemoveFirstDistinct(names: seq<string>, x: Option<string>)
    requires Distinct(names)
    ensures Distinct(RemoveFirst(names, x))
    ensures forall y :: y in RemoveFirst(names, x) <==> y in names && (x.None? || y != x.value)
    decreases |names|
  {
    if x.Some? && names != [] {
      var tail := names[1..];
      assert names == [names[0]] + tail;
      assert Distinct(tail) by {
        forall i, j | 0 <= i < j < |tail| ensures tail[i] != tail[j] {
          assert tail[i] == names[i + 1] && tail[j] == names[j + 1];
        }
      }
      assert names[0] !in tail by {
        forall i | 0 <= i < |tail| ensures tail[i] != names[0] {
          assert tail[i] == names[i + 1];
        }
      }
      if names[0] != x.value {
        RemoveFirstDistinct(tail, x);
        var rest := RemoveFirst(tail, x);
        assert RemoveFirst(names, x) == [names[0]] + rest;
        assert names[0] !in rest;
        DistinctCons(names[0], rest);
      }
    }
  }

  /** Putting a new name in front of a list without duplicates keeps it so. */
  lemma DistinctCons(x: string, names: seq<string>)
    requires Distinct(names) && x !in names
    ensures Distinct([x] + names)
  {
    var r := [x] + names;
    forall i, j | 0 <= i < j < |r| ensures r[i] != r[j] {
      assert r[j] == names[j - 1];
      if i > 0 {
        assert r[i] == names[i - 1];
      }
    }
  }

  /** The names not yet crossed off are free of duplicates and all stored. */
  predicate Consistent(run: SyncRun) {
    Distinct(run.prior) && forall n :: n in run.prior ==> n in run.db
  }

  /** The name an entry's outcome saves, if it saves one. */
  function SavedBy(outcome: EntryOutcome): set<string> {
    if outcome.Save? then {outcome.feed.feedname} else {}
  }

  /** Applying an outcome keeps the run consistent, stores exactly the feed
      saved and crosses off exactly `crossedOff`. */
  lemma ApplyInvariant(run: SyncRun, outcome: EntryOutcome, crossedOff: Option<string>)
    requires Consistent(run)
    ensures var next := Apply(run, outcome, crossedOff);
      Consistent(next) &&
      (next.error.None? ==> run.error.None? && next.db.Keys == run.db.Keys + SavedBy(outcome)) &&
      (next.error.None? && outcome.Save? ==>
        forall n :: n in next.prior <==> n in run.prior && (crossedOff.None? || n != crossedOff.value)) &&
      (next.error.None? && !outcome.Save? ==> next.prior == run.prior)
  {
    if run.error.None? && outcome.Save? {
      RemoveFirstDistinct(run.prior, crossedOff);
    }
  }

  /** One pass of the entry loop keeps the run consistent and stores exactly
      the feed it saves; with the feed name as the key it crosses off exactly
      that name. */
  lemma StepInvariant(run: SyncRun, entry: seq<(string, Json)>, env: SyncEnv, key: RemovalKey)
    requires Consistent(run)
    ensures var next := Step(run, entry, env, key);
      Consistent(next) &&
      (next.error.None? ==> run.error.None? && next.db.Keys == run.db.Keys + SavedBy(ProcessEntry(entry, env))) &&
      (next.error.None? && key == ByFeedname ==>
        forall n :: n in next.prior <==> n in run.prior && n !in SavedBy(ProcessEntry(entry, env)))
  {
    var outcome := ProcessEntry(entry, env);
    var crossedOff := if outcome.Save? then RemovedName(key, entry, outcome.feed) else None;
    ApplyInvariant(run, outcome, crossedOff);
  }

  /** The entry loop keeps the run consistent and stores exactly the feeds it
      saves, with whatever key is used to cross names off; with the feed name
      as the key it crosses off exactly the names it saves. */
  lemma {:induction false} EntryLoopInvariant(entries: seq<seq<(string, Json)>>, env: SyncEnv, key: RemovalKey, start: SyncRun)
    requires start.error.None? && Consistent(start)
    ensures var r := SyncEntries(entries, env, key, start);
      Consistent(r) &&
      (r.error.None? ==> r.db.Keys == start.db.Keys + SavedNames(entries, env)) &&
      (r.error.None? && key == ByFeedname ==>
        forall n :: n in r.prior <==> n in start.prior && n !in SavedNames(entries, env))
    decreases |entries|
  {
    if entries != [] {
      var init := entries[..|entries| - 1];
      var last := entries[|entries| - 1];
      EntryLoopInvariant(init, env, key, start);
      StepInvariant(SyncEntries(init, env, key, start), last, env, key);
      assert SavedNames(entries, env) == SavedNames(init, env) + SavedBy(ProcessEntry(last, env));
    }
  }

  /** The deletion loop, given names without duplicates that are all stored,
      never fails and deletes exactly those names. */
  lemma {:induction false} DeleteRemainingSpec(run: SyncRun)
    requires run.error.None? && Consistent(run)
    ensures DeleteRemaining(run).error.None?
    ensures DeleteRemaining(run).db == run.db - (set n | n in run.prior)
    decreases |run.prior|
  {
    if run.prior != [] {
      var first := run.prior[0];
      var next := SyncRun(run.db - {first}, run.prior[1..], None);
      assert forall n :: n in run.prior[1..] ==> n != first;
      DeleteRemainingSpec(next);
      assert (set n | n in run.prior) == {first} + (set n | n in run.prior[1..]);
    }
  }

  /** With the names of all stored feeds listed once, the DataHub reachable
      and no entry ending the command, the deletion step cannot fail: every
      name it deletes is still stored. */
  lemma DeleteNeverFails(entries: seq<seq<(string, Json)>>, db0: map<string, Models.Feed>, listed: seq<string>, env: SyncEnv, key: RemovalKey)
    requires Distinct(listed) && forall n :: n in listed <==> n in db0
    requires SyncEntries(entries, env, key, SyncRun(db0, listed, None)).error.None?
    ensures var loop := SyncEntries(entries, env, key, SyncRun(db0, listed, None));
      Sync(HubResponse(HttpOk, entries), db0, listed, env, key) ==
        SyncRun(loop.db - (set n | n in loop.prior), [], None)
  {
    var loop := SyncEntries(entries, env, key, SyncRun(db0, listed, None));
    EntryLoopInvariant(entries, env, key, SyncRun(db0, listed, None));
    DeleteRemainingSpec(loop);
    DeleteRemainingEmpties(loop);
  }

  /** A deletion loop that does not fail works through every listed name. */
  lemma {:induction false} DeleteRemainingEmpties(run: SyncRun)
    requires run.error.None?
    ensures DeleteRemaining(run).error.None? ==> DeleteRemaining(run).prior == []
    decreases |run.prior|
  {
    if run.prior != [] && run.prior[0] in run.db {
      DeleteRemainingEmpties(SyncRun(run.db - {run.prior[0]}, run.prior[1..], None));
    }
  }

  /** With the feed name as the key, a run that completes leaves stored exactly
      the feeds it saved: every feed of the listing whose data could be fetched
      is kept, every other feed is deleted. */
  lemma IntendedKeepsSyncedFeeds(entries: seq<seq<(string, Json)>>, db0: map<string, Models.Feed>, listed: seq<string>, env: SyncEnv)
    requires Distinct(listed) && forall n :: n in listed <==> n in db0
    requires SyncEntries(entries, env, ByFeedname, SyncRun(db0, listed, None)).error.None?
    ensures var r := Sync(HubResponse(HttpOk, entries), db0, listed, env, ByFeedname);
      r.error.None? && r.db.Keys == SavedNames(entries, env)
  {
    var loop := SyncEntries(entries, env, ByFeedname, SyncRun(db0, listed, None));
    EntryLoopInvariant(entries, env, ByFeedname, SyncRun(db0, listed, None));
    DeleteNeverFails(entries, db0, listed, env, ByFeedname);
    var r := Sync(HubResponse(HttpOk, entries), db0, listed, env, ByFeedname);
    assert r.db.Keys == loop.db.Keys - (set n | n in loop.prior);
  }

  /** A listing entry for the feed "ia" of the organization "Iowa DOT". */
  const IowaEntry: seq<(string, Json)> :=
    [("feedname", JStr("ia")), ("issuingorganization", JStr("Iowa DOT")), ("url", JObj([("url", JStr("u"))]))]

  /** A network where every data URL answers 200 with an empty object, and no API keys. */
  const AllAnswer: SyncEnv := SyncEnv(map[], (u: string) => Response(HttpOk, JObj([])))

  lemma IowaFields()
    ensures Get(IowaEntry, "feedname") == Some(JStr("ia"))
    ensures Get(IowaEntry, "issuingorganization") == Some(JStr("Iowa DOT"))
    ensures Get(IowaEntry, "apikeyurl") == None
    ensures UrlOf(IowaEntry, "url") == Success(Some(JStr("u")))
  {
  }

  /** The Iowa entry is saved under "ia" and, as written, crosses off "Iowa DOT". */
  lemma IowaEntrySaved()
    ensures ProcessEntry(IowaEntry, AllAnswer) == Save(FeedOf(IowaEntry, "ia", JObj([])))
  {
    IowaDataUrl();
    IowaFields();
    AllAnswerFetch("u");
  }

  lemma AllAnswerFetch(url: string)
    ensures AllAnswer.fetch(url) == Response(HttpOk, JObj([]))
  {
  }

  lemma IowaDataUrl()
    ensures DataUrl(IowaEntry, "ia", AllAnswer) == Success(Some("u"))
  {
    IowaFields();
    assert !NeedsKey(IowaEntry);
  }

  /** As written, a run over one listed entry that is saved under the name of
      a stored feed, but whose issuing organization is another name, deletes
      that feed at the end. */
  lemma {:induction false} SavedFeedDeletedWhenOrganizationDiffers(entry: seq<(string, Json)>, env: SyncEnv, stored: Models.Feed)
    requires ProcessEntry(entry, env).Save?
    requires RemovedName(ByOrganization, entry, ProcessEntry(entry, env).feed) != Some(ProcessEntry(entry, env).feed.feedname)
    ensures var name := ProcessEntry(entry, env).feed.feedname;
      var asWritten := Sync(HubResponse(HttpOk, [entry]), map[name := stored], [name], env, ByOrganization);
      name in SavedNames([entry], env) && asWritten.error.None? && name !in asWritten.db
  {
    var feed := ProcessEntry(entry, env).feed;
    var name := feed.feedname;
    var start := SyncRun(map[name := stored], [name], None);
    assert [entry][..0] == [];
    assert RemoveFirst([name], RemovedName(ByOrganization, entry, feed)) == [name] by {
      assert [name][1..] == [];
    }
    var loop := SyncRun(map[name := feed], [name], None);
    assert SyncEntries([entry], env, ByOrganization, start) == loop;
    assert DeleteRemaining(loop) == DeleteRemaining(SyncRun(loop.db - {name}, [], None));
  }

  /** With the feed name as the key, a run over one listed entry that is saved
      keeps the feed. */
  lemma {:induction false} SavedFeedKeptByName(entry: seq<(string, Json)>, env: SyncEnv, stored: Models.Feed)
    requires ProcessEntry(entry, env).Save?
    ensures var name := ProcessEntry(entry, env).feed.feedname;
      var intended := Sync(HubResponse(HttpOk, [entry]), map[name := stored], [name], env, ByFeedname);
      intended.error.None? && name in intended.db
  {
    var feed := ProcessEntry(entry, env).feed;
    var name := feed.feedname;
    var start := SyncRun(map[name := stored], [name], None);
    assert [entry][..0] == [];
    assert RemoveFirst([name], Some(name)) == [];
    assert SyncEntries([entry], env, ByFeedname, start) == SyncRun(map[name := feed], [], None);
  }

  /** The command as written crosses off the issuing organization: a stored
      feed "ia" of the organization "Iowa DOT" that the DataHub still lists and
      that answers 200 is saved and then deleted; with the feed name as the key
      it is kept. */
  lemma SyncedFeedIsDeleted(stored: Models.Feed)
    ensures "ia" in SavedNames([IowaEntry], AllAnswer)
    ensures var asWritten := Sync(HubResponse(HttpOk, [IowaEntry]), map["ia" := stored], ["ia"], AllAnswer, ByOrganization);
      asWritten.error.None? && "ia" !in asWritten.db
    ensures var intended := Sync(HubResponse(HttpOk, [IowaEntry]), map["ia" := stored], ["ia"], AllAnswer, ByFeedname);
      intended.error.None? && "ia" in intended.db
  {
    IowaEntrySaved();
    IowaFields();
    var feed := FeedOf(IowaEntry, "ia", JObj([]));
    assert feed.feedname == "ia";
    assert RemovedName(ByOrganization, IowaEntry, feed) == Some("Iowa DOT") != Some("ia");
    SavedFeedDeletedWhenOrganizationDiffers(IowaEntry, AllAnswer, stored);
    SavedFeedKeptByName(IowaEntry, AllAnswer, stored);
  }
}
