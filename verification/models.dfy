/** The feed and feed-status models: the status vocabulary, the status
    record whose subclasses fix its type when constructed, the work-zone
    event filter and the human-readable details of each status. */
module Models {
  import opened Wrappers
  import opened Json
  import opened Text

  /** `FeedStatus.StatusType`: the code stored in the database and its label. */
  datatype StatusType = Null | Ok | Error | Outdated | Stale | Offline {

    function Code(): (c: string)
      ensures |c| == 2
    {
      match this
      case Null => "NA"
      case Ok => "OK"
      case Error => "ER"
      case Outdated => "OU"
      case Stale => "ST"
      case Offline => "OF"
    }

    function Label(): string {
      match this
      case Null => "null"
      case Ok => "ok"
      case Error => "error"
      case Outdated => "outdated"
      case Stale => "stale"
      case Offline => "offline"
    }

    /** `FeedStatus.is_error`: every status other than ok and the null status is an error. */
    predicate IsError()
      ensures IsError() <==> this != Ok && this != Null
    {
      match this
      case Error | Outdated | Stale | Offline => true
      case Ok | Null => false
    }
  }

  /** `FeedStatus.StatusType(code)`: the status with that code, `None` where
      the enumeration raises `ValueError`. */
  function StatusTypeOf(code: string): (t: Option<StatusType>)
    ensures t.Some? ==> t.value.Code() == code
  {
    match code
    case "NA" => Some(Null)
    case "OK" => Some(Ok)
    case "ER" => Some(Error)
    case "OU" => Some(Outdated)
    case "ST" => Some(Stale)
    case "OF" => Some(Offline)
    case _ => None
  }

  /** Every status is found again from its code, so codes identify statuses. */
  lemma StatusTypeOfCode(t: StatusType)
    ensures StatusTypeOf(t.Code()) == Some(t)
  {
  }

  /** Distinct statuses have distinct labels. */
  lemma LabelsDistinct(t1: StatusType, t2: StatusType)
    requires t1 != t2
    ensures t1.Label() != t2.Label()
  {
  }

  /** The fields of `Feed` the core reads or writes. */
  datatype Feed = Feed(
    feedname: string,
    state: string,
    issuingorganization: string,
    url: Option<string>,
    active: bool,
    version: string,
    apikeyurl: Option<string>,
    feedData: Json)

  /** What a subclass of `FeedStatus` records beyond the base fields. */
  datatype Detail =
    | NoDetail
    | SchemaErrorDetail(mostCommonType: string, mostCommonField: string, mostCommonCount: nat, totalErrors: nat)
    | OutdatedDetail(updateDate: int)
    | StaleDetail(latestEndDate: int, amountEventsBeforeEndDate: nat)

  /** One status record of a feed. Timestamps are seconds; `now` is the
      moment the record is created (`auto_now_add`). */
  class FeedStatus {
    const feedname: string
    var statusType: StatusType
    var datetimeChecked: int
    var statusSince: int
    var notifSent: bool
    var detail: Detail

    /** The base record: status type defaults to the null status. */
    constructor (feedname: string, now: int)
      ensures this.feedname == feedname && statusType == Null && detail == NoDetail
      ensures datetimeChecked == now && statusSince == now && !notifSent
    {
      this.feedname := feedname;
      statusType := Null;
      datetimeChecked, statusSince := now, now;
      notifSent := false;
      detail := NoDetail;
    }

    constructor OKStatus(feedname: string, now: int)
      ensures this.feedname == feedname && statusType == Ok && detail == NoDetail
      ensures datetimeChecked == now && statusSince == now && !notifSent
    {
      this.feedname := feedname;
      statusType := Ok;
      datetimeChecked, statusSince := now, now;
      notifSent := false;
      detail := NoDetail;
    }

    constructor SchemaErrorStatus(feedname: string, now: int, mostCommonType: string,
                                  mostCommonField: string, mostCommonCount: nat, totalErrors: nat)
      ensures this.feedname == feedname && statusType == Error
      ensures detail == SchemaErrorDetail(mostCommonType, mostCommonField, mostCommonCount, totalErrors)
      ensures datetimeChecked == now && statusSince == now && !notifSent
    {
      this.feedname := feedname;
      statusType := Error;
      datetimeChecked, statusSince := now, now;
      notifSent := false;
      detail := SchemaErrorDetail(mostCommonType, mostCommonField, mostCommonCount, totalErrors);
    }

    constructor OutdatedErrorStatus(feedname: string, now: int, updateDate: int)
      ensures this.feedname == feedname && statusType == Outdated && detail == OutdatedDetail(updateDate)
      ensures datetimeChecked == now && statusSince == now && !notifSent
    {
      this.feedname := feedname;
      statusType := Outdated;
      datetimeChecked, statusSince := now, now;
      notifSent := false;
      detail := OutdatedDetail(updateDate);
    }

    constructor StaleErrorStatus(feedname: string, now: int, latestEndDate: int, amountEventsBeforeEndDate: nat)
      ensures this.feedname == feedname && statusType == Stale
      ensures detail == StaleDetail(latestEndDate, amountEventsBeforeEndDate)
      ensures datetimeChecked == now && statusSince == now && !notifSent
    {
      this.feedname := feedname;
      statusType := Stale;
      datetimeChecked, statusSince := now, now;
      notifSent := false;
      detail := StaleDetail(latestEndDate, amountEventsBeforeEndDate);
    }

    constructor OfflineErrorStatus(feedname: string, now: int)
      ensures this.feedname == feedname && statusType == Offline && detail == NoDetail
      ensures datetimeChecked == now && statusSince == now && !notifSent
    {
      this.feedname := feedname;
      statusType := Offline;
      datetimeChecked, statusSince := now, now;
      notifSent := false;
      detail := NoDetail;
    }
  }

  // ---------------------------------------------------------------------
  // Feed.work_zone_events

  predicate StartsWith(s: string, c: char) {
    |s| >= 1 && s[0] == c
  }

  /** `for x in value`: a list yields its items, a dict its keys, a string its
      characters; anything else raises `TypeError`. */
  function Iterate(value: Json): (r: Option<seq<Json>>)
    ensures value.JArr? ==> r == Some(value.items)
    ensures value.JObj? ==>
      r.Some? && |r.value| == |value.fields| &&
      forall i :: 0 <= i < |value.fields| ==> r.value[i] == JStr(value.fields[i].0)
    ensures value.JStr? ==>
      r.Some? && |r.value| == |value.s| &&
      forall i :: 0 <= i < |value.s| ==> r.value[i] == JStr([value.s[i]])
    ensures r.None? <==> value.JNull? || value.JBool? || value.JNum?
  {
    match value
    case JArr(items) => Some(items)
    case JObj(fields) => Some(seq(|fields|, i requires 0 <= i < |fields| => JStr(fields[i].0)))
    case JStr(s) => Some(seq(|s|, i requires 0 <= i < |s| => JStr([s[i]])))
    case _ => None
  }

  /** `value.get(key, {})`, raising `AttributeError` on a value that is not a dict. */
  function GetDict(value: Json, key: string): Result<Json, PyError> {
    if value.JObj? then Success(GetOr(value.fields, key, JObj([]))) else Failure(AttributeError)
  }

  /** `value.get(key, "")`, raising `AttributeError` on a value that is not a dict. */
  function GetText(value: Json, key: string): Result<Json, PyError> {
    if value.JObj? then Success(GetOr(value.fields, key, JStr(""))) else Failure(AttributeError)
  }

  /** The event type a feature declares: `properties.event_type` in version 3,
      `properties.core_details.event_type` in version 4. */
  function EventType(feature: Json, coreDetails: bool): Result<Json, PyError> {
    match GetDict(feature, "properties")
    case Failure(e) => Failure(e)
    case Success(props) =>
      if !coreDetails then GetText(props, "event_type")
      else match GetDict(props, "core_details")
        case Failure(e) => Failure(e)
        case Success(core) => GetText(core, "event_type")
  }

  predicate IsWorkZone(feature: Json, coreDetails: bool) {
    EventType(feature, coreDetails) == Success(JStr("work-zone"))
  }

  /** The list comprehension: the work-zone features in order, or the first
      feature's exception. */
  function FilterWorkZone(features: seq<Json>, coreDetails: bool): Result<seq<Json>, PyError> {
    if features == [] then Success([])
    else match EventType(features[0], coreDetails)
      case Failure(e) => Failure(e)
      case Success(t) =>
        match FilterWorkZone(features[1..], coreDetails)
        case Failure(e) => Failure(e)
        case Success(rest) => Success(if t == JStr("work-zone") then [features[0]] + rest else rest)
  }

  /** `Feed.work_zone_events`. The `features` lookup happens before the
      version test, so a payload without it raises for every version. */
  function WorkZoneEvents(feed: Feed): Result<seq<Json>, PyError> {
    if !feed.feedData.JObj? then Failure(TypeError)
    else match Get(feed.feedData.fields, "features")
      case None => Failure(KeyError("features"))
      case Some(features) =>
        if StartsWith(feed.version, '3') || StartsWith(feed.version, '4') then
          match Iterate(features)
          case None => Failure(TypeError)
          case Some(items) => FilterWorkZone(items, StartsWith(feed.version, '4'))
        else Success([])
  }

  /** `a` is `b` with some elements left out, order kept. */
  predicate IsSubsequence<T(==)>(a: seq<T>, b: seq<T>) {
    if a == [] then true
    else if b == [] then false
    else if a[0] == b[0] then IsSubsequence(a[1..], b[1..])
    else IsSubsequence(a, b[1..])
  }

  lemma {:induction false} FilterWorkZoneSpec(features: seq<Json>, coreDetails: bool)
    requires FilterWorkZone(features, coreDetails).Success?
    ensures var r := FilterWorkZone(features, coreDetails).value;
      IsSubsequence(r, features) &&
      (forall x :: x in r ==> IsWorkZone(x, coreDetails)) &&
      (forall x :: x in features && IsWorkZone(x, coreDetails) ==> x in r) &&
      (forall x :: multiset(r)[x] == (if IsWorkZone(x, coreDetails) then multiset(features)[x] else 0))
  {
    if features != [] {
      FilterWorkZoneSpec(features[1..], coreDetails);
      var rest := FilterWorkZone(features[1..], coreDetails).value;
      assert features == [features[0]] + features[1..];
      assert multiset(features) == multiset{features[0]} + multiset(features[1..]);
      if IsWorkZone(features[0], coreDetails) {
        assert ([features[0]] + rest)[1..] == rest;
        assert multiset([features[0]] + rest) == multiset{features[0]} + multiset(rest);
      } else {
      }
    }
  }

  /** Version 3 feeds keep the features whose `properties.event_type` is
      "work-zone", version 4 feeds those whose `properties.core_details.event_type`
      is, any other version keeps nothing; the result is an order-preserving
      subsequence of `features`. A `features` dictionary or string iterates
      over strings, on which the lookup raises, so it succeeds only when
      empty, with no events. */
  lemma WorkZoneEventsSpec(feed: Feed)
    requires WorkZoneEvents(feed).Success?
    ensures feed.feedData.JObj? && HasKey(feed.feedData.fields, "features")
    ensures var r := WorkZoneEvents(feed).value;
      var features := Get(feed.feedData.fields, "features").value;
      if StartsWith(feed.version, '3') || StartsWith(feed.version, '4') then
        var core := StartsWith(feed.version, '4');
        (!features.JArr? ==> r == []) &&
        (features.JArr? ==>
          IsSubsequence(r, features.items) &&
          (forall x :: x in r ==> IsWorkZone(x, core)) &&
          (forall x :: x in features.items && IsWorkZone(x, core) ==> x in r) &&
          (forall x :: multiset(r)[x] == (if IsWorkZone(x, core) then multiset(features.items)[x] else 0)))
      else r == []
  {
    var features := Get(feed.feedData.fields, "features").value;
    if StartsWith(feed.version, '3') || StartsWith(feed.version, '4') {
      if features.JArr? {
        FilterWorkZoneSpec(features.items, StartsWith(feed.version, '4'));
      }
    }
  }

  // ---------------------------------------------------------------------
  // details

  const OkPrefix := "All good! "
  const OkSuffix := " work zone events."
  const StaleSuffix := " events have ended over 14 days ago."

  /** `OKStatus.details()`, given the feed's work-zone events. */
  function OkDetails(events: Result<seq<Json>, PyError>): Result<string, PyError> {
    match events
    case Failure(e) => Failure(e)
    case Success(es) => Success(OkPrefix + NatToString(|es|) + OkSuffix)
  }

  /** The OK text fails only where the event list does, and the number it
      shows reads back as the number of work-zone events. */
  lemma OkDetailsReportsCount(events: Result<seq<Json>, PyError>)
    ensures OkDetails(events).Success? <==> events.Success?
    ensures events.Success? ==>
      var text := OkDetails(events).value;
      |text| > |OkPrefix| + |OkSuffix| &&
      text[..|OkPrefix|] == OkPrefix && text[|text| - |OkSuffix|..] == OkSuffix &&
      IsDigits(text[|OkPrefix|..|text| - |OkSuffix|]) &&
      DigitsValue(text[|OkPrefix|..|text| - |OkSuffix|]) == |events.value|
  {
    if events.Success? {
      var n := NatToString(|events.value|);
      var text := OkPrefix + n + OkSuffix;
      assert text[|OkPrefix|..|text| - |OkSuffix|] == n;
      assert text[..|OkPrefix|] == OkPrefix;
      assert text[|text| - |OkSuffix|..] == OkSuffix;
      NatToStringRoundTrip(|events.value|);
    }
  }

  /** `StaleErrorStatus.details`. */
  function StaleDetails(amountEventsBeforeEndDate: nat): string {
    NatToString(amountEventsBeforeEndDate) + StaleSuffix
  }

  /** The stale text starts with the number of events that ended before the
      cutoff, and that number reads back. */
  lemma StaleDetailsReportsCount(amountEventsBeforeEndDate: nat)
    ensures var text := StaleDetails(amountEventsBeforeEndDate);
      |text| > |StaleSuffix| && text[|text| - |StaleSuffix|..] == StaleSuffix &&
      IsDigits(text[..|text| - |StaleSuffix|]) &&
      DigitsValue(text[..|text| - |StaleSuffix|]) == amountEventsBeforeEndDate
  {
    var n := NatToString(amountEventsBeforeEndDate);
    var text := n + StaleSuffix;
    assert text[..|text| - |StaleSuffix|] == n;
    assert text[|text| - |StaleSuffix|..] == StaleSuffix;
    NatToStringRoundTrip(amountEventsBeforeEndDate);
  }

  /** `FeedStatus.details` of the base class, also `OfflineErrorStatus.details`. */
  const BaseDetails := "No details available."
  const OfflineDetails := "Feed unreachable at URL."

  function CountOf(s: seq<string>, x: string): nat {
    multiset(s)[x]
  }

  /** First half of the schema-error sentence, about the most common error. */
  function MostCommonPhrase(count: int, errorType: string): string {
    IntToString(count) + " event" + (if count != 1 then "s" else "") + " "
      + (if count != 1 then "have" else "has") + " the following error: " + errorType + ". "
  }

  /** Second half, about the `other` remaining errors. */
  function OtherPhrase(other: int): string {
    "There " + (if other != 1 then "are" else "is") + " "
      + (if other != 0 then IntToString(other) else "no")
      + " other error" + (if other != 1 then "s" else "") + "."
  }

  /** `SchemaErrorStatus.details`, given the error types stored for the status
      and the one the database query picks as most common (`None` when there
      are none). */
  function SchemaErrorDetails(errorTypes: seq<string>, mostCommon: Option<string>): (text: string)
    requires mostCommon.None? <==> errorTypes == []
    requires mostCommon.Some? ==> mostCommon.value in errorTypes
    ensures mostCommon.None? ==> text == "No errors were found."
    ensures mostCommon.Some? ==>
      exists count: nat, other: nat ::
        1 <= count && count + other == |errorTypes| && count == CountOf(errorTypes, mostCommon.value) &&
        text == MostCommonPhrase(count, mostCommon.value) + OtherPhrase(other)
  {
    match mostCommon
    case None => "No errors were found."
    case Some(t) =>
      var count := CountOf(errorTypes, t);
      CountOfBound(errorTypes, t);
      var other: nat := |errorTypes| - count;
      MostCommonPhrase(count, t) + OtherPhrase(other)
  }

  /** A message that occurs is counted at least once and at most as often as
      there are messages, so the count of other errors is never negative. */
  lemma {:induction false} CountOfBound(errorTypes: seq<string>, t: string)
    ensures CountOf(errorTypes, t) <= |errorTypes|
    ensures t in errorTypes ==> CountOf(errorTypes, t) >= 1
  {
    if errorTypes != [] {
      var rest := errorTypes[1..];
      assert errorTypes == [errorTypes[0]] + rest;
      assert multiset(errorTypes) == multiset{errorTypes[0]} + multiset(rest);
      CountOfBound(rest, t);
    }
  }

  /** The wording of the first half for a single event. */
  lemma {:induction false} MostCommonPhraseOne(errorType: string)
    ensures MostCommonPhrase(1, errorType) == "1 event has the following error: " + errorType + ". "
  {
    assert IntToString(1) == "1";
    var head := "1" + " event" + "" + " " + "has" + " the following error: ";
    assert head == "1 event has the following error: " by {
      assert "1" + " event" == "1 event";
      assert "1 event" + "" == "1 event";
      assert "1 event" + " " == "1 event ";
      assert "1 event " + "has" == "1 event has";
      assert "1 event has" + " the following error: " == "1 event has the following error: ";
    }
  }

  /** The wording of the first half for any other number of events. */
  lemma {:induction false} MostCommonPhraseMany(count: nat, errorType: string)
    requires count != 1
    ensures MostCommonPhrase(count, errorType)
            == NatToString(count) + " events have the following error: " + errorType + ". "
  {
    var n := NatToString(count);
    assert IntToString(count) == n;
    assert n + " event" + "s" + " " + "have" + " the following error: " == n + " events have the following error: " by {
      assert n + " event" + "s" == n + " events";
      assert n + " events" + " " == n + " events ";
      assert n + " events " + "have" == n + " events have";
      assert n + " events have" + " the following error: " == n + " events have the following error: ";
    }
  }

  /** The wording of the second half: "no" other errors, "is 1 other error",
      or "are N other errors". */
  lemma {:induction false} OtherPhraseWording(other: nat)
    ensures other == 0 ==> OtherPhrase(other) == "There are no other errors."
    ensures other == 1 ==> OtherPhrase(other) == "There is 1 other error."
    ensures other >= 2 ==> OtherPhrase(other) == "There are " + NatToString(other) + " other errors."
  {
    if other == 0 {
      assert "There " + "are" + " " + "no" == "There are no";
      assert "There are no" + " other error" + "s" + "." == "There are no other errors.";
    } else if other == 1 {
      assert IntToString(1) == "1";
      assert "There " + "is" + " " + "1" == "There is 1";
      assert "There is 1" + " other error" + "" + "." == "There is 1 other error.";
    } else {
      var n := NatToString(other);
      assert IntToString(other) == n;
      assert "There " + "are" + " " + n == "There are " + n;
      assert "There are " + n + " other error" + "s" + "." == "There are " + n + " other errors." by {
        assert " other error" + "s" + "." == " other errors.";
      }
    }
  }
}
