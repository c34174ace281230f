/** Subscriber records and newsletter scheduling against the document store.
    The store's two collections ('users' and 'newsletter_preferences') are maps
    from document id to document; a document maps field names to values. */
module UserInformation {
  import opened Common

  /** A value stored in a document field. Timestamps are whole seconds on one clock. */
  datatype Value = Null | Bool(b: bool) | Int(i: int) | Str(s: string) | StrList(items: seq<string>) | Timestamp(seconds: int)

  type Doc = map<string, Value>

  /** The `UserPreference` record: a user profile joined with its preference document. */
  datatype UserPreference = UserPreference(
    userId: string,
    email: Value,
    name: Value,
    sportPreferences: Value,
    notificationFrequency: Value,
    lastNewsletterSent: Value,
    isActive: Value)

  const SecondsPerDay: int := 86400

  /** `doc.get(key, default)`. */
  function Get(doc: Doc, key: string, default: Value): Value {
    if key in doc then doc[key] else default
  }

  /** `v` is what reading `key` from `doc` with a default gives: the stored value when the
      field is present, `default` when it is absent. */
  predicate ReadsAs(doc: Doc, key: string, default: Value, v: Value) {
    (key in doc ==> v == doc[key]) && (key !in doc ==> v == default)
  }

  /** The document with id `id`, or the empty document when there is none. */
  function DocOr(collection: map<string, Doc>, id: string): Doc {
    if id in collection then collection[id] else map[]
  }

  /** Python truthiness of a stored value. */
  predicate Truthy(v: Value) {
    match v
    case Null => false
    case Bool(b) => b
    case Int(i) => i != 0
    case Str(s) => s != ""
    case StrList(items) => items != []
    case Timestamp(_) => true
  }

  // ---------------------------------------------------------------------------
  // The scheduling rule

  /** `_is_due_for_newsletter`, with the clock reading `now` passed in. `lastSent` is None
      when the stored value is absent or falsy. `timedelta.days` is the floor of the elapsed
      seconds over a day, which is Dafny's `/` for a positive divisor. */
  function IsDueForNewsletter(lastSent: Option<int>, frequency: string, now: int): (due: bool)
    ensures lastSent.None? ==> due
    ensures frequency != "daily" && frequency != "weekly" && frequency != "monthly" ==> (due <==> lastSent.None?)
  {
    match lastSent
    case None => true
    case Some(sent) =>
      var days := (now - sent) / SecondsPerDay;
      if frequency == "daily" then days >= 1
      else if frequency == "weekly" then days >= 7
      else if frequency == "monthly" then days >= 30
      else false
  }

  /** The number of whole days each frequency waits; 0 stands for "never due once sent". */
  function ThresholdDays(frequency: string): nat {
    if frequency == "daily" then 1
    else if frequency == "weekly" then 7
    else if frequency == "monthly" then 30
    else 0
  }

  lemma {:induction false} WholeDaysAtLeast(elapsed: int, n: nat)
    requires n > 0
    ensures elapsed / SecondsPerDay >= n <==> elapsed >= n * SecondsPerDay
  {
    var q, r := elapsed / SecondsPerDay, elapsed % SecondsPerDay;
    assert elapsed == q * SecondsPerDay + r && 0 <= r < SecondsPerDay;
    if q >= n {
      assert q * SecondsPerDay >= n * SecondsPerDay;
    } else {
      assert q <= n - 1;
      assert q * SecondsPerDay <= (n - 1) * SecondsPerDay;
    }
  }

  /** Once a newsletter has been sent, a known frequency is due exactly when at least its
      threshold of whole days (1, 7 or 30) has elapsed, boundary included; any other
      frequency is never due. */
  lemma DueIffThresholdElapsed(sent: int, frequency: string, now: int)
    ensures IsDueForNewsletter(Some(sent), frequency, now) <==>
            ThresholdDays(frequency) > 0 && now - sent >= ThresholdDays(frequency) * SecondsPerDay
  {
    if ThresholdDays(frequency) > 0 {
      WholeDaysAtLeast(now - sent, ThresholdDays(frequency));
    }
  }

  /** A send time in the future (negative elapsed time) is never due. */
  lemma NegativeElapsedNeverDue(sent: int, frequency: string, now: int)
    requires now < sent
    ensures !IsDueForNewsletter(Some(sent), frequency, now)
  {
    DueIffThresholdElapsed(sent, frequency, now);
  }

  /** Due-ness is monotone in time: a user due now stays due later. */
  lemma DueIsMonotone(lastSent: Option<int>, frequency: string, now: int, later: int)
    requires now <= later
    requires IsDueForNewsletter(lastSent, frequency, now)
    ensures IsDueForNewsletter(lastSent, frequency, later)
  {
    if lastSent.Some? {
      DueIffThresholdElapsed(lastSent.value, frequency, now);
      DueIffThresholdElapsed(lastSent.value, frequency, later);
    }
  }

  /** A user whose send time was just recorded is not due again for at least a day. */
  lemma JustSentNotDue(sent: int, frequency: string, now: int)
    requires now < sent + SecondsPerDay
    ensures !IsDueForNewsletter(Some(sent), frequency, now)
  {
    DueIffThresholdElapsed(sent, frequency, now);
  }

  /** The boundary cases of the weekly rule. */
  lemma WeeklyBoundary(sent: int)
    ensures !IsDueForNewsletter(Some(sent), "weekly", sent + 6 * SecondsPerDay)
    ensures IsDueForNewsletter(Some(sent), "weekly", sent + 7 * SecondsPerDay)
    ensures !IsDueForNewsletter(Some(sent), "weekly", sent + 7 * SecondsPerDay - 1)
  {
    DueIffThresholdElapsed(sent, "weekly", sent + 6 * SecondsPerDay);
    DueIffThresholdElapsed(sent, "weekly", sent + 7 * SecondsPerDay);
    DueIffThresholdElapsed(sent, "weekly", sent + 7 * SecondsPerDay - 1);
  }

  // ---------------------------------------------------------------------------
  // Reading the store

  /** The `UserPreference` built from a profile and a preference document, with the
      defaults `get_user_preferences` applies to missing preference fields. */
  function Record(userId: string, userDoc: Doc, prefDoc: Doc): (r: UserPreference)
    ensures r.userId == userId
    ensures ReadsAs(userDoc, "email", Null, r.email) && ReadsAs(userDoc, "name", Null, r.name)
    ensures ReadsAs(prefDoc, "sport_preferences", StrList([]), r.sportPreferences)
    ensures ReadsAs(prefDoc, "notification_frequency", Str("weekly"), r.notificationFrequency)
    ensures ReadsAs(prefDoc, "last_newsletter_sent", Null, r.lastNewsletterSent)
    ensures ReadsAs(prefDoc, "is_active", Bool(true), r.isActive)
  {
    UserPreference(
      userId,
      Get(userDoc, "email", Null),
      Get(userDoc, "name", Null),
      Get(prefDoc, "sport_preferences", StrList([])),
      Get(prefDoc, "notification_frequency", Str("weekly")),
      Get(prefDoc, "last_newsletter_sent", Null),
      Get(prefDoc, "is_active", Bool(true)))
  }

  /** What `get_user_preferences` returns when the store answers. */
  function PreferencesOf(users: map<string, Doc>, prefs: map<string, Doc>, userId: string): (r: Option<UserPreference>)
    ensures r.None? <==> userId !in users
    ensures r.Some? ==> r.value.userId == userId
    ensures r.Some? && userId !in prefs ==>
              r.value.sportPreferences == StrList([]) && r.value.notificationFrequency == Str("weekly") &&
              r.value.lastNewsletterSent == Null && r.value.isActive == Bool(true)
    ensures r.Some? && userId in prefs && "is_active" in prefs[userId] ==> r.value.isActive == prefs[userId]["is_active"]
    ensures r.Some? ==> ReadsAs(users[userId], "email", Null, r.value.email) &&
                        ReadsAs(users[userId], "name", Null, r.value.name)
    ensures r.Some? ==>
              var prefDoc := DocOr(prefs, userId);
              ReadsAs(prefDoc, "sport_preferences", StrList([]), r.value.sportPreferences) &&
              ReadsAs(prefDoc, "notification_frequency", Str("weekly"), r.value.notificationFrequency) &&
              ReadsAs(prefDoc, "last_newsletter_sent", Null, r.value.lastNewsletterSent) &&
              ReadsAs(prefDoc, "is_active", Bool(true), r.value.isActive)
  {
    if userId !in users then None else Some(Record(userId, users[userId], DocOr(prefs, userId)))
  }

  /** The equality filter `where(key, '==', v)`: the field is present and equal to `v`. */
  predicate FieldEquals(doc: Doc, key: string, v: Value) {
    key in doc && doc[key] == v
  }

  /** A preference document that `get_active_subscribers` turns into a record. */
  predicate IsSubscriber(users: map<string, Doc>, prefs: map<string, Doc>, id: string) {
    id in prefs && FieldEquals(prefs[id], "is_active", Bool(true)) && id in users
  }

  /** The record `get_active_subscribers` builds for `id`: `is_active` is forced to True. */
  function Subscriber(users: map<string, Doc>, prefs: map<string, Doc>, id: string): UserPreference {
    Record(id, DocOr(users, id), DocOr(prefs, id)).(isActive := Bool(true))
  }

  /** The ids `get_active_subscribers` keeps, in stream order. */
  function SubscriberIds(order: seq<string>, users: map<string, Doc>, prefs: map<string, Doc>): seq<string> {
    Filter(order, id => IsSubscriber(users, prefs, id))
  }

  /** What `get_active_subscribers` returns when the store answers. */
  function ActiveSubscribers(order: seq<string>, users: map<string, Doc>, prefs: map<string, Doc>): seq<UserPreference> {
    var ids := SubscriberIds(order, users, prefs);
    seq(|ids|, k requires 0 <= k < |ids| => Subscriber(users, prefs, ids[k]))
  }

  /** How a stored `last_newsletter_sent` reaches the scheduling rule: a falsy value reads as
      "never sent", a timestamp as its time, and any other value makes `now - last_sent` raise. */
  datatype LastSentRead = Usable(lastSent: Option<int>) | Raises

  function ReadLastSent(v: Value): LastSentRead {
    if !Truthy(v) then Usable(None)
    else if v.Timestamp? then Usable(Some(v.seconds))
    else Raises
  }

  /** A preference document the frequency query streams: active with the given frequency. */
  predicate IsCandidate(prefs: map<string, Doc>, frequency: string, id: string) {
    id in prefs && FieldEquals(prefs[id], "is_active", Bool(true)) &&
    FieldEquals(prefs[id], "notification_frequency", Str(frequency))
  }

  /** `pref.get('last_newsletter_sent')` and the rule's use of it. The snapshot's `get`
      raises KeyError when the field is absent, so only a stored falsy value (such as null)
      reads as "never sent". */
  function LastSentOf(prefs: map<string, Doc>, id: string): LastSentRead {
    var doc := DocOr(prefs, id);
    if "last_newsletter_sent" in doc then ReadLastSent(doc["last_newsletter_sent"]) else Raises
  }

  /** A streamed document on which reading or using the send time raises. */
  predicate RaisesOn(prefs: map<string, Doc>, frequency: string, id: string) {
    IsCandidate(prefs, frequency, id) && LastSentOf(prefs, id).Raises?
  }

  /** A user `get_users_due_for_newsletter` returns: streamed, due, with a profile, and not
      in `lookupFails`, the ids whose nested `get_user_preferences` call raises (that call
      catches its own error and returns None, so the user is only dropped). */
  predicate IsDueUser(users: map<string, Doc>, prefs: map<string, Doc>, frequency: string, now: int, lookupFails: set<string>, id: string) {
    IsCandidate(prefs, frequency, id) && LastSentOf(prefs, id).Usable? &&
    IsDueForNewsletter(LastSentOf(prefs, id).lastSent, frequency, now) && id in users &&
    id !in lookupFails
  }

  function DueIds(order: seq<string>, users: map<string, Doc>, prefs: map<string, Doc>, frequency: string, now: int, lookupFails: set<string>): seq<string> {
    Filter(order, id => IsDueUser(users, prefs, frequency, now, lookupFails, id))
  }

  /** What `get_users_due_for_newsletter` returns when the store answers: None when reading
      or using the send time raises on some streamed document, which makes the whole call
      return []. */
  function DueUsers(order: seq<string>, users: map<string, Doc>, prefs: map<string, Doc>, frequency: string, now: int, lookupFails: set<string>)
    : Option<seq<UserPreference>>
  {
    if exists k :: 0 <= k < |order| && RaisesOn(prefs, frequency, order[k]) then None
    else
      Some(Records(DueIds(order, users, prefs, frequency, now, lookupFails), users, prefs))
  }

  /** Each id joined with its profile and preference document. */
  function Records(ids: seq<string>, users: map<string, Doc>, prefs: map<string, Doc>): seq<UserPreference> {
    seq(|ids|, k requires 0 <= k < |ids| => Record(ids[k], DocOr(users, ids[k]), DocOr(prefs, ids[k])))
  }

  /** One more streamed document adds its record to the subscribers exactly when it is one. */
  lemma SubscribersStep(order: seq<string>, i: nat, users: map<string, Doc>, prefs: map<string, Doc>)
    requires i < |order|
    ensures ActiveSubscribers(order[..i + 1], users, prefs) ==
              ActiveSubscribers(order[..i], users, prefs) +
              (if IsSubscriber(users, prefs, order[i]) then [Subscriber(users, prefs, order[i])] else [])
  {
    assert order[..i + 1][..i] == order[..i];
  }

  /** One more streamed document adds its id to the due ids exactly when it is due. */
  lemma DueIdsStep(order: seq<string>, i: nat, users: map<string, Doc>, prefs: map<string, Doc>, frequency: string, now: int, lookupFails: set<string>)
    requires i < |order|
    ensures DueIds(order[..i + 1], users, prefs, frequency, now, lookupFails) ==
              DueIds(order[..i], users, prefs, frequency, now, lookupFails) +
              (if IsDueUser(users, prefs, frequency, now, lookupFails, order[i]) then [order[i]] else [])
  {
    assert order[..i + 1][..i] == order[..i];
  }

  /** Appending an id appends its record. */
  lemma RecordsSnoc(ids: seq<string>, id: string, users: map<string, Doc>, prefs: map<string, Doc>)
    ensures Records(ids + [id], users, prefs) == Records(ids, users, prefs) + [Record(id, DocOr(users, id), DocOr(prefs, id))]
  {
  }

  /** No id occurs twice. */
  predicate Distinct(ids: seq<string>) {
    forall i, j :: 0 <= i < j < |ids| ==> ids[i] != ids[j]
  }

  // ---------------------------------------------------------------------------
  // The manager over the store

  class FirebaseManager {
    /** The 'users' collection: profile documents by user id. */
    var users: map<string, Doc>
    /** The 'newsletter_preferences' collection: preference documents by user id. */
    var preferences: map<string, Doc>
    /** The order in which queries over 'newsletter_preferences' stream documents. */
    var streamOrder: seq<string>

    ghost predicate Valid()
      reads this
    {
      (forall id :: id in streamOrder <==> id in preferences) && Distinct(streamOrder)
    }

    /** A manager over a store already holding these collections. */
    constructor (users: map<string, Doc>, preferences: map<string, Doc>, streamOrder: seq<string>)
      requires forall id :: id in streamOrder <==> id in preferences
      requires Distinct(streamOrder)
      ensures Valid()
      ensures this.users == users && this.preferences == preferences && this.streamOrder == streamOrder
    {
      this.users := users;
      this.preferences := preferences;
      this.streamOrder := streamOrder;
    }

    /** `get_user_preferences`; `storeFails` says whether a store call raises. */
    method GetUserPreferences(userId: string, storeFails: bool) returns (r: Option<UserPreference>)
      ensures storeFails ==> r == None
      ensures !storeFails ==> r == PreferencesOf(users, preferences, userId)
    {
      if storeFails {
        return None;
      }
      if userId !in users {
        return None;
      }
      var userData := users[userId];
      var prefData := if userId in preferences then preferences[userId] else map[];
      r := Some(Record(userId, userData, prefData));
    }

    /** `get_active_subscribers`: one record per active preference document whose user
        exists, in stream order; [] when a store call raises. */
    method GetActiveSubscribers(storeFails: bool) returns (subscribers: seq<UserPreference>)
      ensures storeFails ==> subscribers == []
      ensures !storeFails ==> subscribers == ActiveSubscribers(streamOrder, users, preferences)
    {
      if storeFails {
        return [];
      }
      subscribers := [];
      var i := 0;
      while i < |streamOrder|
        invariant 0 <= i <= |streamOrder|
        invariant subscribers == ActiveSubscribers(streamOrder[..i], users, preferences)
      {
        var userId := streamOrder[i];
        SubscribersStep(streamOrder, i, users, preferences);
        if userId in preferences && FieldEquals(preferences[userId], "is_active", Bool(true)) && userId in users {
          var userData := users[userId];
          var prefData := preferences[userId];
          subscribers := subscribers + [Record(userId, userData, prefData).(isActive := Bool(true))];
        }
        i := i + 1;
      }
      assert streamOrder[..i] == streamOrder;
    }

    /** `get_users_due_for_newsletter`: the active documents of the given frequency that are
        due at `now` and whose user exists, in stream order; [] when the query's own store
        call raises (`storeFails`) or the scheduling rule raises on a streamed document. A
        user whose profile lookup raises (an id in `lookupFails`) is skipped. */
    method GetUsersDueForNewsletter(frequency: string, now: int, storeFails: bool, lookupFails: set<string>)
      returns (usersDue: seq<UserPreference>)
      ensures storeFails ==> usersDue == []
      ensures !storeFails ==>
                usersDue == match DueUsers(streamOrder, users, preferences, frequency, now, lookupFails)
                            case None => []
                            case Some(due) => due
    {
      if storeFails {
        return [];
      }
      usersDue := [];
      var i := 0;
      while i < |streamOrder|
        invariant 0 <= i <= |streamOrder|
        invariant forall k :: 0 <= k < i ==> !RaisesOn(preferences, frequency, streamOrder[k])
        invariant usersDue == Records(DueIds(streamOrder[..i], users, preferences, frequency, now, lookupFails), users, preferences)
      {
        var userId := streamOrder[i];
        DueIdsStep(streamOrder, i, users, preferences, frequency, now, lookupFails);
        ghost var before := DueIds(streamOrder[..i], users, preferences, frequency, now, lookupFails);
        if userId in preferences && FieldEquals(preferences[userId], "is_active", Bool(true))
          && FieldEquals(preferences[userId], "notification_frequency", Str(frequency))
        {
          if "last_newsletter_sent" !in preferences[userId] {
            assert RaisesOn(preferences, frequency, streamOrder[i]);
            return [];
          }
          var read := ReadLastSent(preferences[userId]["last_newsletter_sent"]);
          assert read == LastSentOf(preferences, userId);
          if read.Raises? {
            assert RaisesOn(preferences, frequency, streamOrder[i]);
            return [];
          }
          if IsDueForNewsletter(read.lastSent, frequency, now) {
            var userPref := GetUserPreferences(userId, userId in lookupFails);
            if userPref.Some? {
              RecordsSnoc(before, userId, users, preferences);
              usersDue := usersDue + [userPref.value];
            }
          }
        }
        i := i + 1;
      }
      assert streamOrder[..i] == streamOrder;
    }

    /** `update_user_preferences`: merge the supplied fields into the user's preference
        document, creating it if needed; false, and no change, when the store call raises. */
    method UpdateUserPreferences(userId: string, update: Doc, storeFails: bool) returns (ok: bool)
      requires Valid()
      modifies this
      ensures Valid()
      ensures ok == !storeFails
      ensures users == old(users)
      ensures ok ==> preferences == old(preferences)[userId := Merge(DocOr(old(preferences), userId), update)]
      ensures ok ==> streamOrder == if userId in old(preferences) then old(streamOrder) else old(streamOrder) + [userId]
      ensures !ok ==> preferences == old(preferences) && streamOrder == old(streamOrder)
    {
      if storeFails {
        return false;
      }
      if userId !in preferences {
        streamOrder := streamOrder + [userId];
      }
      preferences := preferences[userId := Merge(DocOr(preferences, userId), update)];
      ok := true;
    }

    /** `update_last_sent_timestamp`: set `last_newsletter_sent` to `now` in an existing
        preference document; false, and no change, when the document is missing (the store's
        update raises) or the store call raises. */
    method UpdateLastSentTimestamp(userId: string, now: int, storeFails: bool) returns (ok: bool)
      requires Valid()
      modifies this
      ensures Valid()
      ensures ok == (!storeFails && userId in old(preferences))
      ensures users == old(users) && streamOrder == old(streamOrder)
      ensures ok ==> preferences == old(preferences)[userId := old(preferences)[userId]["last_newsletter_sent" := Timestamp(now)]]
      ensures !ok ==> preferences == old(preferences)
    {
      if storeFails || userId !in preferences {
        return false;
      }
      preferences := preferences[userId := preferences[userId]["last_newsletter_sent" := Timestamp(now)]];
      ok := true;
    }
  }

  /** A partial merge (`set(..., merge=True)`): exactly the supplied fields are overwritten. */
  function Merge(doc: Doc, update: Doc): (r: Doc)
    ensures r.Keys == doc.Keys + update.Keys
    ensures forall key :: key in update ==> r[key] == update[key]
    ensures forall key :: key in doc && key !in update ==> r[key] == doc[key]
  {
    doc + update
  }

  // ---------------------------------------------------------------------------
  // Properties of the queries

  /** `get_active_subscribers` returns, in stream order, exactly the documents that are
      active and whose user exists, each as an active record of that user. */
  lemma ActiveSubscribersExactly(order: seq<string>, users: map<string, Doc>, prefs: map<string, Doc>)
    ensures |ActiveSubscribers(order, users, prefs)| <= |order|
    ensures forall k :: 0 <= k < |ActiveSubscribers(order, users, prefs)| ==>
              var r := ActiveSubscribers(order, users, prefs)[k];
              IsSubscriber(users, prefs, r.userId) && r.isActive == Bool(true) &&
              r.email == Get(users[r.userId], "email", Null) &&
              r.notificationFrequency == Get(prefs[r.userId], "notification_frequency", Str("weekly"))
    ensures forall id :: id in order && IsSubscriber(users, prefs, id) ==>
              exists k :: 0 <= k < |ActiveSubscribers(order, users, prefs)| && ActiveSubscribers(order, users, prefs)[k].userId == id
  {
    var ids := SubscriberIds(order, users, prefs);
    var r := ActiveSubscribers(order, users, prefs);
    forall id | id in order && IsSubscriber(users, prefs, id)
      ensures exists k :: 0 <= k < |r| && r[k].userId == id
    {
      FilterMembership(order, id => IsSubscriber(users, prefs, id), id);
      var k :| 0 <= k < |ids| && ids[k] == id;
      assert r[k].userId == id;
    }
  }

  /** With distinct ids in the stream, no user is returned twice. */
  lemma {:induction false} FilterKeepsDistinct(order: seq<string>, p: string -> bool)
    requires Distinct(order)
    ensures Distinct(Filter(order, p))
  {
    if order != [] {
      var init := order[..|order| - 1];
      assert Distinct(init);
      FilterKeepsDistinct(init, p);
      var last := order[|order| - 1];
      FilterMembership(init, p, last);
      assert last !in init;
    }
  }

  lemma ActiveSubscribersDistinct(order: seq<string>, users: map<string, Doc>, prefs: map<string, Doc>)
    requires Distinct(order)
    ensures forall i, j :: 0 <= i < j < |ActiveSubscribers(order, users, prefs)| ==>
              ActiveSubscribers(order, users, prefs)[i].userId != ActiveSubscribers(order, users, prefs)[j].userId
  {
    FilterKeepsDistinct(order, id => IsSubscriber(users, prefs, id));
  }

  /** When the scheduling rule raises on no streamed document, `get_users_due_for_newsletter`
      returns exactly the active, matching, due documents whose user exists, in stream order,
      each joined with its profile as `get_user_preferences` joins it. */
  lemma DueUsersExactly(order: seq<string>, users: map<string, Doc>, prefs: map<string, Doc>, frequency: string, now: int, lookupFails: set<string>)
    ensures DueUsers(order, users, prefs, frequency, now, lookupFails).None? <==>
            exists k :: 0 <= k < |order| && RaisesOn(prefs, frequency, order[k])
    ensures DueUsers(order, users, prefs, frequency, now, lookupFails).Some? ==>
              var due := DueUsers(order, users, prefs, frequency, now, lookupFails).value;
              |due| <= |order| &&
              (forall k :: 0 <= k < |due| ==>
                 IsDueUser(users, prefs, frequency, now, lookupFails, due[k].userId) &&
                 Some(due[k]) == PreferencesOf(users, prefs, due[k].userId) &&
                 due[k].isActive == Bool(true) && due[k].notificationFrequency == Str(frequency)) &&
              (forall id :: id in order && IsDueUser(users, prefs, frequency, now, lookupFails, id) ==>
                 exists k :: 0 <= k < |due| && due[k].userId == id)
  {
    if DueUsers(order, users, prefs, frequency, now, lookupFails).Some? {
      var due := DueUsers(order, users, prefs, frequency, now, lookupFails).value;
      var ids := DueIds(order, users, prefs, frequency, now, lookupFails);
      forall id | id in order && IsDueUser(users, prefs, frequency, now, lookupFails, id)
        ensures exists k :: 0 <= k < |due| && due[k].userId == id
      {
        FilterMembership(order, id => IsDueUser(users, prefs, frequency, now, lookupFails, id), id);
        var k :| 0 <= k < |ids| && ids[k] == id;
        assert due[k].userId == id;
      }
    }
  }

  /** A profile lookup that raises drops that user and no one else: the due ids are those
      of a run where every lookup answers, less the failed ones, in the same order. */
  lemma {:induction false} LookupFailuresOnlyDrop(order: seq<string>, users: map<string, Doc>, prefs: map<string, Doc>,
                                                  frequency: string, now: int, lookupFails: set<string>)
    ensures DueIds(order, users, prefs, frequency, now, lookupFails) ==
            Filter(DueIds(order, users, prefs, frequency, now, {}), id => id !in lookupFails)
  {
    if order != [] {
      var init, last := order[..|order| - 1], order[|order| - 1];
      LookupFailuresOnlyDrop(init, users, prefs, frequency, now, lookupFails);
      var tail := if IsDueUser(users, prefs, frequency, now, {}, last) then [last] else [];
      assert DueIds(order, users, prefs, frequency, now, {}) == DueIds(init, users, prefs, frequency, now, {}) + tail;
      FilterAppend(DueIds(init, users, prefs, frequency, now, {}), tail, id => id !in lookupFails);
      if tail != [] {
        assert tail[..0] == [];
      }
    }
  }

  /** A user whose send time was just recorded at `sent` is not returned by the due query
      for less than a day afterwards. */
  lemma MarkedUserNotDue(order: seq<string>, users: map<string, Doc>, prefs: map<string, Doc>,
                         id: string, sent: int, frequency: string, now: int, lookupFails: set<string>)
    requires id in prefs
    requires now < sent + SecondsPerDay
    ensures var marked := prefs[id := prefs[id]["last_newsletter_sent" := Timestamp(sent)]];
            !IsDueUser(users, marked, frequency, now, lookupFails, id)
  {
    JustSentNotDue(sent, frequency, now);
  }

  /** One active document of the requested frequency without a `last_newsletter_sent` field
      empties the whole result, whatever the other documents hold. */
  lemma MissingSendTimeEmptiesQuery(order: seq<string>, users: map<string, Doc>, prefs: map<string, Doc>,
                                    frequency: string, now: int, lookupFails: set<string>, id: string)
    requires id in order && IsCandidate(prefs, frequency, id)
    requires "last_newsletter_sent" !in prefs[id]
    ensures DueUsers(order, users, prefs, frequency, now, lookupFails) == None
  {
    var k :| 0 <= k < |order| && order[k] == id;
    assert RaisesOn(prefs, frequency, order[k]);
  }

  /** A profile with an e-mail and a name, and a preference document with sport preferences
      and a frequency but no send time or `is_active` field, read back as one record. */
  lemma StoredFieldsCarried(userId: string)
    ensures var users := map[userId := map["email" := Str("test@example.com"), "name" := Str("Test User")]];
            var prefs := map[userId := map["sport_preferences" := StrList(["basketball"]),
                                           "notification_frequency" := Str("weekly")]];
            var r := PreferencesOf(users, prefs, userId);
            r.Some? && r.value.email == Str("test@example.com") && r.value.name == Str("Test User") &&
            r.value.sportPreferences == StrList(["basketball"]) &&
            r.value.notificationFrequency == Str("weekly") &&
            r.value.lastNewsletterSent == Null && r.value.isActive == Bool(true)
  {
  }

  /** The record of a preference document without a 'is_active' field defaults to active,
      and one without a frequency defaults to weekly. */
  lemma RecordDefaults(userId: string, userDoc: Doc)
    ensures var r := Record(userId, userDoc, map[]);
            r.isActive == Bool(true) && r.notificationFrequency == Str("weekly") &&
            r.sportPreferences == StrList([]) && r.lastNewsletterSent == Null
  {
  }
}
