/** The notification handler: what it decodes, and which duplicates it drops. */
module Notifications {
  import opened Outcomes

  // ----- Duplicates -----

  datatype NotificationKey = NotificationKey(table: string, operation: string, inputHash: string)

  // Thirty seconds, in nanoseconds.
  const DEDUP_WINDOW: nat := 30_000_000_000

  /**
   The keys stored, each with the moment it was stored; a timer deletes it no earlier than one window later.
   */
  class Deduplicator {
    var stored: map<NotificationKey, nat>

    constructor ()
      ensures stored == map[]
    {
      stored := map[];
    }

    method IsDuplicate(key: NotificationKey, now: nat) returns (duplicate: bool)
      modifies this
      ensures duplicate <==> key in old(stored)
      ensures stored == After(old(stored), Arrive(key), now)
      ensures stored == if key in old(stored) then old(stored) else old(stored)[key := now]
    {
      if key in stored {
        return true;
      }
      stored := stored[key := now];
      return false;
    }

    method Expire(key: NotificationKey, now: nat)
      requires key in stored && now >= stored[key] + DEDUP_WINDOW
      modifies this
      ensures stored == After(old(stored), Fire(key), now) == old(stored) - {key}
    {
      stored := stored - {key};
    }
  }

  datatype Event = Arrive(key: NotificationKey) | Fire(key: NotificationKey)
  datatype Timed = Timed(event: Event, at: nat)

  function After(stored: map<NotificationKey, nat>, event: Event, now: nat): map<NotificationKey, nat> {
    match event
    case Arrive(key) => if key in stored then stored else stored[key := now]
    case Fire(key) => stored - {key}
  }

  // Time does not go back, and timers fire when they are due.
  predicate IsHistory(stored: map<NotificationKey, nat>, events: seq<Timed>, now: nat)
    decreases |events|
  {
    events == [] ||
    (&& now <= events[0].at
     && (events[0].event.Fire? ==>
           events[0].event.key in stored && events[0].at >= stored[events[0].event.key] + DEDUP_WINDOW)
     && IsHistory(After(stored, events[0].event, events[0].at), events[1..], events[0].at))
  }

  function StoredBefore(stored: map<NotificationKey, nat>, events: seq<Timed>, i: nat): map<NotificationKey, nat>
    requires i <= |events|
    decreases i
  {
    if i == 0 then stored
    else StoredBefore(After(stored, events[0].event, events[0].at), events[1..], i - 1)
  }

  // The i-th event is a notification that is passed on.
  predicate IsPassed(stored: map<NotificationKey, nat>, events: seq<Timed>, i: nat, key: NotificationKey) {
    i < |events| && events[i].event == Arrive(key) && key !in StoredBefore(stored, events, i)
  }

  // While a key stays stored, its moment stays; before it is free again a window has passed.
  lemma {:induction false} FreedAfterWindow(stored: map<NotificationKey, nat>, events: seq<Timed>, now: nat,
                                            key: NotificationKey, j: nat)
    requires IsHistory(stored, events, now) && key in stored && IsPassed(stored, events, j, key)
    ensures events[j].at >= stored[key] + 30_000_000_000
    decreases j
  {
    var next := After(stored, events[0].event, events[0].at);
    if key in next {
      FreedAfterWindow(next, events[1..], events[0].at, key, j - 1);
    } else {
      LaterIsLater(next, events[1..], events[0].at, j - 1);
    }
  }

  lemma {:induction false} LaterIsLater(stored: map<NotificationKey, nat>, events: seq<Timed>, now: nat, j: nat)
    requires IsHistory(stored, events, now) && j < |events|
    ensures now <= events[j].at
    decreases j
  {
    if j > 0 {
      LaterIsLater(After(stored, events[0].event, events[0].at), events[1..], events[0].at, j - 1);
    }
  }

  // The window is no longer than that either: with a timer that fires when it is due, the key is free again.
  lemma FreeAfterThirtySeconds(key: NotificationKey, start: nat)
    ensures var events := [Timed(Arrive(key), start), Timed(Fire(key), start + 30_000_000_000),
                           Timed(Arrive(key), start + 30_000_000_000)];
            IsHistory(map[], events, start) && IsPassed(map[], events, 0, key) && IsPassed(map[], events, 2, key)
  {
    var empty: map<NotificationKey, nat> := map[];
    var first, fire := Timed(Arrive(key), start), Timed(Fire(key), start + 30_000_000_000);
    var second := Timed(Arrive(key), start + 30_000_000_000);
    var events := [first, fire, second];
    assert events[1..] == [fire, second] && events[1..][1..] == [second];
    var stored := After(empty, first.event, start);
    assert stored[key] == start;
    var freed := After(stored, fire.event, fire.at);
    assert key !in freed;
    var none: seq<Timed> := [];
    assert [second][1..] == none;
    assert IsHistory(freed, [second], fire.at);
    assert IsHistory(stored, [fire, second], start);
    assert StoredBefore(empty, events, 2) == StoredBefore(stored, [fire, second], 1)
        == StoredBefore(freed, [second], 0) == freed;
  }

  // Two notifications with the same key that are both passed on are at least a window apart.
  lemma {:induction false} PassedAreApart(stored: map<NotificationKey, nat>, events: seq<Timed>, now: nat,
                                          key: NotificationKey, i: nat, j: nat)
    requires IsHistory(stored, events, now) && i < j
    requires IsPassed(stored, events, i, key) && IsPassed(stored, events, j, key)
    ensures events[j].at >= events[i].at + 30_000_000_000
    decreases i
  {
    var next := After(stored, events[0].event, events[0].at);
    if i == 0 {
      FreedAfterWindow(next, events[1..], events[0].at, key, j - 1);
    } else {
      PassedAreApart(next, events[1..], events[0].at, key, i - 1, j - 1);
    }
  }

  // ----- The handler -----

  datatype Json = JNull | JText(text: string) | JNumber(value: int) | JOther | JObject(fields: map<string, Json>)

  // A missing or null string field decodes to the empty string; another type is an error.
  function TextField(fields: map<string, Json>, name: string): Result<string> {
    if name !in fields || fields[name].JNull? then Success("")
    else if fields[name].JText? then Success(fields[name].text)
    else Failure
  }

  datatype NotificationPayload = NotificationPayload(
    table: string, operation: string, jobId: string, inputHash: string)

  const TEXT_FIELDS := {"title", "jobId", "table", "severity", "operation", "message", "inputHash"}

  function DecodeNotification(json: Json): Result<NotificationPayload> {
    if !json.JObject? then (if json.JNull? then Success(NotificationPayload("", "", "", "")) else Failure)
    else if (exists name :: name in TEXT_FIELDS && TextField(json.fields, name).Failure?)
            || ("timestamp" in json.fields && !json.fields["timestamp"].JNumber? && !json.fields["timestamp"].JNull?)
    then Failure
    else
      Success(NotificationPayload(TextField(json.fields, "table").value, TextField(json.fields, "operation").value,
                                  TextField(json.fields, "jobId").value, TextField(json.fields, "inputHash").value))
  }

  // The payload is no JSON, or none that decodes.
  predicate NotificationFails(payload: Option<Json>) {
    payload.None? || DecodeNotification(payload.value).Failure?
  }

  function KeyOf(notification: NotificationPayload): NotificationKey {
    NotificationKey(notification.table, notification.operation, notification.inputHash)
  }

  // A payload that fails changes nothing; any other is passed on exactly if its key is not stored.
  method ProcessNotification(dedup: Deduplicator, payload: Option<Json>, now: nat)
    returns (failed: bool, passedOn: bool)
    modifies dedup
    ensures failed <==> NotificationFails(payload)
    ensures failed ==> !passedOn && dedup.stored == old(dedup.stored)
    ensures !failed ==>
      var key := KeyOf(DecodeNotification(payload.value).value);
      && passedOn == (key !in old(dedup.stored))
      && dedup.stored == After(old(dedup.stored), Arrive(key), now)
  {
    if payload.None? {
      return true, false;
    }
    var notification := DecodeNotification(payload.value);
    if notification.Failure? {
      return true, false;
    }
    var duplicate := dedup.IsDuplicate(KeyOf(notification.value), now);
    return false, !duplicate;
  }

  // The payload a notification is sent as.
  function Encode(title: string, jobId: string, table: string, severity: string, operation: string, message: string,
                  inputHash: string, timestamp: nat): Json {
    JObject(map["title" := JText(title), "jobId" := JText(jobId), "table" := JText(table),
                "severity" := JText(severity), "operation" := JText(operation), "message" := JText(message),
                "inputHash" := JText(inputHash), "timestamp" := JNumber(timestamp)])
  }

  // Notifications survive their encoding, key included.
  lemma NotificationRoundTrip(title: string, jobId: string, table: string, severity: string, operation: string,
                              message: string, inputHash: string, timestamp: nat)
    ensures DecodeNotification(Encode(title, jobId, table, severity, operation, message, inputHash, timestamp))
         == Success(NotificationPayload(table, operation, jobId, inputHash))
  {
    var fields := Encode(title, jobId, table, severity, operation, message, inputHash, timestamp).fields;
    forall name | name in TEXT_FIELDS
      ensures TextField(fields, name).Success?
    {
      assert name in fields;
    }
  }
}
