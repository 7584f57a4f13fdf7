/**
  Consent at the edge: updates in a batch are recorded first, then every event is cut down to what its device
  allows.
 */
module Consent {
  import opened Common

  datatype Purpose = Analytics | Attribution | Advertising
  datatype Mark = Unknown | Granted | Denied
  datatype Mode = Permissive | Strict

  type States = map<Purpose, Mark>

  /** A cached record, with the time it lapses. */
  datatype Entry = Entry(states: States, expiresAt: int)

  const CACHE_TTL: nat := 300

  datatype Event = Event(name: string, device: string, properties: map<string, string>,
                         clickId: Option<string>, ipHash: Option<string>, rest: string)

  /** An explicit answer decides; without one the app's mode does. */
  predicate Allows(states: States, mode: Mode, p: Purpose) {
    if p in states && states[p] == Denied then false
    else if p in states && states[p] == Granted then true
    else mode == Permissive
  }

  function KeyOf(p: Purpose): string {
    match p case Analytics => "analytics" case Attribution => "attribution" case Advertising => "advertising"
  }

  function MarkOf(value: string): Option<Mark> {
    if value == "unknown" then Some(Unknown)
    else if value == "granted" then Some(Granted)
    else if value == "denied" then Some(Denied)
    else None
  }

  /** What an update says about a purpose; unknown purposes and answers are ignored. */
  function Says(e: Event, p: Purpose): Option<Mark> {
    if KeyOf(p) in e.properties then MarkOf(e.properties[KeyOf(p)]) else None
  }

  function Reported(e: Event): States {
    map p: Purpose | Says(e, p).Some? :: Says(e, p).value
  }

  /** Lower case, letters and digits only. */
  function CanonicalName(name: string): string {
    if name == [] then []
    else
      var c := if 'A' <= name[0] <= 'Z' then name[0] - 'A' + 'a' else name[0];
      (if 'a' <= c <= 'z' || '0' <= c <= '9' then [c] else []) + CanonicalName(name[1..])
  }

  predicate IsUpdate(e: Event) { CanonicalName(e.name) == "consentupdate" }

  function Current(entries: map<string, Entry>, d: string, now: int): States {
    if d in entries && now < entries[d].expiresAt then entries[d].states else map[]
  }

  /** The record after one update: earlier answers kept, new ones on top, and its life starts again. */
  function Updated(entries: map<string, Entry>, e: Event, now: int): map<string, Entry> {
    if IsUpdate(e) && Reported(e) != map[]
    then entries[e.device := Entry(Current(entries, e.device, now) + Reported(e), now + CACHE_TTL)]
    else entries
  }

  function RecordedAll(entries: map<string, Entry>, events: seq<Event>, now: int): map<string, Entry> {
    if events == [] then entries
    else Updated(RecordedAll(entries, events[..|events| - 1], now), events[|events| - 1], now)
  }

  const ATTRIBUTION_FIELDS: set<string> := {"device_hash", "install_referrer", "click_id"}

  /** An event as it leaves when its device's states are `states`. */
  function Minimised(e: Event, states: States, mode: Mode): Event {
    if Allows(states, mode, Attribution) then e
    else e.(properties := e.properties - ATTRIBUTION_FIELDS, clickId := None, ipHash := None)
  }

  class ConsentGate {
    var entries: map<string, Entry>

    /** Read at one instant, write at another, with nothing in between. */
    method Record(d: string, states: States, readAt: int, now: int)
      modifies this
      ensures entries == old(entries)[d := Entry(Current(old(entries), d, readAt) + states, now + CACHE_TTL)]
      ensures forall t :: Current(entries, d, t)
                          == if t < now + CACHE_TTL then Current(old(entries), d, readAt) + states else map[]
      ensures forall e, t | e != d :: Current(entries, e, t) == Current(old(entries), e, t)
    {
      var merged := if d in entries && readAt < entries[d].expiresAt then entries[d].states else map[];
      entries := entries[d := Entry(merged + states, now + CACHE_TTL)];
    }

    method Forget(d: string)
      modifies this
      ensures entries == old(entries) - {d}
    {
      entries := entries - {d};
    }

    /** All updates of the batch in order, wherever they sit in it. */
    method RecordUpdates(events: array<Event>, now: int)
      modifies this
      ensures entries == RecordedAll(old(entries), events[..], now)
    {
      for i := 0 to events.Length
        invariant entries == RecordedAll(old(entries), events[..i], now)
      {
        assert events[..i + 1][..i] == events[..i];
        if IsUpdate(events[i]) {
          var states := Reported(events[i]);
          if states != map[] { Record(events[i].device, states, now, now); }
        }
      }
      assert events[..events.Length] == events[..];
    }

    /** Record, then minimise every event in place under its device's merged state. */
    method ApplyConsent(events: array<Event>, now: int, mode: Mode)
      modifies this, events
      ensures entries == RecordedAll(old(entries), old(events[..]), now)
      ensures forall i | 0 <= i < events.Length ::
                events[i] == Minimised(old(events[i]), Current(entries, old(events[i].device), now), mode)
    {
      RecordUpdates(events, now);
      ghost var recorded := entries;
      for i := 0 to events.Length
        invariant entries == recorded
        invariant forall j | 0 <= j < i ::
                    events[j] == Minimised(old(events[j]), Current(entries, old(events[j].device), now), mode)
        invariant forall j | i <= j < events.Length :: events[j] == old(events[j])
      {
        var e := events[i];
        var states := Current(entries, e.device, now);
        if !Allows(states, mode, Attribution) {
          e := e.(properties := e.properties - ATTRIBUTION_FIELDS, clickId := None, ipHash := None);
        }
        events[i] := e;
      }
    }
  }

  // --- what an update is and what it says ---

  lemma {:induction false} NameConcat(a: string, b: string)
    ensures CanonicalName(a + b) == CanonicalName(a) + CanonicalName(b)
  {
    if a == [] {
      assert a + b == b;
    } else {
      assert (a + b)[1..] == a[1..] + b;
      NameConcat(a[1..], b);
    }
  }

  lemma NameWith(a: string, c: char, b: string)
    ensures CanonicalName(a + [c] + b) == CanonicalName(a) + CanonicalName([c]) + CanonicalName(b)
  {
    NameConcat(a + [c], b);
    NameConcat(a, [c]);
  }

  predicate LowerOrDigit(c: char) { 'a' <= c <= 'z' || '0' <= c <= '9' }

  /** A name of lower-case letters and digits stands for itself. */
  lemma {:induction false} CanonicalStands(name: string)
    requires forall i | 0 <= i < |name| :: LowerOrDigit(name[i])
    ensures CanonicalName(name) == name
  {
    if name != [] {
      CanonicalStands(name[1..]);
      assert name == [name[0]] + name[1..];
    }
  }

  /** Wherever it stands in a name, a character that is neither letter nor digit does not matter ... */
  lemma SeparatorsDoNotMatter(a: string, c: char, b: string)
    requires !LowerOrDigit(c) && !('A' <= c <= 'Z')
    ensures CanonicalName(a + [c] + b) == CanonicalName(a + b)
  {
    NameWith(a, c, b);
    NameConcat(a, b);
    assert CanonicalName([c]) == [];
  }

  /** ... and neither does the case of a letter. */
  lemma CaseDoesNotMatter(a: string, upper: char, lower: char, b: string)
    requires 'A' <= upper <= 'Z' && lower as int == upper as int + 32
    ensures CanonicalName(a + [upper] + b) == CanonicalName(a + [lower] + b)
  {
    NameWith(a, upper, b);
    NameWith(a, lower, b);
    assert CanonicalName([upper]) == [lower] == CanonicalName([lower]);
  }

  predicate Separator(s: string) {
    s == [] || (|s| == 1 && !LowerOrDigit(s[0]) && !('A' <= s[0] <= 'Z'))
  }

  lemma SeparatorVanishes(s: string)
    requires Separator(s)
    ensures CanonicalName(s) == []
  {
    if s != [] { assert s[1..] == []; }
  }

  lemma TwoWords(a: string, separator: string, b: string)
    requires Separator(separator)
    requires (forall i | 0 <= i < |a| :: LowerOrDigit(a[i])) && forall i | 0 <= i < |b| :: LowerOrDigit(b[i])
    ensures CanonicalName(a + separator + b) == a + b
  {
    NameConcat(a + separator, b);
    NameConcat(a, separator);
    CanonicalStands(a);
    CanonicalStands(b);
    SeparatorVanishes(separator);
    assert a + [] == a;
  }

  /** The usual spelling of the update's name, with any one separator or none. */
  lemma UpdateIsRecognised(e: Event, separator: string)
    requires Separator(separator) && e.name == "consent" + separator + "update"
    ensures IsUpdate(e)
  {
    TwoWords("consent", separator, "update");
  }

  /** An update says of each purpose what its property of that name says, if that is one of three words. */
  lemma SaysInWords(e: Event, p: Purpose, name: string)
    requires (p == Analytics && name == "analytics") || (p == Attribution && name == "attribution")
             || (p == Advertising && name == "advertising")
    ensures Says(e, p) == Some(Denied) <==> name in e.properties && e.properties[name] == "denied"
    ensures Says(e, p) == Some(Granted) <==> name in e.properties && e.properties[name] == "granted"
    ensures Says(e, p) == Some(Unknown) <==> name in e.properties && e.properties[name] == "unknown"
  {
  }

  // --- what the merged state is ---

  /** The `i`th event is the batch's last word from `d` on purpose `p`. */
  ghost predicate LastWord(events: seq<Event>, i: nat, d: string, p: Purpose) {
    && i < |events| && Speaks(events[i], d, p)
    && forall j | i < j < |events| :: !Speaks(events[j], d, p)
  }

  predicate Speaks(e: Event, d: string, p: Purpose) { IsUpdate(e) && e.device == d && Says(e, p).Some? }

  lemma OneUpdate(entries: map<string, Entry>, e: Event, now: int, d: string, p: Purpose)
    ensures var before, after := Current(entries, d, now), Current(Updated(entries, e, now), d, now);
            if Speaks(e, d, p) then p in after && Some(after[p]) == Says(e, p)
            else (p in after <==> p in before) && (p in after ==> after[p] == before[p])
  {
    assert Speaks(e, d, p) ==> p in Reported(e);
  }

  /** Nobody in the batch spoke for the device on the purpose: what was known before still is. */
  lemma {:induction false} SilenceKeeps(entries: map<string, Entry>, events: seq<Event>, now: int, d: string,
                                        p: Purpose)
    requires forall i | 0 <= i < |events| :: !Speaks(events[i], d, p)
    ensures var before, after := Current(entries, d, now), Current(RecordedAll(entries, events, now), d, now);
            (p in after <==> p in before) && (p in after ==> after[p] == before[p])
  {
    if events != [] {
      var n := |events| - 1;
      SilenceKeeps(entries, events[..n], now, d, p);
      OneUpdate(RecordedAll(entries, events[..n], now), events[n], now, d, p);
    }
  }

  /** Otherwise the last word in the batch stands. */
  lemma {:induction false} LastWordStands(entries: map<string, Entry>, events: seq<Event>, now: int, i: nat, d: string,
                                          p: Purpose)
    requires LastWord(events, i, d, p)
    ensures var after := Current(RecordedAll(entries, events, now), d, now);
            p in after && Some(after[p]) == Says(events[i], p)
  {
    var n := |events| - 1;
    OneUpdate(RecordedAll(entries, events[..n], now), events[n], now, d, p);
    if i < n {
      assert !Speaks(events[n], d, p);
      assert forall j | i < j < n :: events[..n][j] == events[j];
      LastWordStands(entries, events[..n], now, i, d, p);
    }
  }

  /** Everything the batch must not carry for a device that refuses attribution. */
  predicate CarriesNothing(e: Event) {
    && e.clickId.None? && e.ipHash.None?
    && "device_hash" !in e.properties && "install_referrer" !in e.properties && "click_id" !in e.properties
  }

  /** Apart from those fields the two events are the same. */
  predicate SameOtherwise(e: Event, e': Event) {
    && e'.name == e.name && e'.device == e.device && e'.rest == e.rest
    && e'.properties.Keys <= e.properties.Keys
    && (forall k | k in e.properties && k != "device_hash" && k != "install_referrer" && k != "click_id" ::
        k in e'.properties && e'.properties[k] == e.properties[k])
  }

  /**
    If a device's last word in the batch refuses attribution, every one of its events leaves without
    the identifiers and otherwise unchanged, even those that came before the refusal. If it grants, every
    one leaves unchanged.
   */
  lemma LastWordDecides(entries: map<string, Entry>, events: seq<Event>, now: int, mode: Mode, i: nat, k: nat)
    requires k < |events| && LastWord(events, i, events[k].device, Attribution)
    ensures var e' := Minimised(events[k], Current(RecordedAll(entries, events, now), events[k].device, now), mode);
            && (Says(events[i], Attribution) == Some(Denied) ==> CarriesNothing(e') && SameOtherwise(events[k], e'))
            && (Says(events[i], Attribution) == Some(Granted) ==> e' == events[k])
  {
    LastWordStands(entries, events, now, i, events[k].device, Attribution);
  }

  /** A device the batch is silent about is treated by what was known before. */
  lemma SilentDeviceAsBefore(entries: map<string, Entry>, events: seq<Event>, now: int, mode: Mode, k: nat)
    requires k < |events| && forall i | 0 <= i < |events| :: !Speaks(events[i], events[k].device, Attribution)
    ensures var e' := Minimised(events[k], Current(RecordedAll(entries, events, now), events[k].device, now), mode);
            e' == Minimised(events[k], Current(entries, events[k].device, now), mode)
  {
    SilenceKeeps(entries, events, now, events[k].device, Attribution);
  }
}
