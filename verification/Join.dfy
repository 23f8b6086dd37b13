/** The symmetric streaming join over two keyed streams, and its relation to the relational join. */
module Join {
  import opened Types
  import opened Text

  datatype Key = Key(window: string, account: string)

  /** One record of a stream: its key and what it carries (an action, or a tier). */
  datatype Entry = Entry(key: Key, value: string)

  datatype Item = Event(entry: Entry) | Profile(entry: Entry)

  datatype Row = Row(key: Key, action: string, tier: string)

  datatype State = State(events: map<Key, string>, profiles: map<Key, string>)

  datatype JoinError = UnexpectedInput(port: PortId) | FieldCount(found: nat) | WrongKind(payload: string)

  // ---- Payload texts --------------------------------------------------------------

  function PayloadFields(payload: string): (r: Result<seq<string>, JoinError>)
    ensures r.Ok? ==> |r.value| == 4 && Text.Join(r.value, ':') == payload
    ensures r.Ok? <==> |Split(payload, ':')| == 4
  {
    var fields := Split(payload, ':');
    JoinSplit(payload, ':');
    if |fields| == 4 then Ok(fields) else Err(FieldCount(|fields|))
  }

  function ParseEntry(kind: string, payload: string): Result<Entry, JoinError> {
    match PayloadFields(payload)
    case Err(e) => Err(e)
    case Ok(f) => if f[0] != kind then Err(WrongKind(payload)) else Ok(Entry(Key(f[1], f[2]), f[3]))
  }

  function EntryFields(kind: string, e: Entry): seq<string> {
    [kind, e.key.window, e.key.account, e.value]
  }

  function EntryText(kind: string, e: Entry): string {
    Text.Join(EntryFields(kind, e), ':')
  }

  function RowText(r: Row): string {
    Text.Join(["joined", r.key.window, r.key.account, r.action, r.tier], ':')
  }

  predicate Plain(e: Entry) {
    ':' !in e.key.window && ':' !in e.key.account && ':' !in e.value
  }

  /** Parsing is exactly the inverse of printing: the payloads accepted are those of colon-free entries. */
  lemma ParseInvertsPrint(kind: string, payload: string, e: Entry)
    requires ':' !in kind
    ensures ParseEntry(kind, payload) == Ok(e) <==> Plain(e) && payload == EntryText(kind, e)
  {
    if Plain(e) && payload == EntryText(kind, e) {
      SplitJoin(EntryFields(kind, e), ':');
    }
    if ParseEntry(kind, payload) == Ok(e) {
      JoinSplit(payload, ':');
      var f := Split(payload, ':');
      assert f == EntryFields(kind, e);
      assert f[1] in f && f[2] in f && f[3] in f;
    }
  }

  /** What an arrival means to the join. */
  function ParseArrival(port: PortId, payload: string): Result<Item, JoinError> {
    if port == "events" then
      match ParseEntry("event", payload) case Ok(e) => Ok(Event(e)) case Err(x) => Err(x)
    else if port == "profiles" then
      match ParseEntry("profile", payload) case Ok(e) => Ok(Profile(e)) case Err(x) => Err(x)
    else Err(UnexpectedInput(port))
  }

  // ---- The join as a fold ---------------------------------------------------------

  /** An arrival meets its pending partner, or becomes pending and replaces an older one with its key. */
  function Next(st: State, item: Item): State {
    var k := item.entry.key;
    match item
    case Event(e) =>
      if k in st.profiles then st.(profiles := st.profiles - {k}) else st.(events := st.events[k := e.value])
    case Profile(e) =>
      if k in st.events then st.(events := st.events - {k}) else st.(profiles := st.profiles[k := e.value])
  }

  function RowsOf(st: State, item: Item): seq<Row> {
    var k := item.entry.key;
    match item
    case Event(e) => if k in st.profiles then [Row(k, e.value, st.profiles[k])] else []
    case Profile(e) => if k in st.events then [Row(k, st.events[k], e.value)] else []
  }

  const EMPTY: State := State(map[], map[])

  function From(st: State, items: seq<Item>): State {
    if items == [] then st else Next(From(st, items[..|items| - 1]), items[|items| - 1])
  }

  function After(items: seq<Item>): State {
    From(EMPTY, items)
  }

  function Rows(items: seq<Item>): seq<Row> {
    if items == [] then []
    else Rows(items[..|items| - 1]) + RowsOf(After(items[..|items| - 1]), items[|items| - 1])
  }

  // ---- The stateful join ----------------------------------------------------------

  class JoinState {
    var events: map<Key, string>
    var profiles: map<Key, string>

    function Value(): State
      reads this
    {
      State(events, profiles)
    }

    constructor ()
      ensures Value() == EMPTY
    {
      events, profiles := map[], map[];
    }

    method AcceptEvent(payload: string) returns (r: Result<Option<Row>, JoinError>)
      modifies this
      ensures Accepted(old(Value()), ParseArrival("events", payload), Value(), r)
    {
      var parsed := ParseEntry("event", payload);
      if parsed.Err? {
        return Err(parsed.error);
      }
      var e := parsed.value;
      if e.key in profiles {
        var tier := profiles[e.key];
        profiles := profiles - {e.key};
        return Ok(Some(Row(e.key, e.value, tier)));
      }
      events := events[e.key := e.value];
      return Ok(None);
    }

    method AcceptProfile(payload: string) returns (r: Result<Option<Row>, JoinError>)
      modifies this
      ensures Accepted(old(Value()), ParseArrival("profiles", payload), Value(), r)
    {
      var parsed := ParseEntry("profile", payload);
      if parsed.Err? {
        return Err(parsed.error);
      }
      var e := parsed.value;
      if e.key in events {
        var action := events[e.key];
        events := events - {e.key};
        return Ok(Some(Row(e.key, action, e.value)));
      }
      profiles := profiles[e.key := e.value];
      return Ok(None);
    }

    method Accept(port: PortId, payload: string) returns (r: Result<Option<Row>, JoinError>)
      modifies this
      ensures Accepted(old(Value()), ParseArrival(port, payload), Value(), r)
    {
      if port == "events" {
        r := AcceptEvent(payload);
      } else if port == "profiles" {
        r := AcceptProfile(payload);
      } else {
        r := Err(UnexpectedInput(port));
      }
    }
  }

  /** One arrival: an error changes nothing; an item moves the state on and yields its row, if any. */
  predicate Accepted(before: State, arrival: Result<Item, JoinError>, now: State, r: Result<Option<Row>, JoinError>) {
    match arrival
    case Err(e) => r == Err(e) && now == before
    case Ok(item) =>
      && now == Next(before, item)
      && r.Ok?
      && (if r.value.Some? then [r.value.value] else []) == RowsOf(before, item)
  }

  // ---- The join node --------------------------------------------------------------

  /**
   What one turn of the node's loop meets: a packet, whose payload may not be text, and whether sending a
   row for it would fail; or a receive that fails.
   */
  datatype Arrival = Arrived(port: PortId, payload: Option<string>, sendFails: bool) | ReceiveFails

  /** Why the loop stops before its inputs are closed. */
  datatype Stop = NotText | BadPayload(error: JoinError) | RowNotSent | NothingReceived

  predicate IsItem(a: Arrival, item: Item) {
    a.Arrived? && a.payload.Some? && ParseArrival(a.port, a.payload.value) == Ok(item)
  }

  predicate Parsed(arrivals: seq<Arrival>, items: seq<Item>) {
    |items| <= |arrivals| && forall i | 0 <= i < |items| :: IsItem(arrivals[i], items[i])
  }

  /** The item completes a row that cannot be sent. */
  predicate Lost(arrivals: seq<Arrival>, items: seq<Item>, i: nat)
    requires i < |items| <= |arrivals|
  {
    arrivals[i].Arrived? && arrivals[i].sendFails && RowsOf(After(items[..i]), items[i]) != []
  }

  predicate NothingLost(arrivals: seq<Arrival>, items: seq<Item>, n: int)
    requires n <= |items| <= |arrivals|
  {
    forall i | 0 <= i < n :: !Lost(arrivals, items, i)
  }

  /** The arrival makes the loop stop before it is taken in. */
  predicate Refused(a: Arrival, why: Stop) {
    match why
    case NothingReceived => a.ReceiveFails?
    case NotText => a.Arrived? && a.payload.None?
    case BadPayload(e) => a.Arrived? && a.payload.Some? && ParseArrival(a.port, a.payload.value) == Err(e)
    case RowNotSent => false
  }

  /** The loop stopped at the first arrival that made it stop, for the reason it reports. */
  predicate Explained(arrivals: seq<Arrival>, items: seq<Item>, stop: Option<Stop>)
    requires |items| <= |arrivals|
  {
    var n := |items|;
    if stop == Some(RowNotSent) then n > 0 && NothingLost(arrivals, items, n - 1) && Lost(arrivals, items, n - 1)
    else
      && NothingLost(arrivals, items, n)
      && if stop.None? then n == |arrivals| else n < |arrivals| && Refused(arrivals[n], stop.value)
  }

  lemma {:induction false} Appended(items: seq<Item>, item: Item)
    ensures After(items + [item]) == Next(After(items), item)
    ensures Rows(items + [item]) == Rows(items) + RowsOf(After(items), item)
  {
    assert (items + [item])[..|items|] == items;
  }

  lemma {:induction false} StreamAppended(items: seq<Item>, item: Item)
    ensures EventsOf(items + [item]) == if item.Event? then EventsOf(items) + [item.entry] else EventsOf(items)
    ensures ProfilesOf(items + [item]) == if item.Event? then ProfilesOf(items) else ProfilesOf(items) + [item.entry]
  {
    assert (items + [item])[..|items|] == items;
  }

  lemma LoopGrows(arrivals: seq<Arrival>, items: seq<Item>, item: Item)
    requires Parsed(arrivals, items) && NothingLost(arrivals, items, |items|)
    requires |items| < |arrivals| && IsItem(arrivals[|items|], item)
    ensures Parsed(arrivals, items + [item]) && NothingLost(arrivals, items + [item], |items|)
    ensures Lost(arrivals, items + [item], |items|) <==>
      arrivals[|items|].sendFails && RowsOf(After(items), item) != []
  {
    var items' := items + [item];
    forall i | 0 <= i <= |items| ensures items'[..i] == items[..i] {
    }
    assert items'[..|items|] == items;
    forall i | 0 <= i < |items| ensures !Lost(arrivals, items', i) {
      assert !Lost(arrivals, items, i);
    }
  }

  lemma RowTextsGrow(items: seq<Item>, item: Item, row: Option<Row>)
    requires (if row.Some? then [row.value] else []) == RowsOf(After(items), item)
    ensures After(items + [item]) == Next(After(items), item)
    ensures
      var before := Texts(Rows(items));
      Texts(Rows(items + [item])) == if row.Some? then before + [RowText(row.value)] else before
  {
    Appended(items, item);
    if row.Some? {
      TextsConcat(Rows(items), [row.value]);
    } else {
      assert Rows(items) + [] == Rows(items);
    }
  }

  /**
   The join node's loop: the rows sent are those of the items taken in, but for the last one when that
   could not be sent; what is left pending; and what stopped the loop.
   */
  method JoinWindow(arrivals: seq<Arrival>)
    returns (joined: seq<string>, unmatched: State, stop: Option<Stop>, items: seq<Item>)
    ensures Parsed(arrivals, items) && Explained(arrivals, items, stop)
    ensures joined == Texts(Rows(if stop == Some(RowNotSent) then items[..|items| - 1] else items))
    ensures unmatched == After(items)
  {
    var state := new JoinState();
    joined, items := [], [];
    for i := 0 to |arrivals|
      invariant |items| == i && Parsed(arrivals, items) && NothingLost(arrivals, items, i)
      invariant state.Value() == After(items)
      invariant joined == Texts(Rows(items))
    {
      if arrivals[i].ReceiveFails? {
        return joined, state.Value(), Some(NothingReceived), items;
      }
      if arrivals[i].payload.None? {
        return joined, state.Value(), Some(NotText), items;
      }
      var r := state.Accept(arrivals[i].port, arrivals[i].payload.value);
      if r.Err? {
        return joined, state.Value(), Some(BadPayload(r.error)), items;
      }
      var item := ParseArrival(arrivals[i].port, arrivals[i].payload.value).value;
      LoopGrows(arrivals, items, item);
      RowTextsGrow(items, item, r.value);
      if r.value.Some? {
        if arrivals[i].sendFails {
          assert (items + [item])[..i] == items;
          return joined, state.Value(), Some(RowNotSent), items + [item];
        }
        joined := joined + [RowText(r.value.value)];
      }
      items := items + [item];
    }
    return joined, state.Value(), None, items;
  }

  function Texts(rows: seq<Row>): seq<string> {
    seq(|rows|, i requires 0 <= i < |rows| => RowText(rows[i]))
  }

  lemma TextsConcat(a: seq<Row>, b: seq<Row>)
    ensures Texts(a + b) == Texts(a) + Texts(b)
  {
  }

  // ---- The two pending maps never share a key -------------------------------------

  ghost predicate Disjoint(st: State) {
    forall k | k in st.events :: k !in st.profiles
  }

  /** After any arrivals, repeated keys included, no key is pending on both sides. */
  lemma {:induction false} PendingStayDisjoint(items: seq<Item>)
    ensures Disjoint(After(items))
  {
    if items != [] {
      PendingStayDisjoint(items[..|items| - 1]);
    }
  }

  // ---- The relational join --------------------------------------------------------

  function EventsOf(items: seq<Item>): seq<Entry> {
    if items == [] then []
    else
      var before, last := EventsOf(items[..|items| - 1]), items[|items| - 1];
      if last.Event? then before + [last.entry] else before
  }

  function ProfilesOf(items: seq<Item>): seq<Entry> {
    if items == [] then []
    else
      var before, last := ProfilesOf(items[..|items| - 1]), items[|items| - 1];
      if last.Profile? then before + [last.entry] else before
  }

  function Count(s: seq<Entry>, k: Key): nat {
    if s == [] then 0 else Count(s[..|s| - 1], k) + if s[|s| - 1].key == k then 1 else 0
  }

  /** The last value each key carries. */
  function Latest(s: seq<Entry>): map<Key, string> {
    if s == [] then map[] else Latest(s[..|s| - 1])[s[|s| - 1].key := s[|s| - 1].value]
  }

  function JoinOf(es: seq<Entry>, ps: seq<Entry>): set<Row> {
    set e, p | e in es && p in ps && e.key == p.key :: Row(e.key, e.value, p.value)
  }

  /** Every key found in both streams is found once in each. */
  ghost predicate Unambiguous(es: seq<Entry>, ps: seq<Entry>) {
    forall k :: Count(es, k) > 0 && Count(ps, k) > 0 ==> Count(es, k) == Count(ps, k) == 1
  }

  lemma {:induction false} EntryAppended(s: seq<Entry>, e: Entry, k: Key)
    ensures Latest(s + [e]) == Latest(s)[e.key := e.value]
    ensures Count(s + [e], k) == Count(s, k) + if e.key == k then 1 else 0
  {
    assert (s + [e])[..|s|] == s;
  }

  lemma {:induction false} LatestOf(s: seq<Entry>, k: Key)
    ensures k in Latest(s) <==> Count(s, k) > 0
    ensures k in Latest(s) ==> Entry(k, Latest(s)[k]) in s
  {
    if s != [] {
      LatestOf(s[..|s| - 1], k);
    }
  }

  lemma {:induction false} CountOf(s: seq<Entry>, e: Entry)
    requires e in s
    ensures Count(s, e.key) > 0
    ensures Count(s, e.key) == 1 ==> e.key in Latest(s) && Latest(s)[e.key] == e.value
  {
    var n := |s| - 1;
    LatestOf(s, e.key);
    if e != s[n] {
      assert e in s[..n];
      CountOf(s[..n], e);
    }
  }

  /** What is pending once both streams are in: the latest of each key that has no partner. */
  function Settled(es: seq<Entry>, ps: seq<Entry>): State {
    Pending(Latest(es), Latest(ps))
  }

  function Pending(events: map<Key, string>, profiles: map<Key, string>): State {
    State(events - profiles.Keys, profiles - events.Keys)
  }

  lemma UnambiguousPrefix(es: seq<Entry>, e: Entry, ps: seq<Entry>)
    requires Unambiguous(es + [e], ps)
    ensures Unambiguous(es, ps)
    ensures Count(ps, e.key) > 0 ==> Count(es, e.key) == 0
  {
    forall k ensures Count(es, k) <= Count(es + [e], k) <= Count(es, k) + 1 {
      EntryAppended(es, e, k);
    }
    EntryAppended(es, e, e.key);
  }

  lemma EventPends(events: map<Key, string>, e: Entry, profiles: map<Key, string>)
    requires e.key in profiles ==> e.key !in events
    ensures Next(Pending(events, profiles), Event(e)) == Pending(events[e.key := e.value], profiles)
  {
    var st := Pending(events, profiles);
    assert events[e.key := e.value].Keys == events.Keys + {e.key};
    if e.key in profiles {
      assert events[e.key := e.value] - profiles.Keys == st.events;
    } else {
      assert events[e.key := e.value] - profiles.Keys == st.events[e.key := e.value];
      assert profiles - (events.Keys + {e.key}) == st.profiles;
    }
  }

  /** One more event keeps the join settled. */
  lemma EventSettles(es: seq<Entry>, e: Entry, ps: seq<Entry>)
    requires Unambiguous(es + [e], ps)
    ensures Next(Settled(es, ps), Event(e)) == Settled(es + [e], ps)
  {
    UnambiguousPrefix(es, e, ps);
    LatestOf(es, e.key);
    LatestOf(ps, e.key);
    EntryAppended(es, e, e.key);
    EventPends(Latest(es), e, Latest(ps));
  }

  /** The rows an event is part of. */
  function RowsWith(e: Entry, ps: seq<Entry>): set<Row> {
    set p | p in ps && p.key == e.key :: Row(e.key, e.value, p.value)
  }

  lemma JoinAppended(es: seq<Entry>, e: Entry, ps: seq<Entry>)
    ensures JoinOf(es + [e], ps) == JoinOf(es, ps) + RowsWith(e, ps)
  {
  }

  lemma SingleRow(e: Entry, ps: seq<Entry>)
    requires Count(ps, e.key) <= 1
    ensures RowsWith(e, ps) == if e.key in Latest(ps) then {Row(e.key, e.value, Latest(ps)[e.key])} else {}
  {
    LatestOf(ps, e.key);
    forall p | p in ps && p.key == e.key ensures e.key in Latest(ps) && p.value == Latest(ps)[e.key] {
      CountOf(ps, p);
    }
  }

  /** The rows are new to the join and complete it. */
  ghost predicate Adds(before: set<Row>, rows: seq<Row>, now: set<Row>) {
    && (forall r :: r in now <==> r in before || r in rows)
    && (forall r | r in rows :: r !in before)
  }

  /** One more event adds exactly its row to the relational join, and a new one. */
  lemma EventJoins(es: seq<Entry>, e: Entry, ps: seq<Entry>)
    requires Unambiguous(es + [e], ps)
    ensures Adds(JoinOf(es, ps), RowsOf(Settled(es, ps), Event(e)), JoinOf(es + [e], ps))
  {
    UnambiguousPrefix(es, e, ps);
    EntryAppended(es, e, e.key);
    LatestOf(es, e.key);
    LatestOf(ps, e.key);
    JoinAppended(es, e, ps);
    SingleRow(e, ps);
    forall r | r in JoinOf(es, ps) && r.key == e.key ensures Count(ps, e.key) == 0 {
      var x :| x in es && x.key == r.key;
      CountOf(es, x);
    }
  }

  lemma AddedRows(before: set<Row>, rows: seq<Row>, now: set<Row>)
    requires Adds(before, rows, now) && |rows| <= 1
    ensures multiset(now) == multiset(before) + multiset(rows)
  {
    if rows == [] {
      assert now == before;
    } else {
      assert rows == [rows[0]] && now == before + {rows[0]};
    }
  }

  // ---- The join is symmetric ------------------------------------------------------

  function MirrorItem(i: Item): Item {
    match i case Event(e) => Profile(e) case Profile(e) => Event(e)
  }

  function MirrorState(st: State): State {
    State(st.profiles, st.events)
  }

  function MirrorRow(r: Row): Row {
    Row(r.key, r.tier, r.action)
  }

  lemma MirroredStep(st: State, item: Item)
    ensures Next(MirrorState(st), MirrorItem(item)) == MirrorState(Next(st, item))
  {
  }

  lemma ProfileSettles(es: seq<Entry>, ps: seq<Entry>, p: Entry)
    requires Unambiguous(es, ps + [p])
    ensures Next(Settled(es, ps), Profile(p)) == Settled(es, ps + [p])
  {
    EventSettles(ps, p, es);
    MirroredStep(Settled(es, ps), Profile(p));
  }

  lemma MirroredJoin(es: seq<Entry>, ps: seq<Entry>, r: Row)
    ensures r in JoinOf(es, ps) <==> MirrorRow(r) in JoinOf(ps, es)
  {
    if r in JoinOf(es, ps) {
      var e, p :| e in es && p in ps && e.key == p.key && r == Row(e.key, e.value, p.value);
      assert p in ps && e in es && MirrorRow(r) == Row(p.key, p.value, e.value);
    }
    if MirrorRow(r) in JoinOf(ps, es) {
      var p, e :| p in ps && e in es && p.key == e.key && MirrorRow(r) == Row(p.key, p.value, e.value);
      assert p in ps && e in es && r == Row(e.key, e.value, p.value);
    }
  }

  lemma ProfileJoins(es: seq<Entry>, ps: seq<Entry>, p: Entry)
    requires Unambiguous(es, ps + [p])
    ensures Adds(JoinOf(es, ps), RowsOf(Settled(es, ps), Profile(p)), JoinOf(es, ps + [p]))
  {
    EventJoins(ps, p, es);
    var rows, mirrored := RowsOf(Settled(es, ps), Profile(p)), RowsOf(Settled(ps, es), Event(p));
    forall r
      ensures r in rows <==> MirrorRow(r) in mirrored
      ensures r in JoinOf(es, ps) <==> MirrorRow(r) in JoinOf(ps, es)
      ensures r in JoinOf(es, ps + [p]) <==> MirrorRow(r) in JoinOf(ps + [p], es)
    {
      MirroredJoin(es, ps, r);
      MirroredJoin(es, ps + [p], r);
    }
  }

  // ---- Refinement -----------------------------------------------------------------

  /** Every interleaving of streams that pair keys at most once computes the relational join and leaves the rest. */
  lemma {:induction false} JoinsRelationally(items: seq<Item>)
    requires Unambiguous(EventsOf(items), ProfilesOf(items))
    ensures After(items) == Settled(EventsOf(items), ProfilesOf(items))
    ensures multiset(Rows(items)) == multiset(JoinOf(EventsOf(items), ProfilesOf(items)))
  {
    if items != [] {
      var before, item := items[..|items| - 1], items[|items| - 1];
      assert items == before + [item];
      Appended(before, item);
      StreamAppended(before, item);
      var es, ps := EventsOf(before), ProfilesOf(before);
      match item {
        case Event(e) =>
          UnambiguousPrefix(es, e, ps);
          JoinsRelationally(before);
          EventSettles(es, e, ps);
          EventJoins(es, e, ps);
          AddedRows(JoinOf(es, ps), RowsOf(Settled(es, ps), item), JoinOf(es + [e], ps));
        case Profile(p) =>
          UnambiguousPrefix(ps, p, es);
          JoinsRelationally(before);
          ProfileSettles(es, ps, p);
          ProfileJoins(es, ps, p);
          AddedRows(JoinOf(es, ps), RowsOf(Settled(es, ps), item), JoinOf(es, ps + [p]));
      }
    }
  }

  // ---- Exactly when the arrival order does not matter -----------------------------

  predicate Interleaves(items: seq<Item>, es: seq<Entry>, ps: seq<Entry>) {
    EventsOf(items) == es && ProfilesOf(items) == ps
  }

  predicate SameOutcome(x: seq<Item>, y: seq<Item>) {
    After(x) == After(y) && multiset(Rows(x)) == multiset(Rows(y))
  }

  ghost predicate OrderIndependent(es: seq<Entry>, ps: seq<Entry>) {
    forall x, y | Interleaves(x, es, ps) && Interleaves(y, es, ps) :: SameOutcome(x, y)
  }

  function AsEvents(s: seq<Entry>): seq<Item> {
    if s == [] then [] else AsEvents(s[..|s| - 1]) + [Event(s[|s| - 1])]
  }

  function AsProfiles(s: seq<Entry>): seq<Item> {
    if s == [] then [] else AsProfiles(s[..|s| - 1]) + [Profile(s[|s| - 1])]
  }

  lemma {:induction false} EventsConcat(a: seq<Item>, b: seq<Item>)
    ensures EventsOf(a + b) == EventsOf(a) + EventsOf(b)
  {
    if b == [] {
      assert a + b == a;
    } else {
      EventsConcat(a, b[..|b| - 1]);
      assert (a + b)[..|a + b| - 1] == a + b[..|b| - 1];
    }
  }

  lemma {:induction false} ProfilesConcat(a: seq<Item>, b: seq<Item>)
    ensures ProfilesOf(a + b) == ProfilesOf(a) + ProfilesOf(b)
  {
    if b == [] {
      assert a + b == a;
    } else {
      ProfilesConcat(a, b[..|b| - 1]);
      assert (a + b)[..|a + b| - 1] == a + b[..|b| - 1];
    }
  }

  lemma {:induction false} OnlyEvents(s: seq<Entry>)
    ensures EventsOf(AsEvents(s)) == s && ProfilesOf(AsEvents(s)) == []
  {
    if s != [] {
      OnlyEvents(s[..|s| - 1]);
      StreamAppended(AsEvents(s[..|s| - 1]), Event(s[|s| - 1]));
    }
  }

  lemma {:induction false} OnlyProfiles(s: seq<Entry>)
    ensures EventsOf(AsProfiles(s)) == [] && ProfilesOf(AsProfiles(s)) == s
  {
    if s != [] {
      OnlyProfiles(s[..|s| - 1]);
      StreamAppended(AsProfiles(s[..|s| - 1]), Profile(s[|s| - 1]));
    }
  }

  /** A run of profiles leaves no event of their keys pending, and a repeated one of them pending itself. */
  lemma {:induction false} ProfilesInARow(items: seq<Item>, ps: seq<Entry>, k: Key)
    ensures Count(ps, k) > 0 ==> k !in After(items + AsProfiles(ps)).events
    ensures Count(ps, k) > 1 ==> k in After(items + AsProfiles(ps)).profiles
  {
    if ps != [] {
      var n := |ps| - 1;
      ProfilesInARow(items, ps[..n], k);
      var before := items + AsProfiles(ps[..n]);
      assert items + AsProfiles(ps) == before + [Profile(ps[n])];
      Appended(before, Profile(ps[n]));
    }
  }

  lemma {:induction false} EventsInARow(items: seq<Item>, es: seq<Entry>, k: Key)
    ensures Count(es, k) > 0 ==> k !in After(items + AsEvents(es)).profiles
    ensures Count(es, k) > 1 ==> k in After(items + AsEvents(es)).events
  {
    if es != [] {
      var n := |es| - 1;
      EventsInARow(items, es[..n], k);
      var before := items + AsEvents(es[..n]);
      assert items + AsEvents(es) == before + [Event(es[n])];
      Appended(before, Event(es[n]));
    }
  }

  /** Two interleavings tell a repeated key apart: one stream wholly before the other, either way round. */
  lemma RepeatedKeyDependsOnOrder(es: seq<Entry>, ps: seq<Entry>, k: Key)
    requires Count(es, k) > 0 && Count(ps, k) > 0
    requires Count(es, k) > 1 || Count(ps, k) > 1
    ensures !OrderIndependent(es, ps)
  {
    var x, y := AsEvents(es) + AsProfiles(ps), AsProfiles(ps) + AsEvents(es);
    StreamsApart(es, ps);
    ProfilesInARow(AsEvents(es), ps, k);
    EventsInARow(AsProfiles(ps), es, k);
    assert !SameOutcome(x, y);
  }

  lemma StreamsApart(es: seq<Entry>, ps: seq<Entry>)
    ensures Interleaves(AsEvents(es) + AsProfiles(ps), es, ps)
    ensures Interleaves(AsProfiles(ps) + AsEvents(es), es, ps)
  {
    OnlyEvents(es);
    OnlyProfiles(ps);
    EventsConcat(AsEvents(es), AsProfiles(ps));
    ProfilesConcat(AsEvents(es), AsProfiles(ps));
    EventsConcat(AsProfiles(ps), AsEvents(es));
    ProfilesConcat(AsProfiles(ps), AsEvents(es));
  }

  /** Rows and leftovers are the same for every interleaving iff no key shared by the streams is repeated. */
  lemma OrderIndependentIff(es: seq<Entry>, ps: seq<Entry>)
    ensures OrderIndependent(es, ps) <==> Unambiguous(es, ps)
  {
    if Unambiguous(es, ps) {
      forall x, y | Interleaves(x, es, ps) && Interleaves(y, es, ps) ensures SameOutcome(x, y) {
        JoinsRelationally(x);
        JoinsRelationally(y);
      }
    } else {
      var k :| Count(es, k) > 0 && Count(ps, k) > 0 && !(Count(es, k) == Count(ps, k) == 1);
      RepeatedKeyDependsOnOrder(es, ps, k);
    }
  }

  // ---- Leftover payloads ----------------------------------------------------------

  /** What is reported for the pending entries of one side. */
  function UnmatchedPayloads(kind: string, pending: map<Key, string>): set<string> {
    set k | k in pending :: EntryText(kind, Entry(k, pending[k]))
  }

  /** Every pending entry is one that arrived. */
  lemma {:induction false} PendingArrived(items: seq<Item>, k: Key)
    ensures k in After(items).events ==> Event(Entry(k, After(items).events[k])) in items
    ensures k in After(items).profiles ==> Profile(Entry(k, After(items).profiles[k])) in items
  {
    if items != [] {
      PendingArrived(items[..|items| - 1], k);
    }
  }

  predicate ArrivedOn(arrivals: seq<Arrival>, port: PortId, payload: string) {
    exists i | 0 <= i < |arrivals| ::
      arrivals[i].Arrived? && arrivals[i].port == port && arrivals[i].payload == Some(payload)
  }

  lemma ItemArrived(arrivals: seq<Arrival>, items: seq<Item>, item: Item)
    requires Parsed(arrivals, items) && item in items
    ensures item.Event? ==> ArrivedOn(arrivals, "events", EntryText("event", item.entry))
    ensures item.Profile? ==> ArrivedOn(arrivals, "profiles", EntryText("profile", item.entry))
  {
    var i :| 0 <= i < |items| && items[i] == item;
    assert IsItem(arrivals[i], item);
    ParseInvertsPrint("event", arrivals[i].payload.value, item.entry);
    ParseInvertsPrint("profile", arrivals[i].payload.value, item.entry);
  }

  /** The leftover payloads are payloads that arrived, letter for letter, on the port of their kind. */
  lemma LeftoversAreArrivals(arrivals: seq<Arrival>, items: seq<Item>, payload: string)
    requires Parsed(arrivals, items)
    ensures payload in UnmatchedPayloads("event", After(items).events) ==> ArrivedOn(arrivals, "events", payload)
    ensures payload in UnmatchedPayloads("profile", After(items).profiles) ==> ArrivedOn(arrivals, "profiles", payload)
  {
    var st := After(items);
    if payload in UnmatchedPayloads("event", st.events) {
      var k :| k in st.events && payload == EntryText("event", Entry(k, st.events[k]));
      PendingArrived(items, k);
      ItemArrived(arrivals, items, Event(Entry(k, st.events[k])));
    }
    if payload in UnmatchedPayloads("profile", st.profiles) {
      var k :| k in st.profiles && payload == EntryText("profile", Entry(k, st.profiles[k]));
      PendingArrived(items, k);
      ItemArrived(arrivals, items, Profile(Entry(k, st.profiles[k])));
    }
  }

  /** Every pending entry is reported, and only those. */
  lemma PendingIsReported(kind: string, pending: map<Key, string>, payload: string)
    ensures payload in UnmatchedPayloads(kind, pending) <==>
      exists k :: k in pending && payload == EntryText(kind, Entry(k, pending[k]))
  {
  }

  lemma EntryTextIs(kind: string, e: Entry)
    ensures EntryText(kind, e) == kind + ":" + e.key.window + ":" + e.key.account + ":" + e.value
  {
    var f := EntryFields(kind, e);
    assert f[1..] == [e.key.window, e.key.account, e.value];
    assert f[1..][1..] == [e.key.account, e.value] && f[1..][1..][1..] == [e.value];
    var tail := e.key.account + ":" + e.value;
    assert Text.Join(f[1..][1..], ':') == tail;
    assert Text.Join(f[1..], ':') == e.key.window + ":" + tail;
    assert EntryText(kind, e) == kind + ":" + (e.key.window + ":" + tail);
  }

  // ---- Printed rows ---------------------------------------------------------------

  predicate PlainRow(r: Row) {
    ':' !in r.key.window && ':' !in r.key.account && ':' !in r.action && ':' !in r.tier
  }

  /** A row's text holds its five fields, in this order. */
  lemma RowTextFields(r: Row)
    requires PlainRow(r)
    ensures Split(RowText(r), ':') == ["joined", r.key.window, r.key.account, r.action, r.tier]
  {
    SplitJoin(["joined", r.key.window, r.key.account, r.action, r.tier], ':');
  }

  predicate PlainItems(items: seq<Item>) {
    forall i | 0 <= i < |items| :: Plain(items[i].entry)
  }

  lemma ParsedIsPlain(arrivals: seq<Arrival>, items: seq<Item>)
    requires Parsed(arrivals, items)
    ensures PlainItems(items)
  {
    forall i | 0 <= i < |items| ensures Plain(items[i].entry) {
      assert IsItem(arrivals[i], items[i]);
      ParseInvertsPrint("event", arrivals[i].payload.value, items[i].entry);
      ParseInvertsPrint("profile", arrivals[i].payload.value, items[i].entry);
    }
  }

  /** Every row joins an event and a profile that arrived under its key: action from the one, tier from the other. */
  lemma {:induction false} RowsAreArrivals(items: seq<Item>, r: Row)
    requires r in Rows(items)
    ensures Event(Entry(r.key, r.action)) in items && Profile(Entry(r.key, r.tier)) in items
  {
    var before, item := items[..|items| - 1], items[|items| - 1];
    if r in Rows(before) {
      RowsAreArrivals(before, r);
    } else {
      assert r in RowsOf(After(before), item);
      PendingArrived(before, r.key);
      assert item in items;
    }
  }

  /** So the rows sent print as five fields each. */
  lemma SentRowsArePlain(arrivals: seq<Arrival>, items: seq<Item>, r: Row)
    requires Parsed(arrivals, items) && r in Rows(items)
    ensures Split(RowText(r), ':') == ["joined", r.key.window, r.key.account, r.action, r.tier]
  {
    ParsedIsPlain(arrivals, items);
    RowsAreArrivals(items, r);
    RowTextFields(r);
  }
}
