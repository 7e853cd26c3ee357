/** A cache slot whose generation number lets a user invalidate exactly the entry it has seen. */
module GenerationCache {
  import opened Bytes

  datatype Slot<V> = Slot(entry: Option<V>, generation: nat)

  function Empty<V>(): Slot<V> {
    Slot(None, 0)
  }

  function Store<V>(s: Slot<V>, v: V): Slot<V> {
    Slot(Some(v), s.generation + 1)
  }

  function Invalidate<V>(s: Slot<V>, generation: nat): Slot<V> {
    if s.generation == generation then s.(entry := None) else s
  }

  /** What a successful get hands out. */
  datatype Handle<V> = Handle(value: V, generation: nat)

  /** `stored` are all values ever stored, in order; `handles` all that were handed out. */
  datatype State<V> = State(slot: Slot<V>, stored: seq<V>, handles: seq<Handle<V>>)

  function Init<V>(): State<V> {
    State(Empty(), [], [])
  }

  /** Gets, stores and invalidations by any holder of a handle, at any later time. */
  datatype Step<V> = Get | Put(value: V) | InvalidateBy(handle: nat)

  function Apply<V>(s: State<V>, step: Step<V>): State<V> {
    match step
    case Get =>
      if s.slot.entry.None? then s else s.(handles := s.handles + [Handle(s.slot.entry.value, s.slot.generation)])
    case Put(v) => s.(slot := Store(s.slot, v), stored := s.stored + [v])
    case InvalidateBy(k) =>
      if k < |s.handles| then s.(slot := Invalidate(s.slot, s.handles[k].generation)) else s
  }

  function Exec<V>(steps: seq<Step<V>>): State<V> {
    if steps == [] then Init() else Apply(Exec(steps[..|steps| - 1]), steps[|steps| - 1])
  }

  /** A generation is the position of its entry among all stored ones. */
  ghost predicate Inv<V>(s: State<V>) {
    && s.slot.generation == |s.stored|
    && (s.slot.entry.Some? ==> |s.stored| > 0 && s.slot.entry.value == s.stored[|s.stored| - 1])
    && forall k | 0 <= k < |s.handles| ::
         0 < s.handles[k].generation <= |s.stored| && s.handles[k].value == s.stored[s.handles[k].generation - 1]
  }

  lemma {:induction false} RunKeeps<V>(steps: seq<Step<V>>)
    ensures Inv(Exec(steps))
  {
    if steps != [] {
      RunKeeps(steps[..|steps| - 1]);
    }
  }

  /** A get hands out the entry stored last, unless that was invalidated since, and changes nothing else. */
  lemma GetHandsOutTheLast<V>(steps: seq<Step<V>>)
    ensures var s, t := Exec(steps), Apply(Exec(steps), Step<V>.Get);
      && t.slot == s.slot && t.stored == s.stored
      && (s.slot.entry.None? ==> t.handles == s.handles)
      && (s.slot.entry.Some? ==>
            |s.stored| > 0 && t.handles == s.handles + [Handle(s.stored[|s.stored| - 1], |s.stored|)])
  {
    RunKeeps(steps);
  }

  /** What was just stored is handed out. */
  lemma StoredIsHandedOut<V>(steps: seq<Step<V>>, v: V)
    ensures var s := Exec(steps);
      var t := Apply(Apply(s, Put(v)), Step<V>.Get);
      t.handles == s.handles + [Handle(v, |s.stored| + 1)] && t.stored == s.stored + [v]
  {
    RunKeeps(steps);
  }

  /** Equal generations always denote the same entry. */
  lemma GenerationDenotesOneEntry<V>(steps: seq<Step<V>>, j: nat, k: nat)
    requires j < |Exec(steps).handles| && k < |Exec(steps).handles|
    requires Exec(steps).handles[j].generation == Exec(steps).handles[k].generation
    ensures Exec(steps).handles[j].value == Exec(steps).handles[k].value
  {
    RunKeeps(steps);
  }

  /** An invalidation removes the entry of its own handle or nothing, and nothing once a newer entry was stored. */
  lemma InvalidationHitsItsOwnEntry<V>(steps: seq<Step<V>>, k: nat)
    requires k < |Exec(steps).handles|
    ensures var s := Exec(steps);
      var t := Apply(s, Step<V>.InvalidateBy(k));
      && t.stored == s.stored && t.handles == s.handles && t.slot.generation == s.slot.generation
      && (s.handles[k].generation == |s.stored| ==> t.slot.entry.None?)
      && (s.handles[k].generation < |s.stored| ==> t == s)
      && (s.slot.entry.Some? && t.slot.entry.None? ==> s.slot.entry.value == s.handles[k].value)
  {
    RunKeeps(steps);
  }

  /** However often a handle is used to invalidate, an entry stored afterwards survives. */
  lemma StaleInvalidationIsHarmless<V>(steps: seq<Step<V>>, k: nat, v: V)
    requires k < |Exec(steps).handles|
    ensures Apply(Apply(Exec(steps), Put(v)), Step<V>.InvalidateBy(k)).slot
         == Slot(Some(v), Exec(steps).slot.generation + 1)
  {
    RunKeeps(steps);
  }
}

/** The look-aside cache of cluster metadata. */
module MetadataCaches {
  import opened Bytes
  import opened GenerationCache

  datatype PartitionInfo = PartitionInfo(index: int, error: Option<int>, leader: int)

  datatype Topic = Topic(name: string, error: Option<int>, partitions: seq<PartitionInfo>)

  datatype Metadata = Metadata(brokers: seq<int>, topics: seq<Topic>)

  predicate Distinct<T(==)>(xs: seq<T>) {
    forall i, j | 0 <= i < j < |xs| :: xs[i] != xs[j]
  }

  function Names(topics: seq<Topic>): (ns: seq<string>)
    ensures |ns| == |topics| && forall i | 0 <= i < |ns| :: ns[i] == topics[i].name
  {
    seq(|topics|, i requires 0 <= i < |topics| => topics[i].name)
  }

  /** `retain`: the topics whose name is wanted, in order. */
  function Retain(topics: seq<Topic>, want: seq<string>): seq<Topic> {
    if topics == [] then [] else
    Retain(topics[..|topics| - 1], want) + if topics[|topics| - 1].name in want then [topics[|topics| - 1]] else []
  }

  /** What a get makes of a snapshot; `None` sends the caller to the broker and invalidates the snapshot. */
  function Select(m: Metadata, topics: Option<seq<string>>): Option<Metadata> {
    if topics.None? then Some(m) else
    var kept := Retain(m.topics, topics.value);
    if |kept| != |topics.value| then None else Some(m.(topics := kept))
  }

  /** A look-up changes nothing but the list of topics, and not even that without a filter. */
  lemma SelectKeepsTheRest(m: Metadata, want: seq<string>)
    ensures Select(m, None) == Some(m)
    ensures Select(m, Some(want)).Some? ==>
      Select(m, Some(want)).value == m.(topics := Retain(m.topics, want)) && |Retain(m.topics, want)| == |want|
  {
  }

  class MetadataCache {
    var slot: Slot<Metadata>

    constructor ()
      ensures slot == Empty()
    {
      slot := Empty();
    }

    /** The first locked section of a get: what the get step of the generation cache hands out. */
    method Snapshot() returns (r: Option<Handle<Metadata>>)
      ensures forall stored, handles ::
        Apply(State(slot, stored, handles), Step.Get)
        == State(slot, stored, handles + if r.Some? then [r.value] else [])
    {
      if slot.entry.None? {
        return None;
      }
      return Some(Handle(slot.entry.value, slot.generation));
    }

    method InvalidateIf(generation: nat)
      modifies this
      ensures slot == Invalidate(old(slot), generation)
    {
      if slot.generation != generation {
        return;
      }
      slot := slot.(entry := None);
    }

    method Update(m: Metadata)
      modifies this
      ensures slot == Store(old(slot), m)
    {
      slot := Slot(Some(m), slot.generation + 1);
    }

    /** The rest of a get, whatever has happened to the cache since the snapshot: only a snapshot that lacks a
        wanted topic is invalidated, and only if it is still the current one. */
    method Conclude(m: Metadata, generation: nat, topics: Option<seq<string>>) returns (r: Option<(Metadata, nat)>)
      modifies this
      ensures match Select(m, topics)
        case Some(kept) => r == Some((kept, generation)) && slot == old(slot)
        case None => r == None && slot == Invalidate(old(slot), generation)
    {
      if topics.None? {
        return Some((m, generation));
      }
      var kept := RetainTopics(m.topics, topics.value);
      if |kept| != |topics.value| {
        InvalidateIf(generation);
        return None;
      }
      return Some((m.(topics := kept), generation));
    }

    /** A get that nobody interrupts. */
    method Get(topics: Option<seq<string>>) returns (r: Option<(Metadata, nat)>)
      modifies this
      ensures old(slot).entry.None? ==> r == None && slot == old(slot)
      ensures old(slot).entry.Some? ==>
        match Select(old(slot).entry.value, topics)
        case Some(m) => r == Some((m, old(slot).generation)) && slot == old(slot)
        case None => r == None && slot == Slot(None, old(slot).generation)
    {
      var snapshot := Snapshot();
      ghost var none: seq<Handle<Metadata>> := [];
      ghost var handles := Apply(State(slot, [], none), Step.Get).handles;
      assert handles == none + if snapshot.Some? then [snapshot.value] else [];
      assert |handles| == if slot.entry.None? then 0 else 1;
      assert slot.entry.Some? ==> handles[0] == Handle(slot.entry.value, slot.generation);
      if snapshot.None? {
        return None;
      }
      r := Conclude(snapshot.value.value, snapshot.value.generation, topics);
    }
  }

  method RetainTopics(topics: seq<Topic>, want: seq<string>) returns (kept: seq<Topic>)
    ensures kept == Retain(topics, want)
  {
    kept := [];
    for i := 0 to |topics|
      invariant kept == Retain(topics[..i], want)
    {
      assert topics[..i + 1][..i] == topics[..i];
      if topics[i].name in want {
        kept := kept + [topics[i]];
      }
    }
    assert topics[..|topics|] == topics;
  }

  // ---------------------------------------------------------------- when a filtered get succeeds

  function Elements<T>(xs: seq<T>): set<T> {
    set x | x in xs
  }

  lemma ElementsOfSnoc<T>(xs: seq<T>)
    requires xs != []
    ensures Elements(xs) == Elements(xs[..|xs| - 1]) + {xs[|xs| - 1]}
  {
    assert xs == xs[..|xs| - 1] + [xs[|xs| - 1]];
  }

  /** A sequence has at most as many elements as positions, and as many exactly if none repeats. */
  lemma {:induction false} ElementCount<T>(xs: seq<T>)
    ensures |Elements(xs)| <= |xs|
    ensures |Elements(xs)| == |xs| <==> Distinct(xs)
  {
    if xs == [] {
      assert Elements(xs) == {};
    } else {
      var n := |xs| - 1;
      ElementCount(xs[..n]);
      ElementsOfSnoc(xs);
      if xs[n] in xs[..n] {
        assert Elements(xs) == Elements(xs[..n]);
        var i :| 0 <= i < n && xs[i] == xs[n];
      }
    }
  }

  /** What is kept are cached topics with wanted names, and all of them, in cache order. */
  lemma {:induction false} RetainKeepsWanted(topics: seq<Topic>, want: seq<string>)
    ensures forall t | t in Retain(topics, want) :: t in topics && t.name in want
    ensures forall t | t in topics && t.name in want :: t in Retain(topics, want)
    ensures Distinct(Names(topics)) ==> Distinct(Names(Retain(topics, want)))
  {
    if topics != [] {
      var n := |topics| - 1;
      RetainKeepsWanted(topics[..n], want);
      assert topics == topics[..n] + [topics[n]];
      if Distinct(Names(topics)) {
        assert forall i | 0 <= i < n :: Names(topics)[i] == topics[..n][i].name;
        forall t | t in Retain(topics[..n], want) ensures t.name != topics[n].name {
          assert t in topics[..n];
          var i :| 0 <= i < n && topics[i] == t;
          assert Names(topics)[i] != Names(topics)[n];
        }
      }
    }
  }

  /** Retaining keeps the order: it goes through the topics one by one and keeps or drops each. */
  lemma {:induction false} RetainConcat(a: seq<Topic>, b: seq<Topic>, want: seq<string>, t: Topic)
    ensures Retain([], want) == [] && Retain([t], want) == if t.name in want then [t] else []
    ensures Retain(a + b, want) == Retain(a, want) + Retain(b, want)
  {
    assert [t][..0] == [];
    if b == [] {
      assert a + b == a && Retain(a, want) + [] == Retain(a, want);
    } else {
      var n := |b| - 1;
      RetainConcat(a, b[..n], want, t);
      assert (a + b)[..|a| + n] == a + b[..n];
    }
  }

  lemma RetainedNames(topics: seq<Topic>, want: seq<string>)
    ensures Elements(Names(Retain(topics, want))) == Elements(Names(topics)) * Elements(want)
  {
    RetainKeepsWanted(topics, want);
    var kept := Retain(topics, want);
    forall n | n in Elements(Names(topics)) * Elements(want) ensures n in Elements(Names(kept)) {
      var i :| 0 <= i < |topics| && Names(topics)[i] == n;
      assert topics[i] in topics && topics[i] in kept;
      var j :| 0 <= j < |kept| && kept[j] == topics[i];
      assert Names(kept)[j] == n;
    }
    forall n | n in Elements(Names(kept)) ensures n in Elements(Names(topics)) * Elements(want) {
      var j :| 0 <= j < |kept| && Names(kept)[j] == n;
      assert kept[j] in kept && kept[j] in topics;
      var i :| 0 <= i < |topics| && topics[i] == kept[j];
      assert Names(topics)[i] == n;
    }
  }

  lemma SubsetSize<T>(a: set<T>, b: set<T>)
    requires a <= b
    ensures |a| <= |b| && (|a| == |b| <==> a == b)
  {
    assert |b| == |a| + |b - a| by {
      assert b == a + (b - a);
    }
    if |b - a| == 0 {
      assert b - a == {};
    }
  }

  /** With distinct cached names, a filtered get succeeds exactly when every wanted topic is cached and none
      is asked for twice, and then returns exactly the wanted topics. */
  lemma DistinctNamesAreFound(m: Metadata, want: seq<string>)
    requires Distinct(Names(m.topics))
    ensures Select(m, Some(want)).Some? <==> Distinct(want) && forall w | w in want :: w in Names(m.topics)
    ensures Select(m, Some(want)).Some? ==>
      && Elements(Names(Select(m, Some(want)).value.topics)) == Elements(want)
      && forall t | t in Select(m, Some(want)).value.topics :: t in m.topics
  {
    var kept := Retain(m.topics, want);
    var names, wanted := Elements(Names(m.topics)), Elements(want);
    RetainKeepsWanted(m.topics, want);
    RetainedNames(m.topics, want);
    ElementCount(Names(kept));
    ElementCount(want);
    SubsetSize(names * wanted, wanted);
    assert |kept| == |names * wanted|;
    if forall w | w in want :: w in Names(m.topics) {
      assert names * wanted == wanted;
    }
    if names * wanted == wanted {
      forall w | w in want ensures w in Names(m.topics) {
        assert w in wanted;
      }
    }
  }

  /** What a caller hopes of a filtered get: it succeeds exactly when every wanted topic is cached, unless one is
      asked for twice. */
  ghost predicate FindsExactly(m: Metadata, want: seq<string>) {
    Select(m, Some(want)).Some? <==> Distinct(want) && forall w | w in want :: w in Names(m.topics)
  }

  /** The look-up does what is hoped for, whatever is asked, exactly if no cached name is repeated. */
  lemma FilteredGetSucceedsIff(m: Metadata)
    ensures (forall want: seq<string> :: FindsExactly(m, want)) <==> Distinct(Names(m.topics))
    ensures (forall want: seq<string> | Distinct(want) :: FindsExactly(m, want)) <==> Distinct(Names(m.topics))
  {
    hide Select;
    if Distinct(Names(m.topics)) {
      forall want: seq<string> ensures FindsExactly(m, want) {
        DistinctNamesAreFound(m, want);
      }
    } else {
      var i, j :| 0 <= i < j < |m.topics| && Names(m.topics)[i] == Names(m.topics)[j];
      var want := [m.topics[i].name];
      RepeatedNameIsNotFound(m, i, j);
      assert Distinct(want) && !FindsExactly(m, want);
    }
  }

  /** A repeated name cannot even be looked up itself. */
  lemma RepeatedNameIsNotFound(m: Metadata, i: nat, j: nat)
    requires i < j < |m.topics| && m.topics[i].name == m.topics[j].name
    ensures Select(m, Some([m.topics[i].name])).None?
    ensures !FindsExactly(m, [m.topics[i].name])
  {
    hide Retain;
    KeptTwice(m.topics, [m.topics[i].name], i, j);
    assert m.topics[i].name == Names(m.topics)[i];
  }

  lemma {:induction false} KeptTwice(topics: seq<Topic>, want: seq<string>, i: nat, j: nat)
    requires i < j < |topics| && topics[i].name in want && topics[j].name in want
    ensures |Retain(topics, want)| >= 2
  {
    var n := |topics| - 1;
    if j < n {
      KeptTwice(topics[..n], want, i, j);
    } else {
      RetainKeepsWanted(topics[..n], want);
      assert topics[..n][i] in topics[..n];
    }
  }

  /** With a repeated cached name the count can match although a wanted topic is missing. */
  lemma RepeatedNameHidesMissingTopic(a: string, b: string)
    requires a != b
    ensures var t := Topic(a, None, []);
      var m := Metadata([], [t, t]);
      Select(m, Some([a, b])) == Some(m) && b !in Names(m.topics)
  {
    var t := Topic(a, None, []);
    assert [t, t][..1] == [t] && [t][..0] == [];
    assert Retain([t], [a, b]) == [t];
    assert Retain([t, t], [a, b]) == [t, t];
  }
}

/** The cache of one arbitrary broker connection. */
module BrokerCaches {
  import opened Bytes
  import opened GenerationCache

  type Connection = int

  /** The lock is held for a whole get, so each method is one or two steps of the generation cache. */
  class ArbitraryBroker {
    var slot: Slot<Connection>

    constructor ()
      ensures State(slot, [], []) == Init()
    {
      slot := Empty();
    }

    /** `connected` is how a new connection attempt ends, if one is needed. */
    method Get(connected: Option<Connection>) returns (r: Option<Handle<Connection>>)
      modifies this
      ensures forall stored, handles ::
        var s := State(old(slot), stored, handles);
        var t := if s.slot.entry.None? && connected.Some? then Apply(s, Put(connected.value)) else s;
        slot == t.slot && Apply(t, Step.Get).handles == handles + if r.Some? then [r.value] else []
    {
      if slot.entry.None? {
        if connected.None? {
          return None;
        }
        slot := Slot(connected, slot.generation + 1);
      }
      return Some(Handle(slot.entry.value, slot.generation));
    }

    method InvalidateIf(generation: nat)
      modifies this
      ensures forall stored, handles: seq<Handle<Connection>>, k: nat ::
        k < |handles| && handles[k].generation == generation ==>
        slot == Apply(State(old(slot), stored, handles), Step<Connection>.InvalidateBy(k)).slot
    {
      if slot.generation != generation {
        return;
      }
      slot := slot.(entry := None);
    }
  }
}
