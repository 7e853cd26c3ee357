/** Cached connections to partition leaders, on top of one shared metadata cache.

    A partition client holds its own lock for a whole get, but the metadata cache is locked only for each
    access, so the gets of several clients, their invalidations and refreshes interleave on it. */
module Leaders {
  import opened Bytes
  import opened GenerationCache
  import opened MetadataCaches
  import opened BrokerCaches

  // ---------------------------------------------------------------- who leads a partition

  datatype LeaderError =
    | NotOneTopic
    | WrongTopic
    | TopicError(code: int)
    | NoPartition
    | PartitionError(code: int)
    | LeaderNotAvailable

  /** The first entry of a partition. */
  function Find(ps: seq<PartitionInfo>, partition: int): Option<PartitionInfo> {
    if ps == [] then None else if ps[0].index == partition then Some(ps[0]) else Find(ps[1..], partition)
  }

  /** Entry `i` is the first one of the partition. */
  predicate FirstOf(ps: seq<PartitionInfo>, partition: int, i: nat) {
    i < |ps| && ps[i].index == partition && forall j | 0 <= j < i :: ps[j].index != partition
  }

  /** `Find` finds the first entry of the partition, and nothing exactly if there is none. */
  lemma {:induction false} FindsTheFirst(ps: seq<PartitionInfo>, partition: int)
    ensures Find(ps, partition).None? <==> forall i | 0 <= i < |ps| :: ps[i].index != partition
    ensures forall i: nat | FirstOf(ps, partition, i) :: Find(ps, partition) == Some(ps[i])
    ensures Find(ps, partition).Some? ==> exists i: nat :: FirstOf(ps, partition, i)
  {
    if ps != [] {
      if ps[0].index == partition {
        assert FirstOf(ps, partition, 0);
      } else {
        FindsTheFirst(ps[1..], partition);
        if Find(ps[1..], partition).Some? {
          var i: nat :| FirstOf(ps[1..], partition, i);
          assert FirstOf(ps, partition, i + 1);
        }
        forall i: nat | FirstOf(ps, partition, i) ensures Find(ps, partition) == Some(ps[i]) {
          assert FirstOf(ps[1..], partition, i - 1);
        }
        assert (forall i | 0 <= i < |ps[1..]| :: ps[1..][i].index != partition)
          ==> forall i | 0 <= i < |ps| :: ps[i].index != partition;
      }
    }
  }

  /** The leader a metadata response for one topic names. */
  function LeaderIn(m: Metadata, topic: string, partition: int): Result<int, LeaderError> {
    if |m.topics| != 1 then Err(NotOneTopic) else
    var t := m.topics[0];
    if t.name != topic then Err(WrongTopic) else
    if t.error.Some? then Err(TopicError(t.error.value)) else
    match Find(t.partitions, partition)
    case None => Err(NoPartition)
    case Some(p) =>
      if p.error.Some? then Err(PartitionError(p.error.value))
      else if p.leader == -1 then Err(LeaderNotAvailable)
      else Ok(p.leader)
  }

  /** A usable response has exactly the topic, without an error. */
  predicate HasTopic(m: Metadata, topic: string) {
    |m.topics| == 1 && m.topics[0].name == topic && m.topics[0].error.None?
  }

  /** A response names a leader exactly if it has the topic without an error, and the first entry of the partition
      has no error and that leader, which is not the placeholder -1. */
  lemma LeaderInIff(m: Metadata, topic: string, partition: int, leader: int)
    ensures LeaderIn(m, topic, partition) == Ok(leader) <==>
      && HasTopic(m, topic) && leader != -1
      && exists i: nat :: FirstOf(m.topics[0].partitions, partition, i)
           && m.topics[0].partitions[i].error.None? && m.topics[0].partitions[i].leader == leader
  {
    if HasTopic(m, topic) {
      FindsTheFirst(m.topics[0].partitions, partition);
    }
  }

  /** And otherwise which error it gives. */
  lemma LeaderErrorIs(m: Metadata, topic: string, partition: int, i: nat)
    ensures LeaderIn(m, topic, partition) == Err(NotOneTopic) <==> |m.topics| != 1
    ensures LeaderIn(m, topic, partition) == Err(WrongTopic) <==> |m.topics| == 1 && m.topics[0].name != topic
    ensures |m.topics| == 1 && m.topics[0].name == topic && m.topics[0].error.Some? ==>
      LeaderIn(m, topic, partition) == Err(TopicError(m.topics[0].error.value))
    ensures LeaderIn(m, topic, partition) == Err(NoPartition) <==>
      HasTopic(m, topic) && forall j | 0 <= j < |m.topics[0].partitions| :: m.topics[0].partitions[j].index != partition
    ensures HasTopic(m, topic) && FirstOf(m.topics[0].partitions, partition, i) ==>
      var p := m.topics[0].partitions[i];
      && (p.error.Some? ==> LeaderIn(m, topic, partition) == Err(PartitionError(p.error.value)))
      && (p.error.None? && p.leader == -1 ==> LeaderIn(m, topic, partition) == Err(LeaderNotAvailable))
  {
    if HasTopic(m, topic) {
      FindsTheFirst(m.topics[0].partitions, partition);
    }
  }

  /** The loop behind `find`. */
  method FindPartition(ps: seq<PartitionInfo>, partition: int) returns (r: Option<PartitionInfo>)
    ensures r == Find(ps, partition)
  {
    assert ps[0..] == ps;
    for i := 0 to |ps|
      invariant Find(ps, partition) == Find(ps[i..], partition)
    {
      if ps[i].index == partition {
        return Some(ps[i]);
      }
      assert ps[i..][1..] == ps[i + 1..];
    }
    return None;
  }

  /** The leader that an unfiltered cached response names, if it has the topic. */
  function Named(m: Metadata, topic: string, partition: int): Result<int, LeaderError> {
    match Select(m, Some([topic]))
    case None => Err(NotOneTopic)
    case Some(filtered) => LeaderIn(filtered, topic, partition)
  }

  // ---------------------------------------------------------------- all clients together

  /** A get under way: its snapshot lacks the topic, it needs an answer from a broker, it has metadata, or it is
      connected to the leader. `from` is the metadata generation, if the cache answered. */
  datatype Task =
    | Idle
    | MustClear(generation: nat)
    | NeedsAnswer
    | Answered(metadata: Metadata, from: Option<nat>)
    | Connected(leader: int, connection: Connection, from: Option<nat>)

  /** A partition client; `leader` and `from` belong to the connection it stored last. */
  datatype Client = Client(topic: string, partition: int, slot: Slot<Connection>, leader: int, from: Option<nat>,
                           task: Task)

  /** `stored` are all responses the metadata cache ever held, in order. */
  datatype World = World(metadata: Slot<Metadata>, stored: seq<Metadata>, clients: seq<Client>)

  const Init := World(Empty(), [], [])

  /** What a client does next; the arguments are what the world answers. */
  datatype Act =
    | Look
    | Clear
    | Answer(response: Option<Metadata>)
    | Connect(connection: Option<Connection>)
    | Confirm(response: Option<Metadata>)
    | GiveUp
    | DropLeader(generation: nat)

  datatype Step = Refresh(everything: Metadata) | NewClient(topic: string, partition: int) | By(client: nat, act: Act)

  function FreshClient(topic: string, partition: int): Client {
    Client(topic, partition, Empty(), -1, None, Idle)
  }

  /** Dropping the metadata a client got its leader from, if it came from the cache. */
  function DropFrom(slot: Slot<Metadata>, from: Option<nat>): Slot<Metadata> {
    if from.Some? then Invalidate(slot, from.value) else slot
  }

  function Looked(c: Client, metadata: Slot<Metadata>): Client {
    c.(task := if metadata.entry.None? then NeedsAnswer else
               match Select(metadata.entry.value, Some([c.topic]))
               case None => MustClear(metadata.generation)
               case Some(m) => Answered(m, Some(metadata.generation)))
  }

  function Connects(c: Client, metadata: Slot<Metadata>, connection: Option<Connection>): (Client, Slot<Metadata>)
    requires c.task.Answered?
  {
    match LeaderIn(c.task.metadata, c.topic, c.partition)
    case Err(_) => (c.(task := Idle), metadata)
    case Ok(leader) =>
      if connection.None? then (c.(task := Idle), DropFrom(metadata, c.task.from))
      else (c.(task := Connected(leader, connection.value, c.task.from)), metadata)
  }

  function Confirms(c: Client, response: Option<Metadata>): Client
    requires c.task.Connected?
  {
    if response.Some? && LeaderIn(response.value, c.topic, c.partition) == Ok(c.task.leader)
    then c.(slot := Store(c.slot, c.task.connection), leader := c.task.leader, from := c.task.from, task := Idle)
    else c.(task := Idle)
  }

  /** The client after one of its acts, and the metadata cache. An act that cannot happen changes nothing. */
  function Does(c: Client, metadata: Slot<Metadata>, act: Act): (Client, Slot<Metadata>) {
    match act
    case Look => (if c.task.Idle? && c.slot.entry.None? then Looked(c, metadata) else c, metadata)
    case Clear =>
      if c.task.MustClear? then (c.(task := NeedsAnswer), Invalidate(metadata, c.task.generation)) else (c, metadata)
    case Answer(response) =>
      (if !c.task.NeedsAnswer? then c
       else c.(task := if response.Some? then Answered(response.value, None) else Idle), metadata)
    case Connect(connection) => if c.task.Answered? then Connects(c, metadata, connection) else (c, metadata)
    case Confirm(response) => (if c.task.Connected? then Confirms(c, response) else c, metadata)
    case GiveUp => (if c.task.MustClear? then c else c.(task := Idle), metadata)
    case DropLeader(generation) =>
      if !c.task.Idle? || c.slot.generation != generation then (c, metadata)
      else (c.(slot := c.slot.(entry := None)), DropFrom(metadata, c.from))
  }

  function Apply(w: World, step: Step): World {
    match step
    case Refresh(m) => w.(metadata := Store(w.metadata, m), stored := w.stored + [m])
    case NewClient(topic, partition) => w.(clients := w.clients + [FreshClient(topic, partition)])
    case By(i, act) =>
      if i >= |w.clients| then w else
      var (c, metadata) := Does(w.clients[i], w.metadata, act);
      w.(clients := w.clients[i := c], metadata := metadata)
  }

  function Exec(steps: seq<Step>): World {
    if steps == [] then Init else Apply(Exec(steps[..|steps| - 1]), steps[|steps| - 1])
  }

  // ---------------------------------------------------------------- invariant

  predicate Stored(stored: seq<Metadata>, generation: nat) {
    0 < generation <= |stored|
  }

  /** The response stored under `generation` names `leader` for the client's partition. */
  predicate NamedBy(stored: seq<Metadata>, generation: nat, c: Client, leader: int) {
    Stored(stored, generation) && Named(stored[generation - 1], c.topic, c.partition) == Ok(leader)
  }

  /** Every generation a client remembers stands for the response that told it what it knows. */
  predicate Remembers(c: Client, stored: seq<Metadata>) {
    && (c.from.Some? ==> NamedBy(stored, c.from.value, c, c.leader))
    && match c.task
       case MustClear(g) => Stored(stored, g) && Select(stored[g - 1], Some([c.topic])).None?
       case Answered(m, Some(g)) => Stored(stored, g) && Select(stored[g - 1], Some([c.topic])) == Some(m)
       case Connected(leader, _, Some(g)) => NamedBy(stored, g, c, leader)
       case _ => true
  }

  predicate CacheMatches(w: World) {
    && w.metadata.generation == |w.stored|
    && (w.metadata.entry.Some? ==> |w.stored| > 0 && w.metadata.entry.value == w.stored[|w.stored| - 1])
  }

  ghost predicate Inv(w: World) {
    CacheMatches(w) && forall i | 0 <= i < |w.clients| :: Remembers(w.clients[i], w.stored)
  }

  lemma RemembersLonger(c: Client, stored: seq<Metadata>, m: Metadata)
    requires Remembers(c, stored)
    ensures Remembers(c, stored + [m])
  {
    hide Select, LeaderIn;
  }

  lemma ClientKeeps(c: Client, w: World, act: Act)
    requires CacheMatches(w) && Remembers(c, w.stored)
    ensures var (c', metadata) := Does(c, w.metadata, act);
      Remembers(c', w.stored) && CacheMatches(w.(metadata := metadata))
  {
    hide Select, LeaderIn;
  }

  lemma StepKeeps(w: World, step: Step)
    requires Inv(w)
    ensures Inv(Apply(w, step))
  {
    hide Remembers, Does;
    match step
    case Refresh(m) =>
      forall i | 0 <= i < |w.clients| ensures Remembers(w.clients[i], w.stored + [m]) {
        RemembersLonger(w.clients[i], w.stored, m);
      }
    case NewClient(topic, partition) => NewClientRemembers(topic, partition, w.stored);
    case By(i, act) =>
      if i < |w.clients| {
        ClientKeeps(w.clients[i], w, act);
      }
  }

  lemma NewClientRemembers(topic: string, partition: int, stored: seq<Metadata>)
    ensures Remembers(FreshClient(topic, partition), stored)
  {
  }

  lemma {:induction false} RunKeeps(steps: seq<Step>)
    ensures Inv(Exec(steps))
  {
    if steps != [] {
      RunKeeps(steps[..|steps| - 1]);
      StepKeeps(Exec(steps[..|steps| - 1]), steps[|steps| - 1]);
    }
  }

  // ---------------------------------------------------------------- results over runs

  /** The reason a client has to remove the cached response `m`: it lacks the client's topic, names a leader
      nobody can connect to, or named the leader whose connection is being dropped. */
  predicate Reason(c: Client, act: Act, m: Metadata) {
    match act
    case Clear => Select(m, Some([c.topic])).None?
    case Connect(None) => Named(m, c.topic, c.partition).Ok?
    case DropLeader(generation) => generation == c.slot.generation && Named(m, c.topic, c.partition) == Ok(c.leader)
    case _ => false
  }

  /** In every run an act of a client leaves the metadata cache as it is, or removes its entry for a reason that
      holds of that very entry: what a client saw in an older response never costs a newer one. */
  lemma RemovedOnlyForAReason(steps: seq<Step>, i: nat, act: Act)
    requires i < |Exec(steps).clients|
    ensures var w, w' := Exec(steps), Apply(Exec(steps), By(i, act));
      && w'.stored == w.stored
      && (w'.metadata == w.metadata
          || (w'.metadata == w.metadata.(entry := None) && w.metadata.entry.Some?
              && Reason(w.clients[i], act, w.metadata.entry.value)))
  {
    hide Select, LeaderIn;
    RunKeeps(steps);
    assert Remembers(Exec(steps).clients[i], Exec(steps).stored);
  }

  /** Dropping a leader connection also drops the cached response that named the leader, if it is still the
      current one, and nothing else; a request for an older connection changes nothing. */
  lemma DroppingALeaderDropsItsMetadata(steps: seq<Step>, i: nat, generation: nat)
    requires var w := Exec(steps); i < |w.clients| && w.clients[i].task.Idle?
    ensures var w := Exec(steps);
      var c := w.clients[i];
      var w' := Apply(w, By(i, DropLeader(generation)));
      && (generation != c.slot.generation ==> w' == w)
      && (forall j | 0 <= j < |w.clients| && j != i :: w'.clients[j] == w.clients[j])
      && (generation == c.slot.generation ==>
            && w'.clients[i].slot == Slot(None, c.slot.generation)
            && (c.from == Some(|w.stored|) ==> w'.metadata.entry.None?)
            && (c.from != Some(|w.stored|) ==> w'.metadata == w.metadata))
  {
    hide Select, LeaderIn;
    RunKeeps(steps);
    assert Remembers(Exec(steps).clients[i], Exec(steps).stored);
  }

  // ---------------------------------------------------------------- one get

  /** How the world answers a get: a metadata response, a connection attempt, and the leader's own response. */
  datatype Discovery = Discovery(answer: Option<Metadata>, connection: Option<Connection>,
                                 confirmation: Option<Metadata>)

  /** The acts of a get that nobody interrupts; those that are not needed change nothing. */
  function GetActs(d: Discovery): seq<Act> {
    [Look, Clear, Answer(d.answer), Connect(d.connection), Confirm(d.confirmation)]
  }

  /** A client and the metadata cache after several acts of that client. */
  function DoesAll(c: Client, metadata: Slot<Metadata>, acts: seq<Act>): (Client, Slot<Metadata>) {
    if acts == [] then (c, metadata) else
    var (c', metadata') := DoesAll(c, metadata, acts[..|acts| - 1]);
    Does(c', metadata', acts[|acts| - 1])
  }

  /** What the acts do to the client and the cache is what they do in a run in which they come together. */
  lemma {:induction false} TogetherInARun(steps: seq<Step>, i: nat, acts: seq<Act>)
    requires i < |Exec(steps).clients|
    ensures var w := Exec(steps);
      var (c, metadata) := DoesAll(w.clients[i], w.metadata, acts);
      Exec(steps + AllBy(i, acts)) == w.(clients := w.clients[i := c], metadata := metadata)
  {
    hide Does;
    if acts == [] {
      assert steps + AllBy(i, acts) == steps;
    } else {
      var n := |acts| - 1;
      TogetherInARun(steps, i, acts[..n]);
      assert (steps + AllBy(i, acts))[..|steps| + n] == steps + AllBy(i, acts[..n]);
    }
  }

  function AllBy(i: nat, acts: seq<Act>): (steps: seq<Step>)
    ensures |steps| == |acts| && forall k | 0 <= k < |acts| :: steps[k] == By(i, acts[k])
  {
    seq(|acts|, k requires 0 <= k < |acts| => By(i, acts[k]))
  }

  /** The five acts one after the other. */
  function GetAll(c: Client, metadata: Slot<Metadata>, d: Discovery): (Client, Slot<Metadata>) {
    var (c1, m1) := Does(c, metadata, Look);
    var (c2, m2) := Does(c1, m1, Clear);
    var (c3, m3) := Does(c2, m2, Answer(d.answer));
    var (c4, m4) := Does(c3, m3, Connect(d.connection));
    Does(c4, m4, Confirm(d.confirmation))
  }

  /** A get that nobody interrupts changes in a run its own client and the metadata cache, as `GetAll` says. */
  lemma GetInARun(steps: seq<Step>, i: nat, d: Discovery)
    requires i < |Exec(steps).clients|
    ensures var w := Exec(steps);
      var (c, metadata) := GetAll(w.clients[i], w.metadata, d);
      Exec(steps + AllBy(i, GetActs(d))) == w.(clients := w.clients[i := c], metadata := metadata)
  {
    hide Does, GetActs, GetAll;
    TogetherInARun(steps, i, GetActs(d));
    GetIsActs(Exec(steps).clients[i], Exec(steps).metadata, d);
  }

  lemma GetIsActs(c: Client, metadata: Slot<Metadata>, d: Discovery)
    ensures DoesAll(c, metadata, GetActs(d)) == GetAll(c, metadata, d)
  {
    hide Does;
    var all := GetActs(d);
    assert all[..4][..3] == all[..3] && all[..3][..2] == all[..2] && all[..2][..1] == all[..1] && all[..1][..0] == [];
    assert DoesAll(c, metadata, all[..1]) == Does(c, metadata, all[0]);
    var two := DoesAll(c, metadata, all[..2]);
    assert DoesAll(c, metadata, all[..3]) == Does(two.0, two.1, all[2]);
    var four := DoesAll(c, metadata, all[..4]);
    assert DoesAll(c, metadata, all) == Does(four.0, four.1, all[4]);
  }

  // ---------------------------------------------------------------- what a failed get leaves behind

  /** A client that has to look for its leader, and finds a cached response. */
  predicate Looks(c: Client, metadata: Slot<Metadata>) {
    c.task.Idle? && c.slot.entry.None? && metadata.entry.Some?
  }

  /** The broker that was connected to as the leader does not confirm that it is one. */
  predicate Disagrees(c: Client, d: Discovery, leader: int) {
    d.confirmation.None? || LeaderIn(d.confirmation.value, c.topic, c.partition) != Ok(leader)
  }

  /** The cached response has the topic, but names no leader, or one that can be reached and disagrees. */
  predicate Sticks(c: Client, m: Metadata, d: Discovery) {
    && Select(m, Some([c.topic])).Some?
    && match Named(m, c.topic, c.partition)
       case Err(_) => true
       case Ok(leader) => d.connection.Some? && Disagrees(c, d, leader)
  }

  predicate KeptOnFailure(c: Client, m: Metadata, d: Discovery) {
    Select(m, Some([c.topic])).Some? && (Named(m, c.topic, c.partition).Err? || d.connection.Some?)
  }

  /** A failed get keeps the cached response exactly when that has the topic and names no leader, or names one
      that can be reached: an unreachable leader removes it, a disagreeing one does not. */
  lemma FailedGetKeepsResponseIff(c: Client, metadata: Slot<Metadata>, d: Discovery)
    requires Looks(c, metadata)
    ensures var (c', metadata') := GetAll(c, metadata, d);
      var m := metadata.entry.value;
      c'.slot.entry.None? ==>
        && (metadata'.entry.Some? <==> KeptOnFailure(c, m, d))
        && (metadata'.entry.Some? ==> metadata' == metadata)
  {
    hide Select, LeaderIn;
  }

  /** A get has no effect at all, so that the next one starts from the same response, exactly in those cases. */
  lemma GetChangesNothingIff(c: Client, metadata: Slot<Metadata>, d: Discovery)
    requires Looks(c, metadata)
    ensures GetAll(c, metadata, d) == (c, metadata) <==> Sticks(c, metadata.entry.value, d)
  {
    hide Select, LeaderIn;
  }

  /** Any number of such gets of a client in a row, in any run, leaves everything as it was: the stale response is
      used again and again until somebody else removes or replaces it. */
  lemma {:induction false} StaleResponseSticks(steps: seq<Step>, i: nat, ds: seq<Discovery>)
    requires i < |Exec(steps).clients| && Looks(Exec(steps).clients[i], Exec(steps).metadata)
    requires forall k | 0 <= k < |ds| :: Sticks(Exec(steps).clients[i], Exec(steps).metadata.entry.value, ds[k])
    ensures Exec(steps + AllGets(i, ds)) == Exec(steps)
  {
    hide *;
    if ds == [] {
      NoGets(steps, i);
    } else {
      var n := |ds| - 1;
      StaleResponseSticks(steps, i, ds[..n]);
      OneStickyGet(steps + AllGets(i, ds[..n]), i, ds[n]);
      LastGet(steps, i, ds);
    }
  }

  lemma OneStickyGet(steps: seq<Step>, i: nat, d: Discovery)
    requires i < |Exec(steps).clients| && Looks(Exec(steps).clients[i], Exec(steps).metadata)
    requires Sticks(Exec(steps).clients[i], Exec(steps).metadata.entry.value, d)
    ensures Exec(steps + AllBy(i, GetActs(d))) == Exec(steps)
  {
    hide Sticks, GetAll, GetActs, Exec, AllBy;
    var w := Exec(steps);
    GetInARun(steps, i, d);
    GetChangesNothingIff(w.clients[i], w.metadata, d);
    assert w.clients[i := w.clients[i]] == w.clients;
  }

  lemma NoGets(steps: seq<Step>, i: nat)
    ensures steps + AllGets(i, []) == steps
  {
  }

  lemma LastGet(steps: seq<Step>, i: nat, ds: seq<Discovery>)
    requires ds != []
    ensures var n := |ds| - 1;
      steps + AllGets(i, ds) == steps + AllGets(i, ds[..n]) + AllBy(i, GetActs(ds[n]))
  {
    hide AllBy, GetActs;
  }

  function AllGets(i: nat, ds: seq<Discovery>): seq<Step> {
    if ds == [] then [] else AllGets(i, ds[..|ds| - 1]) + AllBy(i, GetActs(ds[|ds| - 1]))
  }

  /** A response in which `leader` leads partition 0 of the only topic. */
  function OneLeader(topic: string, leader: int): Metadata {
    Metadata([], [Topic(topic, None, [PartitionInfo(0, None, leader)])])
  }

  /** A run that reaches such a state: one refresh names leader 1, which itself says that broker 2 leads. */
  lemma DisagreeingLeaderSticks(topic: string, n: nat)
    ensures var stale := OneLeader(topic, 1);
      var d := Discovery(None, Some(7), Some(OneLeader(topic, 2)));
      var start := [Refresh(stale), NewClient(topic, 0)];
      Exec(start + AllGets(0, seq(n, _ => d))) == World(Slot(Some(stale), 1), [stale], [FreshClient(topic, 0)])
  {
    hide Exec, AllGets, Sticks, GetActs;
    var d := Discovery(None, Some(7), Some(OneLeader(topic, 2)));
    OneRefresh(topic);
    LeaderTwoDisagrees(topic);
    StaleResponseSticks([Refresh(OneLeader(topic, 1)), NewClient(topic, 0)], 0, seq(n, _ => d));
  }

  lemma OneRefresh(topic: string)
    ensures var stale := OneLeader(topic, 1);
      Exec([Refresh(stale), NewClient(topic, 0)]) == World(Slot(Some(stale), 1), [stale], [FreshClient(topic, 0)])
  {
    hide OneLeader;
    var stale := OneLeader(topic, 1);
    var start := [Refresh(stale), NewClient(topic, 0)];
    assert start[..1] == [Refresh(stale)] && [Refresh(stale)][..0] == [];
    assert Apply(Init, Refresh(stale)) == World(Slot(Some(stale), 1), [stale], []);
    assert Exec([Refresh(stale)]) == Apply(Init, Refresh(stale));
    assert Exec(start) == Apply(Exec(start[..1]), start[1]);
  }

  lemma LeaderTwoDisagrees(topic: string)
    ensures Sticks(FreshClient(topic, 0), OneLeader(topic, 1), Discovery(None, Some(7), Some(OneLeader(topic, 2))))
  {
    OneTopicIsKept(OneLeader(topic, 1).topics[0]);
    hide Retain;
    assert Named(OneLeader(topic, 1), topic, 0) == Ok(1);
    assert LeaderIn(OneLeader(topic, 2), topic, 0) == Ok(2);
  }

  lemma OneTopicIsKept(t: Topic)
    ensures Retain([t], [t.name]) == [t]
  {
    assert [t][..0] == [];
  }

  /** A get that succeeds stores a connection to the broker that both the metadata it used and the broker
      itself name as the leader. One that fails keeps what was there, and keeps the cached response or removes it. */
  lemma GetStoresTheLeader(c: Client, metadata: Slot<Metadata>, d: Discovery)
    requires c.task.Idle? && c.slot.entry.None?
    ensures var (c', metadata') := GetAll(c, metadata, d);
      && c'.task.Idle?
      && (c'.slot.entry.Some? ==>
            && d.connection.Some? && c'.slot == Store(c.slot, d.connection.value)
            && d.confirmation.Some? && LeaderIn(d.confirmation.value, c.topic, c.partition) == Ok(c'.leader)
            && (if c'.from.Some?
                then metadata.entry.Some? && c'.from.value == metadata.generation && metadata' == metadata
                     && Named(metadata.entry.value, c.topic, c.partition) == Ok(c'.leader)
                else d.answer.Some? && LeaderIn(d.answer.value, c.topic, c.partition) == Ok(c'.leader)
                     && metadata' == metadata.(entry := None)))
      && (c'.slot.entry.None? ==>
            && c'.slot == c.slot && c'.from == c.from && c'.leader == c.leader
            && metadata' == if metadata.entry.Some? && KeptOnFailure(c, metadata.entry.value, d) then metadata
                            else metadata.(entry := None))
  {
    hide Select, LeaderIn;
  }

  /** The metadata a get uses: the cached response if it has the topic, and otherwise the broker's answer. */
  function Used(c: Client, metadata: Slot<Metadata>, d: Discovery): Option<Metadata> {
    if metadata.entry.Some? && Select(metadata.entry.value, Some([c.topic])).Some?
    then Select(metadata.entry.value, Some([c.topic])) else d.answer
  }

  /** A get connects exactly if the metadata it uses names a leader, that can be reached, and confirms. */
  lemma GetSucceedsIff(c: Client, metadata: Slot<Metadata>, d: Discovery)
    requires c.task.Idle? && c.slot.entry.None?
    ensures GetAll(c, metadata, d).0.slot.entry.Some? <==>
      && Used(c, metadata, d).Some? && d.connection.Some? && d.confirmation.Some?
      && LeaderIn(Used(c, metadata, d).value, c.topic, c.partition).Ok?
      && LeaderIn(d.confirmation.value, c.topic, c.partition)
         == LeaderIn(Used(c, metadata, d).value, c.topic, c.partition)
  {
    hide Select, LeaderIn;
  }

  /** A get with a connection at hand does nothing. */
  lemma GetWithConnection(c: Client, metadata: Slot<Metadata>, d: Discovery)
    requires c.task.Idle? && c.slot.entry.Some?
    ensures GetAll(c, metadata, d) == (c, metadata)
  {
    hide Select, LeaderIn;
  }

  /** A get that is abandoned leaves its client free for the next one, without a connection it did not have. There
      is no point to abandon it between finding that the topic is missing and clearing the cache. */
  lemma GiveUpFrees(c: Client, metadata: Slot<Metadata>, act: Act)
    ensures !c.task.MustClear? ==> Does(c, metadata, GiveUp) == (c.(task := Idle), metadata)
    ensures c.task.MustClear? && act != Clear ==> Does(c, metadata, act) == (c, metadata)
  {
  }

  /** The partition client as code. */
  class PartitionBroker {
    const topic: string
    const partition: int
    var slot: Slot<Connection>
    var leader: int
    var leaderFrom: Option<nat>

    ghost function Now(): Client
      reads this
    {
      Client(topic, partition, slot, leader, leaderFrom, Idle)
    }

    constructor (topic: string, partition: int)
      ensures Now() == FreshClient(topic, partition)
    {
      this.topic := topic;
      this.partition := partition;
      slot := Empty();
      leader := -1;
      leaderFrom := None;
    }

    method LeaderOf(m: Metadata) returns (r: Result<int, LeaderError>)
      ensures r == LeaderIn(m, topic, partition)
    {
      if |m.topics| != 1 {
        return Err(NotOneTopic);
      }
      var t := m.topics[0];
      if t.name != topic {
        return Err(WrongTopic);
      }
      if t.error.Some? {
        return Err(TopicError(t.error.value));
      }
      var p := FindPartition(t.partitions, partition);
      if p.None? {
        return Err(NoPartition);
      }
      if p.value.error.Some? {
        return Err(PartitionError(p.value.error.value));
      }
      return if p.value.leader == -1 then Err(LeaderNotAvailable) else Ok(p.value.leader);
    }

    /** Connects to the leader if there is no connection. The metadata look-up may clear the metadata cache,
        and so does a leader that cannot be reached; one that disagrees does not, since its own answer never
        came from the cache. */
    method Get(metadata: MetadataCache, d: Discovery) returns (r: Option<(Connection, nat)>)
      modifies this, metadata
      ensures (Now(), metadata.slot) == GetAll(old(Now()), old(metadata.slot), d)
      ensures r == if slot.entry.Some? then Some((slot.entry.value, slot.generation)) else None
    {
      hide Select, LeaderIn;
      if slot.entry.Some? {
        return Some((slot.entry.value, slot.generation));
      }
      var cached := metadata.Get(Some([topic]));
      var m, from;
      if cached.Some? {
        m, from := cached.value.0, Some(cached.value.1);
      } else if d.answer.Some? {
        m, from := d.answer.value, None;
      } else {
        return None;
      }
      var named := LeaderOf(m);
      if named.Err? {
        return None;
      }
      if d.connection.None? {
        if from.Some? {
          metadata.InvalidateIf(from.value);
        }
        return None;
      }
      if d.confirmation.None? {
        return None;
      }
      var confirmed := LeaderOf(d.confirmation.value);
      if confirmed != named {
        return None;
      }
      slot, leader, leaderFrom := Slot(d.connection, slot.generation + 1), named.value, from;
      return Some((d.connection.value, slot.generation));
    }

    /** A stale request changes nothing; a current one drops the connection and the metadata that led to it. */
    method InvalidateIf(metadata: MetadataCache, generation: nat)
      modifies this, metadata
      ensures (Now(), metadata.slot) == Does(old(Now()), old(metadata.slot), DropLeader(generation))
    {
      if slot.generation != generation {
        return;
      }
      if leaderFrom.Some? {
        metadata.InvalidateIf(leaderFrom.value);
      }
      slot := slot.(entry := None);
    }
  }
}
