/** One key of the cache of a single runtime over the key/value store: application writes, the lazy
    writer, the store's watch queue, the collectors and reads that miss.  What the code does under
    separate locks are separate steps: the writer looks at the node, later reads the flag again and puts,
    later marks; a collector decides and later removes; the watcher compares the times of an event and
    later acts on it; a read misses, fetches the record and later sets it; a write, or the creation of a
    longer key, finds its place and later stores.  Deletes are not part of this model. */
module Eviction {
  import opened Wrappers
  import opened CacheEntry

  /** What the store keeps under the key: a value with its time, or an empty record. */
  datatype Record = Empty | Record(time: int, value: Bytes)

  /** Where the writer stands with this node; `captured` is what it would put.  Detached: the node was removed while
      the writer still had something to put for it. */
  datatype Phase =
    | Idle
    | Looked(captured: Record)
    | Wrote(captured: Record)
    | Detached(captured: Record)

  /** What the watcher is about to do with the event at the head of the queue. */
  datatype Reaction = SetIt | EchoIt | IgnoreIt | EmptyIt

  /** What others are about to do.
      `removals`: collectors bound to remove the node of this key: they decided to, or are about to and will find the
      node as it was, although another took it out of the trie meanwhile.
      `above`: such removals of a node above the key, and fresh nodes about to be stored in the place of one.
      `missed`: reads that found no node and will ask the store.  `fetched`: records that such reads are about to set.
      `branching`: creations of longer keys that found no node here and will store one without a value.
      `finds`: writes that found the node or a node above it.  `lost`: those among them whose node is gone. */
  datatype Due = Due(removals: nat, above: nat, missed: nat, fetched: seq<Record>, branching: nat, finds: nat, lost: nat)

  const NOTHING_DUE := Due(0, 0, 0, [], 0, 0, 0)

  /** `node` is the node in the trie, `queue` the watch events still to be handled, `reaction` what was decided on the
      first of them.  `last` is history: the last application write. */
  datatype State = State(
    node: Option<Entry>,
    kv: Option<Record>,
    queue: seq<Record>,
    reaction: Option<Reaction>,
    phase: Phase,
    due: Due,
    now: int,
    last: Option<Record>)

  const START := State(None, None, [], None, Idle, NOTHING_DUE, 0, None)

  /** A cache over a store that already holds the key: its constructor waits until the record is set. */
  function Loaded(time: int, value: Bytes): State {
    var r := Some(Record(time, value));
    State(Some(Filled(value, false, time)), r, [], None, Idle, NOTHING_DUE, time, r)
  }

  /** Find, PutLost: a write finds its place, and lands on a node that was removed since; Put is a write that lands in
      the trie.  Branch, Child: a longer key is created below this one.  Look: `threshold` is the age limit of the pass.
      PutInKv: `ok` tells whether the store takes the record.  Compare, React: the watcher handles an event.
      Miss, Fetch, Reload: GetValue on a key without a node.  Astray: some of what was due ends in a part of the trie
      that was cut off, or in an error of the store, and changes nothing. */
  datatype Action =
    | Find
    | Put(time: int, value: Bytes)
    | PutLost(time: int, value: Bytes)
    | Branch
    | Child
    | Look(threshold: int)
    | PutInKv(ok: bool)
    | Mark
    | Compare
    | React
    | Collect
    | Remove
    | CollectAbove
    | RemoveAbove
    | Miss
    | Fetch
    | Reload(k: nat)
    | Astray(left: Due)

  function Captured(e: Entry): Record {
    if e.syncNeeded && e.value.Some? then Record(e.time, e.value.value) else Empty
  }

  predicate Within(left: Due, due: Due) {
    && left.removals <= due.removals && left.above <= due.above && left.missed <= due.missed
    && left.branching <= due.branching && left.finds <= due.finds && left.lost == due.lost
    && forall r <- left.fetched :: r in due.fetched
  }

  predicate Enabled(s: State, a: Action) {
    match a
    case Find => true
    case Put(time, _) => time > s.now
    case PutLost(time, _) => time > s.now && s.due.lost > 0
    case Branch => s.node.None?
    case Child => s.due.branching > 0
    case Look(_) => s.node.Some? && s.phase.Idle?
    case PutInKv(_) => (s.node.Some? && s.phase.Looked?) || s.phase.Detached?
    case Mark => s.node.Some? && s.phase.Wrote?
    case Compare => s.queue != [] && s.reaction.None?
    case React => s.queue != [] && s.reaction.Some?
    case Collect => s.node.Some?
    case Remove => s.due.removals > 0
    case CollectAbove => s.node.None?
    case RemoveAbove => s.due.above > 0
    case Miss => s.node.None?
    case Fetch => s.due.missed > 0
    case Reload(k) => k < |s.due.fetched| && s.due.fetched[k].Record?
    case Astray(left) => Within(left, s.due)
  }

  /** The watcher compares an event with the time of the cached value. */
  function ReactionTo(node: Option<Entry>, r: Record): Reaction {
    var cached := if node.Some? && node.value.value.Some? then node.value.time else -1;
    match r
    case Empty => EmptyIt
    case Record(time, _) => if time > cached then SetIt else if time == cached then EchoIt else IgnoreIt
  }

  function Reacted(node: Option<Entry>, r: Record, reaction: Reaction): Option<Entry> {
    match reaction
    case SetIt => if r.Record? then Some(Filled(r.value, false, r.time)) else node
    case EchoIt => if node.Some? then Some(node.value.Echoed()) else None
    case IgnoreIt => node
    case EmptyIt => if node.Some? then Some(node.value.Emptied()) else None
  }

  /** The writer goes on with a removed node it was looking at if that still asks to be written. */
  function AfterRemoval(s: State): Phase {
    if s.phase.Detached? then s.phase
    else if s.node.Some? && s.node.value.syncNeeded && s.phase.Looked? then Detached(s.phase.captured)
    else Idle
  }

  /** The node is gone from the trie, and with it the places that writes have found. */
  function Gone(s: State): State {
    s.(node := None, phase := AfterRemoval(s), due := s.due.(finds := 0, lost := s.due.lost + s.due.finds))
  }

  function Next(s: State, a: Action): State
    requires Enabled(s, a)
  {
    match a
    case Find => s.(due := s.due.(finds := s.due.finds + 1))
    case Put(time, value) =>
      s.(node := Some(Filled(value, true, time)), now := time, last := Some(Record(time, value)))
    case PutLost(time, value) =>
      s.(now := time, last := Some(Record(time, value)), due := s.due.(lost := s.due.lost - 1))
    case Branch => s.(due := s.due.(branching := s.due.branching + 1))
    case Child =>
      s.(node := Some(Entry(None, InUse, s.now, false, true)), due := s.due.(branching := s.due.branching - 1))
    case Look(threshold) =>
      var e := s.node.value;
      s.(node := Some(if e.syncNeeded then e else e.Aged(threshold)), phase := Looked(Captured(e)))
    case PutInKv(ok) =>
      var r := s.phase.captured;
      if s.phase.Detached? then if ok then s.(kv := Some(r), queue := s.queue + [r], phase := Idle) else s.(phase := Idle)
      else if s.node.value.syncNeeded && ok then s.(kv := Some(r), queue := s.queue + [r], phase := Wrote(r))
      else s.(phase := Idle)
    case Mark =>
      var time := if s.phase.captured.Record? then s.phase.captured.time else 0;
      s.(node := Some(s.node.value.Written(time)), phase := Idle)
    case Compare => s.(reaction := Some(ReactionTo(s.node, s.queue[0])))
    case React => s.(node := Reacted(s.node, s.queue[0], s.reaction.value), queue := s.queue[1..], reaction := None)
    case Collect =>
      var e := s.node.value.Collected();
      s.(node := Some(e), due := s.due.(removals := s.due.removals + if e.Droppable() then 1 else 0))
    case Remove => Gone(s).(due := Gone(s).due.(removals := s.due.removals - 1))
    case CollectAbove => s.(due := s.due.(above := s.due.above + 1))
    case RemoveAbove => Gone(s).(due := Gone(s).due.(above := s.due.above - 1))
    case Miss => s.(due := s.due.(missed := s.due.missed + 1))
    case Fetch =>
      var found := s.kv.Some? && s.kv.value.Record?;
      s.(due := s.due.(missed := s.due.missed - 1, fetched := s.due.fetched + if found then [s.kv.value] else []))
    case Reload(k) =>
      var r := s.due.fetched[k];
      s.(node := Some(Filled(r.value, false, r.time)), due := s.due.(fetched := s.due.fetched[..k] + s.due.fetched[k + 1..]))
    case Astray(left) => s.(due := left)
  }

  /** What GetValue returns.  On a key without a node whose record is empty the code slices an empty value and fails;
      here it returns nothing. */
  function Read(s: State): Option<Bytes> {
    if s.node.Some? then s.node.value.value
    else if s.kv.Some? && s.kv.value.Record? then Some(s.kv.value.value)
    else None
  }

  function LastWritten(s: State): Option<Bytes> {
    if s.last.Some? && s.last.value.Record? then Some(s.last.value.value) else None
  }

  /** When a write may land, besides undisturbed.
      `race`: after the writer found nothing to put and before it reads the flag again.
      `removal`: while a collector is bound to remove the node of the key.
      `above`: while a node above the key is about to be removed or replaced.
      `reload`: between a missed read's look into the cache and its setting of the cache.
      `event`: between the watcher's comparing of an event and its acting on it.
      `lost`: on a node that was removed after the write had found its way to it.
      `orphan`: the creation of a longer key may store a node without a value here although the key was written. */
  datatype Hazards = Hazards(race: bool, removal: bool, above: bool, reload: bool, event: bool, lost: bool, orphan: bool)

  predicate Allowed(h: Hazards, s: State, a: Action) {
    && Enabled(s, a)
    && (a.Put? && s.phase == Looked(Empty) ==> h.race)
    && (a.Put? && s.due.removals > 0 ==> h.removal)
    && (a.Put? && s.due.above > 0 ==> h.above)
    && (a.Put? && (s.due.missed > 0 || s.due.fetched != []) ==> h.reload)
    && (a.Put? && s.reaction.Some? ==> h.event)
    && (a.PutLost? ==> h.lost)
    && (a.Child? && s.last.Some? ==> h.orphan)
  }

  ghost predicate StepBy(h: Hazards, s: State, a: Action, s': State) {
    Allowed(h, s, a) && s' == Next(s, a)
  }

  ghost predicate Step(h: Hazards, s: State, s': State) {
    exists a :: StepBy(h, s, a, s')
  }

  ghost predicate IsFirst(s: State) {
    s == START || exists time, value :: time > 0 && s == Loaded(time, value)
  }

  ghost predicate IsRun(h: Hazards, run: seq<State>) {
    && run != []
    && IsFirst(run[0])
    && forall j, k :: 0 <= j && k == j + 1 && k < |run| ==> Step(h, run[j], run[k])
  }

  const SAFE := Hazards(false, false, false, false, false, false, false)
}
