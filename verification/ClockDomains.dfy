/** Clock domains: nodes of the simulated system's tree inherit phase, rank and frequency from their nearest ancestor
    that sets them, write what they inherit into themselves while the tree is being configured, and are
    registered under the result. */
module ClockDomains {
  import opened Integers
  import opened Wrappers

  datatype Phase = UnknownPhase | SchedulePhase | BoundPhase | WeavePhase

  // A clock is made per registered (phase, rank, frequency).
  datatype Key = Key(phase: Phase, rank: nat, freq: real)

  const UNSET_RANK: int := -1
  const UNSET_FREQ: real := -1.0

  // Ranks are passed as 32-bit unsigned and kept as 32-bit signed numbers.
  function ToInt32(n: uint32): int32 {
    if n < 0x8000_0000 then n else n - TWO_32
  }

  function ToUint32(n: int32): uint32 {
    if n >= 0 then n else n + TWO_32
  }

  // A rank comes back as it went in, and half of the ranks are kept as they are.
  lemma RanksComeBack(n: uint32)
    ensures ToUint32(ToInt32(n)) == n
    ensures ToInt32(n) == if n < 0x8000_0000 then n else n - 0x1_0000_0000
  {
  }

  // A node of the tree; `clocked` says whether it is a ClockedObject.
  class Node {
    const parent: Node?
    const clocked: bool
    ghost const ancestors: set<Node>
    var domainSet: bool
    var phase: Phase
    var rank: int32
    var freq: real
    var clock: Option<Key>

    constructor (parent: Node?, clocked: bool)
      requires parent != null ==> parent.Placed()
      ensures this.parent == parent && this.clocked == clocked && Placed()
      ensures !domainSet && phase == UnknownPhase && rank == UNSET_RANK && freq == UNSET_FREQ && clock == None
      ensures GetPhase() == InheritedPhase(parent) && GetRank() == InheritedRank(parent)
      ensures GetClockFrequency() == InheritedFrequency(parent)
      ensures parent == null ==> GetPhase() == UnknownPhase && GetRank() == -1 && GetClockFrequency() == -1.0
      ensures parent != null && parent.clocked ==>
                && GetPhase() == parent.GetPhase() && GetRank() == parent.GetRank()
                && GetClockFrequency() == parent.GetClockFrequency()
    {
      this.parent, this.clocked := parent, clocked;
      ancestors := if parent == null then {} else parent.ancestors + {parent};
      domainSet, phase, rank, freq, clock := false, UnknownPhase, UNSET_RANK, UNSET_FREQ, None;
    }

    ghost predicate Placed()
      decreases ancestors
    {
      && this !in ancestors
      && ancestors == Upwards(parent)
      && (parent != null ==> parent !in parent.ancestors && parent.Placed())
    }

    // What the node holds, set or written by itself.
    ghost function Held(): Settings
      reads `phase, `rank, `freq
    {
      Settings(phase, rank, freq)
    }

    // Whether it registers itself.
    ghost predicate Sets()
      reads `domainSet
    {
      clocked && domainSet
    }

    // What the getters find after a setter: the value itself, whatever the nodes above hold, except that an unknown
    // phase, the rank 2^32 - 1 and the frequency -1 stand for none.
    ghost predicate FindsPhase(phase: Phase)
      requires Placed()
      reads this, ancestors
    {
      GetPhase() == if phase.UnknownPhase? then InheritedPhase(parent) else phase
    }

    ghost predicate FindsRank(rank: uint32)
      requires Placed()
      reads this, ancestors
    {
      GetRank()
      == if rank < 0x8000_0000 then rank
         else if rank < 0xffff_ffff then rank - 0x1_0000_0000
         else InheritedRank(parent)
    }

    ghost predicate FindsFrequency(freq: real)
      requires Placed()
      reads this, ancestors
    {
      GetClockFrequency() == if freq == -1.0 then InheritedFrequency(parent) else freq
    }

    /* Setters */

    method SetClockDomain(phase: Phase, rank: uint32, freq: real)
      modifies `domainSet, `phase, `rank, `freq
      ensures domainSet && this.phase == phase && this.rank == ToInt32(rank) && this.freq == freq
      ensures Placed() ==> FindsPhase(phase) && FindsRank(rank) && FindsFrequency(freq)
    {
      this.domainSet, this.phase, this.rank, this.freq := true, phase, ToInt32(rank), freq;
    }

    // The single setters hand the other two values around through SetClockDomain and leave them as they are.
    method SetPhase(phase: Phase)
      modifies `domainSet, `phase, `rank, `freq
      ensures domainSet && this.phase == phase && rank == old(rank) && freq == old(freq)
      ensures Placed() ==> FindsPhase(phase)
      ensures Placed() ==> GetRank() == old(GetRank()) && GetClockFrequency() == old(GetClockFrequency())
    {
      SetClockDomain(phase, ToUint32(rank), freq);
    }

    method SetRank(rank: uint32)
      modifies `domainSet, `phase, `rank, `freq
      ensures domainSet && this.rank == ToInt32(rank) && phase == old(phase) && freq == old(freq)
      ensures Placed() ==> FindsRank(rank)
      ensures Placed() ==> GetPhase() == old(GetPhase()) && GetClockFrequency() == old(GetClockFrequency())
    {
      SetClockDomain(phase, rank, freq);
    }

    method SetFrequency(freq: real)
      modifies `domainSet, `phase, `rank, `freq
      ensures domainSet && this.freq == freq && phase == old(phase) && rank == old(rank)
      ensures Placed() ==> FindsFrequency(freq)
      ensures Placed() ==> GetPhase() == old(GetPhase()) && GetRank() == old(GetRank())
    {
      SetClockDomain(phase, ToUint32(rank), freq);
    }

    /* Getters, while the tree is not configured yet */

    function GetPhase(): Phase
      requires Placed()
      reads this, ancestors
      decreases Upwards(this), 0
    {
      if phase == UnknownPhase then InheritedPhase(parent) else phase
    }

    function GetRank(): int32
      requires Placed()
      reads this, ancestors
      decreases Upwards(this), 0
    {
      if rank == UNSET_RANK then InheritedRank(parent) else rank
    }

    function GetClockFrequency(): real
      requires Placed()
      reads this, ancestors
      decreases Upwards(this), 0
    {
      if freq == UNSET_FREQ then InheritedFrequency(parent) else freq
    }
  }

  // A node and everything above it.
  ghost function Upwards(n: Node?): set<Node> {
    if n == null then {} else n.ancestors + {n}
  }

  // The loops over getParent(): up to the next ClockedObject, and on from there.
  function InheritedPhase(n: Node?): Phase
    requires n != null ==> n.Placed()
    reads Upwards(n)
    decreases Upwards(n), 1
  {
    if n == null then UnknownPhase else if n.clocked then n.GetPhase() else InheritedPhase(n.parent)
  }

  function InheritedRank(n: Node?): int32
    requires n != null ==> n.Placed()
    reads Upwards(n)
    decreases Upwards(n), 1
  {
    if n == null then UNSET_RANK else if n.clocked then n.GetRank() else InheritedRank(n.parent)
  }

  function InheritedFrequency(n: Node?): real
    requires n != null ==> n.Placed()
    reads Upwards(n)
    decreases Upwards(n), 1
  {
    if n == null then UNSET_FREQ else if n.clocked then n.GetClockFrequency() else InheritedFrequency(n.parent)
  }

  /* Lookups as a function of the values the nodes hold */

  datatype Settings = Settings(phase: Phase, rank: int32, freq: real)

  const UNSET := Settings(UnknownPhase, UNSET_RANK, UNSET_FREQ)

  ghost function Snapshot(nodes: set<Node>): map<Node, Settings>
    reads nodes
  {
    map m | m in nodes :: m.Held()
  }

  function Inherit(own: Settings, above: Settings): Settings {
    Settings(if own.phase == UnknownPhase then above.phase else own.phase,
             if own.rank == UNSET_RANK then above.rank else own.rank,
             if own.freq == UNSET_FREQ then above.freq else own.freq)
  }

  ghost function Resolve(n: Node?, values: map<Node, Settings>): Settings
    requires (n != null ==> n.Placed()) && Upwards(n) <= values.Keys
    decreases Upwards(n)
  {
    if n == null then UNSET
    else if n.clocked then Inherit(values[n], Resolve(n.parent, values))
    else Resolve(n.parent, values)
  }

  // The three getters look up the three parts.
  lemma {:induction false} LookupsResolve(n: Node?, nodes: set<Node>)
    requires (n != null ==> n.Placed()) && Upwards(n) <= nodes
    ensures Settings(InheritedPhase(n), InheritedRank(n), InheritedFrequency(n)) == Resolve(n, Snapshot(nodes))
    decreases Upwards(n)
  {
    if n != null {
      LookupsResolve(n.parent, nodes);
    }
  }

  // The nodes of a tree, with everything above them.
  ghost predicate Tree(nodes: set<Node>) {
    forall n :: n in nodes ==> n.Placed() && Upwards(n) <= nodes
  }

  // What the nodes hold once those of xs have written their lookups into themselves.
  ghost function Memoised(xs: set<Node>, values: map<Node, Settings>): map<Node, Settings>
    requires Tree(values.Keys)
  {
    map n | n in values :: if n in xs then Resolve(n, values) else values[n]
  }

  /** Writing lookups into any of the nodes changes no lookup, of those nodes or any other. */
  lemma {:induction false} MemoKeepsLookups(n: Node?, xs: set<Node>, values: map<Node, Settings>)
    requires Tree(values.Keys) && Upwards(n) <= values.Keys
    requires forall x :: x in xs ==> x.clocked
    ensures Resolve(n, Memoised(xs, values)) == Resolve(n, values)
    decreases Upwards(n)
  {
    if n != null {
      MemoKeepsLookups(n.parent, xs, values);
    }
  }

  // One more node: what it finds among the values of the others is what it found at first.
  lemma MemoiseOne(n: Node, xs: set<Node>, values: map<Node, Settings>)
    requires Tree(values.Keys) && n in values && n.clocked
    requires forall x :: x in xs ==> x.clocked
    ensures var now := Memoised(xs, values); now[n := Resolve(n, now)] == Memoised(xs + {n}, values)
  {
    MemoKeepsLookups(n, xs, values);
  }

  /* The reference: the nearest explicit value on the path to the root */

  // The values of the ClockedObjects from n upwards.
  ghost function Path(n: Node?, values: map<Node, Settings>): seq<Settings>
    requires (n != null ==> n.Placed()) && Upwards(n) <= values.Keys
    decreases Upwards(n)
  {
    if n == null then [] else (if n.clocked then [values[n]] else []) + Path(n.parent, values)
  }

  // v is the first value of the path that is set, or all are unset and so is v.
  ghost predicate Nearest<T>(path: seq<T>, unset: T, v: T) {
    || (v == unset && forall i :: 0 <= i < |path| ==> path[i] == unset)
    || (v != unset && exists i :: 0 <= i < |path| && path[i] == v && forall j :: 0 <= j < i ==> path[j] == unset)
  }

  lemma NearestCons<T>(x: T, path: seq<T>, unset: T, v: T)
    requires Nearest(path, unset, v)
    ensures Nearest([x] + path, unset, if x == unset then v else x)
  {
    var longer := [x] + path;
    if x != unset {
      assert longer[0] == x;
    } else if v != unset {
      var i :| 0 <= i < |path| && path[i] == v && forall j :: 0 <= j < i ==> path[j] == unset;
      assert longer[i + 1] == v;
    }
  }

  function Phases(path: seq<Settings>): seq<Phase> {
    if path == [] then [] else [path[0].phase] + Phases(path[1..])
  }

  function Ranks(path: seq<Settings>): seq<int32> {
    if path == [] then [] else [path[0].rank] + Ranks(path[1..])
  }

  function Frequencies(path: seq<Settings>): seq<real> {
    if path == [] then [] else [path[0].freq] + Frequencies(path[1..])
  }

  ghost predicate NearestSettings(path: seq<Settings>, v: Settings) {
    && Nearest(Phases(path), UnknownPhase, v.phase)
    && Nearest(Ranks(path), -1, v.rank)
    && Nearest(Frequencies(path), -1.0, v.freq)
  }

  /** A lookup finds, for each of the three parts on its own, the nearest explicit value on the path to the root. */
  lemma {:induction false} LookupIsNearest(n: Node?, values: map<Node, Settings>)
    requires (n != null ==> n.Placed()) && Upwards(n) <= values.Keys
    ensures NearestSettings(Path(n, values), Resolve(n, values))
    decreases Upwards(n)
  {
    if n != null {
      var above, v := Path(n.parent, values), Resolve(n.parent, values);
      LookupIsNearest(n.parent, values);
      if n.clocked {
        assert Path(n, values)[1..] == above;
        NearestCons(values[n].phase, Phases(above), UnknownPhase, v.phase);
        NearestCons(values[n].rank, Ranks(above), UNSET_RANK, v.rank);
        NearestCons(values[n].freq, Frequencies(above), UNSET_FREQ, v.freq);
      } else {
        assert Path(n, values) == above;
      }
    }
  }

  /* Registration */

  ghost predicate Registrable(k: Key) {
    k.phase != UnknownPhase && (k.phase == SchedulePhase ==> k.rank == 0)
  }

  ghost function KeyOf(v: Settings): Key {
    Key(v.phase, ToUint32(v.rank), v.freq)
  }

  // The nodes that register themselves.
  ghost function Setters(nodes: set<Node>): set<Node>
    reads nodes
  {
    set n | n in nodes && n.Sets()
  }

  ghost function Visited(order: seq<Node>, setters: set<Node>): set<Node> {
    set n | n in order && n in setters
  }

  // The visited nodes that are registered under k, in the order of the visit.
  ghost function Registered(order: seq<Node>, setters: set<Node>, values: map<Node, Settings>, k: Key): seq<Node>
    requires Tree(values.Keys) && forall n :: n in order ==> n in values
  {
    if order == [] then []
    else
      var n := order[|order| - 1];
      Registered(order[..|order| - 1], setters, values, k)
      + if n in setters && KeyOf(Resolve(n, values)) == k then [n] else []
  }

  /** A node is registered under the key of its lookup, as often as it is visited, and under no other key. */
  lemma {:induction false} OneBucket(order: seq<Node>, setters: set<Node>, values: map<Node, Settings>, k: Key, n: Node)
    requires Tree(values.Keys) && (forall m :: m in order ==> m in values) && n in values
    ensures multiset(Registered(order, setters, values, k))[n]
            == if n in setters && KeyOf(Resolve(n, values)) == k then multiset(order)[n] else 0
  {
    if order != [] {
      var front, last := order[..|order| - 1], order[|order| - 1];
      assert order == front + [last];
      OneBucket(front, setters, values, k, n);
    }
  }

  lemma ExactlyOneBucket(order: seq<Node>, setters: set<Node>, values: map<Node, Settings>)
    requires Tree(values.Keys) && forall m :: m in order ==> m in values
    ensures forall k, n :: n in Registered(order, setters, values, k)
              <==> n in order && n in setters && KeyOf(Resolve(n, values)) == k
  {
    forall k, n
      ensures n in Registered(order, setters, values, k)
              <==> n in order && n in setters && KeyOf(Resolve(n, values)) == k
    {
      var rs := Registered(order, setters, values, k);
      assert n in rs <==> n in multiset(rs);
      assert n in order <==> n in multiset(order);
      if n in values {
        OneBucket(order, setters, values, k, n);
      } else {
        RegisteredAreVisited(order, setters, values, k);
      }
    }
  }

  lemma {:induction false} RegisteredAreVisited(
    order: seq<Node>, setters: set<Node>, values: map<Node, Settings>, k: Key)
    requires Tree(values.Keys) && forall n :: n in order ==> n in values
    ensures forall n :: n in Registered(order, setters, values, k) ==> n in order
  {
    if order != [] {
      RegisteredAreVisited(order[..|order| - 1], setters, values, k);
    }
  }

  lemma MemoKeepsAll(xs: set<Node>, values: map<Node, Settings>)
    requires Tree(values.Keys) && forall x :: x in xs ==> x.clocked
    ensures forall n :: n in values ==> Resolve(n, Memoised(xs, values)) == Resolve(n, values)
  {
    forall n | n in values
      ensures Resolve(n, Memoised(xs, values)) == Resolve(n, values)
    {
      MemoKeepsLookups(n, xs, values);
    }
  }

  lemma VisitOne(order: seq<Node>, i: nat, setters: set<Node>, values: map<Node, Settings>)
    requires Tree(values.Keys) && i < |order| && order[i] in values && forall x :: x in setters ==> x.clocked
    ensures var (n, now) := (order[i], Memoised(Visited(order[..i], setters), values));
            Memoised(Visited(order[..i + 1], setters), values)
            == if n in setters then now[n := Resolve(n, now)] else now
  {
    var n, xs := order[i], Visited(order[..i], setters);
    assert order[..i + 1] == order[..i] + [n];
    if n in setters {
      assert Visited(order[..i + 1], setters) == xs + {n};
      MemoiseOne(n, xs, values);
    } else {
      assert Visited(order[..i + 1], setters) == xs;
    }
  }

  lemma RegisterOne(order: seq<Node>, i: nat, setters: set<Node>, values: map<Node, Settings>, k: Key, b: seq<Node>)
    requires Tree(values.Keys) && i < |order| && forall n :: n in order ==> n in values
    ensures b + Registered(order[..i + 1], setters, values, k)
         == (b + Registered(order[..i], setters, values, k))
            + if order[i] in setters && KeyOf(Resolve(order[i], values)) == k then [order[i]] else []
  {
    assert order[..i + 1][..i] == order[..i];
  }

  ghost predicate AllRegistrable(order: seq<Node>, setters: set<Node>, values: map<Node, Settings>)
    requires Tree(values.Keys) && forall n :: n in order ==> n in values
  {
    forall n :: n in order && n in setters ==> Registrable(KeyOf(Resolve(n, values)))
  }

  lemma RegistrableSoFar(order: seq<Node>, i: nat, setters: set<Node>, values: map<Node, Settings>)
    requires Tree(values.Keys) && i < |order| && (forall n :: n in order ==> n in values)
    requires AllRegistrable(order[..i], setters, values)
    ensures if order[i] in setters ==> Registrable(KeyOf(Resolve(order[i], values)))
            then AllRegistrable(order[..i + 1], setters, values) else !AllRegistrable(order, setters, values)
  {
    assert order[..i + 1] == order[..i] + [order[i]];
  }

  // The index of nodes that AbstractSystem keeps, and the clocks made from it.
  class Domains {
    var schedulePhase: map<real, seq<Node>>
    var boundPhase: map<nat, map<real, seq<Node>>>
    var weavePhase: map<nat, map<real, seq<Node>>>

    constructor ()
      ensures forall k: Key :: Bucket(k) == []
    {
      schedulePhase, boundPhase, weavePhase := map[], map[], map[];
    }

    ghost function Bucket(k: Key): seq<Node>
      reads this
    {
      match k.phase
      case UnknownPhase => []
      case SchedulePhase => if k.rank == 0 && k.freq in schedulePhase then schedulePhase[k.freq] else []
      case BoundPhase => if k.rank in boundPhase && k.freq in boundPhase[k.rank] then boundPhase[k.rank][k.freq] else []
      case WeavePhase => if k.rank in weavePhase && k.freq in weavePhase[k.rank] then weavePhase[k.rank][k.freq] else []
    }

    // registerClockDomain; `ok` is false where it throws.
    method RegisterClockDomain(node: Node, k: Key) returns (ok: bool)
      modifies this
      ensures ok <==> Registrable(k)
      ensures ok <==> k.phase != UnknownPhase && (k.phase == SchedulePhase ==> k.rank == 0)
      ensures forall j: Key :: Bucket(j) == old(Bucket(j)) + if ok && j == k then [node] else []
    {
      ok := true;
      if k.phase == SchedulePhase && k.rank != 0 {
        return false;
      }
      match k.phase {
        case SchedulePhase => schedulePhase := Push(schedulePhase, k.freq, node);
        case BoundPhase =>
          var buckets := if k.rank in boundPhase then boundPhase[k.rank] else map[];
          boundPhase := boundPhase[k.rank := Push(buckets, k.freq, node)];
        case WeavePhase =>
          var buckets := if k.rank in weavePhase then weavePhase[k.rank] else map[];
          weavePhase := weavePhase[k.rank := Push(buckets, k.freq, node)];
        case UnknownPhase => ok := false;
      }
    }

    // onConfiguring_ of one ClockedObject.
    method OnConfiguring(n: Node, ghost nodes: set<Node>) returns (ok: bool)
      requires n.Placed() && n.clocked && Upwards(n) <= nodes
      modifies this, n`phase, n`rank, n`freq
      ensures ok <==> (n.domainSet ==> Registrable(KeyOf(Resolve(n, old(Snapshot(nodes))))))
      ensures Snapshot(nodes)
           == if n.domainSet then old(Snapshot(nodes))[n := Resolve(n, old(Snapshot(nodes)))]
              else old(Snapshot(nodes))
      ensures forall k: Key :: Bucket(k) == old(Bucket(k))
                + if n.domainSet && ok && KeyOf(Resolve(n, old(Snapshot(nodes)))) == k then [n] else []
    {
      ok := true;
      if n.domainSet {
        ghost var v := Snapshot(nodes);
        ghost var found := Resolve(n, v);
        LookupsResolve(n.parent, nodes);
        assert n !in Upwards(n.parent);
        n.phase := n.GetPhase();
        n.freq := n.GetClockFrequency();
        n.rank := n.GetRank();
        assert n.Held() == found;
        assert Snapshot(nodes) == v[n := found];
        ok := RegisterClockDomain(n, Key(n.phase, ToUint32(n.rank), n.freq));
      }
    }

    // The buckets hold what they held before, and the nodes that were registered on the way.
    ghost predicate Grown(before: imap<Key, seq<Node>>, order: seq<Node>, setters: set<Node>, v: map<Node, Settings>)
      requires Tree(v.Keys) && forall n :: n in order ==> n in v
      reads this
    {
      forall k: Key :: k in before && Bucket(k) == before[k] + Registered(order, setters, v, k)
    }

    // The turn of enterConfiguring for n, when the nodes before it have been visited.
    method ConfigureOne(n: Node, ghost nodes: set<Node>, ghost setters: set<Node>, ghost order: seq<Node>,
                        ghost i: nat, ghost v: map<Node, Settings>, ghost before: imap<Key, seq<Node>>)
      returns (ok: bool)
      requires Tree(nodes) && v.Keys == nodes && (forall m :: m in order ==> m in nodes) && setters == Setters(nodes)
      requires i < |order| && order[i] == n && Snapshot(nodes) == Memoised(Visited(order[..i], setters), v)
      requires Grown(before, order[..i], setters, v) && AllRegistrable(order[..i], setters, v)
      modifies this, n`phase, n`rank, n`freq
      ensures Snapshot(nodes) == Memoised(Visited(order[..i + 1], setters), v)
      ensures ok ==> Grown(before, order[..i + 1], setters, v)
      ensures if ok then AllRegistrable(order[..i + 1], setters, v) else !AllRegistrable(order, setters, v)
    {
      ok := true;
      VisitOne(order, i, setters, v);
      RegistrableSoFar(order, i, setters, v);
      if n.clocked {
        MemoKeepsLookups(n, Visited(order[..i], setters), v);
        ok := OnConfiguring(n, nodes);
      }
      if ok {
        forall k: Key
          ensures Bucket(k) == before[k] + Registered(order[..i + 1], setters, v, k)
        {
          RegisterOne(order, i, setters, v, k, before[k]);
        }
      }
    }

    // enterConfiguring: onConfiguring_ of every ClockedObject, in any order, until one throws.
    method ConfigureAll(order: seq<Node>, ghost nodes: set<Node>, ghost setters: set<Node>) returns (ok: bool)
      requires Tree(nodes) && (forall n :: n in order ==> n in nodes) && setters == Setters(nodes)
      modifies this, nodes`phase, nodes`rank, nodes`freq
      ensures ok <==> forall n :: n in order && n in setters ==> Registrable(KeyOf(old(Resolve(n, Snapshot(nodes)))))
      ensures ok ==> Snapshot(nodes) == Memoised(Visited(order, setters), old(Snapshot(nodes)))
      ensures ok ==> forall k: Key :: Bucket(k) == old(Bucket(k)) + Registered(order, setters, old(Snapshot(nodes)), k)
      ensures forall n :: n in nodes ==> Resolve(n, Snapshot(nodes)) == old(Resolve(n, Snapshot(nodes)))
    {
      ghost var v, before := Snapshot(nodes), imap k: Key | true :: Bucket(k);
      ok := true;
      for i := 0 to |order|
        invariant ok
        invariant Snapshot(nodes) == Memoised(Visited(order[..i], setters), v)
        invariant AllRegistrable(order[..i], setters, v)
        invariant Grown(before, order[..i], setters, v)
      {
        ok := ConfigureOne(order[i], nodes, setters, order, i, v, before);
        if !ok {
          MemoKeepsAll(Visited(order[..i + 1], setters), v);
          return;
        }
      }
      assert order[..|order|] == order;
      MemoKeepsAll(Visited(order, setters), v);
    }

    // The same, said of the nodes: those that are to register hold what they looked up and are each in their bucket.
    method EnterConfiguring(order: seq<Node>, ghost nodes: set<Node>, ghost setters: set<Node>) returns (ok: bool)
      requires Tree(nodes) && (forall n :: n in nodes && n.clocked <==> n in order) && setters == Setters(nodes)
      requires forall k: Key :: Bucket(k) == []
      modifies this, nodes`phase, nodes`rank, nodes`freq
      ensures ok <==> forall n :: n in setters ==> Registrable(KeyOf(old(Resolve(n, Snapshot(nodes)))))
      ensures ok ==> forall n :: n in setters ==> NearestSettings(old(Path(n, Snapshot(nodes))), n.Held())
      ensures ok ==> forall n :: n in nodes && n !in setters ==> n.Held() == old(n.Held())
      ensures ok ==> Indexes(setters)
    {
      ghost var v := Snapshot(nodes);
      ok := ConfigureAll(order, nodes, setters);
      if ok {
        ghost var now := Snapshot(nodes);
        assert forall k: Key :: Bucket(k) == Registered(order, setters, v, k);
        AllNearest(order, setters, v);
        forall n | n in nodes
          ensures n.Held() == if n in setters then Resolve(n, v) else v[n]
        {
          assert n.Held() == now[n];
        }
        IndexesHeld(order, setters, v);
      }
    }

    // Every node is in the bucket of what it holds, so the maps of the three phases have none in common.
    ghost predicate Indexes(setters: set<Node>)
      reads this, setters
    {
      && (forall k: Key :: forall n :: n in Bucket(k) ==> n in setters && KeyOf(n.Held()) == k)
      && (forall n :: n in setters ==> n in Bucket(KeyOf(n.Held())))
    }

    lemma IndexesHeld(order: seq<Node>, setters: set<Node>, values: map<Node, Settings>)
      requires Tree(values.Keys) && (forall n :: n in order ==> n in values) && forall n :: n in setters ==> n in order
      requires forall k: Key :: Bucket(k) == Registered(order, setters, values, k)
      requires forall n :: n in setters ==> n.Held() == Resolve(n, values)
      ensures Indexes(setters)
    {
      ExactlyOneBucket(order, setters, values);
      forall k: Key, n | n in Bucket(k)
        ensures n in setters && KeyOf(n.Held()) == k
      {
        assert n in Registered(order, setters, values, k);
      }
      forall n | n in setters
        ensures n in Bucket(KeyOf(n.Held()))
      {
        assert n in Registered(order, setters, values, KeyOf(n.Held()));
      }
    }

    lemma BucketsAre(setters: set<Node>)
      requires Indexes(setters)
      ensures forall f, n :: f in schedulePhase && n in schedulePhase[f] ==>
                n in setters && n.phase == SchedulePhase && n.freq == f
      ensures forall r, f, n :: In(boundPhase, r, f, n) ==>
                n in setters && n.phase == BoundPhase && ToUint32(n.rank) == r && n.freq == f
      ensures forall r, f, n :: In(weavePhase, r, f, n) ==>
                n in setters && n.phase == WeavePhase && ToUint32(n.rank) == r && n.freq == f
    {
      forall f, n | f in schedulePhase && n in schedulePhase[f]
        ensures n in setters && n.phase == SchedulePhase && n.freq == f
      {
        assert n in Bucket(Key(SchedulePhase, 0, f));
      }
      forall r, f, n | In(boundPhase, r, f, n)
        ensures n in setters && n.phase == BoundPhase && ToUint32(n.rank) == r && n.freq == f
      {
        assert n in Bucket(Key(BoundPhase, r, f));
      }
      forall r, f, n | In(weavePhase, r, f, n)
        ensures n in setters && n.phase == WeavePhase && ToUint32(n.rank) == r && n.freq == f
      {
        assert n in Bucket(Key(WeavePhase, r, f));
      }
    }

    // buildClockDomains: a clock for every bucket, and every node of the bucket gets it.
    method BuildClockDomains(ghost nodes: set<Node>, ghost setters: set<Node>)
      requires forall n :: n in setters ==> n in nodes
      requires Indexes(setters)
      modifies nodes`clock
      ensures forall n :: n in setters ==> n.clock == Some(KeyOf(n.Held()))
      ensures forall n :: n in nodes && n !in setters ==> n.clock == old(n.clock)
    {
      BucketsAre(setters);
      BuildRank(schedulePhase, SchedulePhase, 0, nodes);
      BuildPhase(boundPhase, BoundPhase, nodes);
      BuildPhase(weavePhase, WeavePhase, nodes);
      forall n | n in setters
        ensures n.clock == Some(KeyOf(n.Held()))
      {
        var k := KeyOf(n.Held());
        assert n in Bucket(k);
        match k.phase {
          case UnknownPhase =>
          case SchedulePhase =>
          case BoundPhase => assert In(boundPhase, k.rank, k.freq, n);
          case WeavePhase => assert In(weavePhase, k.rank, k.freq, n);
        }
      }
    }
  }

  ghost predicate In(ranks: map<nat, map<real, seq<Node>>>, r: nat, f: real, n: Node) {
    r in ranks && f in ranks[r] && n in ranks[r][f]
  }

  method BuildPhase(ranks: map<nat, map<real, seq<Node>>>, phase: Phase, ghost nodes: set<Node>)
    requires forall r, f, n :: In(ranks, r, f, n) ==> n in nodes && ToUint32(n.rank) == r && n.freq == f
    modifies nodes`clock
    ensures forall r, f, n :: In(ranks, r, f, n) ==> n.clock == Some(Key(phase, r, f))
    ensures forall n :: n in nodes && (forall r, f :: !In(ranks, r, f, n)) ==> n.clock == old(n.clock)
  {
    var todo := ranks.Keys;
    while |todo| > 0
      invariant todo <= ranks.Keys
      invariant forall r, f, n :: In(ranks, r, f, n) && r !in todo ==> n.clock == Some(Key(phase, r, f))
      invariant forall n :: n in nodes && (forall r, f :: In(ranks, r, f, n) ==> r in todo) ==> n.clock == old(n.clock)
    {
      var r: nat :| r in todo;
      forall f, n | f in ranks[r] && n in ranks[r][f]
        ensures In(ranks, r, f, n)
      {
      }
      BuildRank(ranks[r], phase, r, nodes);
      todo := todo - {r};
    }
  }

  lemma SomeFrequency(s: set<real>)
    requires |s| > 0
    ensures exists f: real :: f in s
  {
    assert (forall f: real :: f !in s) ==> s == {};
  }

  // buildRank: every node of a frequency of the rank gets that frequency's clock.
  method BuildRank(domains: map<real, seq<Node>>, phase: Phase, rank: nat, ghost nodes: set<Node>)
    requires forall f, n :: f in domains && n in domains[f] ==> n in nodes && n.freq == f
    modifies nodes`clock
    ensures forall f, n :: f in domains && n in domains[f] ==> n.clock == Some(Key(phase, rank, f))
    ensures forall n :: n in nodes && (forall f :: f in domains ==> n !in domains[f]) ==> n.clock == old(n.clock)
  {
    var todo := domains.Keys;
    while |todo| > 0
      invariant todo <= domains.Keys
      invariant forall f, n :: f in domains && f !in todo && n in domains[f] ==> n.clock == Some(Key(phase, rank, f))
      invariant forall n :: n in nodes && (forall f :: f in domains && f !in todo ==> n !in domains[f]) ==>
                  n.clock == old(n.clock)
    {
      SomeFrequency(todo);
      var f: real :| f in todo;
      SetClocks(domains[f], Key(phase, rank, f), nodes);
      todo := todo - {f};
    }
  }

  method SetClocks(members: seq<Node>, k: Key, ghost nodes: set<Node>)
    requires forall n :: n in members ==> n in nodes
    modifies nodes`clock
    ensures forall n :: n in nodes ==> n.clock == if n in members then Some(k) else old(n.clock)
  {
    for i := 0 to |members|
      invariant forall n :: n in nodes ==> n.clock == if n in members[..i] then Some(k) else old(n.clock)
    {
      members[i].clock := Some(k);
      assert members[..i + 1] == members[..i] + [members[i]];
    }
    assert members[..|members|] == members;
  }

  /** The whole pass over the tree. It throws exactly when the lookup of some domain-set node cannot be registered.
      Otherwise each domain-set node is left holding the nearest explicit phase, rank and frequency of its own path
      in the tree as it was before, it has the clock made for exactly these, and every other node is as before. */
  method Build(order: seq<Node>, ghost nodes: set<Node>) returns (ok: bool)
    requires Tree(nodes) && forall n :: n in nodes && n.clocked <==> n in order
    modifies nodes`phase, nodes`rank, nodes`freq, nodes`clock
    ensures ok <==> forall n :: n in nodes && n.Sets() ==> Registrable(KeyOf(old(Resolve(n, Snapshot(nodes)))))
    ensures ok ==> forall n :: n in nodes && n.Sets() ==>
              NearestSettings(old(Path(n, Snapshot(nodes))), n.Held()) && n.clock == Some(KeyOf(n.Held()))
    ensures ok ==> forall n :: n in nodes && !n.Sets() ==> n.Held() == old(n.Held()) && n.clock == old(n.clock)
  {
    var domains := new Domains();
    ghost var setters := Setters(nodes);
    ok := domains.EnterConfiguring(order, nodes, setters);
    if ok {
      domains.BuildClockDomains(nodes, setters);
    }
  }

  lemma AllNearest(order: seq<Node>, setters: set<Node>, values: map<Node, Settings>)
    requires Tree(values.Keys) && forall n :: n in setters ==> n in order && n in values && n.clocked
    ensures forall n :: n in setters ==> NearestSettings(Path(n, values), Resolve(n, values))
  {
    forall n | n in setters
      ensures NearestSettings(Path(n, values), Resolve(n, values))
    {
      LookupIsNearest(n, values);
    }
  }

  function Push(m: map<real, seq<Node>>, f: real, n: Node): map<real, seq<Node>> {
    m[f := (if f in m then m[f] else []) + [n]]
  }
}
