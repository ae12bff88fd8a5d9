/** The marker table generated from a contract model, and the record policy it gives each marker. */
module MarkerTable {

  datatype Trigger = TimerTrigger | InputTrigger | OtherTrigger

  /** The contract's elements, each list in its sorted order. */
  datatype Path = Path(key: string, trigger: Trigger)
  datatype Contract = Contract(
    paths: seq<Path>, takes: seq<string>, clients: seq<string>, servers: seq<string>,
    publishers: seq<string>, lifecycle: seq<string>, guarded: set<string>, served: set<string>)

  datatype Kind = PathEntry | PathExit | Take | ServiceCall | ServeEntry | ServeExit | Publish | Other
  datatype Marker = Marker(id: nat, kind: Kind, element: string, trigger: Trigger)

  datatype Policy = Every | Change | SpinEntry | SpinExit

  /** Ids count from 1 in table order. */
  ghost predicate Numbered(ms: seq<Marker>) { forall i | 0 <= i < |ms| :: ms[i].id == i + 1 }

  /** The table begins with a pair of markers per path, and no path marker comes after them. */
  ghost predicate PathsFirst(ms: seq<Marker>, paths: seq<Path>)
  {
    && 2 * |paths| <= |ms|
    && (forall i | 0 <= i < |paths| :: PairAt(ms, paths, i))
    && (forall i | 2 * |paths| <= i < |ms| :: !ms[i].kind.PathEntry? && !ms[i].kind.PathExit?)
  }

  ghost predicate PairAt(ms: seq<Marker>, paths: seq<Path>, i: nat)
    requires i < |paths| && 2 * i + 1 < |ms|
  {
    && ms[2 * i] == Marker(2 * i + 1, PathEntry, paths[i].key, paths[i].trigger)
    && ms[2 * i + 1] == Marker(2 * i + 2, PathExit, paths[i].key, paths[i].trigger)
  }

  /** A marker without its number. */
  datatype Row = Row(kind: Kind, element: string)

  function Shape(ms: seq<Marker>): seq<Row>
  {
    seq(|ms|, i requires 0 <= i < |ms| => Row(ms[i].kind, ms[i].element))
  }

  function Listed(kind: Kind, elements: seq<string>): seq<Row>
  {
    seq(|elements|, i requires 0 <= i < |elements| => Row(kind, elements[i]))
  }

  /** Two markers per element, side by side. */
  function Pairs(first: Kind, second: Kind, elements: seq<string>): seq<Row>
  {
    seq(2 * |elements|, i requires 0 <= i < 2 * |elements| => Row(if i % 2 == 0 then first else second, elements[i / 2]))
  }

  function Keys(paths: seq<Path>): seq<string> { seq(|paths|, i requires 0 <= i < |paths| => paths[i].key) }

  /** The whole table, in order. */
  function Rows(c: Contract): seq<Row>
  {
    Pairs(PathEntry, PathExit, Keys(c.paths)) + Listed(Take, c.takes) + Listed(ServiceCall, c.clients)
    + Pairs(ServeEntry, ServeExit, c.servers) + Listed(Publish, c.publishers) + Listed(Other, c.lifecycle)
  }

  function Add(ms: seq<Marker>, kind: Kind, element: string, trigger: Trigger): seq<Marker>
  {
    ms + [Marker(|ms| + 1, kind, element, trigger)]
  }

  /** One more marker per element of `elements`. */
  method AddAll(ms: seq<Marker>, kind: Kind, elements: seq<string>, ghost paths: seq<Path>) returns (out: seq<Marker>)
    requires Numbered(ms) && PathsFirst(ms, paths) && !kind.PathEntry? && !kind.PathExit?
    ensures Numbered(out) && PathsFirst(out, paths) && Shape(out) == Shape(ms) + Listed(kind, elements)
  {
    out := ms;
    for n := 0 to |elements|
      invariant Numbered(out) && PathsFirst(out, paths) && Shape(out) == Shape(ms) + Listed(kind, elements[..n])
    {
      AddKeeps(out, kind, elements[n], paths);
      out := Add(out, kind, elements[n], OtherTrigger);
      assert Listed(kind, elements[..n + 1]) == Listed(kind, elements[..n]) + [Row(kind, elements[n])];
    }
    assert elements[..|elements|] == elements;
  }

  lemma AddKeeps(ms: seq<Marker>, kind: Kind, element: string, paths: seq<Path>)
    requires Numbered(ms) && PathsFirst(ms, paths) && !kind.PathEntry? && !kind.PathExit?
    ensures Numbered(Add(ms, kind, element, OtherTrigger)) && PathsFirst(Add(ms, kind, element, OtherTrigger), paths)
    ensures Shape(Add(ms, kind, element, OtherTrigger)) == Shape(ms) + [Row(kind, element)]
  {
    var out := Add(ms, kind, element, OtherTrigger);
    forall i | 0 <= i < |paths| ensures PairAt(out, paths, i) { assert PairAt(ms, paths, i); }
  }

  /** The entry and exit of a path, side by side. */
  method AddPaths(paths: seq<Path>) returns (ms: seq<Marker>)
    ensures Numbered(ms) && PathsFirst(ms, paths) && Shape(ms) == Pairs(PathEntry, PathExit, Keys(paths))
  {
    ms := [];
    for n := 0 to |paths|
      invariant |ms| == 2 * n && Numbered(ms) && forall i | 0 <= i < n :: PairAt(ms, paths, i)
    {
      ghost var was := ms;
      ms := Add(ms, PathEntry, paths[n].key, paths[n].trigger);
      ms := Add(ms, PathExit, paths[n].key, paths[n].trigger);
      forall i | 0 <= i < n + 1 ensures PairAt(ms, paths, i) { if i < n { assert PairAt(was, paths, i); } }
    }
    forall j | 0 <= j < |ms| ensures Shape(ms)[j] == Pairs(PathEntry, PathExit, Keys(paths))[j] {
      assert PairAt(ms, paths, j / 2);
      assert j == 2 * (j / 2) + j % 2;
    }
  }

  /** An entry and an exit marker per served endpoint. */
  method AddServers(ms: seq<Marker>, servers: seq<string>, ghost paths: seq<Path>) returns (out: seq<Marker>)
    requires Numbered(ms) && PathsFirst(ms, paths)
    ensures Numbered(out) && PathsFirst(out, paths) && Shape(out) == Shape(ms) + Pairs(ServeEntry, ServeExit, servers)
  {
    out := ms;
    for n := 0 to |servers|
      invariant Numbered(out) && PathsFirst(out, paths)
      invariant Shape(out) == Shape(ms) + Pairs(ServeEntry, ServeExit, servers[..n])
    {
      AddKeeps(out, ServeEntry, servers[n], paths);
      out := Add(out, ServeEntry, servers[n], OtherTrigger);
      AddKeeps(out, ServeExit, servers[n], paths);
      out := Add(out, ServeExit, servers[n], OtherTrigger);
      PairsStep(servers, n);
    }
    assert servers[..|servers|] == servers;
  }

  lemma PairsStep(elements: seq<string>, n: nat)
    requires n < |elements|
    ensures Pairs(ServeEntry, ServeExit, elements[..n + 1])
         == Pairs(ServeEntry, ServeExit, elements[..n]) + [Row(ServeEntry, elements[n])] + [Row(ServeExit, elements[n])]
  {
  }

  method BuildTable(c: Contract) returns (ms: seq<Marker>)
    ensures Numbered(ms) && PathsFirst(ms, c.paths) && Shape(ms) == Rows(c)
  {
    ms := AddPaths(c.paths);
    ms := AddAll(ms, Take, c.takes, c.paths);
    ms := AddAll(ms, ServiceCall, c.clients, c.paths);
    ms := AddServers(ms, c.servers, c.paths);
    ms := AddAll(ms, Publish, c.publishers, c.paths);
    ms := AddAll(ms, Other, c.lifecycle, c.paths);
  }

  function PolicyOf(m: Marker, c: Contract): Policy
  {
    match m.kind
    case PathEntry => if m.trigger.TimerTrigger? then SpinEntry else Every
    case PathExit => if m.trigger.TimerTrigger? then SpinExit else Every
    case Take => if m.element in c.guarded || m.element in c.served then Every else Change
    case Publish => Change
    case _ => Every
  }

  /**
   * The policy by id, id 0 unused. A SPIN_EXIT's own path's SPIN_ENTRY is the id below it, for every
   * contract: the check the generator makes of each SPIN_EXIT never fails.
   */
  method WindowPolicy(c: Contract, ms: seq<Marker>) returns (policy: seq<Policy>)
    requires Numbered(ms) && PathsFirst(ms, c.paths)
    ensures |policy| == |ms| + 1 && forall i | 0 <= i < |ms| :: policy[ms[i].id] == PolicyOf(ms[i], c)
    ensures Paired(policy)
    ensures forall m | 0 < m < |policy| && policy[m].SpinExit? :: m > 1 && OwnEntry(ms[m - 2], ms[m - 1])
  {
    policy := [Every];
    for n := 0 to |ms|
      invariant |policy| == n + 1 && policy[0] == Every && forall i | 0 <= i < n :: policy[i + 1] == PolicyOf(ms[i], c)
    {
      policy := policy + [PolicyOf(ms[n], c)];
    }
    forall m | 0 < m < |policy| && policy[m].SpinExit?
      ensures m > 1 && OwnEntry(ms[m - 2], ms[m - 1]) && policy[m - 1].SpinEntry?
    {
      assert policy[m - 1 + 1] == PolicyOf(ms[m - 1], c);
      ExitAfterEntry(ms, c.paths, m - 1);
      assert policy[m - 2 + 1] == PolicyOf(ms[m - 2], c);
    }
  }

  predicate OwnEntry(entry: Marker, exit: Marker)
  {
    entry.kind.PathEntry? && exit.kind.PathExit? && entry.element == exit.element && entry.id + 1 == exit.id
  }

  /** Every SPIN_EXIT sits right above a SPIN_ENTRY. */
  ghost predicate Paired(policy: seq<Policy>)
  {
    forall m | 0 <= m < |policy| && policy[m].SpinExit? :: m > 1 && policy[m - 1].SpinEntry?
  }

  lemma ExitAfterEntry(ms: seq<Marker>, paths: seq<Path>, i: nat)
    requires PathsFirst(ms, paths) && i < |ms| && ms[i].kind.PathExit?
    ensures i > 0 && ms[i - 1] == ms[i].(id := ms[i - 1].id, kind := PathEntry) && ms[i - 1].id + 1 == ms[i].id
  {
    assert i < 2 * |paths|;
    var n := i / 2;
    assert PairAt(ms, paths, n);
    assert i == 2 * n + i % 2;
  }

  /** The kind and the element of the marker with id `id`. */
  lemma ShapeAt(ms: seq<Marker>, c: Contract, id: nat)
    requires Shape(ms) == Rows(c) && 1 <= id <= |ms|
    ensures |ms| == |Rows(c)| && ms[id - 1].kind == Rows(c)[id - 1].kind && ms[id - 1].element == Rows(c)[id - 1].element
  {
    assert Shape(ms)[id - 1] == Rows(c)[id - 1];
  }

  /** Where each part of the table begins. */
  function TakesFrom(c: Contract): nat { 2 * |c.paths| + 1 }
  function ClientsFrom(c: Contract): nat { TakesFrom(c) + |c.takes| }
  function ServersFrom(c: Contract): nat { ClientsFrom(c) + |c.clients| }
  function PublishersFrom(c: Contract): nat { ServersFrom(c) + 2 * |c.servers| }
  function LifecycleFrom(c: Contract): nat { PublishersFrom(c) + |c.publishers| }

  lemma RowsAt(c: Contract, i: nat)
    ensures |Rows(c)| == LifecycleFrom(c) + |c.lifecycle| - 1
    ensures i < |c.takes| ==> Rows(c)[TakesFrom(c) + i - 1] == Row(Take, c.takes[i])
    ensures i < |c.clients| ==> Rows(c)[ClientsFrom(c) + i - 1] == Row(ServiceCall, c.clients[i])
    ensures i < |c.publishers| ==> Rows(c)[PublishersFrom(c) + i - 1] == Row(Publish, c.publishers[i])
    ensures i < |c.lifecycle| ==> Rows(c)[LifecycleFrom(c) + i - 1] == Row(Other, c.lifecycle[i])
  {
    assert |Pairs(PathEntry, PathExit, Keys(c.paths))| == 2 * |c.paths|;
  }

  lemma ServersAt(c: Contract, i: nat)
    requires i < |c.servers|
    ensures ServersFrom(c) + 2 * i < |Rows(c)|
    ensures Rows(c)[ServersFrom(c) + 2 * i - 1] == Row(ServeEntry, c.servers[i])
    ensures Rows(c)[ServersFrom(c) + 2 * i] == Row(ServeExit, c.servers[i])
  {
    var pairs := Pairs(ServeEntry, ServeExit, c.servers);
    assert pairs[2 * i] == Row(ServeEntry, c.servers[i]) && pairs[2 * i + 1] == Row(ServeExit, c.servers[i]);
  }

  /** The policy read off a table built from `c`. */
  ghost predicate PolicyFor(c: Contract, ms: seq<Marker>, policy: seq<Policy>)
  {
    && Numbered(ms) && PathsFirst(ms, c.paths) && Shape(ms) == Rows(c)
    && |policy| == |ms| + 1 && forall i | 0 <= i < |ms| :: policy[ms[i].id] == PolicyOf(ms[i], c)
  }

  lemma PolicyAt(c: Contract, ms: seq<Marker>, policy: seq<Policy>, id: nat)
    requires PolicyFor(c, ms, policy) && 1 <= id <= |ms|
    ensures policy[id] == PolicyOf(ms[id - 1], c)
  {
    assert ms[id - 1].id == id;
  }

  lemma PathPolicy(c: Contract, ms: seq<Marker>, policy: seq<Policy>, i: nat)
    requires PolicyFor(c, ms, policy) && i < |c.paths|
    ensures 2 * i + 2 < |policy|
    ensures policy[2 * i + 1] == if c.paths[i].trigger.TimerTrigger? then SpinEntry else Every
    ensures policy[2 * i + 2] == if c.paths[i].trigger.TimerTrigger? then SpinExit else Every
  {
    assert PairAt(ms, c.paths, i);
    PolicyAt(c, ms, policy, 2 * i + 1);
    PolicyAt(c, ms, policy, 2 * i + 2);
  }

  /** A marker off the paths, by its row. */
  lemma RowPolicy(c: Contract, ms: seq<Marker>, policy: seq<Policy>, id: nat)
    requires PolicyFor(c, ms, policy) && 1 <= id <= |ms| == |Rows(c)| && !Rows(c)[id - 1].kind.PathEntry? && !Rows(c)[id - 1].kind.PathExit?
    ensures policy[id] == match Rows(c)[id - 1].kind
                          case Take => (if Rows(c)[id - 1].element in c.guarded || Rows(c)[id - 1].element in c.served then Every else Change)
                          case Publish => Change
                          case _ => Every
  {
    PolicyAt(c, ms, policy, id);
    ShapeAt(ms, c, id);
  }

  lemma TakePolicy(c: Contract, ms: seq<Marker>, policy: seq<Policy>, i: nat)
    requires PolicyFor(c, ms, policy) && i < |c.takes|
    ensures TakesFrom(c) + i < |policy| && policy[TakesFrom(c) + i] == if c.takes[i] in c.guarded || c.takes[i] in c.served then Every else Change
  {
    RowsAt(c, i);
    assert |Shape(ms)| == |ms|;
    RowPolicy(c, ms, policy, TakesFrom(c) + i);
  }

  lemma CallPolicy(c: Contract, ms: seq<Marker>, policy: seq<Policy>, i: nat)
    requires PolicyFor(c, ms, policy) && i < |c.clients|
    ensures ClientsFrom(c) + i < |policy| && policy[ClientsFrom(c) + i].Every?
  {
    RowsAt(c, i);
    assert |Shape(ms)| == |ms|;
    RowPolicy(c, ms, policy, ClientsFrom(c) + i);
  }

  lemma PublishPolicy(c: Contract, ms: seq<Marker>, policy: seq<Policy>, i: nat)
    requires PolicyFor(c, ms, policy) && i < |c.publishers|
    ensures PublishersFrom(c) + i < |policy| && policy[PublishersFrom(c) + i].Change?
  {
    RowsAt(c, i);
    assert |Shape(ms)| == |ms|;
    RowPolicy(c, ms, policy, PublishersFrom(c) + i);
  }

  lemma LifecyclePolicy(c: Contract, ms: seq<Marker>, policy: seq<Policy>, i: nat)
    requires PolicyFor(c, ms, policy) && i < |c.lifecycle|
    ensures LifecycleFrom(c) + i < |policy| && policy[LifecycleFrom(c) + i].Every?
  {
    RowsAt(c, i);
    assert |Shape(ms)| == |ms|;
    RowPolicy(c, ms, policy, LifecycleFrom(c) + i);
  }

  lemma ServePolicy(c: Contract, ms: seq<Marker>, policy: seq<Policy>, i: nat)
    requires PolicyFor(c, ms, policy) && i < |c.servers|
    ensures ServersFrom(c) + 2 * i + 1 < |policy|
    ensures policy[ServersFrom(c) + 2 * i].Every? && policy[ServersFrom(c) + 2 * i + 1].Every?
  {
    ServersAt(c, i);
    assert |Shape(ms)| == |ms|;
    RowPolicy(c, ms, policy, ServersFrom(c) + 2 * i);
    RowPolicy(c, ms, policy, ServersFrom(c) + 2 * i + 1);
  }

  /**
   * What the policy makes of each element of a contract, by its place in the table. A path on a timer is a spin, any
   * other path is recorded every time; a take every time if its input is guarded or served, else on change; a publish on
   * change; a service call, a served endpoint and a lifecycle step every time.
   */
  lemma PolicyByElement(c: Contract, ms: seq<Marker>, policy: seq<Policy>, i: nat)
    requires PolicyFor(c, ms, policy)
    ensures i < |c.paths| ==>
              && 2 * i + 2 < |policy|
              && policy[2 * i + 1] == (if c.paths[i].trigger.TimerTrigger? then SpinEntry else Every)
              && policy[2 * i + 2] == (if c.paths[i].trigger.TimerTrigger? then SpinExit else Every)
    ensures i < |c.takes| ==>
              && TakesFrom(c) + i < |policy|
              && policy[TakesFrom(c) + i] == if c.takes[i] in c.guarded || c.takes[i] in c.served then Every else Change
    ensures i < |c.clients| ==> ClientsFrom(c) + i < |policy| && policy[ClientsFrom(c) + i].Every?
    ensures i < |c.servers| ==>
              && ServersFrom(c) + 2 * i + 1 < |policy|
              && policy[ServersFrom(c) + 2 * i].Every? && policy[ServersFrom(c) + 2 * i + 1].Every?
    ensures i < |c.publishers| ==> PublishersFrom(c) + i < |policy| && policy[PublishersFrom(c) + i].Change?
    ensures i < |c.lifecycle| ==> LifecycleFrom(c) + i < |policy| && policy[LifecycleFrom(c) + i].Every?
  {
    if i < |c.paths| { PathPolicy(c, ms, policy, i); }
    if i < |c.takes| { TakePolicy(c, ms, policy, i); }
    if i < |c.clients| { CallPolicy(c, ms, policy, i); }
    if i < |c.servers| { ServePolicy(c, ms, policy, i); }
    if i < |c.publishers| { PublishPolicy(c, ms, policy, i); }
    if i < |c.lifecycle| { LifecyclePolicy(c, ms, policy, i); }
  }
}
