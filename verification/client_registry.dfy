/** The table of connected clients. Connections register when they open a
    session; a dropped connection is removed by a task of its own, later. */
module ClientRegistry {
  import opened Base

  /** Connections are told apart by their place in the order of arrival; the
      table knows them by a machine-word id only. */
  function Id(n: nat): u64 {
    (n + 1) % TWO_TO_64
  }

  /** `registered` remembers which connections ever opened a session. */
  datatype State = State(
    born: nat,
    live: set<nat>,
    pending: set<nat>,           // dropped, removal task not run yet
    registered: set<nat>,
    clients: map<u64, nat>)      // id to channel

  const EMPTY := State(0, {}, {}, {}, map[])

  datatype Event =
    | NewClient
    | OpenSession(n: nat, channel: nat)
    | Drop(n: nat)
    | RunRemoval(n: nat)

  predicate Enabled(s: State, e: Event) {
    match e
    case NewClient => true
    case OpenSession(n, _) => n in s.live
    case Drop(n) => n in s.live
    case RunRemoval(n) => n in s.pending
  }

  function Apply(s: State, e: Event): State {
    match e
    case NewClient => s.(born := s.born + 1, live := s.live + {s.born})
    case OpenSession(n, channel) => s.(registered := s.registered + {n}, clients := s.clients[Id(n) := channel])
    case Drop(n) => s.(live := s.live - {n}, pending := s.pending + {n})
    case RunRemoval(n) => s.(pending := s.pending - {n}, clients := s.clients - {Id(n)})
  }

  function After(s: State, es: seq<Event>): State
    decreases es
  {
    if es == [] then s else After(Apply(s, es[0]), es[1..])
  }

  predicate Possible(s: State, es: seq<Event>)
    decreases es
  {
    es == [] || (Enabled(s, es[0]) && Possible(Apply(s, es[0]), es[1..]))
  }

  predicate Present(s: State, n: nat) {
    n in s.live || n in s.pending
  }

  ghost predicate Shape(s: State) {
    && s.live !! s.pending
    && (forall n: nat :: Present(s, n) ==> n < s.born)
    && (forall n :: n in s.registered ==> n < s.born)
  }

  /** `n` is what keeps the entry `id` in the table. */
  predicate Holds(s: State, n: nat, id: u64) {
    Present(s, n) && n in s.registered && Id(n) == id
  }

  /** Nothing leaks: each entry belongs to a connection that is live or about to
      be removed. Before ids wrap, the table is exact. */
  ghost predicate Invariant(s: State) {
    && Shape(s)
    && (forall id :: id in s.clients ==> exists n: nat :: Holds(s, n, id))
    && (s.born <= TWO_TO_64 ==> forall n: nat :: Present(s, n) && n in s.registered ==> Id(n) in s.clients)
  }

  lemma IdsAreDistinct(n: nat, m: nat)
    requires n < TWO_TO_64 && m < TWO_TO_64 && Id(n) == Id(m)
    ensures n == m
  {
  }

  lemma StepKeepsShape(s: State, e: Event)
    requires Shape(s) && Enabled(s, e)
    ensures Shape(Apply(s, e))
    ensures forall n: nat :: Present(Apply(s, e), n) ==> Present(s, n) || (e.NewClient? && n == s.born)
    ensures forall n: nat :: Present(s, n) && e != RunRemoval(n) ==> Present(Apply(s, e), n)
  {
    var s' := Apply(s, e);
    forall n: nat | Present(s', n)
      ensures Present(s, n) || (e.NewClient? && n == s.born)
    {
    }
    assert e.OpenSession? ==> Present(s, e.n);
    assert s.born !in s.live && s.born !in s.pending by {
      assert !Present(s, s.born);
    }
  }

  lemma StepKeepsHolders(s: State, e: Event)
    requires Invariant(s) && Enabled(s, e)
    ensures var s' := Apply(s, e);
            forall id :: id in s'.clients ==> exists n: nat :: Holds(s', n, id)
  {
    var s' := Apply(s, e);
    StepKeepsShape(s, e);
    forall id | id in s'.clients
      ensures exists n: nat :: Holds(s', n, id)
    {
      if e.OpenSession? && id == Id(e.n) {
        assert Holds(s', e.n, id);
      } else {
        var n: nat :| Holds(s, n, id);
        assert Holds(s', n, id);
      }
    }
  }

  lemma StepKeepsInvariant(s: State, e: Event)
    requires Invariant(s) && Enabled(s, e)
    ensures Invariant(Apply(s, e))
  {
    var s' := Apply(s, e);
    StepKeepsShape(s, e);
    StepKeepsHolders(s, e);
    forall n: nat | s'.born <= TWO_TO_64 && Present(s', n) && n in s'.registered
      ensures Id(n) in s'.clients
    {
      if e.RunRemoval? && Id(n) == Id(e.n) {
        assert Present(s, e.n);
        IdsAreDistinct(n, e.n);
      }
    }
  }

  lemma {:induction false} RunKeepsInvariant(s: State, es: seq<Event>)
    requires Invariant(s) && Possible(s, es)
    ensures Invariant(After(s, es))
    decreases es
  {
    if es != [] {
      StepKeepsInvariant(s, es[0]);
      RunKeepsInvariant(Apply(s, es[0]), es[1..]);
    }
  }

  /** Over every interleaving: the table holds no entry without a connection,
      it is empty once all connections are dropped and all removals have run, and
      for the first 2^64 connections it has exactly the ids of those present that
      opened a session. */
  lemma RegistryIsLeakFree(es: seq<Event>)
    requires Possible(EMPTY, es)
    ensures var s := After(EMPTY, es);
            && (forall id :: id in s.clients ==> exists n: nat :: Holds(s, n, id))
            && (s.live == {} && s.pending == {} ==> s.clients == map[])
            && (s.born <= TWO_TO_64 ==>
                  forall n: nat :: Present(s, n) ==> (Id(n) in s.clients <==> n in s.registered))
  {
    RunKeepsInvariant(EMPTY, es);
    var s := After(EMPTY, es);
    forall n: nat | s.born <= TWO_TO_64 && Present(s, n) && Id(n) in s.clients
      ensures n in s.registered
    {
      var m: nat :| Holds(s, m, Id(n));
      IdsAreDistinct(n, m);
    }
    if s.live == {} && s.pending == {} {
      assert forall n: nat :: !Present(s, n);
      assert s.clients.Keys == {};
    }
  }

  /** The server's side of it: the id counter and the shared table. The ghost
      state says which connections exist. */
  class Registry {
    var clientIds: u64
    var clients: map<u64, nat>
    ghost var state: State

    ghost predicate Valid()
      reads this
    {
      && Invariant(state)
      && clients == state.clients
      && clientIds == state.born % TWO_TO_64
    }

    constructor ()
      ensures Valid() && state == EMPTY
    {
      clientIds, clients, state := 0, map[], EMPTY;
    }

    method NewConnection() returns (id: u64)
      requires Valid()
      modifies this
      ensures Valid() && state == Apply(old(state), NewClient) && id == Id(old(state).born)
    {
      StepKeepsInvariant(state, NewClient);
      clientIds := (clientIds + 1) % TWO_TO_64;
      id := clientIds;
      state := Apply(state, NewClient);
    }

    method ChannelOpenSession(ghost n: nat, id: u64, channel: nat)
      requires Valid() && n in state.live && id == Id(n)
      modifies this
      ensures Valid() && state == Apply(old(state), OpenSession(n, channel))
    {
      StepKeepsInvariant(state, OpenSession(n, channel));
      clients := clients[id := channel];
      state := Apply(state, OpenSession(n, channel));
    }

    ghost method DropConnection(n: nat)
      requires Valid() && n in state.live
      modifies this
      ensures Valid() && state == Apply(old(state), Drop(n))
    {
      StepKeepsInvariant(state, Drop(n));
      state := Apply(state, Drop(n));
    }

    method RemovalTask(ghost n: nat, id: u64)
      requires Valid() && n in state.pending && id == Id(n)
      modifies this
      ensures Valid() && state == Apply(old(state), RunRemoval(n))
    {
      StepKeepsInvariant(state, RunRemoval(n));
      clients := clients - {id};
      state := Apply(state, RunRemoval(n));
    }
  }
}
