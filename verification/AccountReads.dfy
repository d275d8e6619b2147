/** Sharing account reads between subscribers: one flight per connection, never one from before the last invalidation. */
module AccountReads {
  import opened Prelude

  type Connection = int

  /** The table of flights in use, the tables that older flights still refer to, and how many flights were begun. */
  datatype Flights = Flights(generation: nat, tables: map<nat, map<Connection, nat>>, begun: nat)

  const NO_FLIGHTS := Flights(0, map[0 := map[]], 0)

  /** Flights are numbered as they begin; a settling flight names itself and the table it was put in. */
  datatype Event =
    | ReadAccount(connection: Connection)
    | Settles(flight: nat, connection: Connection, generation: nat)
    | Invalidate

  predicate HasTable(s: Flights) {
    s.generation in s.tables && forall g <- s.tables :: g <= s.generation
  }

  function Table(s: Flights): map<Connection, nat>
    requires HasTable(s)
  {
    s.tables[s.generation]
  }

  /** The flight a subscriber gets. */
  function FlightFor(s: Flights, connection: Connection): nat
    requires HasTable(s)
  {
    if connection in Table(s) then Table(s)[connection] else s.begun
  }

  function Step(s: Flights, e: Event): (r: Flights)
    requires HasTable(s)
    ensures HasTable(r)
  {
    match e
    case ReadAccount(connection) =>
      if connection in Table(s) then s
      else s.(tables := s.tables[s.generation := Table(s)[connection := s.begun]], begun := s.begun + 1)
    case Settles(flight, connection, generation) =>
      if generation in s.tables && connection in s.tables[generation] && s.tables[generation][connection] == flight
      then s.(tables := s.tables[generation := s.tables[generation] - {connection}])
      else s
    case Invalidate => s.(generation := s.generation + 1, tables := s.tables[s.generation + 1 := map[]])
  }

  /** The shared flights as the generated code keeps them. */
  class SingleFlight {
    var generation: nat
    var tables: map<nat, map<Connection, nat>>
    var begun: nat

    ghost function State(): Flights
      reads this
    {
      Flights(generation, tables, begun)
    }

    constructor ()
      ensures State() == NO_FLIGHTS
    {
      generation, tables, begun := 0, map[0 := map[]], 0;
    }

    method ReadAccount(connection: Connection) returns (flight: nat)
      requires HasTable(State())
      modifies this
      ensures flight == FlightFor(old(State()), connection)
      ensures State() == Step(old(State()), Event.ReadAccount(connection))
    {
      if connection in tables[generation] {
        return tables[generation][connection];
      }
      flight := begun;
      begun := begun + 1;
      var table: map<Connection, nat> := tables[generation][connection := flight];
      tables := tables[generation := table];
    }

    method Settle(flight: nat, connection: Connection, captured: nat)
      requires HasTable(State())
      modifies this
      ensures State() == Step(old(State()), Settles(flight, connection, captured))
    {
      if captured in tables && connection in tables[captured] && tables[captured][connection] == flight {
        tables := tables[captured := tables[captured] - {connection}];
      }
    }

    method InvalidateAccountQueries()
      requires HasTable(State())
      modifies this
      ensures State() == Step(old(State()), Invalidate)
    {
      generation := generation + 1;
      tables := tables[generation := map[]];
    }
  }

  /** A read puts a flight of its own into the table unless one is in use; settling takes out that flight and no other;
      an invalidation opens an empty table. Nothing else is touched. */
  lemma TableChanges(s: Flights, connection: Connection, flight: nat, generation: nat)
    requires HasTable(s)
    ensures
      var r := Step(s, Event.ReadAccount(connection));
      && connection in Table(r) && Table(r)[connection] == FlightFor(s, connection)
      && (connection in Table(s) ==> r == s)
      && (connection !in Table(s) ==> FlightFor(s, connection) == s.begun && r.begun == s.begun + 1)
      && r.generation == s.generation && SameBut(s.tables, r.tables, s.generation, connection)
    ensures
      var r := Step(s, Settles(flight, connection, generation));
      && r.generation == s.generation && r.begun == s.begun && SameBut(s.tables, r.tables, generation, connection)
      && (generation in s.tables ==>
            (connection in r.tables[generation] <==>
               connection in s.tables[generation] && s.tables[generation][connection] != flight))
      && (generation in s.tables && connection in r.tables[generation] ==>
            r.tables[generation][connection] == s.tables[generation][connection])
    ensures
      var r := Step(s, Invalidate);
      && r.generation == s.generation + 1 && r.begun == s.begun && Table(r) == map[]
      && forall g <- s.tables :: g in r.tables && r.tables[g] == s.tables[g]
  {
    var r := Step(s, Event.ReadAccount(connection));
    assert forall g <- s.tables :: g in r.tables;
  }

  /** The tables agree on everything but one connection in one of them. */
  predicate SameBut(a: map<nat, map<Connection, nat>>, b: map<nat, map<Connection, nat>>, generation: nat,
                    connection: Connection) {
    && a.Keys == b.Keys
    && (forall g <- a :: g != generation ==> b[g] == a[g])
    && (generation in a ==> a[generation] - {connection} == b[generation] - {connection})
  }

  // ----- Runs -----------------------------------------------------------------------------------------------------

  function After(start: Flights, events: seq<Event>): (r: Flights)
    requires HasTable(start)
    ensures HasTable(r)
  {
    if events == [] then start else Step(After(start, events[..|events| - 1]), events[|events| - 1])
  }

  /** How many flights had begun when the tables were last replaced. */
  function BegunAtInvalidation(events: seq<Event>): nat {
    if events == [] then 0
    else if events[|events| - 1].Invalidate? then After(NO_FLIGHTS, events).begun
    else BegunAtInvalidation(events[..|events| - 1])
  }

  /** Over every run, whatever still settles: a read never shares a flight that was begun before the last invalidation. */
  lemma {:induction false} FlightsAreCurrent(events: seq<Event>, connection: Connection)
    ensures BegunAtInvalidation(events) <= After(NO_FLIGHTS, events).begun
    ensures forall c <- Table(After(NO_FLIGHTS, events)) ::
              BegunAtInvalidation(events) <= Table(After(NO_FLIGHTS, events))[c] < After(NO_FLIGHTS, events).begun
    ensures FlightFor(After(NO_FLIGHTS, events), connection) >= BegunAtInvalidation(events)
  {
    if events != [] {
      FlightsAreCurrent(events[..|events| - 1], connection);
    }
  }

  /** A flight in use is shared by every read of its connection until it settles or the tables are replaced; flights of
      older tables that settle meanwhile do not disturb it. */
  lemma {:induction false} FlightIsShared(start: Flights, events: seq<Event>, connection: Connection)
    requires HasTable(start) && connection in Table(start)
    requires forall e <- events :: !e.Invalidate?
               && (e.Settles? && e.generation == start.generation ==> e.flight != Table(start)[connection])
    ensures After(start, events).generation == start.generation && connection in Table(After(start, events))
    ensures FlightFor(After(start, events), connection) == Table(start)[connection]
  {
    if events != [] {
      FlightIsShared(start, events[..|events| - 1], connection);
      assert events[|events| - 1] in events;
    }
  }
}
