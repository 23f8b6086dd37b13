/** How many packets a port takes before it is full: the slots its narrowest edge declares, or one by default. */
module Capacity {
  import opened Types
  import opened Graph
  import opened Edges
  import opened Wiring
  import opened Network

  /** The smallest number of slots on the edges of an output port. */
  ghost predicate Narrowest(w: Workflow, at: Endpoint, c: nat) {
    && (forall i | 0 <= i < |w.edges| && w.edges[i].source == at :: c <= DeclaredSlots(w.edges[i]))
    && exists i | 0 <= i < |w.edges| :: w.edges[i].source == at && c == DeclaredSlots(w.edges[i])
  }

  function Repeat(step: Step, m: nat): seq<Step> {
    seq(m, i requires 0 <= i < m => step)
  }

  function Min(a: nat, b: nat): nat {
    if a < b then a else b
  }

  /** Every edge of the port is as the wiring left it, but for so many slots taken. */
  ghost predicate OnlyReserved(run: Run, net: Net, at: Endpoint, taken: nat) {
    && Shape(run, net) && net.finished == {} && Permits(net, at) == taken
    && forall i | 0 <= i < |net.edges| && run.w.edges[i].source == at ::
         net.edges[i] == Fresh(DeclaredSlots(run.w.edges[i])).(reserved := taken)
  }

  /** Such a port is granted while its narrowest edge has a slot left, and full from then on. */
  lemma PortOpensUntil(run: Run, net: Net, at: Endpoint, c: nat, taken: nat)
    requires Narrowest(run.w, at, c) && taken <= c && OnlyReserved(run, net, at, taken)
    ensures PortOutcome(PortEdges(run, net, Output, at)) == if taken < c then Granted else Full
  {
    var es, idx := PortEdges(run, net, Output, at), Incident(run.w.edges, Output, at);
    PortOutcomeIsFirstRefusal(es);
    IncidentMeaning(run.w.edges, Output, at, |run.w.edges|);
    forall k | 0 <= k < |es|
      ensures es[k].ReserveOutcome() != Disconnected && (taken < c ==> es[k].ReserveOutcome() == Granted)
    {
      assert idx[k] in idx;
      assert run.w.edges[idx[k]].source == at && es[k] == net.edges[idx[k]];
    }
    if taken == c {
      var i :| 0 <= i < |run.w.edges| && run.w.edges[i].source == at && c == DeclaredSlots(run.w.edges[i]);
      assert i in idx;
      var k :| 0 <= k < |idx| && idx[k] == i;
      assert es[k] == net.edges[i] && es[k].ReserveOutcome() == Full && es[k] in es;
    }
  }

  lemma ReserveTakesOne(run: Run, net: Net, at: Endpoint, c: nat, taken: nat)
    requires Declared(run.w.nodes, at.node)
    requires Narrowest(run.w, at, c) && taken <= c && OnlyReserved(run, net, at, taken)
    ensures OnlyReserved(run, Apply(run, net, Reserve(at)), at, Min(taken + 1, c))
  {
    PortOpensUntil(run, net, at, c, taken);
  }

  /** However often a port of a freshly wired run is reserved, it grants as often as its narrowest edge has slots. */
  lemma {:induction false} GrantsUntilFull(run: Run, at: Endpoint, c: nat, m: nat)
    requires Narrowest(run.w, at, c) && Declared(run.w.nodes, at.node)
    ensures OnlyReserved(run, Exec(run, Repeat(Reserve(at), m)), at, Min(m, c))
    ensures PortOutcome(PortEdges(run, Exec(run, Repeat(Reserve(at), m)), Output, at))
         == if m < c then Granted else Full
  {
    var steps := Repeat(Reserve(at), m);
    if m > 0 {
      GrantsUntilFull(run, at, c, m - 1);
      assert steps[..m - 1] == Repeat(Reserve(at), m - 1);
      ReserveTakesOne(run, Exec(run, Repeat(Reserve(at), m - 1)), at, c, Min(m - 1, c));
    }
    PortOpensUntil(run, Exec(run, steps), at, c, Min(m, c));
  }
}
