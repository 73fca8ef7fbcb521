/**
 * The port-status table: the last code observed for every backend port,
 * seeded with 0 at startup and overwritten by each probe completion.
 * Completions that race (a periodic sweep and a request's own probe) are a
 * sequence of single-entry overwrites; the last one to arrive wins.
 */
module PortStatus {
  import opened JsValues

  /** A backend port; 0 plays the part of a missing (falsy) port. */
  type Port = nat

  /** Port -> last stored code. */
  type Table = map<Port, JsValue>

  /** `portStatus[port]`: a port without an entry reads as `undefined`. */
  function Lookup(table: Table, port: Port): (v: JsValue)
    ensures port in table ==> v == table[port]
    ensures port !in table ==> v == Undefined
  {
    if port in table then table[port] else Undefined
  }

  /**
   * Seeds the table: every port that some hostname maps to gets the entry 0,
   * and no other port gets one.
   */
  method InitialStatus(hostnames: map<string, Port>) returns (table: Table)
    ensures table.Keys == hostnames.Values
    ensures forall p :: p in table ==> table[p] == Num(0)
  {
    table := map[];
    var pending := hostnames.Keys;
    while pending != {}
      invariant pending <= hostnames.Keys
      invariant forall h :: h in hostnames && h !in pending ==> hostnames[h] in table
      invariant forall p :: p in table ==> exists h :: h in hostnames && h !in pending && hostnames[h] == p
      invariant forall p :: p in table ==> table[p] == Num(0)
      decreases pending
    {
      var host :| host in pending;
      table := table[hostnames[host] := Num(0)];
      pending := pending - {host};
    }
  }

  /**
   * `isAlive(port)`: the port is truthy and its stored code is anything but
   * ECONNREFUSED. The initial 0, every HTTP status, every other error code and
   * a missing entry all count as alive.
   */
  predicate IsAlive(table: Table, port: Port)
    ensures IsAlive(table, port) ==> port != 0
    ensures port != 0 && port !in table ==> IsAlive(table, port)
    ensures port != 0 && port in table && !IsRefused(table[port]) ==> IsAlive(table, port)
    ensures port in table && IsRefused(table[port]) ==> !IsAlive(table, port)
  {
    port != 0 && !IsRefused(Lookup(table, port))
  }

  /** One probe completion: `portStatus[port] = res.statusCode || res.code`. */
  function Recorded(table: Table, port: Port, reply: ProbeReply): (after: Table)
    ensures after.Keys == table.Keys + {port}
    ensures after[port] == CompletionCode(reply)
    ensures forall q :: q in table && q != port ==> after[q] == table[q]
  {
    table[port := CompletionCode(reply)]
  }

  /** A probe of `port` that completed with `reply`. */
  datatype Completion = Completion(port: Port, reply: ProbeReply)

  /** The ports a sequence of completions touches (a helper that unpacks the set comprehension). */
  function PortsOf(completions: seq<Completion>): (ports: set<Port>)
    ensures forall i :: 0 <= i < |completions| ==> completions[i].port in ports
    ensures forall p :: p in ports ==> exists i :: 0 <= i < |completions| && completions[i].port == p
  {
    set i | 0 <= i < |completions| :: completions[i].port
  }

  /** The table after the given completions arrived, in that order. */
  function Applied(table: Table, completions: seq<Completion>): (after: Table)
    ensures table.Keys <= after.Keys
    decreases |completions|
  {
    if completions == [] then table
    else
      var last := completions[|completions| - 1];
      Recorded(Applied(table, completions[..|completions| - 1]), last.port, last.reply)
  }

  /** Completions add an entry only for a port that had none; a sweep over known ports keeps the key set. */
  lemma {:induction false} AppliedKeys(table: Table, completions: seq<Completion>)
    ensures Applied(table, completions).Keys == table.Keys + PortsOf(completions)
    ensures PortsOf(completions) <= table.Keys ==> Applied(table, completions).Keys == table.Keys
    decreases |completions|
  {
    if completions != [] {
      var init := completions[..|completions| - 1];
      AppliedKeys(table, init);
      assert PortsOf(completions) == PortsOf(init) + {completions[|completions| - 1].port} by {
        forall p | p in PortsOf(completions) ensures p in PortsOf(init) + {completions[|completions| - 1].port} {
          var i :| 0 <= i < |completions| && completions[i].port == p;
          if i < |completions| - 1 {
            assert init[i] == completions[i];
          }
        }
        forall p | p in PortsOf(init) ensures p in PortsOf(completions) {
          var i :| 0 <= i < |init| && init[i].port == p;
          assert completions[i] == init[i];
        }
      }
    }
  }

  /** Last write wins: a completion that no later completion for its port follows decides that port's entry. */
  lemma {:induction false} LastCompletionWins(table: Table, completions: seq<Completion>, i: nat)
    requires i < |completions|
    requires forall j :: i < j < |completions| ==> completions[j].port != completions[i].port
    ensures completions[i].port in Applied(table, completions)
    ensures Applied(table, completions)[completions[i].port] == CompletionCode(completions[i].reply)
    decreases |completions|
  {
    var n := |completions|;
    if i < n - 1 {
      var init := completions[..n - 1];
      forall j | i < j < |init| ensures init[j].port != init[i].port {
        assert init[j] == completions[j];
      }
      LastCompletionWins(table, init, i);
      assert init[i] == completions[i];
    }
  }

  /** A port that no completion touches keeps its entry, or its lack of one. */
  lemma {:induction false} UntouchedPortKeepsEntry(table: Table, completions: seq<Completion>, p: Port)
    requires forall j :: 0 <= j < |completions| ==> completions[j].port != p
    ensures p in Applied(table, completions) <==> p in table
    ensures Lookup(Applied(table, completions), p) == Lookup(table, p)
    decreases |completions|
  {
    if completions != [] {
      var init := completions[..|completions| - 1];
      forall j | 0 <= j < |init| ensures init[j].port != p {
        assert init[j] == completions[j];
      }
      UntouchedPortKeepsEntry(table, init, p);
    }
  }

  /**
   * Racing completions never produce a mixed entry: every stored code is the
   * port's previous entry or the code of one of the completions for that port.
   */
  lemma {:induction false} EntryIsSomeCompletion(table: Table, completions: seq<Completion>, p: Port)
    requires p in Applied(table, completions)
    ensures || (p in table && Applied(table, completions)[p] == table[p])
            || exists j :: 0 <= j < |completions| && completions[j].port == p
                           && Applied(table, completions)[p] == CompletionCode(completions[j].reply)
    decreases |completions|
  {
    var n := |completions|;
    if n > 0 && completions[n - 1].port != p {
      var init := completions[..n - 1];
      EntryIsSomeCompletion(table, init, p);
      if !(p in table && Applied(table, init)[p] == table[p]) {
        var j :| 0 <= j < |init| && init[j].port == p
                 && Applied(table, init)[p] == CompletionCode(init[j].reply);
        assert completions[j] == init[j];
      }
    }
  }

  /**
   * One full sweep: when every known port is probed once and all those probes
   * complete, in any order, each entry holds its own probe's code and the key
   * set is unchanged.
   */
  lemma SweepRefreshesEveryPort(table: Table, completions: seq<Completion>)
    requires PortsOf(completions) == table.Keys
    requires forall i, j :: 0 <= i < j < |completions| ==> completions[i].port != completions[j].port
    ensures Applied(table, completions).Keys == table.Keys
    ensures forall i :: 0 <= i < |completions| ==>
              Applied(table, completions)[completions[i].port] == CompletionCode(completions[i].reply)
  {
    AppliedKeys(table, completions);
    forall i | 0 <= i < |completions|
      ensures Applied(table, completions)[completions[i].port] == CompletionCode(completions[i].reply)
    {
      LastCompletionWins(table, completions, i);
    }
  }

  /** Right after seeding, every non-zero configured port counts as alive: 0 is not ECONNREFUSED. */
  lemma SeededPortsAreAlive(hostnames: map<string, Port>, table: Table, host: string)
    requires table.Keys == hostnames.Values
    requires forall p :: p in table ==> table[p] == Num(0)
    requires host in hostnames && hostnames[host] != 0
    ensures IsAlive(table, hostnames[host])
  {
  }

  /** After a completion, the probed port is alive exactly when the new code is not ECONNREFUSED; other ports keep their liveness. */
  lemma AliveAfterCompletion(table: Table, port: Port, reply: ProbeReply, q: Port)
    requires port != 0
    ensures IsAlive(Recorded(table, port, reply), port) <==> !IsRefused(CompletionCode(reply))
    ensures q != port ==> (IsAlive(Recorded(table, port, reply), q) <==> IsAlive(table, q))
  {
  }

  /** After racing completions, a port's liveness is decided by the last completion for it. */
  lemma AliveAfterRace(table: Table, completions: seq<Completion>, i: nat)
    requires i < |completions| && completions[i].port != 0
    requires forall j :: i < j < |completions| ==> completions[j].port != completions[i].port
    ensures IsAlive(Applied(table, completions), completions[i].port)
            <==> !IsRefused(CompletionCode(completions[i].reply))
  {
    LastCompletionWins(table, completions, i);
  }
}
