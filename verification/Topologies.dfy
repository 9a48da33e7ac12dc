/** The topology of the emulated system: which spot each terminal belongs to. `OpenSandModelConf`
    builds an index from spots to terminals, and also looks the gateway of one terminal up directly. */
module Topologies {
  import opened Wrappers

  /** A row of the frequency plan. The other settings of a spot are either all there or not. */
  datatype SpotRow = SpotRow(gatewayId: Option<int>, complete: bool)

  datatype Assignment = Assignment(terminalId: Option<int>, gatewayId: Option<int>)

  /** What the topology and infrastructure files hold; a parameter that is not set is `None`. */
  datatype Config = Config(rows: seq<SpotRow>, terminals: seq<Option<int>>, assignments: seq<Assignment>,
                           defaultGateway: Option<int>)

  datatype SpotTopology = SpotTopology(spotId: nat, gwId: nat, stIds: set<nat>)

  /** Spot identifiers have 8 bits. */
  function SpotId(x: int): (k: nat) {
    x % 256
  }

  /** Terminal and gateway identifiers have 16 bits. */
  function TalId(x: int): (t: nat) {
    x % 65536
  }

  // ----- The configuration itself -----

  function RowSpots(rows: seq<SpotRow>, n: nat): set<nat>
    requires n <= |rows|
  {
    if n == 0 then {}
    else RowSpots(rows, n - 1) + if rows[n - 1].gatewayId.Some? then {SpotId(rows[n - 1].gatewayId.value)} else {}
  }

  predicate RowsComplete(rows: seq<SpotRow>, n: nat)
    requires n <= |rows|
  {
    forall i :: 0 <= i < n ==> rows[i].gatewayId.Some? && rows[i].complete
  }

  function TerminalIds(terminals: seq<Option<int>>, n: nat): set<int>
    requires n <= |terminals|
  {
    if n == 0 then {}
    else TerminalIds(terminals, n - 1) + if terminals[n - 1].Some? then {terminals[n - 1].value} else {}
  }

  function AssignedIds(assignments: seq<Assignment>, n: nat): set<int>
    requires n <= |assignments|
  {
    if n == 0 then {}
    else
      var a := assignments[n - 1];
      AssignedIds(assignments, n - 1) + if a.terminalId.Some? then {a.terminalId.value} else {}
  }

  predicate Assigns(a: Assignment, spots: set<nat>) {
    a.terminalId.Some? && a.gatewayId.Some? && SpotId(a.gatewayId.value) in spots
  }

  function Spots(c: Config): set<nat> {
    RowSpots(c.rows, |c.rows|)
  }

  /** The terminals of the infrastructure that no assignment names. */
  function Unassigned(c: Config): set<int> {
    TerminalIds(c.terminals, |c.terminals|) - AssignedIds(c.assignments, |c.assignments|)
  }

  /** When the topology can be read. The default gateway is asked for only when it is needed. */
  predicate Readable(c: Config) {
    && RowsComplete(c.rows, |c.rows|)
    && (forall i :: 0 <= i < |c.assignments| ==> Assigns(c.assignments[i], Spots(c)))
    && (Unassigned(c) != {} ==> c.defaultGateway.Some? && SpotId(c.defaultGateway.value) in Spots(c))
  }

  /** The terminals that the first `n` assignments put in spot `k`. */
  function AssignedTo(assignments: seq<Assignment>, n: nat, k: nat): set<nat>
    requires n <= |assignments|
  {
    if n == 0 then {}
    else
      var a := assignments[n - 1];
      AssignedTo(assignments, n - 1, k)
      + if a.terminalId.Some? && a.gatewayId.Some? && SpotId(a.gatewayId.value) == k then {TalId(a.terminalId.value)}
        else {}
  }

  function Truncated(ids: set<int>): set<nat> {
    set u | u in ids :: TalId(u)
  }

  /** The index: each spot with the terminals assigned to it, the default one with the others too. */
  function Members(c: Config, k: nat): set<nat> {
    AssignedTo(c.assignments, |c.assignments|, k)
    + if c.defaultGateway.Some? && SpotId(c.defaultGateway.value) == k then Truncated(Unassigned(c)) else {}
  }

  /** The direct scan: the last assignment that names the terminal, or else the default. */
  function LastGateway(assignments: seq<Assignment>, n: nat, tal: nat, otherwise: Option<int>): Option<int>
    requires n <= |assignments|
  {
    if n == 0 then otherwise
    else if assignments[n - 1].terminalId == Some(tal) then assignments[n - 1].gatewayId
    else LastGateway(assignments, n - 1, tal, otherwise)
  }

  function Inserted(spots: map<nat, SpotTopology>, k: nat, ts: set<nat>): map<nat, SpotTopology>
    requires k in spots
  {
    spots[k := spots[k].(stIds := spots[k].stIds + ts)]
  }

  /** The spots after the first `n` assignments. */
  function WithAssigned(spots: map<nat, SpotTopology>, assignments: seq<Assignment>,
                        n: nat): (r: map<nat, SpotTopology>)
    requires n <= |assignments| && forall i :: 0 <= i < n ==> Assigns(assignments[i], spots.Keys)
    ensures r.Keys == spots.Keys
  {
    if n == 0 then spots
    else
      var a := assignments[n - 1];
      assert Assigns(assignments[n - 1], spots.Keys);
      Inserted(WithAssigned(spots, assignments, n - 1), SpotId(a.gatewayId.value), {TalId(a.terminalId.value)})
  }

  lemma {:induction false} WithAssignedAt(spots: map<nat, SpotTopology>, assignments: seq<Assignment>, n: nat, k: nat)
    requires n <= |assignments| && k in spots && forall i :: 0 <= i < n ==> Assigns(assignments[i], spots.Keys)
    ensures WithAssigned(spots, assignments, n)[k] ==
      spots[k].(stIds := spots[k].stIds + AssignedTo(assignments, n, k))
  {
    if n == 0 {
      assert spots[k].stIds + {} == spots[k].stIds;
    } else {
      WithAssignedAt(spots, assignments, n - 1, k);
      assert Assigns(assignments[n - 1], spots.Keys);
      var a := assignments[n - 1];
      var before, t := AssignedTo(assignments, n - 1, k), {TalId(a.terminalId.value)};
      assert spots[k].stIds + before + t == spots[k].stIds + (before + t);
      assert before + {} == before;
    }
  }

  /** The entry of one spot. */
  ghost predicate Entry(e: SpotTopology, k: nat, members: set<nat>) {
    e.spotId == k && SpotId(e.gwId) == k && e.stIds == members
  }

  /** The gateway of each spot is that of the last row with the spot. */
  ghost predicate Gateways(spots: map<nat, SpotTopology>, rows: seq<SpotRow>, n: nat)
    requires n <= |rows|
  {
    forall k :: k in spots ==> GatewayOf(spots[k].gwId, k, rows, n)
  }

  ghost predicate GatewayOf(gw: nat, k: nat, rows: seq<SpotRow>, n: nat)
    requires n <= |rows|
  {
    exists i :: 0 <= i < n && HasSpot(rows[i], k) && gw == TalId(rows[i].gatewayId.value)
      && forall j :: i < j < n ==> !HasSpot(rows[j], k)
  }

  predicate HasSpot(row: SpotRow, k: nat) {
    row.gatewayId.Some? && SpotId(row.gatewayId.value) == k
  }

  lemma {:induction false} GatewaysNext(spots: map<nat, SpotTopology>, rows: seq<SpotRow>, n: nat,
                                        next: map<nat, SpotTopology>)
    requires n < |rows| && Gateways(spots, rows, n)
    requires next == if rows[n].gatewayId.None? then spots
      else var gw := rows[n].gatewayId.value; spots[SpotId(gw) := SpotTopology(SpotId(gw), TalId(gw), {})]
    ensures Gateways(next, rows, n + 1)
  {
    forall k | k in next
      ensures GatewayOf(next[k].gwId, k, rows, n + 1)
    {
      if !HasSpot(rows[n], k) {
        assert GatewayOf(spots[k].gwId, k, rows, n);
      } else {
        assert HasSpot(rows[n], k);
      }
    }
  }

  lemma {:induction false} SameGateways(spots: map<nat, SpotTopology>, c: Config, later: map<nat, SpotTopology>)
    requires Gateways(spots, c.rows, |c.rows|) && forall i :: 0 <= i < |c.assignments| ==>
      Assigns(c.assignments[i], spots.Keys)
    requires var r := WithAssigned(spots, c.assignments, |c.assignments|);
      later == r || exists k, ts :: k in r && later == Inserted(r, k, ts)
    ensures Gateways(later, c.rows, |c.rows|)
  {
    forall k | k in later
      ensures k in spots && later[k].gwId == spots[k].gwId
    {
      WithAssignedAt(spots, c.assignments, |c.assignments|, k);
    }
  }

  ghost predicate NoMembers(spots: map<nat, SpotTopology>) {
    forall k :: k in spots ==> Entry(spots[k], k, {})
  }

  /** The index. */
  ghost predicate Indexes(spots: map<nat, SpotTopology>, c: Config) {
    spots.Keys == Spots(c) && forall k :: k in spots ==> Entry(spots[k], k, Members(c, k))
  }

  lemma {:induction false} AssignedWithoutDefault(spots: map<nat, SpotTopology>, c: Config)
    requires Readable(c) && spots.Keys == Spots(c) && NoMembers(spots) && Unassigned(c) == {}
    ensures Indexes(WithAssigned(spots, c.assignments, |c.assignments|), c)
  {
    forall k | k in spots
      ensures Entry(WithAssigned(spots, c.assignments, |c.assignments|)[k], k, Members(c, k))
    {
      assert Entry(spots[k], k, {});
      WithAssignedAt(spots, c.assignments, |c.assignments|, k);
      assert Truncated(Unassigned(c)) == {};
    }
  }

  lemma {:induction false} AssignedWithDefault(spots: map<nat, SpotTopology>, c: Config)
    requires Readable(c) && spots.Keys == Spots(c) && NoMembers(spots) && Unassigned(c) != {}
    ensures Indexes(Inserted(WithAssigned(spots, c.assignments, |c.assignments|), SpotId(c.defaultGateway.value),
                             Truncated(Unassigned(c))), c)
  {
    var r := Inserted(WithAssigned(spots, c.assignments, |c.assignments|), SpotId(c.defaultGateway.value),
                      Truncated(Unassigned(c)));
    forall k | k in spots
      ensures Entry(r[k], k, Members(c, k))
    {
      assert Entry(spots[k], k, {});
      WithAssignedAt(spots, c.assignments, |c.assignments|, k);
    }
  }

  // ----- The same, in terms of the configuration alone -----

  /** Some row of the frequency plan has the spot. */
  ghost predicate Planned(c: Config, k: nat) {
    exists i :: 0 <= i < |c.rows| && c.rows[i].gatewayId.Some? && SpotId(c.rows[i].gatewayId.value) == k
  }

  /** The infrastructure has the terminal, and no assignment names it. */
  ghost predicate Free(c: Config, u: int) {
    && (exists i :: 0 <= i < |c.terminals| && c.terminals[i] == Some(u))
    && forall j :: 0 <= j < |c.assignments| ==> c.assignments[j].terminalId != Some(u)
  }

  /** Every setting that is asked for is there. */
  ghost predicate Complete(c: Config) {
    && (forall i :: 0 <= i < |c.rows| ==> c.rows[i].gatewayId.Some? && c.rows[i].complete)
    && (forall j :: 0 <= j < |c.assignments| ==>
          c.assignments[j].terminalId.Some? && c.assignments[j].gatewayId.Some?)
    && ((exists u :: Free(c, u)) ==> c.defaultGateway.Some?)
  }

  /** Every terminal goes to a spot of the frequency plan. */
  ghost predicate AllPlaced(c: Config) {
    && (forall j :: 0 <= j < |c.assignments| && c.assignments[j].gatewayId.Some? ==>
          Planned(c, SpotId(c.assignments[j].gatewayId.value)))
    && ((exists u :: Free(c, u)) && c.defaultGateway.Some? ==> Planned(c, SpotId(c.defaultGateway.value)))
  }

  /** The terminal, cut to 16 bits, is in the spot: an assignment says so, or no assignment names it and the
      spot is the default one. */
  ghost predicate Placed(c: Config, t: nat, k: nat) {
    || (exists j :: 0 <= j < |c.assignments| && Puts(c.assignments[j], t, k))
    || (c.defaultGateway.Some? && SpotId(c.defaultGateway.value) == k && exists u :: Free(c, u) && TalId(u) == t)
  }

  lemma {:induction false} RowSpotsIff(rows: seq<SpotRow>, n: nat, k: nat)
    requires n <= |rows|
    ensures k in RowSpots(rows, n) <==>
      exists i :: 0 <= i < n && rows[i].gatewayId.Some? && SpotId(rows[i].gatewayId.value) == k
  {
    if n > 0 {
      RowSpotsIff(rows, n - 1, k);
    }
  }

  lemma {:induction false} TerminalIdsIff(terminals: seq<Option<int>>, n: nat, u: int)
    requires n <= |terminals|
    ensures u in TerminalIds(terminals, n) <==> exists i :: 0 <= i < n && terminals[i] == Some(u)
  {
    if n > 0 {
      TerminalIdsIff(terminals, n - 1, u);
    }
  }

  lemma {:induction false} AssignedIff(assignments: seq<Assignment>, n: nat, k: nat, t: nat)
    requires n <= |assignments|
    ensures t in AssignedTo(assignments, n, k) <==> exists i :: 0 <= i < n && Puts(assignments[i], t, k)
  {
    if n > 0 {
      AssignedIff(assignments, n - 1, k, t);
    }
  }

  /** An assignment puts the terminal it names, cut to 16 bits, in the spot of its gateway, cut to 8. */
  ghost predicate Puts(a: Assignment, t: nat, k: nat) {
    a.terminalId.Some? && a.gatewayId.Some? && TalId(a.terminalId.value) == t && SpotId(a.gatewayId.value) == k
  }

  lemma {:induction false} AssignedIdsIff(assignments: seq<Assignment>, n: nat, u: int)
    requires n <= |assignments|
    ensures u in AssignedIds(assignments, n) <==> exists i :: 0 <= i < n && assignments[i].terminalId == Some(u)
  {
    if n > 0 {
      AssignedIdsIff(assignments, n - 1, u);
    }
  }

  lemma {:induction false} UnassignedIff(c: Config, u: int)
    ensures u in Unassigned(c) <==> Free(c, u)
  {
    TerminalIdsIff(c.terminals, |c.terminals|, u);
    AssignedIdsIff(c.assignments, |c.assignments|, u);
  }

  lemma {:induction false} ReadableIff(c: Config)
    ensures Readable(c) <==> Complete(c) && AllPlaced(c)
    ensures forall k :: k in Spots(c) <==> Planned(c, k)
  {
    forall k
      ensures k in Spots(c) <==> Planned(c, k)
    {
      RowSpotsIff(c.rows, |c.rows|, k);
    }
    forall u
      ensures u in Unassigned(c) <==> Free(c, u)
    {
      UnassignedIff(c, u);
    }
    if exists u :: Free(c, u) {
      var u :| Free(c, u);
      assert u in Unassigned(c);
    }
    if forall u :: !Free(c, u) {
      assert forall u :: u !in Unassigned(c);
      assert Unassigned(c) == {};
    }
    forall j | 0 <= j < |c.assignments|
      ensures Assigns(c.assignments[j], Spots(c)) <==>
        && c.assignments[j].terminalId.Some? && c.assignments[j].gatewayId.Some?
        && Planned(c, SpotId(c.assignments[j].gatewayId.value))
    {
    }
  }

  lemma {:induction false} MembersIff(c: Config, t: nat, k: nat)
    ensures t in Members(c, k) <==> Placed(c, t, k)
    ensures Readable(c) && Placed(c, t, k) ==> k in Spots(c)
  {
    AssignedIff(c.assignments, |c.assignments|, k, t);
    forall u
      ensures u in Unassigned(c) <==> Free(c, u)
    {
      UnassignedIff(c, u);
    }
    if t in Truncated(Unassigned(c)) {
      var u :| u in Unassigned(c) && TalId(u) == t;
      assert Free(c, u);
    }
  }

  class OpenSandModelConf {
    var spotsTopology: map<nat, SpotTopology>

    constructor ()
      ensures spotsTopology == map[]
    {
      spotsTopology := map[];
    }

    /** One entry for each spot of the frequency plan, still without terminals. */
    method ReadSpots(rows: seq<SpotRow>) returns (ok: bool)
      modifies this
      ensures ok <==> RowsComplete(rows, |rows|)
      ensures spotsTopology.Keys == RowSpots(rows, |rows|) && NoMembers(spotsTopology)
      ensures Gateways(spotsTopology, rows, |rows|)
    {
      spotsTopology := map[];
      ok := true;
      for n := 0 to |rows|
        invariant ok <==> RowsComplete(rows, n)
        invariant spotsTopology.Keys == RowSpots(rows, n) && NoMembers(spotsTopology)
        invariant Gateways(spotsTopology, rows, n)
      {
        ghost var before := spotsTopology;
        ok := ok && rows[n].gatewayId.Some? && rows[n].complete;
        if rows[n].gatewayId.Some? {
          var gw := rows[n].gatewayId.value;
          TruncatedTwice(gw);
          spotsTopology := spotsTopology[SpotId(gw) := SpotTopology(SpotId(gw), TalId(gw), {})];
        }
        GatewaysNext(before, rows, n, spotsTopology);
      }
    }

    method ReadAssignments(assignments: seq<Assignment>, ids: set<int>) returns (ok: bool, left: set<int>)
      modifies this
      ensures ok <==> forall i :: 0 <= i < |assignments| ==> Assigns(assignments[i], old(spotsTopology.Keys))
      ensures ok ==> left == ids - AssignedIds(assignments, |assignments|)
      ensures ok ==> spotsTopology == WithAssigned(old(spotsTopology), assignments, |assignments|)
    {
      left := ids;
      for n := 0 to |assignments|
        invariant left == ids - AssignedIds(assignments, n)
        invariant forall i :: 0 <= i < n ==> Assigns(assignments[i], old(spotsTopology.Keys))
        invariant spotsTopology == WithAssigned(old(spotsTopology), assignments, n)
      {
        var a := assignments[n];
        if a.terminalId.None? || a.gatewayId.None? {
          return false, left;
        }
        if SpotId(a.gatewayId.value) !in spotsTopology {
          return false, left;
        }
        spotsTopology := Inserted(spotsTopology, SpotId(a.gatewayId.value), {TalId(a.terminalId.value)});
        left := left - {a.terminalId.value};
      }
      ok := true;
    }

    method ReadTerminals(terminals: seq<Option<int>>) returns (ids: set<int>)
      ensures ids == TerminalIds(terminals, |terminals|)
    {
      ids := {};
      for n := 0 to |terminals|
        invariant ids == TerminalIds(terminals, n)
      {
        if terminals[n].Some? {
          ids := ids + {terminals[n].value};
        }
      }
    }

    /** `readTopology`: it succeeds exactly on a readable configuration, and the index then holds the
        members of each spot. */
    method ReadTopology(c: Config) returns (ok: bool)
      modifies this
      ensures ok <==> Readable(c)
      ensures ok ==> Indexes(spotsTopology, c) && Gateways(spotsTopology, c.rows, |c.rows|)
      ensures ok <==> Complete(c) && AllPlaced(c)
      ensures ok ==> forall k, t :: k in spotsTopology && t in spotsTopology[k].stIds <==> Placed(c, t, k)
    {
      ReadableIff(c);
      forall k, t
        ensures k in Spots(c) && t in Members(c, k) ==> Placed(c, t, k)
        ensures Readable(c) && Placed(c, t, k) ==> k in Spots(c) && t in Members(c, k)
      {
        MembersIff(c, t, k);
      }
      ok := ReadSpots(c.rows);
      if !ok {
        return;
      }
      ghost var spots := spotsTopology;
      var left := ReadTerminals(c.terminals);
      ok, left := ReadAssignments(c.assignments, left);
      if ok {
        assert left == Unassigned(c);
        if left != {} {
          if c.defaultGateway.None? || SpotId(c.defaultGateway.value) !in spotsTopology {
            return false;
          }
          spotsTopology := Inserted(spotsTopology, SpotId(c.defaultGateway.value), Truncated(left));
          AssignedWithDefault(spots, c);
          SameGateways(spots, c, spotsTopology);
        } else {
          AssignedWithoutDefault(spots, c);
          SameGateways(spots, c, spotsTopology);
        }
      }
    }
  }

  /** `getGwWithTalId`: an assignment without a terminal makes it fail. */
  method GetGwWithTalId(c: Config, tal: nat) returns (gw: Option<nat>)
    ensures gw == if (forall i :: 0 <= i < |c.assignments| ==> c.assignments[i].terminalId.Some?)
      && LastGateway(c.assignments, |c.assignments|, tal, c.defaultGateway).Some?
      then Some(TalId(LastGateway(c.assignments, |c.assignments|, tal, c.defaultGateway).value)) else None
  {
    var assignedSpot := c.defaultGateway;
    for n := 0 to |c.assignments|
      invariant forall i :: 0 <= i < n ==> c.assignments[i].terminalId.Some?
      invariant assignedSpot == LastGateway(c.assignments, n, tal, c.defaultGateway)
    {
      var a := c.assignments[n];
      if a.terminalId.None? {
        return None;
      }
      if a.terminalId.value == tal {
        assignedSpot := a.gatewayId;
      }
    }
    if assignedSpot.None? {
      return None;
    }
    return Some(TalId(assignedSpot.value));
  }

  /** Identifiers are cut to 8 and to 16 bits: those in range are as they were, and others lose multiples of
      256 and of 65536. */
  lemma {:induction false} Widths(x: int) returns (q: int, r: int)
    ensures 0 <= SpotId(x) < 256 && x == 256 * q + SpotId(x)
    ensures 0 <= TalId(x) < 65536 && x == 65536 * r + TalId(x)
    ensures (0 <= x < 256 ==> SpotId(x) == x) && (0 <= x < 65536 ==> TalId(x) == x)
  {
    q, r := x / 256, x / 65536;
  }

  lemma {:induction false} TruncatedTwice(x: int)
    ensures SpotId(TalId(x)) == SpotId(x)
  {
    assert x == 256 * (256 * (x / 65536) + TalId(x) / 256) + TalId(x) % 256;
  }

  lemma {:induction false} LastGatewayIs(assignments: seq<Assignment>, n: nat, tal: nat, otherwise: Option<int>)
    returns (i: int)
    requires n <= |assignments|
    ensures -1 <= i < n
    ensures LastGateway(assignments, n, tal, otherwise) == if i == -1 then otherwise else assignments[i].gatewayId
    ensures i == -1 <==> tal !in AssignedIds(assignments, n)
    ensures i >= 0 ==> assignments[i].terminalId == Some(tal)
    ensures forall j :: i < j < n ==> assignments[j].terminalId != Some(tal)
  {
    if n == 0 {
      i := -1;
    } else if assignments[n - 1].terminalId == Some(tal) {
      i := n - 1;
    } else {
      i := LastGatewayIs(assignments, n - 1, tal, otherwise);
    }
  }

  /** The gateway that the direct scan finds. */
  function Gateway(c: Config, tal: nat): Option<int> {
    LastGateway(c.assignments, |c.assignments|, tal, c.defaultGateway)
  }

  /** Once the topology was read, the direct scan succeeds on every terminal of the infrastructure, and
      the index has the terminal in the spot of the gateway it finds. */
  lemma {:induction false} ScanInIndex(c: Config, t: nat)
    requires Readable(c) && t in TerminalIds(c.terminals, |c.terminals|) && t < 65536
    ensures Gateway(c, t).Some? && SpotId(Gateway(c, t).value) in Spots(c)
    ensures t in Members(c, SpotId(Gateway(c, t).value))
  {
    var i := LastGatewayIs(c.assignments, |c.assignments|, t, c.defaultGateway);
    assert TalId(t) == t;
    if i == -1 {
      assert t in Unassigned(c);
    } else {
      var k := SpotId(Gateway(c, t).value);
      assert Assigns(c.assignments[i], Spots(c));
      AssignedIff(c.assignments, |c.assignments|, k, t);
      assert Puts(c.assignments[i], t, k);
    }
  }

  ghost predicate IdsInRange(c: Config) {
    && (forall u :: u in TerminalIds(c.terminals, |c.terminals|) ==> 0 <= u < 65536)
    && (forall i :: 0 <= i < |c.assignments| && c.assignments[i].terminalId.Some? ==>
          0 <= c.assignments[i].terminalId.value < 65536)
  }

  /** All assignments that name the terminal name the same spot. */
  ghost predicate Agree(c: Config, t: nat) {
    forall i, j :: 0 <= i < |c.assignments| && 0 <= j < |c.assignments|
      && c.assignments[i].terminalId == c.assignments[j].terminalId == Some(t)
      && c.assignments[i].gatewayId.Some? && c.assignments[j].gatewayId.Some?
      ==> SpotId(c.assignments[i].gatewayId.value) == SpotId(c.assignments[j].gatewayId.value)
  }

  /** The index and the direct scan agree, the terminal is in the spot found and in no other, exactly
      when no two assignments of the terminal disagree: the index keeps them all, the scan the last. */
  lemma {:induction false} IndexIsScanIff(c: Config, t: nat)
    requires Readable(c) && IdsInRange(c) && t in TerminalIds(c.terminals, |c.terminals|)
    ensures Gateway(c, t).Some?
    ensures (forall k :: t in Members(c, k) <==> k == SpotId(Gateway(c, t).value)) <==> Agree(c, t)
  {
    ScanInIndex(c, t);
    if Agree(c, t) {
      forall k | t in Members(c, k)
        ensures k == SpotId(Gateway(c, t).value)
      {
        OneSpot(c, t, k);
      }
    } else {
      var i, j :| 0 <= i < |c.assignments| && 0 <= j < |c.assignments|
        && c.assignments[i].terminalId == c.assignments[j].terminalId == Some(t)
        && c.assignments[i].gatewayId.Some? && c.assignments[j].gatewayId.Some?
        && SpotId(c.assignments[i].gatewayId.value) != SpotId(c.assignments[j].gatewayId.value);
      InSpotOf(c, t, i);
      InSpotOf(c, t, j);
    }
  }

  lemma {:induction false} InSpotOf(c: Config, t: nat, i: nat)
    requires i < |c.assignments| && c.assignments[i].terminalId == Some(t) && 0 <= t < 65536
      && c.assignments[i].gatewayId.Some?
    ensures t in Members(c, SpotId(c.assignments[i].gatewayId.value))
  {
    var k := SpotId(c.assignments[i].gatewayId.value);
    AssignedIff(c.assignments, |c.assignments|, k, t);
    assert Puts(c.assignments[i], t, k);
  }

  lemma {:induction false} OneSpot(c: Config, t: nat, k: nat)
    requires Readable(c) && IdsInRange(c) && t in TerminalIds(c.terminals, |c.terminals|)
    requires Agree(c, t) && t in Members(c, k) && Gateway(c, t).Some?
    ensures k == SpotId(Gateway(c, t).value)
  {
    var l := LastGatewayIs(c.assignments, |c.assignments|, t, c.defaultGateway);
    AssignedIff(c.assignments, |c.assignments|, k, t);
    if t in AssignedTo(c.assignments, |c.assignments|, k) {
      var i :| 0 <= i < |c.assignments| && Puts(c.assignments[i], t, k);
      assert c.assignments[i].terminalId == Some(t);
      AssignedIdsIff(c.assignments, |c.assignments|, t);
    } else {
      assert t in Truncated(Unassigned(c));
      var u :| u in Unassigned(c) && TalId(u) == t;
      assert 0 <= u < 65536;
      assert u == t;
    }
  }
}
