/** The simulated settlement cluster: a leader appends commands to its log and to those of the live followers. */
module Cluster {

  datatype Node = Node(log: seq<string>, commitIdx: int, isLeader: bool, crashed: bool)

  datatype View = View(nodes: map<string, Node>, leaderID: string)

  /** The log the cluster answers from. */
  function LeaderLog(v: View): seq<string>
    requires v.leaderID in v.nodes
  {
    v.nodes[v.leaderID].log
  }

  function Commit(v: View): int
    requires v.leaderID in v.nodes
  {
    v.nodes[v.leaderID].commitIdx
  }

  /**
   * Live nodes have the leader's log and commit index, crashed ones a prefix of the log; a
   * commit index is an index of its log, or 0 as at the start; and only the node that
   * `leaderID` names can carry the leader flag.
   */
  predicate Safe(v: View)
  {
    && v.leaderID in v.nodes
    && (forall id :: id in v.nodes ==> v.nodes[id].log <= LeaderLog(v))
    && (forall id :: id in v.nodes && !v.nodes[id].crashed ==>
          v.nodes[id].log == LeaderLog(v) && v.nodes[id].commitIdx == Commit(v))
    && (forall id :: id in v.nodes ==> v.nodes[id].commitIdx == 0 || 0 < v.nodes[id].commitIdx < |v.nodes[id].log|)
    && (forall id :: id in v.nodes && v.nodes[id].isLeader ==> id == v.leaderID)
  }

  // ---- What each operation does to the cluster ----

  predicate LeaderAvailable(v: View)
    requires v.leaderID in v.nodes
  {
    !v.nodes[v.leaderID].crashed && v.nodes[v.leaderID].isLeader
  }

  function Live(v: View): set<string>
  {
    set id | id in v.nodes && !v.nodes[id].crashed
  }

  /** A proposal to an available leader: the leader and every live follower append it. */
  function Proposed(v: View, cmd: string): View
    requires v.leaderID in v.nodes
  {
    var idx := |LeaderLog(v)|;
    var acks := |Live(v)|;
    v.(nodes := map id | id in v.nodes ::
         var node := v.nodes[id];
         if node.crashed then node
         else node.(log := node.log + [cmd],
                    commitIdx := if id != v.leaderID || acks >= 2 then idx else node.commitIdx))
  }

  function Crashed(v: View, id: string): View
  {
    if id in v.nodes then v.(nodes := v.nodes[id := v.nodes[id].(crashed := true)]) else v
  }

  function Recovered(v: View, id: string): View
    requires v.leaderID in v.nodes
  {
    if id in v.nodes then
      v.(nodes := v.nodes[id := v.nodes[id].(crashed := false, log := LeaderLog(v),
          commitIdx := v.nodes[v.leaderID].commitIdx)])
    else v
  }

  /** `winner` is a live node with the longest log; no node is live if there is none. */
  predicate Wins(v: View, winner: string)
  {
    winner in v.nodes && !v.nodes[winner].crashed &&
    forall id :: id in v.nodes && !v.nodes[id].crashed ==> |v.nodes[id].log| <= |v.nodes[winner].log|
  }

  /** All leader flags are reset; the winner, if any, gets the flag and the leadership. */
  function Elected(v: View, winner: string): View
  {
    View(map id | id in v.nodes :: v.nodes[id].(isLeader := id == winner), winner)
  }

  function Deposed(v: View): View
  {
    v.(nodes := map id | id in v.nodes :: v.nodes[id].(isLeader := false))
  }

  class SettlementCluster {
    var nodes: map<string, Node>
    var leaderID: string

    constructor ()
      ensures Safe(Contents()) && LeaderLog(Contents()) == [] && LeaderAvailable(Contents())
      ensures nodes.Keys == {"node-a", "node-b", "node-c"}
    {
      nodes := map["node-a" := Node([], 0, true, false),
                   "node-b" := Node([], 0, false, false),
                   "node-c" := Node([], 0, false, false)];
      leaderID := "node-a";
    }

    function Contents(): View
      reads this
    {
      View(nodes, leaderID)
    }

    /** `ProposeCommand`, taken as one step; it succeeds if a quorum of two acknowledges. */
    method ProposeCommand(cmd: string) returns (ok: bool)
      requires leaderID in nodes
      modifies this
      ensures old(LeaderAvailable(Contents())) ==> Contents() == Proposed(old(Contents()), cmd)
      ensures !old(LeaderAvailable(Contents())) ==> Contents() == old(Contents())
      ensures ok <==> old(LeaderAvailable(Contents())) && |Live(old(Contents()))| >= 2
    {
      if nodes[leaderID].crashed || !nodes[leaderID].isLeader {
        return false;
      }
      ghost var start := Contents();
      var logIdx := |nodes[leaderID].log|;
      nodes := nodes[leaderID := nodes[leaderID].(log := nodes[leaderID].log + [cmd])];
      assert Followers(Contents(), {}) == Followers(start, {});
      var acks := Replicate(cmd, logIdx);
      LeaderIsLive(start);
      ok := acks >= 2;
      if ok {
        nodes := nodes[leaderID := nodes[leaderID].(commitIdx := logIdx)];
      }
      assert nodes == Proposed(start, cmd).nodes;
    }

    static lemma LeaderIsLive(v: View)
      requires v.leaderID in v.nodes && !v.nodes[v.leaderID].crashed
      ensures |Live(v)| == 1 + |Followers(v, {})|
    {
      assert Live(v) == {v.leaderID} + Followers(v, {});
    }

    /** Append to every live follower; the result counts them and the leader. */
    method Replicate(cmd: string, logIdx: int) returns (acks: nat)
      modifies this`nodes
      ensures acks == 1 + |Followers(old(Contents()), {})|
      ensures nodes == Replicated(old(Contents()), {}, cmd, logIdx)
    {
      hide Replicated, Followers;
      acks := 1;
      ghost var start := Contents();
      var rest := nodes.Keys;
      NothingReplicated(start, cmd, logIdx);
      while rest != {}
        invariant rest <= start.nodes.Keys
        invariant acks == 1 + |Followers(start, rest)|
        invariant nodes == Replicated(start, rest, cmd, logIdx)
        decreases |rest|
      {
        var id :| id in rest;
        ReplicateOne(start, rest, id, cmd, logIdx);
        CountOne(start, rest, id);
        rest := rest - {id};
        if id != leaderID && !nodes[id].crashed {
          nodes := nodes[id := nodes[id].(log := nodes[id].log + [cmd], commitIdx := logIdx)];
          acks := acks + 1;
        }
      }
    }

    /** The live followers outside `rest`. */
    static function Followers(v: View, rest: set<string>): set<string>
    {
      set id | id in v.nodes && id != v.leaderID && !v.nodes[id].crashed && id !in rest
    }

    /** Those followers have received the command. */
    static function Replicated(v: View, rest: set<string>, cmd: string, logIdx: int): (r: map<string, Node>)
      ensures r.Keys == v.nodes.Keys
    {
      map id | id in v.nodes ::
        if id in Followers(v, rest) then v.nodes[id].(log := v.nodes[id].log + [cmd], commitIdx := logIdx)
        else v.nodes[id]
    }

    static lemma NothingReplicated(v: View, cmd: string, logIdx: int)
      ensures Replicated(v, v.nodes.Keys, cmd, logIdx) == v.nodes && Followers(v, v.nodes.Keys) == {}
    {
    }

    static lemma ReplicateOne(v: View, rest: set<string>, id: string, cmd: string, logIdx: int)
      requires id in rest && id in v.nodes
      ensures Replicated(v, rest, cmd, logIdx)[id] == v.nodes[id]
      ensures var r := Replicated(v, rest, cmd, logIdx);
              Replicated(v, rest - {id}, cmd, logIdx) ==
              if id == v.leaderID || v.nodes[id].crashed then r
              else r[id := v.nodes[id].(log := v.nodes[id].log + [cmd], commitIdx := logIdx)]
    {
    }

    static lemma CountOne(v: View, rest: set<string>, id: string)
      requires id in rest && id in v.nodes
      ensures |Followers(v, rest - {id})| ==
              |Followers(v, rest)| + if id == v.leaderID || v.nodes[id].crashed then 0 else 1
    {
      var before, after := Followers(v, rest), Followers(v, rest - {id});
      if id == v.leaderID || v.nodes[id].crashed {
        assert after == before;
      } else {
        assert after == before + {id};
      }
    }

    method CrashNode(id: string)
      modifies this
      ensures Contents() == Crashed(old(Contents()), id)
      ensures Live(Contents()) == Live(old(Contents())) - {id}
    {
      if id in nodes {
        nodes := nodes[id := nodes[id].(crashed := true)];
      }
    }

    method RecoverNode(id: string)
      requires leaderID in nodes
      modifies this
      ensures Contents() == Recovered(old(Contents()), id)
      ensures Live(Contents()) == Live(old(Contents())) + if id in nodes then {id} else {}
    {
      if id in nodes {
        var leaderLog, leaderCommit := nodes[leaderID].log, nodes[leaderID].commitIdx;
        nodes := nodes[id := nodes[id].(crashed := false)];
        nodes := nodes[id := nodes[id].(log := leaderLog, commitIdx := leaderCommit)];
      }
    }

    /** The election scans the nodes in no particular order. */
    method RunElection()
      modifies this
      ensures if Live(old(Contents())) == {} then Contents() == Deposed(old(Contents()))
              else exists w :: Wins(old(Contents()), w) && Contents() == Elected(old(Contents()), w)
      ensures Live(Contents()) == Live(old(Contents()))
      ensures Live(old(Contents())) != {} ==> leaderID in Live(Contents()) && LeaderAvailable(Contents())
      ensures Live(old(Contents())) == {} ==> forall id :: id in nodes ==> !nodes[id].isLeader
      ensures forall id :: id in Live(Contents()) ==> leaderID in nodes && |nodes[id].log| <= |nodes[leaderID].log|
    {
      ghost var start := Contents();
      var best, maxLogSize := "", -1;
      var rest := nodes.Keys;
      while rest != {}
        invariant rest <= nodes.Keys && leaderID == start.leaderID
        invariant nodes == Reset(start.nodes, rest)
        invariant Best(start.nodes, rest, best, maxLogSize)
        decreases |rest|
      {
        var id :| id in rest;
        ResetOne(start.nodes, rest, id);
        if !nodes[id].crashed && |nodes[id].log| > maxLogSize {
          maxLogSize, best := |nodes[id].log|, id;
        }
        nodes := nodes[id := nodes[id].(isLeader := false)];
        rest := rest - {id};
      }
      assert nodes == Deposed(start).nodes;
      if maxLogSize >= 0 {
        assert Wins(start, best) && best in Live(start);
        nodes := nodes[best := nodes[best].(isLeader := true)];
        leaderID := best;
        assert nodes == Elected(start, best).nodes;
      } else {
        assert Live(start) == {};
      }
    }

    /** The flags of the nodes outside `rest` have been reset. */
    static function Reset(nodes: map<string, Node>, rest: set<string>): map<string, Node>
    {
      map id | id in nodes :: if id in rest then nodes[id] else nodes[id].(isLeader := false)
    }

    static lemma ResetOne(nodes: map<string, Node>, rest: set<string>, id: string)
      requires id in rest && id in nodes
      ensures Reset(nodes, rest - {id}) == Reset(nodes, rest)[id := nodes[id].(isLeader := false)]
      ensures Reset(nodes, rest)[id] == nodes[id]
    {
    }

    /** `best` has the longest log among the live nodes outside `rest`; `max` is -1 if there are none. */
    static predicate Best(nodes: map<string, Node>, rest: set<string>, best: string, max: int)
    {
      && max >= -1
      && (max == -1 ==> forall id :: id in nodes && id !in rest ==> nodes[id].crashed)
      && (max >= 0 ==>
            && best in nodes && best !in rest && !nodes[best].crashed && |nodes[best].log| == max
            && forall id :: id in nodes && id !in rest && !nodes[id].crashed ==> |nodes[id].log| <= max)
    }
  }

  // ---- Every run ----

  /** `Elect` names the node the scan would pick; it does nothing if that node would not win. */
  datatype Op = Propose(cmd: string) | Crash(id: string) | Recover(id: string) | Elect(winner: string)

  function ApplyOp(v: View, op: Op): View
    requires v.leaderID in v.nodes
  {
    match op
    case Propose(cmd) => if LeaderAvailable(v) then Proposed(v, cmd) else v
    case Crash(id) => Crashed(v, id)
    case Recover(id) => Recovered(v, id)
    case Elect(w) => if Live(v) == {} then Deposed(v) else if Wins(v, w) then Elected(v, w) else v
  }

  /** Without followers a proposal has no quorum. */
  lemma LoneLeader(v: View)
    requires v.leaderID in v.nodes && v.leaderID in Live(v) && |Live(v)| < 2
    ensures Live(v) == {v.leaderID}
  {
    if id :| id in Live(v) && id != v.leaderID {
      assert {id, v.leaderID} <= Live(v);
      SubsetSize({id, v.leaderID}, Live(v));
    }
  }

  lemma {:induction false} SubsetSize(a: set<string>, b: set<string>)
    requires a <= b
    ensures |a| <= |b|
  {
    if a != {} {
      var x :| x in a;
      SubsetSize(a - {x}, b - {x});
    }
  }

  lemma ProposeIsSafe(v: View, cmd: string)
    requires Safe(v) && LeaderAvailable(v)
    ensures var v' := Proposed(v, cmd);
            Safe(v') && LeaderLog(v') == LeaderLog(v) + [cmd] && Commit(v') >= Commit(v)
    ensures |Live(v)| >= 2 ==> Commit(Proposed(v, cmd)) == |LeaderLog(v)|
  {
    if |Live(v)| < 2 {
      LoneLeader(v);
      assert forall id :: id in v.nodes && id != v.leaderID ==> id !in Live(v);
    }
  }

  lemma SafeHasLeader(v: View)
    requires Safe(v)
    ensures v.leaderID in v.nodes
  {
  }

  lemma RecoverIsSafe(v: View, id: string)
    requires Safe(v)
    ensures var v' := Recovered(v, id); Safe(v') && LeaderLog(v') == LeaderLog(v) && Commit(v') == Commit(v)
  {
  }

  lemma CrashIsSafe(v: View, id: string)
    requires Safe(v)
    ensures var v' := Crashed(v, id); Safe(v') && LeaderLog(v') == LeaderLog(v) && Commit(v') == Commit(v)
  {
  }

  lemma DeposeIsSafe(v: View)
    requires Safe(v)
    ensures var v' := Deposed(v); Safe(v') && LeaderLog(v') == LeaderLog(v) && Commit(v') == Commit(v)
  {
  }

  /** The winner is live, so it has the log and the commit index of the leader it replaces. */
  lemma ElectIsSafe(v: View, winner: string)
    requires Safe(v) && Wins(v, winner)
    ensures var v' := Elected(v, winner); Safe(v') && LeaderLog(v') == LeaderLog(v) && Commit(v') == Commit(v)
  {
  }

  /** Each operation keeps the cluster safe, only ever extends the leader's log and never lowers the commit index. */
  lemma OpIsSafe(v: View, op: Op)
    requires Safe(v)
    ensures Safe(ApplyOp(v, op)) && LeaderLog(v) <= LeaderLog(ApplyOp(v, op)) && Commit(v) <= Commit(ApplyOp(v, op))
  {
    hide Proposed, Recovered, Elected, Safe;
    SafeHasLeader(v);
    match op {
      case Propose(cmd) =>
        if LeaderAvailable(v) {
          ProposeIsSafe(v, cmd);
        }
      case Recover(id) => RecoverIsSafe(v, id);
      case Elect(w) =>
        if Live(v) == {} {
          DeposeIsSafe(v);
        } else if Wins(v, w) {
          ElectIsSafe(v, w);
        }
      case Crash(id) => CrashIsSafe(v, id);
    }
  }

  /** The view after a list of operations. */
  function After(v: View, ops: seq<Op>): (r: View)
    requires Safe(v)
    ensures Safe(r)
    decreases |ops|
  {
    if |ops| == 0 then v
    else
      OpIsSafe(After(v, ops[..|ops| - 1]), ops[|ops| - 1]);
      ApplyOp(After(v, ops[..|ops| - 1]), ops[|ops| - 1])
  }

  /** The leader's log and commit index survive every crash, recovery and election. */
  lemma {:induction false} LogOnlyGrows(v: View, ops: seq<Op>)
    requires Safe(v)
    ensures LeaderLog(v) <= LeaderLog(After(v, ops)) && Commit(v) <= Commit(After(v, ops))
    decreases |ops|
  {
    if |ops| != 0 {
      LogOnlyGrows(v, ops[..|ops| - 1]);
      OpIsSafe(After(v, ops[..|ops| - 1]), ops[|ops| - 1]);
    }
  }

  /**
   * A proposal that an available leader accepted -- with or without a quorum -- keeps its index
   * forever, and every node that is live at any later time has it there; if there was a quorum,
   * it also stays at or below the commit index.
   */
  lemma ProposalKeepsItsIndex(v: View, cmd: string, ops: seq<Op>, id: string)
    requires Safe(v) && LeaderAvailable(v)
    ensures Safe(Proposed(v, cmd))
    ensures var idx, v' := |LeaderLog(v)|, After(Proposed(v, cmd), ops);
            && idx < |LeaderLog(v')| && LeaderLog(v')[idx] == cmd
            && (id in v'.nodes && !v'.nodes[id].crashed ==> idx < |v'.nodes[id].log| && v'.nodes[id].log[idx] == cmd)
            && (|Live(v)| >= 2 ==> idx <= Commit(v'))
  {
    OpIsSafe(v, Propose(cmd));
    LogOnlyGrows(Proposed(v, cmd), ops);
  }

  /** A crash takes one node out, a recovery brings one in, and nothing else changes who is live. */
  lemma WhoIsLive(v: View, op: Op)
    requires Safe(v)
    ensures Live(ApplyOp(v, op)) ==
            match op
            case Crash(id) => Live(v) - {id}
            case Recover(id) => Live(v) + if id in v.nodes then {id} else {}
            case Propose(_) => Live(v)
            case Elect(_) => Live(v)
  {
  }

  /**
   * An election gets the cluster going again: if two nodes are live, the winner leads, and its
   * next proposal is appended to every live log and committed.
   */
  lemma ElectionRestoresService(v: View, winner: string, cmd: string)
    requires Safe(v) && Wins(v, winner) && |Live(v)| >= 2
    ensures var elected := ApplyOp(v, Elect(winner));
            && elected.leaderID == winner && LeaderAvailable(elected)
            && var v' := ApplyOp(elected, Propose(cmd));
               && Live(v') == Live(v) && Commit(v') == |LeaderLog(v)|
               && forall id :: id in Live(v) ==> v'.nodes[id].log == LeaderLog(v) + [cmd]
  {
    hide Safe;
    var elected := Elected(v, winner);
    assert winner in Live(v);
    SafeHasLeader(v);
    ElectIsSafe(v, winner);
    ProposeIsSafe(elected, cmd);
    WhoIsLive(v, Elect(winner));
    WhoIsLive(elected, Propose(cmd));
    LiveLogs(Proposed(elected, cmd));
  }

  lemma LiveLogs(v: View)
    requires Safe(v)
    ensures forall id :: id in Live(v) ==> v.nodes[id].log == LeaderLog(v)
  {
  }

  /** Recovery undoes a crash: a live node that crashes and comes back leaves the cluster as it was, leader or not. */
  lemma RecoveryUndoesCrash(v: View, id: string)
    requires Safe(v) && id in Live(v)
    ensures ApplyOp(ApplyOp(v, Crash(id)), Recover(id)) == v
  {
    var down := Crashed(v, id);
    assert Recovered(down, id).nodes[id] == v.nodes[id];
  }

  /** Nothing but its own recovery touches the log or the commit index of a crashed node. */
  lemma CrashedNodesSleep(v: View, op: Op, id: string)
    requires Safe(v) && id in v.nodes && v.nodes[id].crashed && op != Recover(id)
    ensures var v' := ApplyOp(v, op);
            && id in v'.nodes && v'.nodes[id].crashed
            && v'.nodes[id].log == v.nodes[id].log && v'.nodes[id].commitIdx == v.nodes[id].commitIdx
  {
  }

  /** With no node live, an election leaves the cluster without a leader, and proposals change nothing. */
  lemma NobodyToElect(v: View, winner: string, cmd: string)
    requires Safe(v) && Live(v) == {}
    ensures var v' := ApplyOp(v, Elect(winner));
            && v'.nodes.Keys == v.nodes.Keys && (forall id :: id in v'.nodes ==> !v'.nodes[id].isLeader)
            && ApplyOp(v', Propose(cmd)) == v'
  {
  }

  /** Without an election, a crash of the leader stops the service: proposals change nothing. */
  lemma LeaderlessRefuses(v: View, cmd: string)
    requires Safe(v)
    ensures var down := ApplyOp(v, Crash(v.leaderID)); ApplyOp(down, Propose(cmd)) == down
  {
  }

  /** At no time do two nodes both think they lead. */
  lemma AtMostOneLeader(v: View, ops: seq<Op>, a: string, b: string)
    requires Safe(v)
    requires var v' := After(v, ops); a in v'.nodes && b in v'.nodes && v'.nodes[a].isLeader && v'.nodes[b].isLeader
    ensures a == b
  {
    assert Safe(After(v, ops));
  }
}
