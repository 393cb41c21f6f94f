/**
 * The player status table of src/pages/game_s4.tsx: `playersStatusMap`, keyed by
 * player id, with the incremental merges of the join/leave/quit/move handlers and
 * the two button predicates derived from it.
 *
 * The merges go through immutability-helper's `update`. A nested `$set` on an id
 * that has no entry reads a field of `undefined` and throws, so the handler stops
 * before its `setState`: `None` below.
 */
module Players {
  import opened Wrappers

  type PlayerId = string

  /** `{online, move}`: connected, and has moved in the current round. */
  datatype Status = Status(online: bool, move: bool)

  type StatusMap = map<PlayerId, Status>

  /** `update(m, {[p]: {online: {$set: v}}})`. */
  function SetOnline(m: StatusMap, p: PlayerId, v: bool): (r: Option<StatusMap>)
    ensures r.Some? <==> p in m
    ensures r.Some? ==> r.value.Keys == m.Keys && r.value[p] == Status(v, m[p].move)
    ensures r.Some? ==> forall q :: q in m && q != p ==> r.value[q] == m[q]
  {
    if p in m then Some(m[p := m[p].(online := v)]) else None
  }

  /** `update(m, {[p]: {move: {$set: v}}})`. */
  function SetMove(m: StatusMap, p: PlayerId, v: bool): (r: Option<StatusMap>)
    ensures r.Some? <==> p in m
    ensures r.Some? ==> r.value.Keys == m.Keys && r.value[p] == Status(m[p].online, v)
    ensures r.Some? ==> forall q :: q in m && q != p ==> r.value[q] == m[q]
  {
    if p in m then Some(m[p := m[p].(move := v)]) else None
  }

  /** The status part of `handleOtherPlayerJoin`: a known player comes online, an unknown one is created. */
  function Joined(m: StatusMap, p: PlayerId): (r: StatusMap)
    ensures r.Keys == m.Keys + {p}
    ensures p in m ==> r[p] == Status(true, m[p].move)
    ensures p !in m ==> r[p] == Status(true, false)
    ensures forall q :: q in m && q != p ==> r[q] == m[q]
  {
    if p in m then m[p := m[p].(online := true)] else m[p := Status(true, false)]
  }

  /** The ids of the players that are online. */
  function OnlineIds(m: StatusMap): set<PlayerId> {
    set p | p in m && m[p].online
  }

  /** `canStartGame`: more than one player is online. */
  predicate CanStartGame(m: StatusMap) {
    |OnlineIds(m)| > 1
  }

  /** `canVoteNextStep`: some player is offline and has not moved in this round. */
  predicate CanVoteNextStep(m: StatusMap) {
    exists p :: p in m && !m[p].online && !m[p].move
  }

  /** The start button is enabled exactly when two different players are online. */
  lemma CanStartGameIff(m: StatusMap)
    ensures CanStartGame(m) <==>
              exists a, b :: a in m && b in m && a != b && m[a].online && m[b].online
  {
    var s := OnlineIds(m);
    if |s| > 1 {
      var a :| a in s;
      assert |s - {a}| == |s| - 1;
      var b :| b in s - {a};
      assert a in m && b in m && a != b && m[a].online && m[b].online;
    }
    if exists a, b :: a in m && b in m && a != b && m[a].online && m[b].online {
      var a, b :| a in m && b in m && a != b && m[a].online && m[b].online;
      assert {a, b} <= s;
      assert |{a, b}| == 2;
      SubsetCard({a, b}, s);
    }
  }

  /** Helper of `CanStartGameIff`: a subset is no larger than its superset. */
  lemma {:induction false} SubsetCard(a: set<PlayerId>, b: set<PlayerId>)
    requires a <= b
    ensures |a| <= |b|
    decreases |a|
  {
    if a != {} {
      var x :| x in a;
      SubsetCard(a - {x}, b - {x});
    }
  }

  /** A player who goes offline without having moved makes the skip vote available. */
  lemma LeaveEnablesVote(m: StatusMap, p: PlayerId)
    requires p in m && !m[p].move
    ensures SetOnline(m, p, false).Some? && CanVoteNextStep(SetOnline(m, p, false).value)
  {
    var r := SetOnline(m, p, false).value;
    assert p in r && !r[p].online && !r[p].move;
  }

  /** Once the last stalled player has moved, the skip vote is no longer available. */
  lemma MoveOfOnlyStalledDisablesVote(m: StatusMap, p: PlayerId)
    requires p in m
    requires forall q :: q in m && q != p ==> m[q].online || m[q].move
    ensures !CanVoteNextStep(SetMove(m, p, true).value)
  {
  }

  /** Coming online never disables the start button: join only adds online players. */
  lemma JoinKeepsOnline(m: StatusMap, p: PlayerId)
    ensures OnlineIds(Joined(m, p)) == OnlineIds(m) + {p}
  {
  }
}
