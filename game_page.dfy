/**
 * The game page of src/pages/game_s4.tsx as a state machine.
 *
 * The page keeps one state record (`GameState`), changed by the handlers of the
 * socket events and of the user's clicks, and the modal handles in `vars`. The
 * values the page derives in effects and memos (`canNextStep`,
 * `nextStepCanMovedGrids`, `myGridPos`, the button predicates) are functions of
 * the record here, read once the effects have settled; the own position `myPos`
 * is a field of its own because it keeps its old value when the board has no
 * cell for the player.
 *
 * Outbound socket emits and navigation to the lobby form an append-only log,
 * modals on screen are a map from handle to what they ask, and the cache is the
 * shared `Cache.Store`.
 */
module GamePage {
  import opened Wrappers
  import opened Board
  import opened Players
  import Cache

  /** The id of a modal returned by `Modal.confirm`. */
  type HandleId = nat

  /** `playersInfoMap` entries (`UserType`). */
  datatype Profile = Profile(id: PlayerId, nickname: string, avatar: string)

  /** A value kept in the cache: a string (room id, game kind) or the logged-in user record. */
  datatype Cached = Str(s: string) | UserRecord(user: Profile)

  /** JavaScript truthiness of a cache read: undefined and the empty string are falsy. */
  predicate Truthy(v: Option<Cached>) {
    match v
    case None => false
    case Some(Str(s)) => s != ""
    case Some(UserRecord(_)) => true
  }

  /** The account id of the cached user record (`state.account._id`). */
  function AccountId(v: Option<Cached>): (r: Option<PlayerId>)
    ensures r.Some? <==> v.Some? && v.value.UserRecord?
    ensures r.Some? ==> r.value == v.value.user.id
  {
    match v
    case Some(UserRecord(p)) => Some(p.id)
    case _ => None
  }

  /** The cached game kind, a string. */
  function GameKind(v: Option<Cached>): (r: Option<string>)
    ensures r.Some? <==> v.Some? && v.value.Str?
    ensures r.Some? ==> r.value == v.value.s
  {
    match v
    case Some(Str(t)) => Some(t)
    case _ => None
  }

  /** The `GameState` fields the core logic reads or writes. */
  datatype GameState = GameState(
    account: Option<PlayerId>,
    gameType: Option<string>,
    myPos: Option<Pos>,
    myNextPos: Option<Pos>,
    boardGrids: Grid,
    currentStepNum: int,
    gameSizeX: Option<int>,
    gameSizeY: Option<int>,
    myselfMoved: bool,
    playersInfoMap: map<PlayerId, Profile>,
    playersStatusMap: StatusMap,
    customGameMaster: string,
    isGameOver: bool)

  /** `GameVars`: the handles of the modals the page may destroy later. */
  datatype GameVars = GameVars(
    voteRestartModal: Option<HandleId>,
    voteNextStepModal: Option<HandleId>,
    gameOverModal: Option<HandleId>)

  datatype Verdict = Win | Lose | Draw

  /** What a modal on screen asks the user. */
  datatype Prompt = VoteNextStepPrompt | VoteRestartPrompt | GameOverPrompt(verdict: Verdict) | QuitPrompt

  /** Messages the page emits on the socket. */
  datatype Msg =
    | JoinRoomMsg(gameRoomId: Cached)
    | MoveMsg(oldPos: Option<Pos>, newPos: Pos, stepNum: int)
    | VoteNextStep(vote: bool)
    | VoteRestart(vote: bool)
    | CustomGameStart(roomId: Option<Cached>)
    | QuitGame

  /** An outward effect: a socket emit, or `history.replace('/')`. */
  datatype Effect = Emit(msg: Msg) | GoHome

  // ---------------------------------------------------------------------------
  // Values derived from the state record

  /** The local player's own status entry says it has moved. */
  predicate MovedPerTable(st: GameState) {
    st.account.Some? && st.account.value in st.playersStatusMap && st.playersStatusMap[st.account.value].move
  }

  /** `canNextStep`: the round has started and, for a known account, the player has not moved. */
  function TurnOpen(st: GameState): (r: bool)
    ensures st.currentStepNum == 0 ==> !r
    ensures st.account.Some? && st.myselfMoved ==> !r
    ensures MovedPerTable(st) ==> !r
    ensures r || st.currentStepNum == 0 || (st.account.Some? && st.myselfMoved) || MovedPerTable(st)
  {
    var canNextStep := st.currentStepNum != 0;
    if st.account.Some? && (st.myselfMoved || MovedPerTable(st)) then false else canNextStep
  }

  /** `nextStepCanMovedGrids` for the settled state (`None`: the page throws). */
  function LegalGrids(st: GameState): (r: Option<seq<Pos>>)
    ensures !TurnOpen(st) ==> r == Some([])
    ensures TurnOpen(st) && st.myPos.None? ==> r == Some(AllCells(st.boardGrids))
    ensures TurnOpen(st) && st.myPos.Some? ==>
              (r.None? <==> exists q :: q in Neighbours(st.myPos.value) &&
                                        RowMissing(st.boardGrids, q, st.gameSizeX, st.gameSizeY))
    ensures st.myPos.Some? && r.Some? ==>
              forall q :: q in r.value <==>
                TurnOpen(st) && q in Neighbours(st.myPos.value) &&
                !RowMissing(st.boardGrids, q, st.gameSizeX, st.gameSizeY) &&
                Vacant(st.boardGrids, q, st.gameSizeX, st.gameSizeY)
  {
    NextStepGrids(TurnOpen(st), st.myPos, st.boardGrids, st.gameSizeX, st.gameSizeY)
  }

  /** `myGridPos`: where the own piece is drawn, the chosen destination first. */
  function MyGridPos(st: GameState): (r: Option<Pos>)
    ensures st.myNextPos.Some? ==> r == st.myNextPos
    ensures st.myNextPos.None? ==> r == st.myPos
  {
    if st.myNextPos.Some? then st.myNextPos else st.myPos
  }

  /** The confirm button's `disabled={!canNextStep || !myNextPos}`, negated. */
  predicate CanSubmit(st: GameState) {
    TurnOpen(st) && st.myNextPos.Some?
  }

  /** The game over classification: win, lose, draw, or no modal. */
  function GameOverVerdict(result: string, winner: Option<string>, account: Option<PlayerId>): (v: Option<Verdict>)
    ensures v == Some(Draw) <==> result == "draw"
    ensures v == Some(Win) <==> result == "normal" && winner.Some? && winner.value != "" && winner == account
    ensures v == Some(Lose) <==>
              result == "normal" && !(winner.Some? && winner.value != "" && (account.None? || winner == account))
    ensures v.None? <==>
              (result != "normal" && result != "draw") ||
              (result == "normal" && winner.Some? && winner.value != "" && account.None?)
  {
    if result == "normal" then
      if winner.Some? && winner.value != "" then
        // `winner === state.account._id` throws without an account
        if account.None? then None
        else if winner.value == account.value then Some(Win) else Some(Lose)
      else Some(Lose)
    else if result == "draw" then Some(Draw)
    else None
  }

  // ---------------------------------------------------------------------------
  // Properties of the derived values across handlers

  /** Submitting closes the turn for a known account: no cell is legal and the button is disabled. */
  lemma SubmitClosesTurn(st: GameState)
    requires st.account.Some?
    ensures !TurnOpen(st.(myselfMoved := true))
    ensures LegalGrids(st.(myselfMoved := true)) == Some([])
    ensures !CanSubmit(st.(myselfMoved := true))
  {
  }

  /**
   * A cell accepted by a click is where the piece is drawn, and it enables the
   * confirm button: the list only has cells while the turn is open.
   */
  lemma SelectionEnablesSubmit(st: GameState, pos: Pos)
    requires LegalGrids(st).Some? && pos in LegalGrids(st).value
    ensures MyGridPos(st.(myNextPos := Some(pos))) == Some(pos)
    ensures CanSubmit(st.(myNextPos := Some(pos)))
  {
    assert pos in LegalGrids(st).value;
  }

  /** The clash rollback draws the piece back on the own position and disables the confirm button. */
  lemma ClashRedrawsOwnPosition(st: GameState)
    requires st.account.Some? && st.account.value in st.playersStatusMap
    ensures
      var after := st.(playersStatusMap := SetMove(st.playersStatusMap, st.account.value, false).value,
                       myNextPos := None);
      MyGridPos(after) == st.myPos && !CanSubmit(after)
  {
  }

  /**
   * A clash after a submission leaves the turn closed: the handler clears the move
   * flag in the table and the destination, but `myselfMoved` stays set until the
   * step changes.
   */
  lemma ClashAfterSubmitKeepsTurnClosed(st: GameState)
    requires st.account.Some? && st.account.value in st.playersStatusMap && st.myselfMoved
    ensures
      var after := st.(playersStatusMap := SetMove(st.playersStatusMap, st.account.value, false).value,
                       myNextPos := None);
      !TurnOpen(after) && LegalGrids(after) == Some([])
  {
  }

  /** A clash before any local submission reopens the turn of a started round. */
  lemma ClashWithoutSubmitReopensTurn(st: GameState)
    requires st.account.Some? && st.account.value in st.playersStatusMap && !st.myselfMoved
    requires st.currentStepNum != 0
    ensures TurnOpen(st.(playersStatusMap := SetMove(st.playersStatusMap, st.account.value, false).value,
                         myNextPos := None))
  {
  }

  /**
   * A board for a new step reopens the turn unless the table still marks the
   * player as moved: the page does not clear the table's move flags itself.
   */
  lemma NewStepReopensTurn(st: GameState, grids: Grid, stepNum: int)
    requires stepNum != st.currentStepNum && stepNum != 0
    ensures
      var after := st.(myNextPos := None, myselfMoved := false, boardGrids := grids, currentStepNum := stepNum);
      TurnOpen(after) <==> !MovedPerTable(st)
  {
  }

  /** The end of the game does not close the turn: `canNextStep` does not read `isGameOver`. */
  lemma GameOverLeavesTurn(st: GameState)
    ensures TurnOpen(st.(isGameOver := true)) == TurnOpen(st)
    ensures LegalGrids(st.(isGameOver := true)) == LegalGrids(st)
  {
  }

  /**
   * Every grid the page lets the player choose next to a known position is one
   * step away and free: it is a neighbour, inside the size, and not occupied.
   */
  lemma SelectionIsFreeNeighbour(st: GameState, pos: Pos)
    requires st.myPos.Some? && LegalGrids(st).Some? && IsPosInList(pos, LegalGrids(st).value)
    ensures pos != st.myPos.value && pos in Neighbours(st.myPos.value)
    ensures Vacant(st.boardGrids, pos, st.gameSizeX, st.gameSizeY)
  {
    assert pos in LegalGrids(st).value;
  }

  // ---------------------------------------------------------------------------
  // The page

  class Page {
    var state: GameState
    var vars: GameVars
    /** The modals on screen. */
    var prompts: map<HandleId, Prompt>
    /** The next fresh modal handle. */
    var nextHandle: HandleId
    /** Everything the page has sent to the server or done to the route, in order. */
    var outbox: seq<Effect>
    /** The browser's `localStorage`. */
    const store: Cache.Store<Cached>

    /** Modal handles are never reused: every handle the page knows has been issued. */
    ghost predicate Valid()
      reads this
    {
      (forall h :: h in prompts ==> h < nextHandle) &&
      (vars.voteRestartModal.Some? ==> vars.voteRestartModal.value < nextHandle) &&
      (vars.voteNextStepModal.Some? ==> vars.voteNextStepModal.value < nextHandle) &&
      (vars.gameOverModal.Some? ==> vars.gameOverModal.value < nextHandle)
    }

    /** Everything but the state record. */
    ghost function Rest(): (GameVars, map<HandleId, Prompt>, HandleId, seq<Effect>)
      reads this
    {
      (vars, prompts, nextHandle, outbox)
    }

    /**
     * The page once mounted. The initial state reads the account and then the game
     * kind from the cache; the mount effect reads the game kind again and takes the
     * board size from it. Each read may remove an expired or unreadable entry. The
     * step is 1 and nothing else is known yet.
     */
    constructor (store: Cache.Store<Cached>, now: int)
      modifies store
      ensures Valid()
      ensures
        var account := Cache.Get(old(store.items), "account", None, now);
        var kind := Cache.Get(account.items, "gameType", None, now);
        var mounted := Cache.Get(kind.items, "gameType", None, now);
        store.items == mounted.items &&
        state == GameState(AccountId(account.value), GameKind(kind.value), None, None, [], 1,
                           GameCols(GameKind(mounted.value)), GameCols(GameKind(mounted.value)),
                           false, map[], map[], "", false)
      ensures vars == GameVars(None, None, None) && prompts == map[] && outbox == []
      ensures this.store == store
    {
      var account := store.GetItem("account", None, now);
      var kind := store.GetItem("gameType", None, now);
      var mounted := store.GetItem("gameType", None, now);
      state := GameState(AccountId(account), GameKind(kind), None, None, [], 1,
                         GameCols(GameKind(mounted)), GameCols(GameKind(mounted)),
                         false, map[], map[], "", false);
      vars := GameVars(None, None, None);
      prompts := map[];
      nextHandle := 0;
      outbox := [];
      this.store := store;
    }

    /** Puts a new modal on screen and returns its fresh handle. */
    method OpenPrompt(p: Prompt) returns (h: HandleId)
      requires Valid()
      modifies this
      ensures Valid()
      ensures h == old(nextHandle) && h !in old(prompts) && prompts == old(prompts)[h := p]
      ensures nextHandle == h + 1 && state == old(state) && vars == old(vars) && outbox == old(outbox)
    {
      h := nextHandle;
      prompts := prompts[h := p];
      nextHandle := nextHandle + 1;
    }

    /** `modal.destroy()`: the modal leaves the screen (destroying a closed one does nothing). */
    method Destroy(h: HandleId)
      requires Valid()
      modifies this
      ensures Valid()
      ensures prompts == old(prompts) - {h}
      ensures state == old(state) && vars == old(vars) && nextHandle == old(nextHandle) && outbox == old(outbox)
    {
      prompts := prompts - {h};
    }

    // ----- board and round

    /**
     * The effect on `boardGrids`: the first cell in row-major order that carries the
     * account id becomes `myPos`; with no such cell, or no rows, `myPos` stays.
     */
    method UpdateMyPos()
      modifies this
      ensures state == old(state).(myPos := ScannedPos(old(state).boardGrids, old(state).account, old(state).myPos))
      ensures Rest() == old(Rest())
    {
      var board := state.boardGrids;
      if |board| == 0 {
        return;
      }
      var y := 0;
      while y < |board|
        invariant 0 <= y <= |board|
        invariant state == old(state) && Rest() == old(Rest())
        invariant state.account.Some? ==> Locate(board, state.account.value, 0) == Locate(board, state.account.value, y)
      {
        var x := if state.account.Some? then FindIndex(board[y], Id(state.account.value)) else -1;
        if x > -1 {
          state := state.(myPos := Some(Pos(x, y)));
          return;
        }
        y := y + 1;
      }
    }

    /**
     * `handleSyncBoard`: the board and the step are replaced; a different step also
     * clears the chosen destination and `myselfMoved`. The own position is then
     * looked up again on the new board.
     */
    method HandleSyncBoard(boardGrids: Grid, currentStepNum: int)
      modifies this
      ensures
        var cleared := if currentStepNum != old(state).currentStepNum
                       then old(state).(myNextPos := None, myselfMoved := false) else old(state);
        state == cleared.(boardGrids := boardGrids, currentStepNum := currentStepNum,
                          myPos := ScannedPos(boardGrids, old(state).account, old(state).myPos))
      ensures currentStepNum != old(state).currentStepNum ==>
                MyGridPos(state) == ScannedPos(boardGrids, old(state).account, old(state).myPos)
      ensures currentStepNum == old(state).currentStepNum && old(state).myNextPos.Some? ==>
                MyGridPos(state) == old(state).myNextPos
      ensures Rest() == old(Rest())
    {
      if currentStepNum != state.currentStepNum {
        state := state.(myNextPos := None, myselfMoved := false);
      }
      state := state.(boardGrids := boardGrids, currentStepNum := currentStepNum);
      UpdateMyPos();
    }

    // ----- moves

    /** `onClickGrid`: a position on the legal list becomes the destination; anything else is ignored. */
    method OnClickGrid(pos: Pos)
      modifies this
      ensures LegalGrids(old(state)).Some? && pos in LegalGrids(old(state)).value ==>
                state == old(state).(myNextPos := Some(pos)) && MyGridPos(state) == Some(pos)
      ensures !(LegalGrids(old(state)).Some? && pos in LegalGrids(old(state)).value) ==> state == old(state)
      ensures Rest() == old(Rest())
    {
      var grids := LegalGrids(state);
      if grids.Some? && IsPosInList(pos, grids.value) {
        state := state.(myNextPos := Some(pos));
      }
    }

    /**
     * `submitMove`: without a destination nothing happens; otherwise the move is
     * sent with the old position and the step, and `myselfMoved` is set.
     */
    method SubmitMove()
      modifies this
      ensures old(state).myNextPos.None? ==> state == old(state) && outbox == old(outbox)
      ensures old(state).myNextPos.Some? ==>
                state == old(state).(myselfMoved := true) &&
                outbox == old(outbox) + [Emit(MoveMsg(old(state).myPos, old(state).myNextPos.value,
                                                         old(state).currentStepNum))]
      ensures vars == old(vars) && prompts == old(prompts) && nextHandle == old(nextHandle)
    {
      if state.myNextPos.Some? {
        outbox := outbox + [Emit(MoveMsg(state.myPos, state.myNextPos.value, state.currentStepNum))];
        state := state.(myselfMoved := true);
      }
    }

    /**
     * `handleClashedMoving`: the own move flag in the table is cleared and so is the
     * destination; `myselfMoved`, the board, the step and the other entries stay.
     * Without an account or an own entry the update throws and nothing changes.
     */
    method HandleClashedMoving()
      modifies this
      ensures old(state).account.Some? && old(state).account.value in old(state).playersStatusMap ==>
                state == old(state).(playersStatusMap := SetMove(old(state).playersStatusMap, old(state).account.value, false).value,
                                     myNextPos := None) &&
                MyGridPos(state) == old(state).myPos
      ensures !(old(state).account.Some? && old(state).account.value in old(state).playersStatusMap) ==>
                state == old(state)
      ensures Rest() == old(Rest())
    {
      if state.account.Some? {
        var m := SetMove(state.playersStatusMap, state.account.value, false);
        if m.Some? {
          state := state.(playersStatusMap := m.value, myNextPos := None);
        }
      }
    }

    // ----- the status table

    /** `handleOtherPlayerMove`: the player's move flag is set; an unknown id throws. */
    method HandleOtherPlayerMove(playerId: PlayerId)
      modifies this
      ensures playerId in old(state).playersStatusMap ==>
                state == old(state).(playersStatusMap := SetMove(old(state).playersStatusMap, playerId, true).value)
      ensures playerId !in old(state).playersStatusMap ==> state == old(state)
      ensures Rest() == old(Rest())
    {
      var m := SetMove(state.playersStatusMap, playerId, true);
      if m.Some? {
        state := state.(playersStatusMap := m.value);
      }
    }

    /** `handleOtherPlayerLeave`: the player goes offline; an unknown id throws. */
    method HandleOtherPlayerLeave(playerId: PlayerId)
      modifies this
      ensures playerId in old(state).playersStatusMap ==>
                state == old(state).(playersStatusMap := SetOnline(old(state).playersStatusMap, playerId, false).value)
      ensures playerId !in old(state).playersStatusMap ==> state == old(state)
      ensures Rest() == old(Rest())
    {
      var m := SetOnline(state.playersStatusMap, playerId, false);
      if m.Some? {
        state := state.(playersStatusMap := m.value);
      }
    }

    /** `handleOtherPlayerQuitGame`: the player goes offline; an unknown id throws. */
    method HandleOtherPlayerQuitGame(playerId: PlayerId)
      modifies this
      ensures playerId in old(state).playersStatusMap ==>
                state == old(state).(playersStatusMap := SetOnline(old(state).playersStatusMap, playerId, false).value)
      ensures playerId !in old(state).playersStatusMap ==> state == old(state)
      ensures Rest() == old(Rest())
    {
      var m := SetOnline(state.playersStatusMap, playerId, false);
      if m.Some? {
        state := state.(playersStatusMap := m.value);
      }
    }

    /** `handleOtherPlayerJoin`: the profile is stored, then the player is marked online (created if new). */
    method HandleOtherPlayerJoin(playerId: PlayerId, playerInfo: Profile)
      modifies this
      ensures state == old(state).(playersInfoMap := old(state).playersInfoMap[playerId := playerInfo],
                                   playersStatusMap := Joined(old(state).playersStatusMap, playerId))
      ensures Rest() == old(Rest())
    {
      state := state.(playersInfoMap := state.playersInfoMap[playerId := playerInfo]);
      state := state.(playersStatusMap := Joined(state.playersStatusMap, playerId));
    }

    /** `handleSyncPlayersStatus`: the whole table is replaced. */
    method HandleSyncPlayersStatus(playersStatusMap: StatusMap)
      modifies this
      ensures state == old(state).(playersStatusMap := playersStatusMap)
      ensures Rest() == old(Rest())
    {
      state := state.(playersStatusMap := playersStatusMap);
    }

    /** `handleSyncPlayersInfo`: the whole profile table is replaced. */
    method HandleSyncPlayersInfo(playersInfoMap: map<PlayerId, Profile>)
      modifies this
      ensures state == old(state).(playersInfoMap := playersInfoMap)
      ensures Rest() == old(Rest())
    {
      state := state.(playersInfoMap := playersInfoMap);
    }

    /** `handleCustomGameMaster`: the room owner of a custom game. */
    method HandleCustomGameMaster(customGameMaster: string)
      modifies this
      ensures state == old(state).(customGameMaster := customGameMaster)
      ensures Rest() == old(Rest())
    {
      state := state.(customGameMaster := customGameMaster);
    }

    // ----- votes

    /**
     * `handleVoteNextStepCall`: a new vote prompt goes on screen and its handle
     * replaces the stored one. A prompt still on screen under the old handle stays
     * there, no longer referenced.
     */
    method HandleVoteNextStepCall()
      requires Valid()
      modifies this
      ensures Valid()
      ensures vars == old(vars).(voteNextStepModal := Some(old(nextHandle)))
      ensures old(nextHandle) !in old(prompts) && prompts == old(prompts)[old(nextHandle) := VoteNextStepPrompt]
      ensures old(vars).voteNextStepModal.Some? ==> vars.voteNextStepModal != old(vars).voteNextStepModal
      ensures old(vars).voteNextStepModal.Some? && old(vars).voteNextStepModal.value in old(prompts) ==>
                old(vars).voteNextStepModal.value in prompts
      ensures state == old(state) && outbox == old(outbox)
    {
      var h := OpenPrompt(VoteNextStepPrompt);
      vars := vars.(voteNextStepModal := Some(h));
    }

    /** `handleVoteRestartCall`: as for the skip vote, with the restart prompt. */
    method HandleVoteRestartCall()
      requires Valid()
      modifies this
      ensures Valid()
      ensures vars == old(vars).(voteRestartModal := Some(old(nextHandle)))
      ensures old(nextHandle) !in old(prompts) && prompts == old(prompts)[old(nextHandle) := VoteRestartPrompt]
      ensures old(vars).voteRestartModal.Some? ==> vars.voteRestartModal != old(vars).voteRestartModal
      ensures old(vars).voteRestartModal.Some? && old(vars).voteRestartModal.value in old(prompts) ==>
                old(vars).voteRestartModal.value in prompts
      ensures state == old(state) && outbox == old(outbox)
    {
      var h := OpenPrompt(VoteRestartPrompt);
      vars := vars.(voteRestartModal := Some(h));
    }

    /** `handleVoteNextStepFailed`: the stored prompt is destroyed and the slot cleared. */
    method HandleVoteNextStepFailed()
      requires Valid()
      modifies this
      ensures Valid()
      ensures vars == old(vars).(voteNextStepModal := None)
      ensures old(vars).voteNextStepModal.Some? ==> prompts == old(prompts) - {old(vars).voteNextStepModal.value}
      ensures old(vars).voteNextStepModal.None? ==> prompts == old(prompts)
      ensures state == old(state) && nextHandle == old(nextHandle) && outbox == old(outbox)
    {
      if vars.voteNextStepModal.Some? {
        Destroy(vars.voteNextStepModal.value);
      }
      vars := vars.(voteNextStepModal := None);
    }

    /** `handleVoteNextStepSuccess` only shows a notice: the prompt, if still open, stays. */
    method HandleVoteNextStepSuccess()
      ensures state == old(state) && Rest() == old(Rest())
    {
    }

    /** `handleVoteRestartFailed`: the stored prompt is destroyed and the slot cleared. */
    method HandleVoteRestartFailed()
      requires Valid()
      modifies this
      ensures Valid()
      ensures vars == old(vars).(voteRestartModal := None)
      ensures old(vars).voteRestartModal.Some? ==> prompts == old(prompts) - {old(vars).voteRestartModal.value}
      ensures old(vars).voteRestartModal.None? ==> prompts == old(prompts)
      ensures state == old(state) && nextHandle == old(nextHandle) && outbox == old(outbox)
    {
      if vars.voteRestartModal.Some? {
        Destroy(vars.voteRestartModal.value);
      }
      vars := vars.(voteRestartModal := None);
    }

    /**
     * `handleVoteRestartSuccess`: the own position and destination are forgotten and
     * the game over prompt is destroyed; its slot keeps the old handle.
     */
    method HandleVoteRestartSuccess()
      requires Valid()
      modifies this
      ensures Valid()
      ensures state == old(state).(myPos := None, myNextPos := None) && MyGridPos(state) == None
      ensures old(vars).gameOverModal.Some? ==> prompts == old(prompts) - {old(vars).gameOverModal.value}
      ensures old(vars).gameOverModal.None? ==> prompts == old(prompts)
      ensures vars == old(vars) && nextHandle == old(nextHandle) && outbox == old(outbox)
    {
      state := state.(myPos := None, myNextPos := None);
      if vars.gameOverModal.Some? {
        Destroy(vars.gameOverModal.value);
      }
    }

    /** `voteNextStep`, the skip button: the player votes for skipping. */
    method VoteNextStepClick()
      modifies this
      ensures outbox == old(outbox) + [Emit(VoteNextStep(true))]
      ensures state == old(state) && vars == old(vars) && prompts == old(prompts) && nextHandle == old(nextHandle)
    {
      outbox := outbox + [Emit(VoteNextStep(true))];
    }

    /** `VoteRestart`, the restart button and the game over prompt's cancel: the player votes for a restart. */
    method VoteRestartClick()
      modifies this
      ensures outbox == old(outbox) + [Emit(VoteRestart(true))]
      ensures state == old(state) && vars == old(vars) && prompts == old(prompts) && nextHandle == old(nextHandle)
    {
      outbox := outbox + [Emit(VoteRestart(true))];
    }

    // ----- game over and the lobby

    /**
     * `handleGameOver`: the game is marked over, and a win, lose or draw prompt goes
     * on screen with its handle stored; any other result shows nothing.
     */
    method HandleGameOver(result: string, winner: Option<string>)
      requires Valid()
      modifies this
      ensures Valid()
      ensures state == old(state).(isGameOver := true)
      ensures GameOverVerdict(result, winner, old(state).account).None? ==>
                vars == old(vars) && prompts == old(prompts) && nextHandle == old(nextHandle)
      ensures GameOverVerdict(result, winner, old(state).account).Some? ==>
                vars == old(vars).(gameOverModal := Some(old(nextHandle))) &&
                prompts == old(prompts)[old(nextHandle) := GameOverPrompt(GameOverVerdict(result, winner, old(state).account).value)]
      ensures outbox == old(outbox)
    {
      state := state.(isGameOver := true);
      var verdict := GameOverVerdict(result, winner, state.account);
      if verdict.Some? {
        var h := OpenPrompt(GameOverPrompt(verdict.value));
        vars := vars.(gameOverModal := Some(h));
      }
    }

    /** `joinGameRoom`: with a room id in the cache the page asks to join; otherwise it goes home. */
    method JoinGameRoomIntent(now: int)
      modifies this, store
      ensures
        var read := Cache.Get(old(store.items), "gameRoomId", None, now);
        store.items == read.items &&
        outbox == old(outbox) + [if Truthy(read.value) then Emit(JoinRoomMsg(read.value.value)) else GoHome]
      ensures state == old(state) && vars == old(vars) && prompts == old(prompts) && nextHandle == old(nextHandle)
    {
      var gameRoomId := store.GetItem("gameRoomId", None, now);
      if Truthy(gameRoomId) {
        outbox := outbox + [Emit(JoinRoomMsg(gameRoomId.value))];
      } else {
        outbox := outbox + [GoHome];
      }
    }

    /** `startGame`: the room owner starts the custom game with the cached room id. */
    method StartGame(now: int)
      modifies this, store
      ensures
        var read := Cache.Get(old(store.items), "gameRoomId", None, now);
        store.items == read.items && outbox == old(outbox) + [Emit(CustomGameStart(read.value))]
      ensures state == old(state) && vars == old(vars) && prompts == old(prompts) && nextHandle == old(nextHandle)
    {
      var gameRoomId := store.GetItem("gameRoomId", None, now);
      outbox := outbox + [Emit(CustomGameStart(gameRoomId))];
    }

    /** `quitGame`, the quit button: a confirmation prompt goes on screen; its handle is not kept. */
    method QuitGameClick()
      requires Valid()
      modifies this
      ensures Valid()
      ensures old(nextHandle) !in old(prompts) && prompts == old(prompts)[old(nextHandle) := QuitPrompt]
      ensures state == old(state) && vars == old(vars) && outbox == old(outbox)
    {
      var _ := OpenPrompt(QuitPrompt);
    }

    /** `clearGameAndGoHome`: tell the server, forget the room, the game kind and the status, go home. */
    method ClearGameAndGoHome()
      modifies this, store
      ensures store.items == Cache.Delete(Cache.Delete(Cache.Delete(old(store.items), "gameRoomId"), "gameType"), "gameStatus")
      ensures outbox == old(outbox) + [Emit(QuitGame), GoHome]
      ensures state == old(state) && vars == old(vars) && prompts == old(prompts) && nextHandle == old(nextHandle)
    {
      outbox := outbox + [Emit(QuitGame)];
      store.RemoveItem("gameRoomId");
      store.RemoveItem("gameType");
      store.RemoveItem("gameStatus");
      outbox := outbox + [GoHome];
    }

    /**
     * The user answers a modal on screen (`ok` for the OK button): a vote prompt
     * sends that vote; the game over prompt goes home on OK and votes for a
     * restart on cancel; the quit prompt goes home on OK and does nothing more on
     * cancel. A handle not on screen cannot be clicked.
     */
    method AnswerPrompt(h: HandleId, ok: bool)
      requires Valid()
      modifies this, store
      ensures Valid()
      ensures h !in old(prompts) ==> prompts == old(prompts) && outbox == old(outbox) && store.items == old(store.items)
      ensures h in old(prompts) ==> prompts == old(prompts) - {h}
      ensures h in old(prompts) && old(prompts)[h] == VoteNextStepPrompt ==>
                outbox == old(outbox) + [Emit(VoteNextStep(ok))] && store.items == old(store.items)
      ensures h in old(prompts) && old(prompts)[h] == VoteRestartPrompt ==>
                outbox == old(outbox) + [Emit(VoteRestart(ok))] && store.items == old(store.items)
      ensures h in old(prompts) && (old(prompts)[h].GameOverPrompt? || old(prompts)[h] == QuitPrompt) && ok ==>
                outbox == old(outbox) + [Emit(QuitGame), GoHome] &&
                store.items == Cache.Delete(Cache.Delete(Cache.Delete(old(store.items), "gameRoomId"), "gameType"), "gameStatus")
      ensures h in old(prompts) && old(prompts)[h].GameOverPrompt? && !ok ==>
                outbox == old(outbox) + [Emit(VoteRestart(true))] && store.items == old(store.items)
      ensures h in old(prompts) && old(prompts)[h] == QuitPrompt && !ok ==>
                outbox == old(outbox) && store.items == old(store.items)
      ensures state == old(state) && vars == old(vars) && nextHandle == old(nextHandle)
    {
      if h !in prompts {
        return;
      }
      var p := prompts[h];
      Destroy(h);
      match p
      case VoteNextStepPrompt =>
        outbox := outbox + [Emit(VoteNextStep(ok))];
      case VoteRestartPrompt =>
        outbox := outbox + [Emit(VoteRestart(ok))];
      case GameOverPrompt(_) =>
        if ok {
          ClearGameAndGoHome();
        } else {
          VoteRestartClick();
        }
      case QuitPrompt =>
        if ok {
          ClearGameAndGoHome();
        }
    }
  }

  /** After leaving for the lobby the room id reads as undefined, on every clock. */
  lemma ClearedRoomReadsUndefined<V>(items: Cache.Storage<V>, now: int)
    ensures
      var cleared := Cache.Delete(Cache.Delete(Cache.Delete(items, "gameRoomId"), "gameType"), "gameStatus");
      Cache.Get(cleared, "gameRoomId", None, now) == Cache.Read(None, cleared)
  {
    var cleared := Cache.Delete(Cache.Delete(Cache.Delete(items, "gameRoomId"), "gameType"), "gameStatus");
    assert Cache.StorageKey("gameRoomId") !in cleared;
  }

  /** Leaving twice leaves the cache as leaving once does. */
  lemma ClearTwiceIsClearOnce<V>(items: Cache.Storage<V>)
    ensures
      var once := Cache.Delete(Cache.Delete(Cache.Delete(items, "gameRoomId"), "gameType"), "gameStatus");
      Cache.Delete(Cache.Delete(Cache.Delete(once, "gameRoomId"), "gameType"), "gameStatus") == once
  {
  }
}
