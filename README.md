# Game page, avatar descriptor and cache of the grid game client

This project models the client core of a multiplayer grid game played in the
browser. Players stand on cells of a square board, choose one neighbouring free
cell per step, and the server settles clashes, steps and the end of the game.
It has three parts.

* **The game page** (`src/pages/game_s4.tsx`) is a state record changed by
  handlers of socket events and user clicks, plus values derived from that
  record.
  * `GamePage.Page` holds the state record (`GameState`), the modal handle
    slots (`GameVars`) and the modals on screen.
  * It also holds an append-only log of what the page sends to the server or
    does to the route (`Effect`), and the browser cache (`Cache.Store`), whose
    values are strings or the logged-in user record (`Cached`).
  * Every handler is a method. Its `ensures` gives the whole new state in terms
    of the old state.
  * The derived values are pure functions of the record. They are: whether the
    player may move (`TurnOpen`), the legal cells (`LegalGrids`, built on
    `Board.NextStepGrids`), where the piece is drawn (`MyGridPos`), the two
    button predicates (`Players.CanStartGame`, `Players.CanVoteNextStep`) and
    the game-over classification (`GameOverVerdict`).
  * The own position starts as a field set by a loop (`UpdateMyPos`), which is
    proved equal to the pure `Board.ScannedPos`. It stays a field because it
    keeps its old value when the board has no cell for the player.
* **The avatar descriptor** (`src/components/MyAvatar/MyAvatar.tsx`) becomes a
  pure `Avatar.ParseAvatar`. Its input is the avatar `src`. Its output is either
  the image passed through or a badge with text, a text colour and a background.
* **The cache** (`src/utils/cache.ts`) is a map from prefixed keys to entries.
  An entry holds a value and an optional deadline, or is unreadable. The clock
  is an explicit `now` parameter.
  * The pure `Cache.Put`, `Cache.Delete` and `Cache.Get` specify it.
  * The class `Cache.Store` mutates the map and is proved against those
    functions.
  * The key prefix is the application sign `doladola`, defined in `.umirc.ts`.

Modules:

* `Wrappers` defines `Option`.
* `Cache`, `Avatar`, `Board` and `Players` are the pure parts.
* `GamePage` is the class.

JavaScript behaviour that matters to the contracts is written out:

* `update` on a missing player id throws. The handler then leaves the state
  as it was, and the merge function returns `None`.
* A legal-list lookup of a board row that does not exist throws, which gives
  `None`.
* A missing column reads as `undefined`, which is falsy, so the cell counts as
  free.
* `split(',')` of the empty string is `[""]`.
* `Object.assign` lets a key that is present but `undefined` override a
  default.
* `Number(undefined)` prints `NaN` and `Number('')` prints `0`.

Behaviour of the code a reader might not expect, kept as written:

* a clash does not reset `myselfMoved`, so a player who has submitted stays
  blocked until the next step (`ClashAfterSubmitKeepsTurnClosed`);
* a successful skip vote does not close the vote prompt;
* a status merge for an unknown player changes nothing (the handler throws);
* with no own position every cell is legal, occupied or not;
* a new step does not clear the other players' move flags;
* `canNextStep` does not read `isGameOver` (`GameOverLeavesTurn`).

## Model

| member | source | states |
|---|---|---|
| Cache.StorageKey | src/utils/cache.ts:3 | the storage key is the application sign, a colon, then the caller's key, exactly |
| Cache.StorageKeyInjective | src/utils/cache.ts:3 | distinct caller keys never share a storage key |
| Cache.IsExpired | src/utils/cache.ts:8 | an entry is expired when it has a non-zero deadline at or before now |
| Cache.Put | src/utils/cache.ts:19-21 | the key gains the entry with the given value and deadline; every other key keeps its entry |
| Cache.Delete | src/utils/cache.ts:23-25 | only the prefixed key is removed; every other entry stays |
| Cache.Get | src/utils/cache.ts:1-17 | a read either leaves the store or removes only that key; a value returned is the default or the stored one |
| Cache.GetMissing | src/utils/cache.ts:3-6 | a key never set reads undefined, whatever the default, and the store is untouched |
| Cache.GetExpired | src/utils/cache.ts:8-11 | an entry with a non-zero deadline at or before now is removed and the default returned |
| Cache.GetMalformed | src/utils/cache.ts:13-16 | an unreadable entry is removed and the default returned |
| Cache.PutThenGet | src/utils/cache.ts:7-12 | after storing with no deadline, deadline zero, or a deadline after now, the read returns the value and changes nothing |
| Cache.PutOtherKey | src/utils/cache.ts:19-21 | storing one key does not change what another key reads, and the read's removal commutes with the store |
| Cache.DeleteThenGet | src/utils/cache.ts:4-5 | after removal the key reads undefined |
| Cache.DeleteIdempotent | src/utils/cache.ts:23-25 | removing twice is removing once |
| Cache.Store.constructor | src/utils/cache.ts:27-31 | the store starts with the given contents |
| Cache.Store.RemoveItem | src/utils/cache.ts:23-25 | the new contents are the deletion of the key from the old |
| Cache.Store.SetItem | src/utils/cache.ts:19-21 | the new contents are the old with the key stored |
| Cache.Store.GetItem | src/utils/cache.ts:1-17 | value returned and new contents agree with the pure read, including the removals on expiry and on a parse error |
| Avatar.IsRandom | src/components/MyAvatar/MyAvatar.tsx:13 | a source is a descriptor when it is a string starting with /random/ |
| Avatar.Split | src/components/MyAvatar/MyAvatar.tsx:14 | at least one item, no item holds a comma, and joining the items with commas gives back the text |
| Avatar.SplitCons | src/components/MyAvatar/MyAvatar.tsx:14 | a character other than a comma in front of the text joins the first item |
| Avatar.SplitGlue | src/components/MyAvatar/MyAvatar.tsx:14 | a comma-free prefix joins the first item of the split |
| Avatar.SplitJoin | src/components/MyAvatar/MyAvatar.tsx:14 | splitting the comma join of comma-free items gives back those items |
| Avatar.DescriptorOfItems | src/components/MyAvatar/MyAvatar.tsx:13-14 | a source built from the prefix and comma-free items counts as random and folds exactly those items |
| Avatar.ValueAt | src/components/MyAvatar/MyAvatar.tsx:15-22 | a `w`/`h` key gets its raw number even when it is 'undefined' or empty; other keys get undefined for 'undefined', for '' and for a missing partner, else the string |
| Avatar.PairsLastWins | src/components/MyAvatar/MyAvatar.tsx:14-26 | a key is bound iff it stands at an even index, and the last such index decides its value |
| Avatar.Pairs | src/components/MyAvatar/MyAvatar.tsx:14-26 | the fold over the first n items: each even-index item is bound to its value, later bindings replacing earlier ones |
| Avatar.Descriptor | src/components/MyAvatar/MyAvatar.tsx:14-26 | the fold of the items after the 8-character prefix |
| Avatar.WithDefaults | src/components/MyAvatar/MyAvatar.tsx:27-30 | every parsed key keeps its value, undefined included; `b` and `f` get ff0000 and 000000 only when absent |
| Avatar.NumberText | src/components/MyAvatar/MyAvatar.tsx:18 | Number of a missing value prints NaN and of '' prints 0; a digit string of at most 15 digits prints without its leading zeros (0 when all are zeros), so one without a leading zero prints as itself |
| Avatar.StripZeros | src/components/MyAvatar/MyAvatar.tsx:18 | the result is a non-empty suffix of the digits, only zeros are dropped, and it starts with 0 only when it is 0 |
| Avatar.NumberTextLeadingZeros | src/components/MyAvatar/MyAvatar.tsx:18 | worked example: 007 prints as 7 and 000 as 0 |
| Avatar.Show | src/components/MyAvatar/MyAvatar.tsx:31-35 | how a value prints in a template string: undefined for a missing or undefined value, Number for sizes |
| Avatar.BadgeText | src/components/MyAvatar/MyAvatar.tsx:31 | the text is `t` when `t` is a non-empty string, otherwise the size text built from `w` and `h` |
| Avatar.ParseAvatar | src/components/MyAvatar/MyAvatar.tsx:12-42 | a source that is not a string starting with /random/ is the image unchanged; otherwise a badge with non-empty text, colour '#'+f and background '#'+b from the defaulted pairs |
| Avatar.RenderOfDescriptor | src/components/MyAvatar/MyAvatar.tsx:27-39 | a random source renders its text, colour and background from its defaulted descriptor |
| Avatar.TextFromLastT | src/components/MyAvatar/MyAvatar.tsx:14-31 | the text is the item after the last even-index `t` when that item is a non-empty string other than 'undefined' |
| Avatar.TextWithoutT | src/components/MyAvatar/MyAvatar.tsx:14-31 | with no `t` key the text is `w`, an x, and `h` |
| Avatar.BackgroundDefault | src/components/MyAvatar/MyAvatar.tsx:27-35 | with no `b` key the background is #ff0000 |
| Avatar.ColorDefault | src/components/MyAvatar/MyAvatar.tsx:27-34 | with no `f` key the text colour is #000000 |
| Avatar.BackgroundFromLastB | src/components/MyAvatar/MyAvatar.tsx:14-35 | with a `b` key the background comes from its last binding, even when that is undefined |
| Avatar.ExampleTextDescriptor | src/components/MyAvatar/MyAvatar.tsx:14-26 | worked example: the pairs of t,Hi,b,00ff00 |
| Avatar.ExampleText | src/components/MyAvatar/MyAvatar.tsx:12-39 | worked example: a badge Hi on #00ff00 in #000000 |
| Avatar.ExampleEmptyBackgroundDescriptor | src/components/MyAvatar/MyAvatar.tsx:14-26 | worked example: an empty `b` is bound to undefined |
| Avatar.ExampleEmptyBackground | src/components/MyAvatar/MyAvatar.tsx:14-39 | worked example: the background #undefined, because undefined overrides the default |
| Avatar.ExampleTrailingKey | src/components/MyAvatar/MyAvatar.tsx:14-39 | worked example: a trailing `w` without a partner prints NaN and the missing `h` prints undefined |
| Avatar.ExampleImage | src/components/MyAvatar/MyAvatar.tsx:40-42 | worked example: an ordinary URL is passed through |
| Board.GameCols | src/pages/game_s4.tsx:104-113 | the two-player, four-player and eight-player kinds (regular and custom) have 9, 15 and 21 columns; any other kind, and a missing one, has none |
| Board.FindIndex | src/pages/game_s4.tsx:95 | -1 exactly when the item is absent, otherwise the index of its first occurrence |
| Board.IsPosInList | src/pages/game_s4.tsx:94-96 | true exactly when the position is in the list |
| Board.Neighbours | src/pages/game_s4.tsx:213-218 | the four cells one step right, left, down and up, in that order, never the cell itself |
| Board.InBounds | src/pages/game_s4.tsx:221-224 | inside the board size; an unknown size makes every comparison fail |
| Board.RowMissing | src/pages/game_s4.tsx:225 | in bounds but the board has no such row, so the cell lookup throws |
| Board.Vacant | src/pages/game_s4.tsx:220-226 | the filter keeps a cell in bounds whose value is falsy, a missing column included |
| Board.FilterVacant | src/pages/game_s4.tsx:218-226 | keeps exactly the in-bounds free cells, in order |
| Board.RowCells | src/pages/game_s4.tsx:228-231 | the cells of one row, left to right |
| Board.CellsFromSpec | src/pages/game_s4.tsx:228-234 | the listed cells are exactly those of the rows from the given one on, in strict row-major order |
| Board.AllCells | src/pages/game_s4.tsx:228-231 | the reduce over the rows: every cell of the board |
| Board.AllCellsSpec | src/pages/game_s4.tsx:228-234 | every cell of the board, each once, in row-major order |
| Board.NextStepGrids | src/pages/game_s4.tsx:208-243 | closed turn: empty; no position: every cell; with a position: the in-bounds free neighbours in order, never the position itself, or a throw when a neighbour's row is missing |
| Board.Locate | src/pages/game_s4.tsx:250-256 | the first cell in row-major order from a given row that holds the id, or none |
| Board.LocateSpec | src/pages/game_s4.tsx:250-256 | the lookup from row 0 finds the first holder of the id on the board |
| Board.ScannedPos | src/pages/game_s4.tsx:247-259 | the first cell holding the account id when there is one; otherwise the previous position, also with no rows or no account |
| Players.SetOnline | src/pages/game_s4.tsx:350-357 | an unknown player throws; otherwise only that player's online flag changes |
| Players.SetMove | src/pages/game_s4.tsx:480-488 | an unknown player throws; otherwise only that player's move flag changes |
| Players.Joined | src/pages/game_s4.tsx:490-518 | a new player is created online and unmoved; a known one only comes online; others are unchanged |
| Players.CanStartGame | src/pages/game_s4.tsx:650-652 | the start button is enabled when more than one player is online |
| Players.CanVoteNextStep | src/pages/game_s4.tsx:654-663 | the skip vote is available when some player is offline and has not moved |
| Players.CanStartGameIff | src/pages/game_s4.tsx:650-652 | the start button is enabled iff two distinct players are online |
| Players.LeaveEnablesVote | src/pages/game_s4.tsx:520-528 | a player who leaves before moving makes the skip vote available |
| Players.MoveOfOnlyStalledDisablesVote | src/pages/game_s4.tsx:654-663 | when the only stalled player moves, the skip vote is no longer available |
| Players.JoinKeepsOnline | src/pages/game_s4.tsx:490-518 | joining adds exactly the joining player to the online players |
| GamePage.TurnOpen | src/pages/game_s4.tsx:264-273 | closed on step 0, closed for a known account that has moved locally or in the table, open otherwise |
| GamePage.LegalGrids | src/pages/game_s4.tsx:208-243 | on the page state: empty when the turn is closed, every cell when there is no own position, otherwise exactly the free in-bounds neighbours, or a throw when a neighbour row is missing |
| GamePage.CanSubmit | src/pages/game_s4.tsx:784 | the confirm button is enabled when the turn is open and a destination is chosen |
| GamePage.MyGridPos | src/pages/game_s4.tsx:648 | the piece is drawn on the chosen destination if any, else on the own position; the handlers' contracts and the lemmas below say where that is after each event |
| GamePage.GameOverVerdict | src/pages/game_s4.tsx:377-409 | win iff a truthy winner equals the account, draw iff the result is draw, lose for any other normal end; no modal for other results or when the comparison throws |
| GamePage.SubmitClosesTurn | src/pages/game_s4.tsx:264-273 | once the player has submitted, the turn is closed, no cell is legal and the confirm button is disabled |
| GamePage.SelectionEnablesSubmit | src/pages/game_s4.tsx:564-568 | a cell accepted by a click is where the piece is drawn, and the confirm button becomes enabled |
| GamePage.ClashRedrawsOwnPosition | src/pages/game_s4.tsx:278-286 | after the clash rollback the piece is drawn on the own position and the confirm button is disabled |
| GamePage.ClashAfterSubmitKeepsTurnClosed | src/pages/game_s4.tsx:278-286 | a clash after submitting leaves the turn closed, because `myselfMoved` stays set |
| GamePage.ClashWithoutSubmitReopensTurn | src/pages/game_s4.tsx:278-286 | a clash without a local submission reopens the turn of a started round |
| GamePage.NewStepReopensTurn | src/pages/game_s4.tsx:453-464 | a board for a new non-zero step opens the turn iff the table does not still mark the player as moved |
| GamePage.GameOverLeavesTurn | src/pages/game_s4.tsx:264-273 | the end of the game changes neither the turn nor the legal cells |
| GamePage.SelectionIsFreeNeighbour | src/pages/game_s4.tsx:564-568 | a cell the page accepts next to a known position is a free in-bounds neighbour, never the position |
| GamePage.ClearedRoomReadsUndefined | src/pages/game_s4.tsx:365-371 | after leaving for the lobby the room id reads undefined on every clock |
| GamePage.ClearTwiceIsClearOnce | src/pages/game_s4.tsx:365-371 | leaving twice leaves the cache as leaving once |
| GamePage.Truthy | src/pages/game_s4.tsx:550 | a cache read is truthy unless it is undefined or the empty string |
| GamePage.AccountId | src/pages/game_s4.tsx:120 | the account id is that of the cached user record, and there is none otherwise |
| GamePage.GameKind | src/pages/game_s4.tsx:121 | the game kind is the cached string, and there is none otherwise |
| GamePage.Page.constructor | src/pages/game_s4.tsx:119-158 | the mounted page: the account and the game kind read from the cache in that order, the board size from a second read of the game kind, the cache after those reads' removals, step 1, empty board and tables, no modals |
| GamePage.Page.OpenPrompt | src/pages/game_s4.tsx:298-330 | a modal goes on screen under a fresh handle |
| GamePage.Page.Destroy | src/pages/game_s4.tsx:414-446 | the modal leaves the screen; nothing else changes |
| GamePage.Page.UpdateMyPos | src/pages/game_s4.tsx:247-259 | the scan loop sets the own position to the row-major first holder, or leaves it |
| GamePage.Page.HandleSyncBoard | src/pages/game_s4.tsx:453-464 | board and step are always replaced; destination and `myselfMoved` are cleared only on a different step; then the own position is scanned |
| GamePage.Page.OnClickGrid | src/pages/game_s4.tsx:564-568 | a legal cell becomes the destination; any other click changes nothing |
| GamePage.Page.SubmitMove | src/pages/game_s4.tsx:573-578 | without a destination nothing happens; otherwise exactly one move message with the old position, the destination and the step, and `myselfMoved` set |
| GamePage.Page.HandleClashedMoving | src/pages/game_s4.tsx:278-286 | the own move flag and the destination are cleared, all else kept; without an account or entry nothing changes |
| GamePage.Page.HandleOtherPlayerMove | src/pages/game_s4.tsx:480-488 | only the player's move flag is set |
| GamePage.Page.HandleOtherPlayerLeave | src/pages/game_s4.tsx:520-528 | only the player's online flag is cleared |
| GamePage.Page.HandleOtherPlayerQuitGame | src/pages/game_s4.tsx:350-357 | only the player's online flag is cleared |
| GamePage.Page.HandleOtherPlayerJoin | src/pages/game_s4.tsx:490-518 | the profile is stored and the player is online, created if new |
| GamePage.Page.HandleSyncPlayersStatus | src/pages/game_s4.tsx:534-536 | the status table is replaced wholesale |
| GamePage.Page.HandleSyncPlayersInfo | src/pages/game_s4.tsx:541-543 | the profile table is replaced wholesale |
| GamePage.Page.HandleCustomGameMaster | src/pages/game_s4.tsx:470-474 | the room owner is recorded |
| GamePage.Page.HandleVoteNextStepCall | src/pages/game_s4.tsx:298-312 | a new skip vote prompt gets a fresh handle in its slot; an earlier one stays on screen, unreferenced |
| GamePage.Page.HandleVoteRestartCall | src/pages/game_s4.tsx:317-330 | a new restart prompt gets a fresh handle in its slot; an earlier one stays on screen, unreferenced |
| GamePage.Page.HandleVoteNextStepFailed | src/pages/game_s4.tsx:414-418 | the stored skip prompt is destroyed and its slot cleared |
| GamePage.Page.HandleVoteNextStepSuccess | src/pages/game_s4.tsx:423-425 | nothing changes; the prompt is not closed |
| GamePage.Page.HandleVoteRestartFailed | src/pages/game_s4.tsx:430-434 | the stored restart prompt is destroyed and its slot cleared |
| GamePage.Page.HandleVoteRestartSuccess | src/pages/game_s4.tsx:439-446 | own position and destination forgotten, game over prompt destroyed, its slot kept |
| GamePage.Page.VoteNextStepClick | src/pages/game_s4.tsx:595-598 | one skip vote in favour is sent |
| GamePage.Page.VoteRestartClick | src/pages/game_s4.tsx:602-606 | one restart vote in favour is sent |
| GamePage.Page.HandleGameOver | src/pages/game_s4.tsx:377-409 | the game is over; a win, lose or draw prompt is stored under a fresh handle, or nothing shows |
| GamePage.Page.JoinGameRoomIntent | src/pages/game_s4.tsx:548-558 | a truthy cached room id is sent with a join request; otherwise the page goes home; the cache read's removals apply |
| GamePage.Page.StartGame | src/pages/game_s4.tsx:611-614 | the start request carries the cached room id |
| GamePage.Page.QuitGameClick | src/pages/game_s4.tsx:619-627 | a quit confirmation goes on screen |
| GamePage.Page.ClearGameAndGoHome | src/pages/game_s4.tsx:365-371 | quit is sent, the room, kind and status keys are removed, then the page goes home |
| GamePage.Page.AnswerPrompt | src/pages/game_s4.tsx:298-409 | the answered modal closes; vote prompts send the answer; game over OK and quit OK leave for the lobby; game over cancel votes restart |

## Left out

- Rendering, CSS, toasts (`message.*`) and the rules text: they do not change state.
- The socket transport and the subscription of handlers: inbound events are method calls and outbound emits are the `outbox` log.
- The per-message stale-page effect (`handleGameOverCauseMissStep`) opens a modal with no stored handle whose OK is the quit flow; it is not a separate member because `QuitGameClick` and `AnswerPrompt` cover the same path.
- The board scale and window size arithmetic and `isTopSide`: floating point and layout only.
- The clipboard invite link: browser I/O.
- The timing of React effects: derived values are read once the effects have run, so the brief window where `nextStepCanMovedGrids` is stale is not modelled.
- The initial board size 9 before the mount effect runs: the constructor applies the mount effect directly.
- `Avatar.NumberText`: decimals, signs, exponents, whitespace and other non-digit text are not converted like `Number`; the model promises only the digit-string, empty and missing cases.
- `Avatar.NumberText`: digit strings longer than 15 digits, which `Number` rounds to the nearest double (and prints in exponent form from 22 digits), print in the model as their digits without leading zeros; the contract promises nothing for them.
- `GamePage.Page.constructor`: a cached account that is a string rather than a user record is treated as no account (in the source it is truthy with an undefined id); the account and game kind reads that the initial state repeats on every render are not modelled, and as a cache read after a removal changes nothing they would not change the store.
- The avatar effect keeps the previous badge text when `src` changes from a random source to an image; the model is of one parse, not of the component state.
- `JSON.parse`/`JSON.stringify` in the cache: entries are stored typed, and an unparsable entry is the `Malformed` variant.
- The real clock: `now` is a parameter.
- Keys such as `__proto__` that behave specially on JavaScript objects are treated as ordinary keys.
